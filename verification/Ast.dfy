/** The source language, and a direct evaluator for it: names instead of slots, nested scopes
    instead of jumps, and no gas. */
module Ast {
  import opened MeowTypes
  import opened Vm

  /** A name in source: plain, or in a module known by an alias. */
  datatype SourceName = Plain(name: string) | Dep(alias: string, name: string)

  datatype BinOp =
    | OpAdd | OpSub | OpMul | OpDiv | OpMod
    | OpEq | OpNe | OpLt | OpLe | OpGt | OpGe
    | OpAnd | OpOr

  datatype Init = Init(field: string, expr: Expr)

  datatype Expr =
    | EBool(b: bool)
    | EInt(n: u64)
    | EAddress(a: Address)
    | EStr(s: string)
    | EIdent(x: string)
    | EBin(left: Expr, op: BinOp, right: Expr)
    | ENot(arg: Expr)
    | EField(base: Expr, field: string)
    | EStruct(name: string, inits: seq<Init>)
    | ETuple(items: seq<Expr>)
    | ECall(callee: SourceName, args: seq<Expr>)

  /** One name bound by a destructuring `let`. */
  datatype Binding = Binding(field: string, name: string)

  datatype Stmt =
    | SLet(x: string, expr: Expr)
    | SReassign(x: string, expr: Expr)
    | SReturn(result: Option<Expr>)
    | SExpr(expr: Expr)
    | SIf(cond: Expr, body: seq<Stmt>, other: Otherwise)
    | SFieldAssign(x: string, path: seq<string>, expr: Expr)
    | SLetTuple(names: seq<string>, expr: Expr)
    | SLetStruct(tn: string, bindings: seq<Binding>, expr: Expr, rest: bool)

  datatype Otherwise = NoElse | Else(stmts: seq<Stmt>)

  datatype AstFunction = AstFunction(
    name: string, isPublic: bool, params: seq<Param>, ret: Option<Type>, body: seq<Stmt>)

  /** A source module: its aliases, its structs and its functions. */
  datatype SourceModule = SourceModule(
    alias: map<string, Address>, structs: seq<StructDef>, functions: seq<AstFunction>)

  function FindAst(fns: seq<AstFunction>, name: string): (r: Option<AstFunction>)
    ensures r.Some? ==> r.value in fns && r.value.name == name
    ensures r.None? <==> forall fn | fn in fns :: fn.name != name
  {
    if fns == [] then None
    else if fns[0].name == name then Some(fns[0])
    else FindAst(fns[1..], name)
  }

  /** The modules and natives a program runs with. */
  datatype World = World(
    addr: Address,
    main: SourceModule,
    deps: map<Address, SourceModule>,
    natives: map<string, NativeEntry>,
    maxDepth: nat)

  // -------------------------------------------------------------------- scopes

  /** Variables by scope, innermost last; a moved variable holds nothing. */
  type Env = seq<map<string, Option<Value>>>

  /** The innermost scope that binds the name. */
  function Scope<T>(env: seq<map<string, T>>, x: string): (i: Option<nat>)
    ensures i.Some? ==> i.value < |env| && x in env[i.value]
    ensures i.Some? ==> forall j :: i.value < j < |env| ==> x !in env[j]
    ensures i.None? ==> forall j :: 0 <= j < |env| ==> x !in env[j]
  {
    if env == [] then None
    else if x in env[|env| - 1] then Some(|env| - 1)
    else Scope(env[..|env| - 1], x)
  }

  function Assign(env: Env, i: nat, x: string, v: Option<Value>): (r: Env)
    requires i < |env|
    ensures |r| == |env|
  {
    env[i := env[i][x := v]]
  }

  /** Binding over a live struct would lose it. */
  predicate Blocked(env: Env, i: nat, x: string)
    requires i < |env|
  {
    x in env[i] && env[i][x].Some? && IsLinearValue(env[i][x].value)
  }

  // ------------------------------------------------------------------- results

  datatype Done<T> =
    | Val(value: T, env: Env, log: seq<NativeEvent>)
    | Bad(error: VmError, log: seq<NativeEvent>)
    | Stuck

  datatype Flow =
    | Next(env: Env, log: seq<NativeEvent>)
    | Ret(result: Option<Value>, log: seq<NativeEvent>)
    | Halt(error: VmError, log: seq<NativeEvent>)
    | Lost

  function BinValue(op: BinOp, l: Value, r: Value): (v: Res<Value>) {
    match op
    case OpAdd => if !l.VU64? || !r.VU64? then Err(TypeError)
      else if l.n + r.n > U64_MAX then Err(ArithmeticOverflow) else Ok(VU64(l.n + r.n))
    case OpSub => if !l.VU64? || !r.VU64? then Err(TypeError)
      else if l.n < r.n then Err(ArithmeticOverflow) else Ok(VU64(l.n - r.n))
    case OpMul => if !l.VU64? || !r.VU64? then Err(TypeError)
      else if l.n * r.n > U64_MAX then Err(ArithmeticOverflow) else Ok(VU64(Product(l.n, r.n)))
    case OpDiv => if r == VU64(0) then Err(DivisionByZero)
      else if !l.VU64? || !r.VU64? then Err(TypeError) else Ok(VU64(Quotient(l.n, r.n)))
    case OpMod => if r == VU64(0) then Err(DivisionByZero)
      else if !l.VU64? || !r.VU64? then Err(TypeError) else Ok(VU64(Remainder(l.n, r.n)))
    case OpEq => if IsLinearValue(l) || IsLinearValue(r) then Err(EqOnLinearType) else Ok(VBool(l == r))
    case OpNe => if IsLinearValue(l) || IsLinearValue(r) then Err(EqOnLinearType) else Ok(VBool(l != r))
    case OpLt => if l.VU64? && r.VU64? then Ok(VBool(l.n < r.n)) else Err(TypeError)
    case OpLe => if l.VU64? && r.VU64? then Ok(VBool(l.n <= r.n)) else Err(TypeError)
    case OpGt => if l.VU64? && r.VU64? then Ok(VBool(l.n > r.n)) else Err(TypeError)
    case OpGe => if l.VU64? && r.VU64? then Ok(VBool(l.n >= r.n)) else Err(TypeError)
    case OpAnd => if l.VBool? && r.VBool? then Ok(VBool(l.b && r.b)) else Err(TypeError)
    case OpOr => if l.VBool? && r.VBool? then Ok(VBool(l.b || r.b)) else Err(TypeError)
  }

  function Product(a: u64, b: u64): (r: u64)
    requires a * b <= U64_MAX
    ensures r == a * b
  {
    a * b
  }

  function Quotient(a: u64, b: u64): (r: u64)
    requires b != 0
    ensures r == a / b
  {
    a / b
  }

  function Remainder(a: u64, b: u64): (r: u64)
    requires b != 0
    ensures r == a % b
  {
    a % b
  }

  /** Reading a variable: a struct moves out of it, anything else is copied. */
  function ReadVar(env: Env, x: string, log: seq<NativeEvent>): (r: Done<Value>)
    ensures r.Val? ==> |r.env| == |env|
  {
    var i := Scope(env, x);
    if i.None? then Stuck
    else
      var held := env[i.value][x];
      if held.None? then Bad(UseAfterMove, log)
      else if IsLinearValue(held.value) then Val(held.value, Assign(env, i.value, x, None), log)
      else Val(held.value, env, log)
  }

  /** The definition's field names, if a literal gives each of them once. */
  function LastInit(inits: seq<Init>, name: string): (r: Option<Expr>)
    ensures r.Some? ==> exists i :: 0 <= i < |inits| && inits[i].expr == r.value
  {
    if inits == [] then None
    else if inits[|inits| - 1].field == name then Some(inits[|inits| - 1].expr)
    else LastInit(inits[..|inits| - 1], name)
  }

  function FieldNames(def: StructDef): (r: seq<string>)
    ensures |r| == |def.fields|
    ensures forall i :: 0 <= i < |r| ==> r[i] == def.fields[i].name
  {
    seq(|def.fields|, i requires 0 <= i < |def.fields| => def.fields[i].name)
  }

  function Translate(sm: SourceModule, n: SourceName): (r: Option<Name>) {
    match n
    case Plain(name) => Some(Local(name))
    case Dep(alias, name) => if alias in sm.alias then Some(Qualified(sm.alias[alias], name)) else None
  }

  // ----------------------------------------------------------------- evaluation

  /** What a call goes to, by source name. */
  datatype Callee =
    | Source(addr: Address, sm: SourceModule, fn: AstFunction)
    | Native(entry: NativeEntry)
    | Missing(error: VmError)

  function Resolve(w: World, addr: Address, sm: SourceModule, callee: Name): (r: Callee) {
    match callee
    case Qualified(a, n) =>
      if a !in w.deps then Missing(UndefinedFunction)
      else
        var fn := FindAst(w.deps[a].functions, n);
        if fn.None? then Missing(UndefinedFunction)
        else if !fn.value.isPublic then Missing(PrivateFunction)
        else Source(a, w.deps[a], fn.value)
    case Local(n) =>
      var fn := FindAst(sm.functions, n);
      if fn.Some? then Source(addr, sm, fn.value)
      else if n in w.natives then Native(w.natives[n])
      else Missing(UndefinedFunction)
  }

  function EvalExpr(w: World, addr: Address, sm: SourceModule, env: Env, log: seq<NativeEvent>, depth: nat, e: Expr)
    : (r: Done<Value>)
    requires depth < w.maxDepth
    ensures r.Val? ==> |r.env| == |env|
    decreases w.maxDepth - depth, 1, e, 0
  {
    match e
    case EBool(b) => Val(VBool(b), env, log)
    case EInt(n) => Val(VU64(n), env, log)
    case EAddress(a) => Val(VAddr(a), env, log)
    case EStr(s) => Val(VStr(s), env, log)
    case EIdent(x) => ReadVar(env, x, log)
    case EBin(left, op, right) =>
      (match EvalExpr(w, addr, sm, env, log, depth, left)
       case Bad(err, l) => Bad(err, l)
       case Stuck => Stuck
       case Val(a, env1, log1) =>
         match EvalExpr(w, addr, sm, env1, log1, depth, right)
         case Bad(err, l) => Bad(err, l)
         case Stuck => Stuck
         case Val(b, env2, log2) =>
           match BinValue(op, a, b)
           case Err(err) => Bad(err, log2)
           case Ok(v) => Val(v, env2, log2))
    case ENot(arg) =>
      (match EvalExpr(w, addr, sm, env, log, depth, arg)
       case Bad(err, l) => Bad(err, l)
       case Stuck => Stuck
       case Val(v, env1, log1) => if v.VBool? then Val(VBool(!v.b), env1, log1) else Bad(TypeError, log1))
    case EField(base, field) => EvalField(w, addr, sm, env, log, depth, base, [field])
    case EStruct(name, inits) =>
      var def := FindStruct(sm.structs, name);
      if def.None? then Stuck
      else
        (match EvalInits(w, addr, sm, env, log, depth, inits, FieldNames(def.value))
         case Bad(err, l) => Bad(err, l)
         case Stuck => Stuck
         case Val(vs, env1, log1) =>
           Val(VStruct(Qualified(addr, name), MakeFields(FieldNames(def.value), vs)), env1, log1))
    case ETuple(items) =>
      (match EvalExprs(w, addr, sm, env, log, depth, items)
       case Bad(err, l) => Bad(err, l)
       case Stuck => Stuck
       case Val(vs, env1, log1) => Val(VTuple(vs), env1, log1))
    case ECall(callee, args) =>
      (match EvalExprs(w, addr, sm, env, log, depth, args)
       case Bad(err, l) => Bad(err, l)
       case Stuck => Stuck
       case Val(vs, env1, log1) =>
         var n := Translate(sm, callee);
         if n.None? then Stuck else EvalCall(w, addr, sm, env1, log1, depth, n.value, vs))
  }

  /** A field path on a variable reads it in place; on anything else it takes the value apart. */
  function EvalField(w: World, addr: Address, sm: SourceModule, env: Env, log: seq<NativeEvent>, depth: nat,
                     base: Expr, path: seq<string>): (r: Done<Value>)
    requires depth < w.maxDepth
    ensures r.Val? ==> |r.env| == |env|
    decreases w.maxDepth - depth, 1, base, 1
  {
    if base.EField? then EvalField(w, addr, sm, env, log, depth, base.base, [base.field] + path)
    else if base.EIdent? && Scope(env, base.x).Some? then
      var held := env[Scope(env, base.x).value][base.x];
      if held.None? then Bad(UseAfterMove, log)
      else
        match ReadFieldPath(held.value, path)
        case Err(err) => Bad(err, log)
        case Ok(v) => Val(v, env, log)
    else
      match EvalExpr(w, addr, sm, env, log, depth, base)
      case Bad(err, l) => Bad(err, l)
      case Stuck => Stuck
      case Val(v, env1, log1) =>
        match ReadFieldPath(v, path)
        case Err(err) => Bad(err, log1)
        case Ok(u) => Val(u, env1, log1)
  }

  /** Left to right. */
  function EvalExprs(w: World, addr: Address, sm: SourceModule, env: Env, log: seq<NativeEvent>, depth: nat,
                     es: seq<Expr>): (r: Done<seq<Value>>)
    requires depth < w.maxDepth
    ensures r.Val? ==> |r.value| == |es| && |r.env| == |env|
    decreases w.maxDepth - depth, 1, es, 0
  {
    if es == [] then Val([], env, log)
    else
      match EvalExprs(w, addr, sm, env, log, depth, es[..|es| - 1])
      case Bad(err, l) => Bad(err, l)
      case Stuck => Stuck
      case Val(vs, env1, log1) =>
        match EvalExpr(w, addr, sm, env1, log1, depth, es[|es| - 1])
        case Bad(err, l) => Bad(err, l)
        case Stuck => Stuck
        case Val(v, env2, log2) => Val(vs + [v], env2, log2)
  }

  /** The fields of a literal, in the order of the definition. */
  function EvalInits(w: World, addr: Address, sm: SourceModule, env: Env, log: seq<NativeEvent>, depth: nat,
                     inits: seq<Init>, names: seq<string>): (r: Done<seq<Value>>)
    requires depth < w.maxDepth
    ensures r.Val? ==> |r.value| == |names| && |r.env| == |env|
    decreases w.maxDepth - depth, 1, inits, |names|
  {
    if names == [] then Val([], env, log)
    else
      match EvalInits(w, addr, sm, env, log, depth, inits, names[..|names| - 1])
      case Bad(err, l) => Bad(err, l)
      case Stuck => Stuck
      case Val(vs, env1, log1) =>
        var e := LastInit(inits, names[|names| - 1]);
        if e.None? then Stuck
        else
          match EvalExpr(w, addr, sm, env1, log1, depth, e.value)
          case Bad(err, l) => Bad(err, l)
          case Stuck => Stuck
          case Val(v, env2, log2) => Val(vs + [v], env2, log2)
  }

  function EvalCall(w: World, addr: Address, sm: SourceModule, env: Env, log: seq<NativeEvent>, depth: nat,
                    callee: Name, vs: seq<Value>): (r: Done<Value>)
    requires depth < w.maxDepth
    ensures r.Val? ==> r.env == env
    decreases w.maxDepth - depth, 0
  {
    match Resolve(w, addr, sm, callee)
    case Missing(err) => Bad(err, log)
    case Native(entry) =>
      if |vs| != |entry.sig.params| then Stuck
      else
        (match entry.func(log, vs)
         case NAbort(code, msg) => Bad(Aborted(code, msg), log)
         case NError(msg) => Bad(NativeError(msg), log)
         case NReturn(v) => Val(Landed(v), env, log + [NativeEvent(entry.sig.name, vs, v)]))
    case Source(a, sm', fn) =>
      if |vs| != |fn.params| then Stuck
      else
        match EvalFunction(w, a, sm', fn, vs, log, depth + 1)
        case Next(_, l) => Val(VVoid, env, l)
        case Ret(v, l) => Val(Landed(v), env, l)
        case Halt(err, l) => Bad(err, l)
        case Lost => Stuck
  }

  function ParamScope(params: seq<Param>, vs: seq<Value>): (r: map<string, Option<Value>>)
    requires |params| == |vs|
  {
    if params == [] then map[]
    else ParamScope(params[..|params| - 1], vs[..|vs| - 1])[params[|params| - 1].name := Some(vs[|vs| - 1])]
  }

  /** A function body in a fresh scope of parameters; running off its end returns nothing. */
  function EvalFunction(w: World, addr: Address, sm: SourceModule, fn: AstFunction, vs: seq<Value>,
                        log: seq<NativeEvent>, depth: nat): (r: Flow)
    requires |vs| == |fn.params|
    decreases if depth < w.maxDepth then w.maxDepth - depth else 0, 2
  {
    if depth >= w.maxDepth then Halt(CallStackOverflow, log)
    else
      match EvalStmts(w, addr, sm, [ParamScope(fn.params, vs)], log, depth, fn.body)
      case Next(_, l) => Ret(None, l)
      case Ret(v, l) => Ret(v, l)
      case Halt(err, l) => Halt(err, l)
      case Lost => Lost
  }

  /** Bind a name in the innermost scope. */
  function Bind(env: Env, x: string, v: Value, log: seq<NativeEvent>): (r: Flow)
    requires env != []
    ensures r.Next? ==> |r.env| == |env| && r.log == log
  {
    if Blocked(env, |env| - 1, x) then Halt(SlotOverwrite, log)
    else Next(Assign(env, |env| - 1, x, Some(v)), log)
  }

  function BindAll(env: Env, names: seq<string>, vs: seq<Value>, log: seq<NativeEvent>): (r: Flow)
    requires env != [] && |names| == |vs|
    ensures r.Next? ==> |r.env| == |env|
    decreases names
  {
    if names == [] then Next(env, log)
    else
      match Bind(env, names[0], vs[0], log)
      case Next(env1, l) => BindAll(env1, names[1..], vs[1..], l)
      case Ret(v, l) => Ret(v, l)
      case Halt(err, l) => Halt(err, l)
      case Lost => Lost
  }

  /** The name a destructuring binds a field to. */
  function Bound(bs: seq<Binding>, field: string): (r: Option<string>) {
    if bs == [] then None
    else if bs[|bs| - 1].field == field then Some(bs[|bs| - 1].name)
    else Bound(bs[..|bs| - 1], field)
  }

  /** Bind the fields that are named, in the order of the definition, and drop the others. */
  function BindFields(env: Env, bs: seq<Binding>, fields: seq<string>, vs: seq<Value>, log: seq<NativeEvent>): (r: Flow)
    requires env != [] && |fields| == |vs|
    ensures r.Next? ==> |r.env| == |env|
    decreases fields
  {
    if fields == [] then Next(env, log)
    else
      var x := Bound(bs, fields[0]);
      if x.None? then BindFields(env, bs, fields[1..], vs[1..], log)
      else
        match Bind(env, x.value, vs[0], log)
        case Next(env1, l) => BindFields(env1, bs, fields[1..], vs[1..], l)
        case Ret(v, l) => Ret(v, l)
        case Halt(err, l) => Halt(err, l)
        case Lost => Lost
  }

  function EvalStmt(w: World, addr: Address, sm: SourceModule, env: Env, log: seq<NativeEvent>, depth: nat, s: Stmt)
    : (r: Flow)
    requires depth < w.maxDepth && env != []
    ensures r.Next? ==> |r.env| == |env|
    decreases w.maxDepth - depth, 1, s, 0
  {
    match s
    case SReturn(None) => Ret(None, log)
    case SReturn(Some(e)) =>
      (match EvalExpr(w, addr, sm, env, log, depth, e)
       case Bad(err, l) => Halt(err, l)
       case Stuck => Lost
       case Val(v, _, l) => Ret(Some(v), l))
    case SIf(cond, body, other) =>
      (match EvalExpr(w, addr, sm, env, log, depth, cond)
       case Bad(err, l) => Halt(err, l)
       case Stuck => Lost
       case Val(v, env1, log1) =>
         if !v.VBool? then Halt(TypeError, log1)
         else if v.b then EvalBlock(w, addr, sm, env1, log1, depth, body)
         else if other.Else? then EvalBlock(w, addr, sm, env1, log1, depth, other.stmts)
         else Next(env1, log1))
    case SLet(_, _) => EvalBinding(w, addr, sm, env, log, depth, s)
    case SReassign(_, _) => EvalBinding(w, addr, sm, env, log, depth, s)
    case SExpr(_) => EvalBinding(w, addr, sm, env, log, depth, s)
    case SFieldAssign(_, _, _) => EvalBinding(w, addr, sm, env, log, depth, s)
    case SLetTuple(_, _) => EvalBinding(w, addr, sm, env, log, depth, s)
    case SLetStruct(_, _, _, _) => EvalBinding(w, addr, sm, env, log, depth, s)
  }

  /** A statement that evaluates one expression and does something with its value. */
  function EvalBinding(w: World, addr: Address, sm: SourceModule, env: Env, log: seq<NativeEvent>, depth: nat, s: Stmt)
    : (r: Flow)
    requires depth < w.maxDepth && env != [] && !s.SReturn? && !s.SIf?
    ensures r.Next? ==> |r.env| == |env|
    decreases w.maxDepth - depth, 1, s.expr, 1
  {
    match EvalExpr(w, addr, sm, env, log, depth, s.expr)
    case Bad(err, l) => Halt(err, l)
    case Stuck => Lost
    case Val(v, env1, log1) => Finish(sm, env1, log1, s, v)
  }

  function Finish(sm: SourceModule, env: Env, log: seq<NativeEvent>, s: Stmt, v: Value): (r: Flow)
    requires env != [] && !s.SReturn? && !s.SIf?
    ensures r.Next? ==> |r.env| == |env|
  {
    match s
    case SLet(x, _) => Bind(env, x, v, log)
    case SExpr(_) => Next(env, log)
    case SReassign(x, _) =>
      var i := Scope(env, x);
      if i.None? then Lost
      else if Blocked(env, i.value, x) then Halt(SlotOverwrite, log)
      else Next(Assign(env, i.value, x, Some(v)), log)
    case SFieldAssign(x, path, _) =>
      var i := Scope(env, x);
      if i.None? then Lost
      else if env[i.value][x].None? then Halt(UseAfterMove, log)
      else
        (match WriteFieldPath(env[i.value][x].value, path, v)
         case Err(err) => Halt(err, log)
         case Ok(u) => Next(Assign(env, i.value, x, Some(u)), log))
    case SLetTuple(names, _) =>
      if !v.VTuple? || |v.elems| != |names| then Halt(TypeError, log)
      else BindAll(env, names, v.elems, log)
    case SLetStruct(tn, bs, _, _) =>
      var def := FindStruct(sm.structs, tn);
      if def.None? then Lost
      else if !v.VStruct? then Halt(TypeError, log)
      else
        match TakeFields(FieldMap(v.fields), FieldNames(def.value))
        case Err(err) => Halt(err, log)
        case Ok(vs) => BindFields(env, bs, FieldNames(def.value), Reverse(vs), log)
  }

  /** A branch: its own scope, dropped at the end. */
  function EvalBlock(w: World, addr: Address, sm: SourceModule, env: Env, log: seq<NativeEvent>, depth: nat,
                     body: seq<Stmt>): (r: Flow)
    requires depth < w.maxDepth && env != []
    ensures r.Next? ==> |r.env| == |env|
    decreases w.maxDepth - depth, 1, body, 1
  {
    match EvalStmts(w, addr, sm, env + [map[]], log, depth, body)
    case Next(env1, l) => Next(env1[..|env1| - 1], l)
    case Ret(v, l) => Ret(v, l)
    case Halt(err, l) => Halt(err, l)
    case Lost => Lost
  }

  function EvalStmts(w: World, addr: Address, sm: SourceModule, env: Env, log: seq<NativeEvent>, depth: nat,
                     ss: seq<Stmt>): (r: Flow)
    requires depth < w.maxDepth && env != []
    ensures r.Next? ==> |r.env| == |env|
    decreases w.maxDepth - depth, 1, ss, 0
  {
    if ss == [] then Next(env, log)
    else
      match EvalStmts(w, addr, sm, env, log, depth, ss[..|ss| - 1])
      case Next(env1, l) => EvalStmt(w, addr, sm, env1, l, depth, ss[|ss| - 1])
      case Ret(v, l) => Ret(v, l)
      case Halt(err, l) => Halt(err, l)
      case Lost => Lost
  }
}
