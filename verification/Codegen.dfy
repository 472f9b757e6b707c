/** The code generator: slots for names, relative jumps for branches. */
module Codegen {
  import opened MeowTypes
  import opened Vm
  import opened Ast

  datatype GenLimits = GenLimits(maxParams: nat, maxLocals: nat, maxTuple: nat, maxCode: nat)

  /** Slots by scope, innermost last. */
  type Slots = seq<map<string, nat>>

  function SlotOf(sc: Slots, x: string): (r: Option<nat>) {
    var i := Scope(sc, x);
    if i.None? then None else Some(sc[i.value][x])
  }

  function OpCode(op: BinOp): (i: Instr)
    ensures IsBinary(i)
  {
    match op
    case OpAdd => Add
    case OpSub => Sub
    case OpMul => Mul
    case OpDiv => Div
    case OpMod => Mod
    case OpEq => Eq
    case OpNe => Ne
    case OpLt => Lt
    case OpLe => Le
    case OpGt => Gt
    case OpGe => Ge
    case OpAnd => And
    case OpOr => Or
  }

  function GetFields(path: seq<string>): (r: seq<Instr>)
    ensures |r| == |path|
    ensures forall i :: 0 <= i < |path| ==> r[i] == GetField(path[i])
  {
    seq(|path|, i requires 0 <= i < |path| => GetField(path[i]))
  }

  predicate AllDistinct(names: seq<string>) {
    forall i, j :: 0 <= i < j < |names| ==> names[i] != names[j]
  }

  // ---------------------------------------------------------------- expressions

  function CompileExpr(sm: SourceModule, lim: GenLimits, sc: Slots, e: Expr): (r: Option<seq<Instr>>)
    decreases e, 0
  {
    match e
    case EBool(b) => Some([PushBool(b)])
    case EInt(n) => Some([PushU64(n)])
    case EAddress(a) => Some([PushAddress(a)])
    case EStr(s) => Some([PushStr(s)])
    case EIdent(x) => if SlotOf(sc, x).None? then None else Some([Load(SlotOf(sc, x).value)])
    case EBin(left, op, right) =>
      var l, r := CompileExpr(sm, lim, sc, left), CompileExpr(sm, lim, sc, right);
      if l.None? || r.None? then None else Some(l.value + r.value + [OpCode(op)])
    case ENot(arg) =>
      var a := CompileExpr(sm, lim, sc, arg);
      if a.None? then None else Some(a.value + [Not])
    case EField(base, field) => CompileField(sm, lim, sc, base, [field])
    case EStruct(name, inits) =>
      var def := FindStruct(sm.structs, name);
      if def.None? || !AllDistinct(FieldNames(def.value)) then None
      else
        var code := CompileInits(sm, lim, sc, inits, FieldNames(def.value));
        if code.None? then None else Some(code.value + [NewStruct(Local(name), FieldNames(def.value))])
    case ETuple(items) =>
      var code := CompileExprs(sm, lim, sc, items);
      if |items| > lim.maxTuple || code.None? then None else Some(code.value + [MakeTuple(|items|)])
    case ECall(callee, args) =>
      var code, n := CompileExprs(sm, lim, sc, args), Translate(sm, callee);
      if code.None? || n.None? then None else Some(code.value + [Call(n.value)])
  }

  /** A chain of field accesses, flattened down to its root. */
  function CompileField(sm: SourceModule, lim: GenLimits, sc: Slots, base: Expr, path: seq<string>): (r: Option<seq<Instr>>)
    decreases base, 1
  {
    if base.EField? then CompileField(sm, lim, sc, base.base, [base.field] + path)
    else if base.EIdent? && SlotOf(sc, base.x).Some? then Some([LoadField(SlotOf(sc, base.x).value, path)])
    else
      var code := CompileExpr(sm, lim, sc, base);
      if code.None? then None else Some(code.value + GetFields(path))
  }

  function CompileExprs(sm: SourceModule, lim: GenLimits, sc: Slots, es: seq<Expr>): (r: Option<seq<Instr>>)
    decreases es, 0
  {
    if es == [] then Some([])
    else
      var init := CompileExprs(sm, lim, sc, es[..|es| - 1]);
      var last := CompileExpr(sm, lim, sc, es[|es| - 1]);
      if init.None? || last.None? then None else Some(init.value + last.value)
  }

  function CompileInits(sm: SourceModule, lim: GenLimits, sc: Slots, inits: seq<Init>, names: seq<string>)
    : (r: Option<seq<Instr>>)
    decreases inits, |names|
  {
    if names == [] then Some([])
    else
      var before := CompileInits(sm, lim, sc, inits, names[..|names| - 1]);
      var e := LastInit(inits, names[|names| - 1]);
      if before.None? || e.None? then None
      else
        var last := CompileExpr(sm, lim, sc, e.value);
        if last.None? then None else Some(before.value + last.value)
  }

  // ------------------------------------------------------------------ statements

  /** Emitted code, with the slots known after it. */
  datatype Gen = Gen(code: seq<Instr>, sc: Slots, next: nat)

  /** Only the innermost scope gains names, and slots are never taken back. */
  predicate Extends(sc: Slots, next: nat, g: Gen) {
    |g.sc| == |sc| > 0 && g.sc[..|sc| - 1] == sc[..|sc| - 1] && g.next >= next
  }

  /** The slot for a name bound in the innermost scope: its own if it has one, or a new one. */
  function Alloc(lim: GenLimits, sc: Slots, next: nat, x: string): (r: Option<Gen>)
    requires sc != []
    ensures r.Some? ==> Extends(sc, next, r.value) && x in r.value.sc[|sc| - 1]
  {
    if x in sc[|sc| - 1] then Some(Gen([Store(sc[|sc| - 1][x])], sc, next))
    else if next >= lim.maxLocals then None
    else
      var inner: map<string, nat> := sc[|sc| - 1][x := next];
      Some(Gen([Store(next)], sc[..|sc| - 1] + [inner], next + 1))
  }

  function AllocAll(lim: GenLimits, sc: Slots, next: nat, names: seq<string>): (r: Option<Gen>)
    requires sc != []
    ensures r.Some? ==> Extends(sc, next, r.value)
    decreases names
  {
    if names == [] then Some(Gen([], sc, next))
    else
      var first := Alloc(lim, sc, next, names[0]);
      if first.None? then None
      else
        var rest := AllocAll(lim, first.value.sc, first.value.next, names[1..]);
        if rest.None? then None else Some(Gen(first.value.code + rest.value.code, rest.value.sc, rest.value.next))
  }

  /** Stores for the fields that are bound, pops for the others. */
  function AllocFields(lim: GenLimits, sc: Slots, next: nat, bs: seq<Binding>, fields: seq<string>): (r: Option<Gen>)
    requires sc != []
    ensures r.Some? ==> Extends(sc, next, r.value)
    decreases fields
  {
    if fields == [] then Some(Gen([], sc, next))
    else
      var x := Bound(bs, fields[0]);
      var first := if x.None? then Some(Gen([Pop], sc, next)) else Alloc(lim, sc, next, x.value);
      if first.None? then None
      else
        var rest := AllocFields(lim, first.value.sc, first.value.next, bs, fields[1..]);
        if rest.None? then None else Some(Gen(first.value.code + rest.value.code, rest.value.sc, rest.value.next))
  }

  predicate BindingsOk(def: StructDef, bs: seq<Binding>, rest: bool) {
    && (forall i :: 0 <= i < |bs| ==> bs[i].field in FieldNames(def))
    && (!rest ==> forall i :: 0 <= i < |def.fields| ==> Bound(bs, def.fields[i].name).Some?)
  }

  function CompileStmt(sm: SourceModule, lim: GenLimits, sc: Slots, next: nat, s: Stmt): (r: Option<Gen>)
    requires sc != []
    ensures r.Some? ==> Extends(sc, next, r.value)
    decreases s, 0
  {
    match s
    case SReturn(None) => Some(Gen([Return], sc, next))
    case SReturn(Some(e)) =>
      var code := CompileExpr(sm, lim, sc, e);
      if code.None? then None else Some(Gen(code.value + [Return], sc, next))
    case SIf(cond, body, other) =>
      var c := CompileExpr(sm, lim, sc, cond);
      var b := CompileStmts(sm, lim, sc + [map[]], next, body);
      if c.None? || b.None? then None
      else if other.NoElse? then
        Some(Gen(c.value + [JumpIfNot(|b.value.code| + 1)] + b.value.code, sc, b.value.next))
      else
        var o := CompileStmts(sm, lim, sc + [map[]], b.value.next, other.stmts);
        if o.None? then None
        else Some(Gen(c.value + [JumpIfNot(|b.value.code| + 2)] + b.value.code
                      + [Jump(|o.value.code| + 1)] + o.value.code, sc, o.value.next))
    case SLet(_, expr) => CompileBinding(sm, lim, sc, next, s)
    case SReassign(_, expr) => CompileBinding(sm, lim, sc, next, s)
    case SExpr(expr) => CompileBinding(sm, lim, sc, next, s)
    case SFieldAssign(_, _, expr) => CompileBinding(sm, lim, sc, next, s)
    case SLetTuple(_, expr) => CompileBinding(sm, lim, sc, next, s)
    case SLetStruct(_, _, expr, _) => CompileBinding(sm, lim, sc, next, s)
  }

  function CompileBinding(sm: SourceModule, lim: GenLimits, sc: Slots, next: nat, s: Stmt): (r: Option<Gen>)
    requires sc != [] && !s.SReturn? && !s.SIf?
    ensures r.Some? ==> Extends(sc, next, r.value)
    decreases s.expr, 1
  {
    var code := CompileExpr(sm, lim, sc, s.expr);
    var tail := CompileTail(sm, lim, sc, next, s);
    if code.None? || tail.None? then None else Some(tail.value.(code := code.value + tail.value.code))
  }

  /** What a statement does with the value its expression leaves on the stack. */
  function CompileTail(sm: SourceModule, lim: GenLimits, sc: Slots, next: nat, s: Stmt): (r: Option<Gen>)
    requires sc != [] && !s.SReturn? && !s.SIf?
    ensures r.Some? ==> Extends(sc, next, r.value)
  {
    match s
    case SLet(x, _) => Alloc(lim, sc, next, x)
    case SExpr(_) => Some(Gen([Pop], sc, next))
    case SReassign(x, _) => if SlotOf(sc, x).None? then None else Some(Gen([Store(SlotOf(sc, x).value)], sc, next))
    case SFieldAssign(x, path, _) =>
      if SlotOf(sc, x).None? || path == [] then None else Some(Gen([StoreField(SlotOf(sc, x).value, path)], sc, next))
    case SLetTuple(names, _) =>
      var stores := AllocAll(lim, sc, next, names);
      if |names| > lim.maxTuple || stores.None? then None
      else Some(stores.value.(code := [UnpackTuple(|names|)] + stores.value.code))
    case SLetStruct(tn, bs, _, rest) =>
      var def := FindStruct(sm.structs, tn);
      if def.None? || !BindingsOk(def.value, bs, rest) then None
      else
        var stores := AllocFields(lim, sc, next, bs, FieldNames(def.value));
        if stores.None? then None
        else Some(stores.value.(code := [UnpackStruct(Local(tn), FieldNames(def.value))] + stores.value.code))
  }

  function CompileStmts(sm: SourceModule, lim: GenLimits, sc: Slots, next: nat, ss: seq<Stmt>): (r: Option<Gen>)
    requires sc != []
    ensures r.Some? ==> Extends(sc, next, r.value)
    decreases ss, 0
  {
    if ss == [] then Some(Gen([], sc, next))
    else
      var init := CompileStmts(sm, lim, sc, next, ss[..|ss| - 1]);
      if init.None? then None
      else
        var last := CompileStmt(sm, lim, init.value.sc, init.value.next, ss[|ss| - 1]);
        if last.None? then None else Some(last.value.(code := init.value.code + last.value.code))
  }

  // ------------------------------------------------------------------- functions

  function ParamNames(params: seq<Param>): (r: seq<string>)
    ensures |r| == |params|
    ensures forall i :: 0 <= i < |r| ==> r[i] == params[i].name
  {
    seq(|params|, i requires 0 <= i < |params| => params[i].name)
  }

  /** Parameters take slots in order, in a scope of their own. */
  function AllocParams(lim: GenLimits, names: seq<string>): (r: Option<Gen>)
    ensures r.Some? ==> |r.value.sc| == 1
  {
    if names == [] then Some(Gen([], [map[]], 0))
    else
      var before := AllocParams(lim, names[..|names| - 1]);
      if before.None? then None else Alloc(lim, before.value.sc, before.value.next, names[|names| - 1])
  }

  function Closed(code: seq<Instr>): (r: seq<Instr>) {
    if code == [] || code[|code| - 1] != Return then code + [Return] else code
  }

  function CompileFunction(sm: SourceModule, lim: GenLimits, f: AstFunction): (r: Option<Function>)
  {
    if |f.params| > lim.maxParams then None
    else
      var params := AllocParams(lim, ParamNames(f.params));
      if params.None? then None
      else
        var body := CompileStmts(sm, lim, params.value.sc, params.value.next, f.body);
        if body.None? then None
        else
          var code := Closed(body.value.code);
          if |code| > lim.maxCode then None
          else Some(Function(f.name, f.isPublic, f.params, f.ret, body.value.next, code))
  }

  /** The compiled module of a source module. */
  predicate CompiledAs(m: Module, sm: SourceModule, lim: GenLimits) {
    && m.structs == sm.structs
    && |m.functions| == |sm.functions|
    && forall i :: 0 <= i < |m.functions| ==> CompileFunction(sm, lim, sm.functions[i]) == Some(m.functions[i])
  }
}
