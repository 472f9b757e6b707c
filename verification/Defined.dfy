/** The evaluator is defined on everything the generator accepts, as long as calls pass the
    number of arguments their callees take. */
module Defined {
  import opened MeowTypes
  import opened Vm
  import opened Ast
  import opened Codegen
  import opened Meaning
  import opened Metering

  // ----------------------------------------------------------------------- arities

  /** A call passes as many arguments as its callee takes. */
  predicate CallFits(w: World, sm: SourceModule, callee: SourceName, n: nat) {
    Translate(sm, callee).Some? ==>
      match Resolve(w, 0, sm, Translate(sm, callee).value)
      case Source(_, _, fn) => n == |fn.params|
      case Native(entry) => n == |entry.sig.params|
      case Missing(_) => true
  }

  predicate ExprFits(w: World, sm: SourceModule, e: Expr)
    decreases e
  {
    match e
    case EBin(l, _, r) => ExprFits(w, sm, l) && ExprFits(w, sm, r)
    case ENot(a) => ExprFits(w, sm, a)
    case EField(base, _) => ExprFits(w, sm, base)
    case EStruct(_, inits) => forall i :: 0 <= i < |inits| ==> ExprFits(w, sm, inits[i].expr)
    case ETuple(items) => forall i :: 0 <= i < |items| ==> ExprFits(w, sm, items[i])
    case ECall(callee, args) => CallFits(w, sm, callee, |args|) && forall i :: 0 <= i < |args| ==> ExprFits(w, sm, args[i])
    case _ => true
  }

  predicate StmtFits(w: World, sm: SourceModule, s: Stmt)
    decreases s
  {
    match s
    case SReturn(e) => e.Some? ==> ExprFits(w, sm, e.value)
    case SIf(cond, body, other) =>
      && ExprFits(w, sm, cond)
      && (forall i :: 0 <= i < |body| ==> StmtFits(w, sm, body[i]))
      && (other.Else? ==> forall i :: 0 <= i < |other.stmts| ==> StmtFits(w, sm, other.stmts[i]))
    case _ => ExprFits(w, sm, s.expr)
  }

  predicate StmtsFit(w: World, sm: SourceModule, ss: seq<Stmt>) {
    forall i :: 0 <= i < |ss| ==> StmtFits(w, sm, ss[i])
  }

  /** Every function compiles, and every call in it fits. */
  ghost predicate ModuleFits(w: World, lim: GenLimits, sm: SourceModule) {
    forall fn :: fn in sm.functions ==>
      CompileFunction(sm, lim, fn).Some? && StmtsFit(w, sm, fn.body) && AllDistinct(ParamNames(fn.params))
  }

  ghost predicate WorldFits(w: World, lim: GenLimits) {
    ModuleFits(w, lim, w.main) && forall a :: a in w.deps ==> ModuleFits(w, lim, w.deps[a])
  }

  // --------------------------------------------------------------------- definedness

  /** A defined result whose variables are those the generator knows. */
  ghost predicate Fine<T>(sc: Slots, d: Done<T>) {
    !d.Stuck? && (d.Val? ==> SameNames(sc, d.env))
  }

  lemma AssignNames(sc: Slots, env: Env, i: nat, x: string, v: Option<Value>)
    requires SameNames(sc, env) && i < |env| && x in env[i]
    ensures SameNames(sc, Assign(env, i, x, v))
  {
  }

  lemma {:induction false} ExprDefined(
    w: World, lim: GenLimits, addr: Address, sm: SourceModule, sc: Slots, env: Env, log: seq<NativeEvent>, depth: nat, e: Expr)
    requires depth < w.maxDepth && WorldFits(w, lim) && ModuleFits(w, lim, sm)
    requires SameNames(sc, env) && CompileExpr(sm, lim, sc, e).Some? && ExprFits(w, sm, e)
    ensures Fine(sc, EvalExpr(w, addr, sm, env, log, depth, e))
    decreases w.maxDepth - depth, 1, e, 0
  {
    hide WorldFits, ModuleFits, SameNames;
    match e
    case EBool(_) =>
    case EInt(_) =>
    case EAddress(_) =>
    case EStr(_) =>
    case EIdent(x) => VarDefined(sc, env, x, log);
    case EBin(l, _, r) =>
      ExprDefined(w, lim, addr, sm, sc, env, log, depth, l);
      var d := EvalExpr(w, addr, sm, env, log, depth, l);
      if d.Val? { ExprDefined(w, lim, addr, sm, sc, d.env, d.log, depth, r); }
    case ENot(a) => ExprDefined(w, lim, addr, sm, sc, env, log, depth, a);
    case EField(base, field) => FieldDefined(w, lim, addr, sm, sc, env, log, depth, base, [field]);
    case EStruct(name, inits) =>
      InitsDefined(w, lim, addr, sm, sc, env, log, depth, inits, FieldNames(FindStruct(sm.structs, name).value));
    case ETuple(items) => ExprsDefined(w, lim, addr, sm, sc, env, log, depth, items);
    case ECall(callee, args) =>
      ExprsDefined(w, lim, addr, sm, sc, env, log, depth, args);
      var d := EvalExprs(w, addr, sm, env, log, depth, args);
      if d.Val? { CallDefined(w, lim, addr, sm, d.env, d.log, depth, callee, d.value); }
  }

  lemma VarDefined(sc: Slots, env: Env, x: string, log: seq<NativeEvent>)
    requires SameNames(sc, env) && SlotOf(sc, x).Some?
    ensures Fine(sc, ReadVar(env, x, log))
  {
    SameScope(sc, env, x);
    AssignNames(sc, env, Scope(env, x).value, x, None);
  }

  lemma {:induction false} FieldDefined(
    w: World, lim: GenLimits, addr: Address, sm: SourceModule, sc: Slots, env: Env, log: seq<NativeEvent>, depth: nat,
    base: Expr, path: seq<string>)
    requires depth < w.maxDepth && WorldFits(w, lim) && ModuleFits(w, lim, sm)
    requires SameNames(sc, env) && CompileField(sm, lim, sc, base, path).Some? && ExprFits(w, sm, base)
    ensures Fine(sc, EvalField(w, addr, sm, env, log, depth, base, path))
    decreases w.maxDepth - depth, 1, base, 1
  {
    hide WorldFits, ModuleFits, SameNames, ReadFieldPath;
    if base.EField? {
      FieldDefined(w, lim, addr, sm, sc, env, log, depth, base.base, [base.field] + path);
    } else {
      if base.EIdent? { SameScope(sc, env, base.x); }
      if !(base.EIdent? && Scope(env, base.x).Some?) {
        ExprDefined(w, lim, addr, sm, sc, env, log, depth, base);
      }
    }
  }

  lemma {:induction false} ExprsDefined(
    w: World, lim: GenLimits, addr: Address, sm: SourceModule, sc: Slots, env: Env, log: seq<NativeEvent>, depth: nat,
    es: seq<Expr>)
    requires depth < w.maxDepth && WorldFits(w, lim) && ModuleFits(w, lim, sm)
    requires SameNames(sc, env) && CompileExprs(sm, lim, sc, es).Some?
    requires forall i :: 0 <= i < |es| ==> ExprFits(w, sm, es[i])
    ensures Fine(sc, EvalExprs(w, addr, sm, env, log, depth, es))
    decreases w.maxDepth - depth, 1, es, 0
  {
    hide WorldFits, ModuleFits, SameNames;
    if es != [] {
      var init := es[..|es| - 1];
      ExprsDefined(w, lim, addr, sm, sc, env, log, depth, init);
      var d := EvalExprs(w, addr, sm, env, log, depth, init);
      if d.Val? { ExprDefined(w, lim, addr, sm, sc, d.env, d.log, depth, es[|es| - 1]); }
    }
  }

  lemma {:induction false} InitsDefined(
    w: World, lim: GenLimits, addr: Address, sm: SourceModule, sc: Slots, env: Env, log: seq<NativeEvent>, depth: nat,
    inits: seq<Init>, names: seq<string>)
    requires depth < w.maxDepth && WorldFits(w, lim) && ModuleFits(w, lim, sm)
    requires SameNames(sc, env) && CompileInits(sm, lim, sc, inits, names).Some?
    requires forall i :: 0 <= i < |inits| ==> ExprFits(w, sm, inits[i].expr)
    ensures Fine(sc, EvalInits(w, addr, sm, env, log, depth, inits, names))
    decreases w.maxDepth - depth, 1, inits, |names|
  {
    hide WorldFits, ModuleFits, SameNames;
    if names != [] {
      var init := names[..|names| - 1];
      InitsDefined(w, lim, addr, sm, sc, env, log, depth, inits, init);
      var d := EvalInits(w, addr, sm, env, log, depth, inits, init);
      if d.Val? {
        ExprDefined(w, lim, addr, sm, sc, d.env, d.log, depth, LastInit(inits, names[|names| - 1]).value);
      }
    }
  }

  /** Resolution does not depend on where the caller sits. */
  lemma ResolveAnywhere(w: World, a: Address, b: Address, sm: SourceModule, callee: Name)
    ensures var x, y := Resolve(w, a, sm, callee), Resolve(w, b, sm, callee);
            && (x.Source? <==> y.Source?) && (x.Source? ==> x.sm == y.sm && x.fn == y.fn)
            && (x.Native? <==> y.Native?) && (x.Native? ==> x == y)
  {
  }

  lemma ResolvedFits(w: World, lim: GenLimits, addr: Address, sm: SourceModule, callee: Name)
    requires WorldFits(w, lim) && ModuleFits(w, lim, sm)
    ensures var c := Resolve(w, addr, sm, callee);
            c.Source? ==> ModuleFits(w, lim, c.sm) && c.fn in c.sm.functions
  {
  }

  lemma {:induction false} CallDefined(
    w: World, lim: GenLimits, addr: Address, sm: SourceModule, env: Env, log: seq<NativeEvent>, depth: nat,
    callee: SourceName, vs: seq<Value>)
    requires depth < w.maxDepth && WorldFits(w, lim) && ModuleFits(w, lim, sm)
    requires Translate(sm, callee).Some? && CallFits(w, sm, callee, |vs|)
    ensures !EvalCall(w, addr, sm, env, log, depth, Translate(sm, callee).value, vs).Stuck?
    decreases w.maxDepth - depth, 0
  {
    hide WorldFits, ModuleFits, EvalFunction;
    var n := Translate(sm, callee).value;
    ResolveAnywhere(w, addr, 0, sm, n);
    ResolvedFits(w, lim, addr, sm, n);
    var c := Resolve(w, addr, sm, n);
    if c.Source? {
      FunctionDefined(w, lim, c.addr, c.sm, c.fn, vs, log, depth + 1);
    }
  }

  lemma {:induction false} FunctionDefined(
    w: World, lim: GenLimits, addr: Address, sm: SourceModule, fn: AstFunction, vs: seq<Value>, log: seq<NativeEvent>, depth: nat)
    requires WorldFits(w, lim) && ModuleFits(w, lim, sm) && fn in sm.functions && |vs| == |fn.params|
    ensures !EvalFunction(w, addr, sm, fn, vs, log, depth).Lost?
    decreases if depth < w.maxDepth then w.maxDepth - depth else 0, 2
  {
    if depth < w.maxDepth {
      var params, body := FunctionShape(sm, lim, fn, CompileFunction(sm, lim, fn).value);
      ParamCount(lim, fn.params, params);
      ParamsHold(lim, fn.params, vs, params, |vs|);
      assert SameNames(params.sc, [ParamScope(fn.params, vs)]);
      StmtsDefined(w, lim, addr, sm, params.sc, params.next, [ParamScope(fn.params, vs)], log, depth, fn.body);
    }
  }

  // ---------------------------------------------------------------------- statements

  ghost predicate Steady(sc: Slots, fl: Ast.Flow) {
    !fl.Lost? && (fl.Next? ==> SameNames(sc, fl.env))
  }

  lemma BindDefined(lim: GenLimits, sc: Slots, next: nat, env: Env, x: string, v: Value, log: seq<NativeEvent>)
    requires SameNames(sc, env) && sc != [] && env != [] && Alloc(lim, sc, next, x).Some?
    ensures Steady(Alloc(lim, sc, next, x).value.sc, Bind(env, x, v, log))
  {
    var n := |sc| - 1;
    assert x in sc[n] <==> x in env[n] by { assert sc[n].Keys == env[n].Keys; }
    if x in sc[n] {
      AssignNames(sc, env, n, x, Some(v));
    } else {
      NewNames(sc, env, x, v, next, Alloc(lim, sc, next, x).value.sc);
    }
  }

  lemma {:induction false} BindAllDefined(
    lim: GenLimits, sc: Slots, next: nat, env: Env, names: seq<string>, vs: seq<Value>, log: seq<NativeEvent>)
    requires SameNames(sc, env) && sc != [] && env != [] && |names| == |vs| && AllocAll(lim, sc, next, names).Some?
    ensures Steady(AllocAll(lim, sc, next, names).value.sc, BindAll(env, names, vs, log))
    decreases |names|
  {
    hide SameNames, Alloc, Bind;
    if names != [] {
      BindDefined(lim, sc, next, env, names[0], vs[0], log);
      var first, b := Alloc(lim, sc, next, names[0]).value, Bind(env, names[0], vs[0], log);
      if b.Next? {
        BindAllDefined(lim, first.sc, first.next, b.env, names[1..], vs[1..], b.log);
      }
    }
  }

  lemma {:induction false} BindFieldsDefined(
    lim: GenLimits, sc: Slots, next: nat, env: Env, bs: seq<Binding>, fields: seq<string>, vs: seq<Value>, log: seq<NativeEvent>)
    requires SameNames(sc, env) && sc != [] && env != [] && |fields| == |vs| && AllocFields(lim, sc, next, bs, fields).Some?
    ensures Steady(AllocFields(lim, sc, next, bs, fields).value.sc, BindFields(env, bs, fields, vs, log))
    decreases |fields|
  {
    hide SameNames, Alloc, Bind, Bound;
    if fields != [] {
      var x := Bound(bs, fields[0]);
      if x.None? {
        BindFieldsDefined(lim, sc, next, env, bs, fields[1..], vs[1..], log);
      } else {
        BindDefined(lim, sc, next, env, x.value, vs[0], log);
        var first, b := Alloc(lim, sc, next, x.value).value, Bind(env, x.value, vs[0], log);
        if b.Next? {
          BindFieldsDefined(lim, first.sc, first.next, b.env, bs, fields[1..], vs[1..], b.log);
        }
      }
    }
  }

  lemma TailDefined(sm: SourceModule, lim: GenLimits, sc: Slots, next: nat, env: Env, log: seq<NativeEvent>, s: Stmt, v: Value)
    requires SameNames(sc, env) && sc != [] && env != [] && !s.SReturn? && !s.SIf?
    requires CompileTail(sm, lim, sc, next, s).Some?
    ensures Steady(CompileTail(sm, lim, sc, next, s).value.sc, Finish(sm, env, log, s, v))
  {
    hide AllocAll, AllocFields, BindAll, BindFields, TakeFields, FieldMap, WriteFieldPath, Alloc, Bind;
    match s
    case SLet(x, _) => BindDefined(lim, sc, next, env, x, v, log);
    case SExpr(_) =>
    case SReassign(x, _) =>
      SameScope(sc, env, x);
      AssignNames(sc, env, Scope(env, x).value, x, Some(v));
    case SFieldAssign(x, path, _) =>
      SameScope(sc, env, x);
      var i := Scope(env, x).value;
      if env[i][x].Some? && WriteFieldPath(env[i][x].value, path, v).Ok? {
        AssignNames(sc, env, i, x, Some(WriteFieldPath(env[i][x].value, path, v).value));
      }
    case SLetTuple(names, _) =>
      if v.VTuple? && |v.elems| == |names| {
        BindAllDefined(lim, sc, next, env, names, v.elems, log);
      }
    case SLetStruct(tn, bs, _, _) =>
      var names := FieldNames(FindStruct(sm.structs, tn).value);
      if v.VStruct? && TakeFields(FieldMap(v.fields), names).Ok? {
        BindFieldsDefined(lim, sc, next, env, bs, names, Reverse(TakeFields(FieldMap(v.fields), names).value), log);
      }
  }

  lemma {:induction false} StmtDefined(
    w: World, lim: GenLimits, addr: Address, sm: SourceModule, sc: Slots, next: nat, env: Env, log: seq<NativeEvent>, depth: nat, s: Stmt)
    requires depth < w.maxDepth && WorldFits(w, lim) && ModuleFits(w, lim, sm)
    requires SameNames(sc, env) && sc != [] && env != []
    requires CompileStmt(sm, lim, sc, next, s).Some? && StmtFits(w, sm, s)
    ensures Steady(CompileStmt(sm, lim, sc, next, s).value.sc, EvalStmt(w, addr, sm, env, log, depth, s))
    decreases w.maxDepth - depth, 1, s, 0
  {
    hide WorldFits, ModuleFits, SameNames, CompileTail, Finish, EvalExpr, CompileExpr;
    if s.SReturn? {
      if s.result.Some? { ExprDefined(w, lim, addr, sm, sc, env, log, depth, s.result.value); }
    } else if s.SIf? {
      ExprDefined(w, lim, addr, sm, sc, env, log, depth, s.cond);
      var d := EvalExpr(w, addr, sm, env, log, depth, s.cond);
      if d.Val? && d.value.VBool? {
        if d.value.b {
          BlockDefined(w, lim, addr, sm, sc, next, d.env, d.log, depth, s.body);
        } else if s.other.Else? {
          var b := CompileStmts(sm, lim, sc + [map[]], next, s.body).value;
          BlockDefined(w, lim, addr, sm, sc, b.next, d.env, d.log, depth, s.other.stmts);
        }
      }
    } else {
      ExprDefined(w, lim, addr, sm, sc, env, log, depth, s.expr);
      var d := EvalExpr(w, addr, sm, env, log, depth, s.expr);
      if d.Val? { TailDefined(sm, lim, sc, next, d.env, d.log, s, d.value); }
    }
  }

  lemma {:induction false} BlockDefined(
    w: World, lim: GenLimits, addr: Address, sm: SourceModule, sc: Slots, next: nat, env: Env, log: seq<NativeEvent>, depth: nat,
    body: seq<Stmt>)
    requires depth < w.maxDepth && WorldFits(w, lim) && ModuleFits(w, lim, sm)
    requires SameNames(sc, env) && sc != [] && env != []
    requires CompileStmts(sm, lim, sc + [map[]], next, body).Some? && StmtsFit(w, sm, body)
    ensures Steady(sc, EvalBlock(w, addr, sm, env, log, depth, body))
    decreases w.maxDepth - depth, 1, body, 1
  {
    hide WorldFits, ModuleFits, EvalStmts, CompileStmts;
    StmtsDefined(w, lim, addr, sm, sc + [map[]], next, env + [map[]], log, depth, body);
    var g := CompileStmts(sm, lim, sc + [map[]], next, body).value;
    assert g.sc[..|sc|] == sc by { assert (sc + [map[]])[..|sc|] == sc; }
    var fl := EvalStmts(w, addr, sm, env + [map[]], log, depth, body);
    if fl.Next? {
      forall i | 0 <= i < |sc|
        ensures sc[i].Keys == fl.env[..|fl.env| - 1][i].Keys
      {
        assert g.sc[i] == g.sc[..|sc|][i] == sc[i];
      }
    }
  }

  lemma {:induction false} StmtsDefined(
    w: World, lim: GenLimits, addr: Address, sm: SourceModule, sc: Slots, next: nat, env: Env, log: seq<NativeEvent>, depth: nat,
    ss: seq<Stmt>)
    requires depth < w.maxDepth && WorldFits(w, lim) && ModuleFits(w, lim, sm)
    requires SameNames(sc, env) && sc != [] && env != []
    requires CompileStmts(sm, lim, sc, next, ss).Some? && StmtsFit(w, sm, ss)
    ensures Steady(CompileStmts(sm, lim, sc, next, ss).value.sc, EvalStmts(w, addr, sm, env, log, depth, ss))
    decreases w.maxDepth - depth, 1, ss, 0
  {
    hide WorldFits, ModuleFits, SameNames, EvalStmt, CompileStmt;
    if ss != [] {
      var init := ss[..|ss| - 1];
      StmtsDefined(w, lim, addr, sm, sc, next, env, log, depth, init);
      var g := CompileStmts(sm, lim, sc, next, init).value;
      var fl := EvalStmts(w, addr, sm, env, log, depth, init);
      if fl.Next? {
        StmtDefined(w, lim, addr, sm, g.sc, g.next, fl.env, fl.log, depth, ss[|ss| - 1]);
      }
    }
  }

  /** The machine ends with the value or the error, and the native calls, that the source gives. */
  predicate Agrees(o: Outcome, fl: Ast.Flow) {
    || (fl.Ret? && o.Returned? && o.value == fl.result && o.log == fl.log)
    || (fl.Halt? && o.Failed? && o.error == fl.error && o.log == fl.log)
  }

  lemma AgreesUnlessDry(w: World, lim: GenLimits, vm: Machine, name: string, vs: seq<Value>, gas: Gas)
    requires Built(w, lim, vm) && WorldFits(w, lim)
    requires FindAst(w.main.functions, name).Some? && |vs| == |FindAst(w.main.functions, name).value.params|
    ensures Halting(vm, vm.main, gas)
    ensures var o := CallInner(vm, vm.addr, vm.main, name, vs, gas, [], 0);
            var fl := EvalFunction(w, w.addr, w.main, FindAst(w.main.functions, name).value, vs, [], 0);
            Dry(o) || Agrees(o, fl)
  {
    hide Built, CallInner, EvalFunction, Halting, ModuleFits;
    CodegenPreservesMeaning(w, lim, vm, name, vs, gas);
    FunctionDefined(w, lim, w.addr, w.main, FindAst(w.main.functions, name).value, vs, [], 0);
  }

  /** In a compiled world whose calls fit, running a function without a gas limit gives exactly
      the value or the error that its source gives. Under a limit it does so as long as that run
      stays within the limit, and runs out of gas exactly when it does not. */
  lemma MeaningIsExact(w: World, lim: GenLimits, vm: Machine, name: string, vs: seq<Value>, gas: Gas)
    requires Built(w, lim, vm) && WorldFits(w, lim)
    requires FindAst(w.main.functions, name).Some? && |vs| == |FindAst(w.main.functions, name).value.params|
    ensures Halting(vm, vm.main, gas) && Halting(vm, vm.main, Unlimited(gas.spent))
    ensures var free := CallInner(vm, vm.addr, vm.main, name, vs, Unlimited(gas.spent), [], 0);
            var o := CallInner(vm, vm.addr, vm.main, name, vs, gas, [], 0);
            var fl := EvalFunction(w, w.addr, w.main, FindAst(w.main.functions, name).value, vs, [], 0);
            && !Dry(free) && Agrees(free, fl)
            && (Dry(o) <==> free.gas.spent > gas.limit)
            && (free.gas.spent <= gas.limit ==> Agrees(o, fl) && o.gas.spent == free.gas.spent)
  {
    hide Built, CallInner, EvalFunction, Halting, ModuleFits, WorldFits;
    CompiledHalts(w, lim, vm, gas);
    CompiledHalts(w, lim, vm, Unlimited(gas.spent));
    AgreesUnlessDry(w, lim, vm, name, vs, Unlimited(gas.spent));
    CallNotDry(vm, vm.addr, vm.main, name, vs, Unlimited(gas.spent), [], 0);
    CallMetered(vm, vm.addr, vm.main, name, vs, gas.limit, gas.spent, [], 0);
  }
}
