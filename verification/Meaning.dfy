/** The emitted code means what the source means: running it gives the evaluator's result or its
    error, unless the gas runs out first. */
module Meaning {
  import opened MeowTypes
  import opened Vm
  import opened Ast
  import opened Codegen
  import Metering

  // -------------------------------------------------------------------- the machine

  /** A function being run: its code in its module, at a call depth. */
  datatype Site = Site(vm: Machine, addr: Address, m: Module, code: seq<Instr>, depth: nat)

  predicate Ready(st: Site, gas: Gas) {
    && Halting(st.vm, st.m, gas)
    && (gas.limit == U64_MAX ==> Forward(st.code))
    && st.depth < st.vm.config.maxCallDepth
  }

  /** How the run from this frame ends. */
  function From(st: Site, f: FrameState, gas: Gas, log: seq<NativeEvent>): (o: Outcome)
    requires Ready(st, gas)
  {
    Run(st.vm, st.addr, st.m, st.code, f, gas, log, st.depth)
  }

  predicate Spent(o: Outcome) {
    o.Failed? && o.error.OutOfGas?
  }

  predicate After(gas: Gas, gas': Gas) {
    gas'.limit == gas.limit && gas.spent <= gas'.spent
  }

  lemma StillReady(st: Site, gas: Gas, gas': Gas)
    requires Ready(st, gas) && After(gas, gas')
    ensures Ready(st, gas')
  {
  }

  /** The run from one frame ends as the run from another does. */
  ghost predicate Goes(st: Site, f: FrameState, gas: Gas, log: seq<NativeEvent>, g: FrameState, gas': Gas, log': seq<NativeEvent>) {
    && Ready(st, gas) && Ready(st, gas') && After(gas, gas')
    && From(st, f, gas, log) == From(st, g, gas', log')
  }

  ghost predicate Fails(st: Site, f: FrameState, gas: Gas, log: seq<NativeEvent>, error: VmError, log': seq<NativeEvent>) {
    && Ready(st, gas)
    && var o := From(st, f, gas, log);
       o.Failed? && o.error == error && o.log == log'
  }

  ghost predicate RunsDry(st: Site, f: FrameState, gas: Gas, log: seq<NativeEvent>) {
    Ready(st, gas) && Spent(From(st, f, gas, log))
  }

  lemma GoesOn(st: Site, f: FrameState, gas: Gas, log: seq<NativeEvent>, g: FrameState, gas1: Gas, log1: seq<NativeEvent>,
               h: FrameState, gas2: Gas, log2: seq<NativeEvent>)
    requires Goes(st, f, gas, log, g, gas1, log1) && Goes(st, g, gas1, log1, h, gas2, log2)
    ensures Goes(st, f, gas, log, h, gas2, log2)
  {
    hide From, Here;
  }

  /** One instruction that is neither a call nor a return. */
  lemma OneStep(st: Site, f: FrameState, gas: Gas, log: seq<NativeEvent>) returns (gas': Gas)
    requires Ready(st, gas) && f.pc < |st.code|
    requires !st.code[f.pc].Call? && !st.code[f.pc].Return?
    ensures After(gas, gas') && Ready(st, gas')
    ensures var r := Exec(st.vm, st.addr, st.m, st.code[f.pc], f.(pc := f.pc + 1));
            || RunsDry(st, f, gas, log)
            || (r.Ok? && Goes(st, f, gas, log, r.value, gas', log))
            || (r.Err? && Fails(st, f, gas, log, r.error, log))
  {
    hide Exec;
    gas' := Charge(gas, CappedCost(st.code[f.pc])).1;
    StillReady(st, gas, gas');
  }

  lemma ReturnStep(st: Site, f: FrameState, gas: Gas, log: seq<NativeEvent>)
    requires Ready(st, gas) && f.pc < |st.code| && st.code[f.pc].Return?
    ensures || RunsDry(st, f, gas, log)
            || (From(st, f, gas, log).Returned? && From(st, f, gas, log).value == Top(f.stack)
                && From(st, f, gas, log).log == log)
  {
  }

  lemma EndStep(st: Site, f: FrameState, gas: Gas, log: seq<NativeEvent>)
    requires Ready(st, gas) && f.pc >= |st.code|
    ensures From(st, f, gas, log).Returned? && From(st, f, gas, log).value == Top(f.stack)
    ensures From(st, f, gas, log).log == log
  {
  }

  /** The segment sits in the code at `pc`. */
  predicate Here(code: seq<Instr>, pc: nat, seg: seq<Instr>) {
    pc + |seg| <= |code| && code[pc..pc + |seg|] == seg
  }

  lemma HereSplit(code: seq<Instr>, pc: nat, a: seq<Instr>, b: seq<Instr>)
    requires Here(code, pc, a + b)
    ensures Here(code, pc, a) && Here(code, pc + |a|, b)
  {
    assert code[pc..pc + |a + b|][..|a|] == a;
    assert code[pc..pc + |a + b|][|a|..] == b;
  }

  lemma HereAt(code: seq<Instr>, pc: nat, i: Instr)
    requires Here(code, pc, [i])
    ensures pc < |code| && code[pc] == i
  {
    assert code[pc..pc + 1][0] == i;
  }

  // --------------------------------------------------------------- slots and values

  ghost predicate SameNames(sc: Slots, env: Env) {
    |sc| == |env| && forall i :: 0 <= i < |sc| ==> sc[i].Keys == env[i].Keys
  }

  ghost predicate Stored(sc: Slots, next: nat, env: Env, locals: seq<Option<Value>>)
    requires SameNames(sc, env) && next <= |locals|
  {
    forall i, x :: 0 <= i < |sc| && x in sc[i] ==>
      x in env[i].Keys && sc[i][x] < next && locals[sc[i][x]] == env[i][x]
  }

  ghost predicate Apart(sc: Slots) {
    forall i, x, j, y :: 0 <= i < |sc| && x in sc[i] && 0 <= j < |sc| && y in sc[j] && sc[i][x] == sc[j][y]
      ==> i == j && x == y
  }

  ghost predicate Clean(next: nat, locals: seq<Option<Value>>) {
    forall k :: next <= k < |locals| ==> locals[k].None?
  }

  /** Every variable lives in its own slot below `next`, the slot holds what the variable does,
      and the slots from `next` on have never been written. */
  ghost predicate Holds(sc: Slots, next: nat, env: Env, locals: seq<Option<Value>>) {
    SameNames(sc, env) && next <= |locals| && Stored(sc, next, env, locals) && Apart(sc) && Clean(next, locals)
  }

  lemma {:induction false} SameScope(sc: Slots, env: Env, x: string)
    requires SameNames(sc, env)
    ensures Scope(sc, x) == Scope(env, x)
  {
    if sc != [] {
      assert x in sc[|sc| - 1].Keys <==> x in env[|env| - 1].Keys;
      if x !in sc[|sc| - 1] {
        SameScope(sc[..|sc| - 1], env[..|env| - 1], x);
      }
    }
  }

  /** A variable and its slot. */
  lemma SlotHolds(sc: Slots, next: nat, env: Env, locals: seq<Option<Value>>, x: string)
    requires Holds(sc, next, env, locals) && SlotOf(sc, x).Some?
    ensures var i := Scope(env, x);
            i.Some? && SlotOf(sc, x).value < |locals| && locals[SlotOf(sc, x).value] == env[i.value][x]
            && i == Scope(sc, x)
  {
    SameScope(sc, env, x);
  }

  /** Writing a slot is assigning its variable. */
  lemma AssignHolds(sc: Slots, next: nat, env: Env, locals: seq<Option<Value>>, i: nat, x: string, v: Option<Value>)
    requires Holds(sc, next, env, locals) && i < |sc| && x in sc[i]
    ensures Holds(sc, next, Assign(env, i, x, v), locals[sc[i][x] := v])
  {
    var env' := Assign(env, i, x, v);
    assert SameNames(sc, env') by {
      assert x in env[i].Keys;
    }
  }

  // ------------------------------------------------------------------- expressions

  /** The function being run belongs to a compiled module of a compiled world. */
  ghost predicate Built(w: World, lim: GenLimits, vm: Machine) {
    && vm.addr == w.addr && vm.natives == w.natives && vm.config.maxCallDepth == w.maxDepth
    && vm.deps.Keys == w.deps.Keys
    && CompiledAs(vm.main, w.main, lim) && ParamsDistinct(w.main)
    && forall a :: a in vm.deps ==> CompiledAs(vm.deps[a], w.deps[a], lim) && ParamsDistinct(w.deps[a])
  }

  ghost predicate ParamsDistinct(sm: SourceModule) {
    forall i :: 0 <= i < |sm.functions| ==> AllDistinct(ParamNames(sm.functions[i].params))
  }

  ghost predicate Runs(w: World, lim: GenLimits, sm: SourceModule, st: Site) {
    Built(w, lim, st.vm) && CompiledAs(st.m, sm, lim) && ParamsDistinct(sm)
  }

  function One(d: Done<Value>): (r: Done<seq<Value>>) {
    match d
    case Val(v, env, log) => Val([v], env, log)
    case Bad(err, log) => Bad(err, log)
    case Stuck => Stuck
  }

  /** The run pushes the values and goes on after the segment, or fails as the evaluator does. */
  ghost predicate Pushes(st: Site, sc: Slots, next: nat, f: FrameState, gas: Gas, log: seq<NativeEvent>, pc: nat,
                         done: Done<seq<Value>>, locals': seq<Option<Value>>, gas': Gas) {
    RunsDry(st, f, gas, log) ||
    match done
    case Stuck => true
    case Bad(err, l) => Fails(st, f, gas, log, err, l)
    case Val(vs, env', l) =>
      && |locals'| == |f.locals| && Holds(sc, next, env', locals') && Ready(st, gas')
      && Goes(st, f, gas, log, FrameState(locals', f.stack + vs, pc), gas', l)
  }

  /** What happens after a run has gone on from `f` to `g` happens from `f`. */
  lemma Earlier(st: Site, f: FrameState, gas: Gas, log: seq<NativeEvent>, g: FrameState, gas1: Gas, log1: seq<NativeEvent>)
    requires Goes(st, f, gas, log, g, gas1, log1)
    ensures RunsDry(st, g, gas1, log1) ==> RunsDry(st, f, gas, log)
    ensures forall err, l :: Fails(st, g, gas1, log1, err, l) ==> Fails(st, f, gas, log, err, l)
  {
    hide From, Here;
  }

  /** One instruction that pushes a value and leaves the locals alone. */
  lemma PushRuns(st: Site, sc: Slots, next: nat, env: Env, f: FrameState, gas: Gas, log: seq<NativeEvent>, v: Value)
    returns (gas': Gas)
    requires Ready(st, gas) && Holds(sc, next, env, f.locals) && f.pc < |st.code|
    requires !st.code[f.pc].Call? && !st.code[f.pc].Return?
    requires Exec(st.vm, st.addr, st.m, st.code[f.pc], f.(pc := f.pc + 1)) == Ok(Push(f.(pc := f.pc + 1), v))
    ensures Pushes(st, sc, next, f, gas, log, f.pc + 1, Val([v], env, log), f.locals, gas')
  {
    hide Exec, From, Holds, Here;
    gas' := OneStep(st, f, gas, log);
    assert FrameState(f.locals, f.stack + [v], f.pc + 1) == Push(f.(pc := f.pc + 1), v);
  }

  lemma BinAgrees(op: BinOp, a: Value, b: Value)
    ensures ExecBinary(OpCode(op), a, b) == BinValue(op, a, b)
  {
    if (op.OpDiv? || op.OpMod?) && a.VU64? && b.VU64? && b.n != 0 {
      QuotientFits(a.n, b.n);
    }
  }

  lemma QuotientFits(a: u64, b: u64)
    requires b != 0
    ensures 0 <= a / b <= U64_MAX && 0 <= a % b <= U64_MAX
  {
  }

  lemma IdentRuns(st: Site, sm: SourceModule, lim: GenLimits, sc: Slots, next: nat, env: Env, f: FrameState, gas: Gas,
                  log: seq<NativeEvent>, x: string)
    returns (locals': seq<Option<Value>>, gas': Gas)
    requires Ready(st, gas) && Holds(sc, next, env, f.locals) && SlotOf(sc, x).Some?
    requires Here(st.code, f.pc, [Load(SlotOf(sc, x).value)])
    ensures Pushes(st, sc, next, f, gas, log, f.pc + 1, One(ReadVar(env, x, log)), locals', gas')
  {
    hide From, Holds, Here;
    HereAt(st.code, f.pc, Load(SlotOf(sc, x).value));
    SlotHolds(sc, next, env, f.locals, x);
    gas' := OneStep(st, f, gas, log);
    var slot, i := SlotOf(sc, x).value, Scope(sc, x).value;
    var held := f.locals[slot];
    locals' := if held.Some? && IsLinearValue(held.value) then f.locals[slot := None] else f.locals;
    if held.Some? && IsLinearValue(held.value) {
      AssignHolds(sc, next, env, f.locals, i, x, None);
    }
  }

  lemma GetFieldAt(st: Site, f: FrameState, below: seq<Value>, v: Value, field: string)
    requires f.stack == below + [v]
    ensures var r := ReadFieldPath(v, [field]);
            Exec(st.vm, st.addr, st.m, GetField(field), f.(pc := f.pc + 1)) ==
            if r.Ok? then Ok(f.(stack := below + [r.value], pc := f.pc + 1)) else Err(r.error)
  {
    assert f.stack[..|f.stack| - 1] == below && [field][1..] == [];
  }

  lemma PathStep(v: Value, path: seq<string>)
    requires path != []
    ensures var first := ReadFieldPath(v, [path[0]]);
            ReadFieldPath(v, path) == if first.Err? then first else ReadFieldPath(first.value, path[1..])
    ensures GetFields(path) == [GetField(path[0])] + GetFields(path[1..])
  {
    assert [path[0]][1..] == [];
  }

  lemma NoFields(st: Site, f: FrameState, gas: Gas, log: seq<NativeEvent>, v: Value)
    requires Ready(st, gas)
    ensures ReadFieldPath(v, []) == Ok(v) && Goes(st, f, gas, log, f, gas, log)
  {
    hide Ready, From;
  }

  /** Taking fields off the top one by one reads the path. */
  lemma {:induction false} GetFieldsRun(st: Site, f: FrameState, gas: Gas, log: seq<NativeEvent>, below: seq<Value>, v: Value, path: seq<string>)
    returns (gas': Gas)
    requires Ready(st, gas) && f.stack == below + [v]
    requires Here(st.code, f.pc, GetFields(path))
    ensures var r := ReadFieldPath(v, path);
            || RunsDry(st, f, gas, log)
            || (r.Err? && Fails(st, f, gas, log, r.error, log))
            || (r.Ok? && Goes(st, f, gas, log, f.(stack := below + [r.value], pc := f.pc + |path|), gas', log))
    decreases |path|
  {
    hide From, Fails, RunsDry, Ready, Exec, Here, Goes, ReadFieldPath, GetFields;
    gas' := gas;
    if path == [] {
      NoFields(st, f, gas, log, v);
    } else {
      PathStep(v, path);
      HereSplit(st.code, f.pc, [GetField(path[0])], GetFields(path[1..]));
      HereAt(st.code, f.pc, GetField(path[0]));
      GetFieldAt(st, f, below, v, path[0]);
      var gas1 := OneStep(st, f, gas, log);
      var first := ReadFieldPath(v, [path[0]]);
      if first.Ok? && !RunsDry(st, f, gas, log) {
        var g := f.(stack := below + [first.value], pc := f.pc + 1);
        gas' := GetFieldsRun(st, g, gas1, log, below, first.value, path[1..]);
        Earlier(st, f, gas, log, g, gas1, log);
        var r := ReadFieldPath(v, path);
        if r.Ok? && Goes(st, g, gas1, log, g.(stack := below + [r.value], pc := g.pc + |path[1..]|), gas', log) {
          GoesOn(st, f, gas, log, g, gas1, log, g.(stack := below + [r.value], pc := g.pc + |path[1..]|), gas', log);
        }
      }
    }
  }

  function Outcomes(r: Res<Value>, env: Env, log: seq<NativeEvent>): (d: Done<seq<Value>>) {
    match r
    case Ok(v) => Val([v], env, log)
    case Err(err) => Bad(err, log)
  }

  function Framed(r: Res<Value>, locals: seq<Option<Value>>, below: seq<Value>, pc: nat): (d: Res<FrameState>) {
    match r
    case Ok(v) => Ok(FrameState(locals, below + [v], pc))
    case Err(err) => Err(err)
  }

  /** Operands are on the stack; one last instruction turns them into the result. */
  lemma LastInstr(st: Site, sc: Slots, next: nat, env: Env, f: FrameState, gas: Gas, log: seq<NativeEvent>,
                  g: FrameState, gas1: Gas, log1: seq<NativeEvent>, r: Res<Value>)
    returns (gas': Gas)
    requires Goes(st, f, gas, log, g, gas1, log1) && |g.locals| == |f.locals| && Holds(sc, next, env, g.locals)
    requires g.pc < |st.code| && !st.code[g.pc].Call? && !st.code[g.pc].Return?
    requires Exec(st.vm, st.addr, st.m, st.code[g.pc], g.(pc := g.pc + 1)) == Framed(r, g.locals, f.stack, g.pc + 1)
    ensures Pushes(st, sc, next, f, gas, log, g.pc + 1, Outcomes(r, env, log1), g.locals, gas')
  {
    hide Exec, From, Holds, Here;
    gas' := OneStep(st, g, gas1, log1);
    Earlier(st, f, gas, log, g, gas1, log1);
  }

  function Prefixed(vs: seq<Value>, d: Done<seq<Value>>): (r: Done<seq<Value>>) {
    match d
    case Val(us, env, log) => Val(vs + us, env, log)
    case Bad(err, log) => Bad(err, log)
    case Stuck => Stuck
  }

  /** Pushing some values and then more. */
  lemma PushThen(st: Site, sc: Slots, next: nat, f: FrameState, gas: Gas, log: seq<NativeEvent>,
                 g: FrameState, gas1: Gas, log1: seq<NativeEvent>, vs: seq<Value>, pc: nat,
                 done: Done<seq<Value>>, locals': seq<Option<Value>>, gas': Gas)
    requires Goes(st, f, gas, log, g, gas1, log1)
    requires g.stack == f.stack + vs && |g.locals| == |f.locals|
    requires Pushes(st, sc, next, g, gas1, log1, pc, done, locals', gas')
    ensures Pushes(st, sc, next, f, gas, log, pc, Prefixed(vs, done), locals', gas')
  {
    hide From, Holds, Here;
    Earlier(st, f, gas, log, g, gas1, log1);
    if done.Val? {
      assert f.stack + (vs + done.value) == g.stack + done.value;
    }
  }

  lemma PushNothing(st: Site, sc: Slots, next: nat, env: Env, f: FrameState, gas: Gas, log: seq<NativeEvent>)
    requires Ready(st, gas) && Holds(sc, next, env, f.locals)
    ensures Pushes(st, sc, next, f, gas, log, f.pc, Val([], env, log), f.locals, gas)
  {
    hide From, Holds, Here;
    assert f == FrameState(f.locals, f.stack + [], f.pc);
  }

  // -------------------------------------------------------------------------- calls

  /** The source's view of a callee and the machine's. */
  lemma ResolveAgrees(w: World, lim: GenLimits, sm: SourceModule, st: Site, callee: Name)
    requires Runs(w, lim, sm, st)
    ensures var c, t := Resolve(w, st.addr, sm, callee), ResolveCall(st.vm, st.addr, st.m, callee);
            && (c.Missing? ==> t == ToNothing(c.error))
            && (c.Native? ==> t == ToNative(c.entry))
            && (c.Source? ==>
                  && t.ToFunction? && t.addr == c.addr
                  && GetFunction(t.m, t.fn.name) == Some(t.fn)
                  && CompileFunction(c.sm, lim, c.fn) == Some(t.fn)
                  && CompiledAs(t.m, c.sm, lim) && ParamsDistinct(c.sm)
                  && AllDistinct(ParamNames(c.fn.params))
                  && (t.m == st.m || exists a :: a in st.vm.deps && t.m == st.vm.deps[a]))
  {
    hide CompileFunction;
    match callee
    case Local(n) => FindAgrees(st.m, sm, lim, n);
    case Qualified(a, n) =>
      if a in st.vm.deps { FindAgrees(st.vm.deps[a], w.deps[a], lim, n); }
  }

  lemma FindAgrees(m: Module, sm: SourceModule, lim: GenLimits, n: string)
    requires CompiledAs(m, sm, lim) && ParamsDistinct(sm)
    ensures var c, t := FindAst(sm.functions, n), GetFunction(m, n);
            && (c.None? <==> t.None?)
            && (c.Some? ==> CompileFunction(sm, lim, c.value) == Some(t.value) && c.value.isPublic == t.value.isPublic
                            && t.value.name == n && AllDistinct(ParamNames(c.value.params)))
  {
    FindAgreesIn(m.functions, sm, lim, sm.functions, n);
    var c := FindAst(sm.functions, n);
    if c.Some? {
      var i :| 0 <= i < |sm.functions| && sm.functions[i] == c.value;
    }
  }

  lemma {:induction false} FindAgreesIn(fns: seq<Function>, sm: SourceModule, lim: GenLimits, asts: seq<AstFunction>, n: string)
    requires |fns| == |asts|
    requires forall i :: 0 <= i < |fns| ==> CompileFunction(sm, lim, asts[i]) == Some(fns[i])
    ensures var c, t := FindAst(asts, n), FindFunction(fns, n);
            && (c.None? <==> t.None?)
            && (c.Some? ==> CompileFunction(sm, lim, c.value) == Some(t.value) && c.value.isPublic == t.value.isPublic
                            && t.value.name == n)
  {
    if fns != [] {
      assert CompileFunction(sm, lim, asts[0]) == Some(fns[0]);
      FindAgreesIn(fns[1..], sm, lim, asts[1..], n);
    }
  }

  /** The machine's call of a native. */
  lemma NativeStep(st: Site, f: FrameState, gas: Gas, log: seq<NativeEvent>, callee: Name, entry: NativeEntry,
                   below: seq<Value>, vs: seq<Value>)
    returns (gas': Gas)
    requires Ready(st, gas) && f.pc < |st.code| && st.code[f.pc] == Call(callee)
    requires ResolveCall(st.vm, st.addr, st.m, callee) == ToNative(entry)
    requires f.stack == below + vs && |vs| == |entry.sig.params|
    ensures var r := entry.func(log, vs);
            || RunsDry(st, f, gas, log)
            || (r.NAbort? && Fails(st, f, gas, log, Aborted(r.code, r.message), log))
            || (r.NError? && Fails(st, f, gas, log, NativeError(r.message), log))
            || (r.NReturn? && Goes(st, f, gas, log, FrameState(f.locals, below + [Landed(r.value)], f.pc + 1), gas',
                                   log + [NativeEvent(entry.sig.name, vs, r.value)]))
  {
    hide ResolveCall;
    var gas1 := Charge(gas, CappedCost(st.code[f.pc])).1;
    gas' := Charge(gas1, entry.gasCost).1;
    StillReady(st, gas, gas');
    assert f.stack[..|f.stack| - |vs|] == below && f.stack[|f.stack| - |vs|..] == vs;
  }

  lemma MissingStep(st: Site, f: FrameState, gas: Gas, log: seq<NativeEvent>, callee: Name, error: VmError)
    requires Ready(st, gas) && f.pc < |st.code| && st.code[f.pc] == Call(callee)
    requires ResolveCall(st.vm, st.addr, st.m, callee) == ToNothing(error)
    ensures RunsDry(st, f, gas, log) || Fails(st, f, gas, log, error, log)
  {
    hide ResolveCall;
  }

  /** How a call ends against how the evaluator's function ends. */
  ghost predicate Ends(o: Outcome, fl: Ast.Flow) {
    Spent(o) ||
    match fl
    case Ret(v, l) => o.Returned? && o.value == v && o.log == l
    case Halt(err, l) => o.Failed? && o.error == err && o.log == l
    case Next(_, _) => false
    case Lost => true
  }

  /** The machine's call of a function whose run is known. */
  lemma EnterStep(st: Site, f: FrameState, gas: Gas, log: seq<NativeEvent>, callee: Name,
                  below: seq<Value>, vs: seq<Value>)
    returns (gas1: Gas)
    requires Ready(st, gas) && f.pc < |st.code| && st.code[f.pc] == Call(callee)
    requires ResolveCall(st.vm, st.addr, st.m, callee).ToFunction?
    requires f.stack == below + vs && |vs| == |ResolveCall(st.vm, st.addr, st.m, callee).fn.params|
    ensures var t := ResolveCall(st.vm, st.addr, st.m, callee);
            && After(gas, gas1) && Halting(st.vm, t.m, gas1) && (gas.limit < U64_MAX ==> gas.spent < gas1.spent || RunsDry(st, f, gas, log))
            && (RunsDry(st, f, gas, log) ||
                var o := CallInner(st.vm, t.addr, t.m, t.fn.name, vs, gas1, log, st.depth + 1);
                && After(gas, o.gas) && Ready(st, o.gas)
                && (o.Failed? ==> From(st, f, gas, log) == o)
                && (o.Returned? ==> Goes(st, f, gas, log, FrameState(f.locals, below + [Landed(o.value)], f.pc + 1), o.gas, o.log)))
  {
    gas1 := Charge(gas, CappedCost(st.code[f.pc])).1;
    StillReady(st, gas, gas1);
    assert f.stack[..|f.stack| - |vs|] == below && f.stack[|f.stack| - |vs|..] == vs;
    var t := ResolveCall(st.vm, st.addr, st.m, callee);
    var o := CallInner(st.vm, t.addr, t.m, t.fn.name, vs, gas1, log, st.depth + 1);
    StillReady(st, gas, o.gas);
  }

  // ---------------------------------------------------------- expressions, all of them

  /** Running the code of an expression pushes its value, or fails as its evaluation does. */
  lemma {:induction false} ExprRuns(
    w: World, lim: GenLimits, sm: SourceModule, st: Site, sc: Slots, next: nat, env: Env,
    f: FrameState, gas: Gas, log: seq<NativeEvent>, e: Expr, seg: seq<Instr>)
    returns (locals': seq<Option<Value>>, gas': Gas)
    requires st.depth < w.maxDepth && Runs(w, lim, sm, st) && Ready(st, gas) && Holds(sc, next, env, f.locals)
    requires CompileExpr(sm, lim, sc, e) == Some(seg) && Here(st.code, f.pc, seg)
    ensures Pushes(st, sc, next, f, gas, log, f.pc + |seg|,
                   One(EvalExpr(w, st.addr, sm, env, log, st.depth, e)), locals', gas')
    decreases w.maxDepth - st.depth, 1, e, 2
  {
    hide Runs, Ready, Holds, Pushes;
    locals' := f.locals;
    match e
    case EBool(b) => HereAt(st.code, f.pc, PushBool(b)); gas' := PushRuns(st, sc, next, env, f, gas, log, VBool(b));
    case EInt(n) => HereAt(st.code, f.pc, PushU64(n)); gas' := PushRuns(st, sc, next, env, f, gas, log, VU64(n));
    case EAddress(a) => HereAt(st.code, f.pc, PushAddress(a)); gas' := PushRuns(st, sc, next, env, f, gas, log, VAddr(a));
    case EStr(s) => HereAt(st.code, f.pc, PushStr(s)); gas' := PushRuns(st, sc, next, env, f, gas, log, VStr(s));
    case EIdent(x) => locals', gas' := IdentRuns(st, sm, lim, sc, next, env, f, gas, log, x);
    case EBin(_, _, _) => locals', gas' := BinRuns(w, lim, sm, st, sc, next, env, f, gas, log, e, seg);
    case ENot(_) => locals', gas' := NotRuns(w, lim, sm, st, sc, next, env, f, gas, log, e, seg);
    case EField(base, field) => locals', gas' := FieldRuns(w, lim, sm, st, sc, next, env, f, gas, log, base, [field], seg);
    case EStruct(_, _) => locals', gas' := StructRuns(w, lim, sm, st, sc, next, env, f, gas, log, e, seg);
    case ETuple(_) => locals', gas' := TupleRuns(w, lim, sm, st, sc, next, env, f, gas, log, e, seg);
    case ECall(_, _) => locals', gas' := CallRuns(w, lim, sm, st, sc, next, env, f, gas, log, e, seg);
  }

  lemma {:induction false} BinRuns(
    w: World, lim: GenLimits, sm: SourceModule, st: Site, sc: Slots, next: nat, env: Env,
    f: FrameState, gas: Gas, log: seq<NativeEvent>, e: Expr, seg: seq<Instr>)
    returns (locals': seq<Option<Value>>, gas': Gas)
    requires st.depth < w.maxDepth && Runs(w, lim, sm, st) && Ready(st, gas) && Holds(sc, next, env, f.locals)
    requires e.EBin? && CompileExpr(sm, lim, sc, e) == Some(seg) && Here(st.code, f.pc, seg)
    ensures Pushes(st, sc, next, f, gas, log, f.pc + |seg|,
                   One(EvalExpr(w, st.addr, sm, env, log, st.depth, e)), locals', gas')
    decreases w.maxDepth - st.depth, 1, e, 1
  {
    hide Runs, Holds, From, Goes, Fails, RunsDry, Ready, ExecBinary, BinValue, Exec, Here;
    var l, r := CompileExpr(sm, lim, sc, e.left).value, CompileExpr(sm, lim, sc, e.right).value;
    var op := OpCode(e.op);
    assert seg == (l + r) + [op];
    HereSplit(st.code, f.pc, l + r, [op]);
    HereSplit(st.code, f.pc, l, r);
    locals', gas' := ExprRuns(w, lim, sm, st, sc, next, env, f, gas, log, e.left, l);
    var d1 := EvalExpr(w, st.addr, sm, env, log, st.depth, e.left);
    if d1.Val? && !RunsDry(st, f, gas, log) {
      var g, gas1, a := FrameState(locals', f.stack + [d1.value], f.pc + |l|), gas', d1.value;
      locals', gas' := ExprRuns(w, lim, sm, st, sc, next, d1.env, g, gas1, d1.log, e.right, r);
      var d2 := EvalExpr(w, st.addr, sm, d1.env, d1.log, st.depth, e.right);
      PushThen(st, sc, next, f, gas, log, g, gas1, d1.log, [a], g.pc + |r|, One(d2), locals', gas');
      if d2.Val? {
        var h := FrameState(locals', f.stack + ([a] + [d2.value]), g.pc + |r|);
        HereAt(st.code, h.pc, op);
        BinAgrees(e.op, a, d2.value);
        OperatorAt(st, h, f.stack, a, d2.value, op);
        gas' := LastInstr(st, sc, next, d2.env, f, gas, log, h, gas', d2.log, BinValue(e.op, a, d2.value));
      }
    }
  }

  lemma OperatorAt(st: Site, h: FrameState, below: seq<Value>, a: Value, b: Value, op: Instr)
    requires IsBinary(op) && h.stack == below + ([a] + [b])
    ensures Exec(st.vm, st.addr, st.m, op, h.(pc := h.pc + 1)) == Framed(ExecBinary(op, a, b), h.locals, below, h.pc + 1)
  {
    hide ExecBinary;
    assert h.stack[..|h.stack| - 2] == below;
  }

  lemma {:induction false} NotRuns(
    w: World, lim: GenLimits, sm: SourceModule, st: Site, sc: Slots, next: nat, env: Env,
    f: FrameState, gas: Gas, log: seq<NativeEvent>, e: Expr, seg: seq<Instr>)
    returns (locals': seq<Option<Value>>, gas': Gas)
    requires st.depth < w.maxDepth && Runs(w, lim, sm, st) && Ready(st, gas) && Holds(sc, next, env, f.locals)
    requires e.ENot? && CompileExpr(sm, lim, sc, e) == Some(seg) && Here(st.code, f.pc, seg)
    ensures Pushes(st, sc, next, f, gas, log, f.pc + |seg|,
                   One(EvalExpr(w, st.addr, sm, env, log, st.depth, e)), locals', gas')
    decreases w.maxDepth - st.depth, 1, e, 1
  {
    hide Runs, Holds, From, Goes, Fails, RunsDry, Ready, Here;
    var a := CompileExpr(sm, lim, sc, e.arg).value;
    HereSplit(st.code, f.pc, a, [Not]);
    locals', gas' := ExprRuns(w, lim, sm, st, sc, next, env, f, gas, log, e.arg, a);
    var d := EvalExpr(w, st.addr, sm, env, log, st.depth, e.arg);
    if d.Val? && !RunsDry(st, f, gas, log) {
      var g := FrameState(locals', f.stack + [d.value], f.pc + |a|);
      HereAt(st.code, g.pc, Not);
      assert g.stack[..|g.stack| - 1] == f.stack;
      gas' := LastInstr(st, sc, next, d.env, f, gas, log, g, gas', d.log,
                        if d.value.VBool? then Ok(VBool(!d.value.b)) else Err(TypeError));
    }
  }

  /** A field path on a variable is read in place. */
  lemma FieldOfVariable(
    w: World, sm: SourceModule, st: Site, sc: Slots, next: nat, env: Env,
    f: FrameState, gas: Gas, log: seq<NativeEvent>, x: string, path: seq<string>)
    returns (gas': Gas)
    requires st.depth < w.maxDepth && Ready(st, gas) && Holds(sc, next, env, f.locals) && SlotOf(sc, x).Some?
    requires Here(st.code, f.pc, [LoadField(SlotOf(sc, x).value, path)])
    ensures Pushes(st, sc, next, f, gas, log, f.pc + 1,
                   One(EvalField(w, st.addr, sm, env, log, st.depth, EIdent(x), path)), f.locals, gas')
  {
    hide From, Holds, Goes, Fails, RunsDry, Ready, Here;
    SlotHolds(sc, next, env, f.locals, x);
    HereAt(st.code, f.pc, LoadField(SlotOf(sc, x).value, path));
    gas' := OneStep(st, f, gas, log);
  }

  /** Taking the fields off a value that has been pushed. */
  lemma FieldOfValue(st: Site, sc: Slots, next: nat, env: Env, f: FrameState, gas: Gas, log: seq<NativeEvent>,
                     g: FrameState, gas1: Gas, log1: seq<NativeEvent>, v: Value, path: seq<string>)
    returns (gas': Gas)
    requires Goes(st, f, gas, log, g, gas1, log1) && Ready(st, gas1) && |g.locals| == |f.locals| && Holds(sc, next, env, g.locals)
    requires g.stack == f.stack + [v] && Here(st.code, g.pc, GetFields(path))
    ensures Pushes(st, sc, next, f, gas, log, g.pc + |path|, Outcomes(ReadFieldPath(v, path), env, log1), g.locals, gas')
  {
    hide From, Holds, Here;
    gas' := GetFieldsRun(st, g, gas1, log1, f.stack, v, path);
    Earlier(st, f, gas, log, g, gas1, log1);
  }

  /** A field path on anything but a variable, in the source and in the code. */
  lemma FieldRoot(
    w: World, lim: GenLimits, sm: SourceModule, addr: Address, sc: Slots, env: Env, log: seq<NativeEvent>, depth: nat,
    base: Expr, path: seq<string>, seg: seq<Instr>)
    requires depth < w.maxDepth && !base.EField? && (base.EIdent? ==> SlotOf(sc, base.x).None? && Scope(env, base.x).None?)
    requires CompileField(sm, lim, sc, base, path) == Some(seg)
    ensures CompileExpr(sm, lim, sc, base).Some? && seg == CompileExpr(sm, lim, sc, base).value + GetFields(path)
    ensures var d := EvalExpr(w, addr, sm, env, log, depth, base);
            One(EvalField(w, addr, sm, env, log, depth, base, path)) ==
              if d.Val? then Outcomes(ReadFieldPath(d.value, path), d.env, d.log) else One(d)
  {
    hide EvalExpr, CompileExpr, ReadFieldPath;
  }

  lemma {:induction false} RootRuns(
    w: World, lim: GenLimits, sm: SourceModule, st: Site, sc: Slots, next: nat, env: Env,
    f: FrameState, gas: Gas, log: seq<NativeEvent>, base: Expr, path: seq<string>, seg: seq<Instr>)
    returns (locals': seq<Option<Value>>, gas': Gas)
    requires st.depth < w.maxDepth && Runs(w, lim, sm, st) && Ready(st, gas) && Holds(sc, next, env, f.locals)
    requires !base.EField? && (base.EIdent? ==> SlotOf(sc, base.x).None? && Scope(env, base.x).None?)
    requires CompileField(sm, lim, sc, base, path) == Some(seg) && Here(st.code, f.pc, seg)
    ensures Pushes(st, sc, next, f, gas, log, f.pc + |seg|,
                   One(EvalField(w, st.addr, sm, env, log, st.depth, base, path)), locals', gas')
    decreases w.maxDepth - st.depth, 1, base, 3
  {
    hide Runs, Holds, From, Goes, Fails, RunsDry, Ready, ReadFieldPath, EvalExpr, CompileExpr, EvalField, CompileField, Here;
    FieldRoot(w, lim, sm, st.addr, sc, env, log, st.depth, base, path, seg);
    var code := CompileExpr(sm, lim, sc, base).value;
    HereSplit(st.code, f.pc, code, GetFields(path));
    locals', gas' := ExprRuns(w, lim, sm, st, sc, next, env, f, gas, log, base, code);
    var d := EvalExpr(w, st.addr, sm, env, log, st.depth, base);
    if d.Val? && !RunsDry(st, f, gas, log) {
      var g := FrameState(locals', f.stack + [d.value], f.pc + |code|);
      gas' := FieldOfValue(st, sc, next, d.env, f, gas, log, g, gas', d.log, d.value, path);
    }
  }

  /** A field path: in place on a variable, else off the value of its root. */
  lemma {:induction false} FieldRuns(
    w: World, lim: GenLimits, sm: SourceModule, st: Site, sc: Slots, next: nat, env: Env,
    f: FrameState, gas: Gas, log: seq<NativeEvent>, base: Expr, path: seq<string>, seg: seq<Instr>)
    returns (locals': seq<Option<Value>>, gas': Gas)
    requires st.depth < w.maxDepth && Runs(w, lim, sm, st) && Ready(st, gas) && Holds(sc, next, env, f.locals)
    requires CompileField(sm, lim, sc, base, path) == Some(seg) && Here(st.code, f.pc, seg)
    ensures Pushes(st, sc, next, f, gas, log, f.pc + |seg|,
                   One(EvalField(w, st.addr, sm, env, log, st.depth, base, path)), locals', gas')
    decreases w.maxDepth - st.depth, 1, base, 4
  {
    if base.EIdent? { SameScope(sc, env, base.x); }
    if base.EField? {
      locals', gas' := FieldRuns(w, lim, sm, st, sc, next, env, f, gas, log, base.base, [base.field] + path, seg);
    } else if base.EIdent? && SlotOf(sc, base.x).Some? {
      locals' := f.locals;
      gas' := FieldOfVariable(w, sm, st, sc, next, env, f, gas, log, base.x, path);
    } else {
      locals', gas' := RootRuns(w, lim, sm, st, sc, next, env, f, gas, log, base, path, seg);
    }
  }

  lemma {:induction false} ExprsRun(
    w: World, lim: GenLimits, sm: SourceModule, st: Site, sc: Slots, next: nat, env: Env,
    f: FrameState, gas: Gas, log: seq<NativeEvent>, es: seq<Expr>, seg: seq<Instr>)
    returns (locals': seq<Option<Value>>, gas': Gas)
    requires st.depth < w.maxDepth && Runs(w, lim, sm, st) && Ready(st, gas) && Holds(sc, next, env, f.locals)
    requires CompileExprs(sm, lim, sc, es) == Some(seg) && Here(st.code, f.pc, seg)
    ensures Pushes(st, sc, next, f, gas, log, f.pc + |seg|,
                   EvalExprs(w, st.addr, sm, env, log, st.depth, es), locals', gas')
    decreases w.maxDepth - st.depth, 1, es, 0
  {
    hide Runs, Holds, From, Goes, Fails, RunsDry, Ready, Here;
    locals', gas' := f.locals, gas;
    if es == [] {
      PushNothing(st, sc, next, env, f, gas, log);
    } else {
      var a, b := CompileExprs(sm, lim, sc, es[..|es| - 1]).value, CompileExpr(sm, lim, sc, es[|es| - 1]).value;
      HereSplit(st.code, f.pc, a, b);
      locals', gas' := ExprsRun(w, lim, sm, st, sc, next, env, f, gas, log, es[..|es| - 1], a);
      var d1 := EvalExprs(w, st.addr, sm, env, log, st.depth, es[..|es| - 1]);
      if d1.Val? && !RunsDry(st, f, gas, log) {
        var g, gas1 := FrameState(locals', f.stack + d1.value, f.pc + |a|), gas';
        locals', gas' := ExprRuns(w, lim, sm, st, sc, next, d1.env, g, gas1, d1.log, es[|es| - 1], b);
        var d2 := EvalExpr(w, st.addr, sm, d1.env, d1.log, st.depth, es[|es| - 1]);
        PushThen(st, sc, next, f, gas, log, g, gas1, d1.log, d1.value, g.pc + |b|, One(d2), locals', gas');
      }
    }
  }

  lemma {:induction false} InitsRun(
    w: World, lim: GenLimits, sm: SourceModule, st: Site, sc: Slots, next: nat, env: Env,
    f: FrameState, gas: Gas, log: seq<NativeEvent>, inits: seq<Init>, names: seq<string>, seg: seq<Instr>)
    returns (locals': seq<Option<Value>>, gas': Gas)
    requires st.depth < w.maxDepth && Runs(w, lim, sm, st) && Ready(st, gas) && Holds(sc, next, env, f.locals)
    requires CompileInits(sm, lim, sc, inits, names) == Some(seg) && Here(st.code, f.pc, seg)
    ensures Pushes(st, sc, next, f, gas, log, f.pc + |seg|,
                   EvalInits(w, st.addr, sm, env, log, st.depth, inits, names), locals', gas')
    decreases w.maxDepth - st.depth, 1, inits, |names|
  {
    hide Runs, Holds, From, Goes, Fails, RunsDry, Ready, Here;
    locals', gas' := f.locals, gas;
    if names == [] {
      PushNothing(st, sc, next, env, f, gas, log);
    } else {
      var init, e := names[..|names| - 1], LastInit(inits, names[|names| - 1]).value;
      var a, b := CompileInits(sm, lim, sc, inits, init).value, CompileExpr(sm, lim, sc, e).value;
      HereSplit(st.code, f.pc, a, b);
      locals', gas' := InitsRun(w, lim, sm, st, sc, next, env, f, gas, log, inits, init, a);
      var d1 := EvalInits(w, st.addr, sm, env, log, st.depth, inits, init);
      if d1.Val? && !RunsDry(st, f, gas, log) {
        var g, gas1 := FrameState(locals', f.stack + d1.value, f.pc + |a|), gas';
        locals', gas' := ExprRuns(w, lim, sm, st, sc, next, d1.env, g, gas1, d1.log, e, b);
        var d2 := EvalExpr(w, st.addr, sm, d1.env, d1.log, st.depth, e);
        PushThen(st, sc, next, f, gas, log, g, gas1, d1.log, d1.value, g.pc + |b|, One(d2), locals', gas');
      }
    }
  }

  lemma NewStructAt(st: Site, g: FrameState, below: seq<Value>, name: string, names: seq<string>, vs: seq<Value>)
    requires g.stack == below + vs && |vs| == |names| && GetStruct(st.m, name).Some?
    ensures Exec(st.vm, st.addr, st.m, NewStruct(Local(name), names), g.(pc := g.pc + 1))
         == Framed(Ok(VStruct(Qualified(st.addr, name), MakeFields(names, vs))), g.locals, below, g.pc + 1)
  {
    assert g.stack[..|g.stack| - |names|] == below && g.stack[|g.stack| - |names|..] == vs;
  }

  lemma MakeTupleAt(st: Site, g: FrameState, below: seq<Value>, vs: seq<Value>)
    requires g.stack == below + vs
    ensures Exec(st.vm, st.addr, st.m, MakeTuple(|vs|), g.(pc := g.pc + 1))
         == Framed(Ok(VTuple(vs)), g.locals, below, g.pc + 1)
  {
    assert g.stack[..|g.stack| - |vs|] == below && g.stack[|g.stack| - |vs|..] == vs;
  }

  lemma StructCompiled(w: World, lim: GenLimits, sm: SourceModule, st: Site, sc: Slots, e: Expr, seg: seq<Instr>)
    returns (def: StructDef)
    requires Runs(w, lim, sm, st) && e.EStruct? && CompileExpr(sm, lim, sc, e) == Some(seg)
    ensures FindStruct(sm.structs, e.name) == Some(def) && GetStruct(st.m, e.name).Some?
    ensures CompileInits(sm, lim, sc, e.inits, FieldNames(def)).Some?
    ensures seg == CompileInits(sm, lim, sc, e.inits, FieldNames(def)).value + [NewStruct(Local(e.name), FieldNames(def))]
  {
    hide CompileInits;
    def := FindStruct(sm.structs, e.name).value;
    assert GetStruct(st.m, e.name) == Some(def);
  }

  /** The evaluator on a struct literal. */
  lemma StructEvaluated(w: World, addr: Address, sm: SourceModule, env: Env, log: seq<NativeEvent>, depth: nat, e: Expr,
                        def: StructDef)
    requires depth < w.maxDepth && e.EStruct? && FindStruct(sm.structs, e.name) == Some(def)
    ensures var d := EvalInits(w, addr, sm, env, log, depth, e.inits, FieldNames(def));
            One(EvalExpr(w, addr, sm, env, log, depth, e)) ==
            if d.Val? then Outcomes(Ok(VStruct(Qualified(addr, e.name), MakeFields(FieldNames(def), d.value))), d.env, d.log)
            else d
  {
    hide EvalInits, MakeFields;
  }

  lemma {:induction false} StructRuns(
    w: World, lim: GenLimits, sm: SourceModule, st: Site, sc: Slots, next: nat, env: Env,
    f: FrameState, gas: Gas, log: seq<NativeEvent>, e: Expr, seg: seq<Instr>)
    returns (locals': seq<Option<Value>>, gas': Gas)
    requires st.depth < w.maxDepth && Runs(w, lim, sm, st) && Ready(st, gas) && Holds(sc, next, env, f.locals)
    requires e.EStruct? && CompileExpr(sm, lim, sc, e) == Some(seg) && Here(st.code, f.pc, seg)
    ensures Pushes(st, sc, next, f, gas, log, f.pc + |seg|,
                   One(EvalExpr(w, st.addr, sm, env, log, st.depth, e)), locals', gas')
    decreases w.maxDepth - st.depth, 1, e, 1
  {
    hide Runs, Holds, From, Goes, Fails, RunsDry, Ready, Exec, Here, GetStruct, FieldNames, MakeFields;
    hide CompileExpr, EvalExpr, EvalInits, CompileInits, FindStruct;
    var def := StructCompiled(w, lim, sm, st, sc, e, seg);
    StructEvaluated(w, st.addr, sm, env, log, st.depth, e, def);
    var names := FieldNames(def);
    var a := CompileInits(sm, lim, sc, e.inits, names).value;
    HereSplit(st.code, f.pc, a, [NewStruct(Local(e.name), names)]);
    locals', gas' := InitsRun(w, lim, sm, st, sc, next, env, f, gas, log, e.inits, names, a);
    var d := EvalInits(w, st.addr, sm, env, log, st.depth, e.inits, names);
    if d.Val? && !RunsDry(st, f, gas, log) {
      var g := FrameState(locals', f.stack + d.value, f.pc + |a|);
      HereAt(st.code, g.pc, NewStruct(Local(e.name), names));
      NewStructAt(st, g, f.stack, e.name, names, d.value);
      gas' := LastInstr(st, sc, next, d.env, f, gas, log, g, gas', d.log,
                        Ok(VStruct(Qualified(st.addr, e.name), MakeFields(names, d.value))));
    }
  }

  lemma {:induction false} TupleRuns(
    w: World, lim: GenLimits, sm: SourceModule, st: Site, sc: Slots, next: nat, env: Env,
    f: FrameState, gas: Gas, log: seq<NativeEvent>, e: Expr, seg: seq<Instr>)
    returns (locals': seq<Option<Value>>, gas': Gas)
    requires st.depth < w.maxDepth && Runs(w, lim, sm, st) && Ready(st, gas) && Holds(sc, next, env, f.locals)
    requires e.ETuple? && CompileExpr(sm, lim, sc, e) == Some(seg) && Here(st.code, f.pc, seg)
    ensures Pushes(st, sc, next, f, gas, log, f.pc + |seg|,
                   One(EvalExpr(w, st.addr, sm, env, log, st.depth, e)), locals', gas')
    decreases w.maxDepth - st.depth, 1, e, 1
  {
    hide Runs, Holds, From, Goes, Fails, RunsDry, Ready, Exec, Here;
    var a := CompileExprs(sm, lim, sc, e.items).value;
    HereSplit(st.code, f.pc, a, [MakeTuple(|e.items|)]);
    locals', gas' := ExprsRun(w, lim, sm, st, sc, next, env, f, gas, log, e.items, a);
    var d := EvalExprs(w, st.addr, sm, env, log, st.depth, e.items);
    if d.Val? && !RunsDry(st, f, gas, log) {
      var g := FrameState(locals', f.stack + d.value, f.pc + |a|);
      HereAt(st.code, g.pc, MakeTuple(|e.items|));
      MakeTupleAt(st, g, f.stack, d.value);
      gas' := LastInstr(st, sc, next, d.env, f, gas, log, g, gas', d.log, Ok(VTuple(d.value)));
    }
  }

  lemma {:induction false} CallRuns(
    w: World, lim: GenLimits, sm: SourceModule, st: Site, sc: Slots, next: nat, env: Env,
    f: FrameState, gas: Gas, log: seq<NativeEvent>, e: Expr, seg: seq<Instr>)
    returns (locals': seq<Option<Value>>, gas': Gas)
    requires st.depth < w.maxDepth && Runs(w, lim, sm, st) && Ready(st, gas) && Holds(sc, next, env, f.locals)
    requires e.ECall? && CompileExpr(sm, lim, sc, e) == Some(seg) && Here(st.code, f.pc, seg)
    ensures Pushes(st, sc, next, f, gas, log, f.pc + |seg|,
                   One(EvalExpr(w, st.addr, sm, env, log, st.depth, e)), locals', gas')
    decreases w.maxDepth - st.depth, 1, e, 1
  {
    hide Runs, Holds, From, Goes, Fails, RunsDry, Ready, EvalCall, Here;
    var a, n := CompileExprs(sm, lim, sc, e.args).value, Translate(sm, e.callee).value;
    HereSplit(st.code, f.pc, a, [Call(n)]);
    locals', gas' := ExprsRun(w, lim, sm, st, sc, next, env, f, gas, log, e.args, a);
    var d := EvalExprs(w, st.addr, sm, env, log, st.depth, e.args);
    if d.Val? && !RunsDry(st, f, gas, log) {
      var g, gas1 := FrameState(locals', f.stack + d.value, f.pc + |a|), gas';
      HereAt(st.code, g.pc, Call(n));
      gas' := InvokeRuns(w, lim, sm, st, sc, next, d.env, f, g, gas1, d.log, n, d.value);
      Invoked(st, sc, next, d.env, f, gas, log, g, gas1, d.log, gas',
              EvalCall(w, st.addr, sm, d.env, d.log, st.depth, n, d.value));
    }
  }

  /** A call that has happened, seen from before its arguments. */
  lemma Invoked(st: Site, sc: Slots, next: nat, env: Env, f: FrameState, gas: Gas, log: seq<NativeEvent>,
                g: FrameState, gas1: Gas, log1: seq<NativeEvent>, gas': Gas, d: Done<Value>)
    requires Goes(st, f, gas, log, g, gas1, log1) && |g.locals| == |f.locals| && Holds(sc, next, env, g.locals)
    requires d.Val? ==> d.env == env
    requires || RunsDry(st, g, gas1, log1) || d.Stuck?
             || (d.Bad? && Fails(st, g, gas1, log1, d.error, d.log))
             || (d.Val? && Goes(st, g, gas1, log1, FrameState(g.locals, f.stack + [d.value], g.pc + 1), gas', d.log))
    ensures Pushes(st, sc, next, f, gas, log, g.pc + 1, One(d), g.locals, gas')
  {
    hide From, Holds, Here;
    Earlier(st, f, gas, log, g, gas1, log1);
  }

  /** The call instruction itself, with the arguments on the stack. */
  lemma {:induction false} InvokeRuns(
    w: World, lim: GenLimits, sm: SourceModule, st: Site, sc: Slots, next: nat, env: Env,
    f: FrameState, g: FrameState, gas: Gas, log: seq<NativeEvent>, callee: Name, vs: seq<Value>)
    returns (gas': Gas)
    requires st.depth < w.maxDepth && Runs(w, lim, sm, st) && Ready(st, gas)
    requires g.pc < |st.code| && st.code[g.pc] == Call(callee) && g.stack == f.stack + vs
    ensures var d := EvalCall(w, st.addr, sm, env, log, st.depth, callee, vs);
            || RunsDry(st, g, gas, log) || d.Stuck?
            || (d.Bad? && Fails(st, g, gas, log, d.error, d.log))
            || (d.Val? && Goes(st, g, gas, log, FrameState(g.locals, f.stack + [d.value], g.pc + 1), gas', d.log))
    decreases w.maxDepth - st.depth, 0
  {
    hide From, Built, CompileFunction, CompiledAs, ParamsDistinct, Here;
    gas' := gas;
    ResolveAgrees(w, lim, sm, st, callee);
    match Resolve(w, st.addr, sm, callee)
    case Missing(err) => MissingStep(st, g, gas, log, callee, err);
    case Native(entry) =>
      if |vs| == |entry.sig.params| {
        gas' := NativeStep(st, g, gas, log, callee, entry, f.stack, vs);
      }
    case Source(a, sm', fn) =>
      if |vs| == |fn.params| {
        var t := ResolveCall(st.vm, st.addr, st.m, callee);
        SameParams(sm', lim, fn, t.fn);
        var gas1 := EnterStep(st, g, gas, log, callee, f.stack, vs);
        FunctionRuns(w, lim, sm', st.vm, t.addr, t.m, fn, t.fn, vs, gas1, log, st.depth + 1);
        gas' := CallInner(st.vm, t.addr, t.m, t.fn.name, vs, gas1, log, st.depth + 1).gas;
      }
  }

  lemma SameParams(sm: SourceModule, lim: GenLimits, ast: AstFunction, fn: Function)
    requires CompileFunction(sm, lim, ast) == Some(fn)
    ensures fn.params == ast.params && fn.name == ast.name
  {
  }

  // --------------------------------------------------------------------- statements

  /** The run goes on after the segment with an empty stack, returns, or fails, as the evaluator
      says. */
  ghost predicate Moves(st: Site, sc: Slots, next: nat, f: FrameState, gas: Gas, log: seq<NativeEvent>,
                        g: FrameState, fl: Ast.Flow, gas': Gas) {
    RunsDry(st, f, gas, log) ||
    match fl
    case Lost => true
    case Halt(err, l) => Fails(st, f, gas, log, err, l)
    case Ret(v, l) =>
      Ready(st, gas) && From(st, f, gas, log).Returned? && From(st, f, gas, log).value == v && From(st, f, gas, log).log == l
    case Next(env', l) =>
      |g.locals| == |f.locals| && Holds(sc, next, env', g.locals) && Ready(st, gas') && Goes(st, f, gas, log, g, gas', l)
  }

  /** What happens from a frame the run goes on to happens from the start. */
  lemma MovesLater(st: Site, sc: Slots, next: nat, f: FrameState, gas: Gas, log: seq<NativeEvent>,
                   h: FrameState, gas1: Gas, log1: seq<NativeEvent>, g: FrameState, fl: Ast.Flow, gas': Gas)
    requires Goes(st, f, gas, log, h, gas1, log1) && |h.locals| == |f.locals|
    requires Moves(st, sc, next, h, gas1, log1, g, fl, gas')
    ensures Moves(st, sc, next, f, gas, log, g, fl, gas')
  {
    hide From, Holds, Here;
  }

  lemma MoveNothing(st: Site, sc: Slots, next: nat, env: Env, f: FrameState, gas: Gas, log: seq<NativeEvent>)
    requires Ready(st, gas) && Holds(sc, next, env, f.locals)
    ensures Moves(st, sc, next, f, gas, log, f, Next(env, log), gas)
  {
    hide From, Holds, Here;
  }

  lemma MoveOnce(st: Site, sc: Slots, next: nat, env: Env, f: FrameState, gas: Gas, log: seq<NativeEvent>,
                 g: FrameState, gas': Gas)
    requires Goes(st, f, gas, log, g, gas', log) && |g.locals| == |f.locals| && Holds(sc, next, env, g.locals)
    ensures Moves(st, sc, next, f, gas, log, g, Next(env, log), gas')
  {
    hide From, Holds, Here;
  }

  lemma MoveReturns(st: Site, sc: Slots, next: nat, f: FrameState, gas: Gas, log: seq<NativeEvent>, g: FrameState, gas': Gas)
    requires Ready(st, gas) && f.pc < |st.code| && st.code[f.pc].Return?
    ensures Moves(st, sc, next, f, gas, log, g, Ret(Top(f.stack), log), gas')
  {
    hide From, Holds, Here;
    ReturnStep(st, f, gas, log);
  }

  /** Slots further up may be left for later. */
  lemma HoldsMore(sc: Slots, next: nat, more: nat, env: Env, locals: seq<Option<Value>>)
    requires Holds(sc, next, env, locals) && next <= more <= |locals|
    ensures Holds(sc, more, env, locals)
  {
  }

  lemma HoldsInner(sc: Slots, next: nat, env: Env, locals: seq<Option<Value>>)
    requires Holds(sc, next, env, locals)
    ensures Holds(sc + [map[]], next, env + [map[]], locals)
  {
  }

  lemma HoldsOuter(sc: Slots, next: nat, env: Env, locals: seq<Option<Value>>)
    requires Holds(sc, next, env, locals) && sc != []
    ensures Holds(sc[..|sc| - 1], next, env[..|env| - 1], locals)
  {
    var n := |sc| - 1;
    forall i, x | 0 <= i < n && x in sc[..n][i]
      ensures sc[..n][i][x] < next && locals[sc[..n][i][x]] == env[..n][i][x]
    {
      assert x in sc[i];
    }
  }

  lemma NewNames(sc: Slots, env: Env, x: string, v: Value, next: nat, sc': Slots)
    requires SameNames(sc, env) && sc != [] && |sc'| == |sc| && sc'[..|sc| - 1] == sc[..|sc| - 1]
    requires sc'[|sc| - 1] == sc[|sc| - 1][x := next]
    ensures SameNames(sc', Assign(env, |env| - 1, x, Some(v)))
  {
    var env' := Assign(env, |env| - 1, x, Some(v));
    forall i | 0 <= i < |sc'|
      ensures sc'[i].Keys == env'[i].Keys
    {
      assert sc[i].Keys == env[i].Keys;
      if i < |sc| - 1 { assert sc'[i] == sc'[..|sc| - 1][i] == sc[i]; }
    }
  }

  /** Where a binding of the extended scopes comes from. */
  lemma NewOrOld(sc: Slots, x: string, next: nat, sc': Slots, i: nat, y: string)
    requires sc != [] && |sc'| == |sc| && sc'[..|sc| - 1] == sc[..|sc| - 1]
    requires sc'[|sc| - 1] == sc[|sc| - 1][x := next]
    requires i < |sc'| && y in sc'[i]
    ensures if i == |sc| - 1 && y == x then sc'[i][y] == next else y in sc[i] && sc'[i][y] == sc[i][y]
  {
    if i < |sc| - 1 { assert sc'[i] == sc'[..|sc| - 1][i] == sc[i]; }
  }

  /** A new name in a new slot. */
  lemma HoldsNew(sc: Slots, next: nat, env: Env, locals: seq<Option<Value>>, x: string, v: Value, sc': Slots)
    requires Holds(sc, next, env, locals) && sc != [] && x !in sc[|sc| - 1] && next < |locals|
    requires |sc'| == |sc| && sc'[..|sc| - 1] == sc[..|sc| - 1] && sc'[|sc| - 1] == sc[|sc| - 1][x := next]
    ensures x !in env[|env| - 1]
    ensures Holds(sc', next + 1, Assign(env, |env| - 1, x, Some(v)), locals[next := Some(v)])
  {
    var n, env', locals' := |sc| - 1, Assign(env, |env| - 1, x, Some(v)), locals[next := Some(v)];
    assert x !in env[n] by { assert sc[n].Keys == env[n].Keys; }
    NewNames(sc, env, x, v, next, sc');
    forall i, y | 0 <= i < |sc'| && y in sc'[i]
      ensures y in env'[i].Keys && sc'[i][y] < next + 1 && locals'[sc'[i][y]] == env'[i][y]
    {
      assert sc'[i].Keys == env'[i].Keys;
      NewOrOld(sc, x, next, sc', i, y);
    }
    forall i, y, j, z | 0 <= i < |sc'| && y in sc'[i] && 0 <= j < |sc'| && z in sc'[j] && sc'[i][y] == sc'[j][z]
      ensures i == j && y == z
    {
      NewOrOld(sc, x, next, sc', i, y);
      NewOrOld(sc, x, next, sc', j, z);
    }
  }

  lemma StoreAt(st: Site, f: FrameState, below: seq<Value>, v: Value, slot: nat)
    requires f.stack == below + [v] && slot < |f.locals|
    ensures Exec(st.vm, st.addr, st.m, Store(slot), f.(pc := f.pc + 1))
         == if f.locals[slot].Some? && IsLinearValue(f.locals[slot].value) then Err(SlotOverwrite)
            else Ok(FrameState(f.locals[slot := Some(v)], below, f.pc + 1))
  {
    assert f.stack[..|f.stack| - 1] == below;
  }

  /** What storing in the slot of a name does to the variables. */
  lemma BindHolds(lim: GenLimits, sc: Slots, next: nat, env: Env, locals: seq<Option<Value>>, x: string, v: Value, gen: Gen)
    returns (slot: nat)
    requires Holds(sc, next, env, locals) && sc != [] && env != []
    requires Alloc(lim, sc, next, x) == Some(gen) && gen.next <= |locals|
    ensures gen.code == [Store(slot)] && slot < |locals|
    ensures Blocked(env, |env| - 1, x) <==> locals[slot].Some? && IsLinearValue(locals[slot].value)
    ensures Holds(gen.sc, gen.next, Assign(env, |env| - 1, x, Some(v)), locals[slot := Some(v)])
  {
    var n := |sc| - 1;
    slot := gen.code[0].slot;
    assert x in sc[n] <==> x in env[n] by { assert sc[n].Keys == env[n].Keys; }
    if x in sc[n] {
      AssignHolds(sc, next, env, locals, n, x, Some(v));
    } else {
      HoldsNew(sc, next, env, locals, x, v, gen.sc);
    }
  }

  /** Storing the top of the stack binds it in the innermost scope. */
  lemma BindRuns(st: Site, lim: GenLimits, sc: Slots, next: nat, env: Env, f: FrameState, gas: Gas, log: seq<NativeEvent>,
                 below: seq<Value>, x: string, v: Value, gen: Gen)
    returns (g: FrameState, gas': Gas)
    requires Ready(st, gas) && Holds(sc, next, env, f.locals) && sc != [] && env != [] && f.stack == below + [v]
    requires Alloc(lim, sc, next, x) == Some(gen) && gen.next <= |f.locals|
    requires Here(st.code, f.pc, gen.code)
    ensures g == FrameState(g.locals, below, f.pc + |gen.code|)
    ensures Moves(st, gen.sc, gen.next, f, gas, log, g, Bind(env, x, v, log), gas')
  {
    hide From, Holds, Goes, Fails, RunsDry, Ready, Exec, Alloc, Blocked, Here;
    var slot := BindHolds(lim, sc, next, env, f.locals, x, v, gen);
    HereAt(st.code, f.pc, Store(slot));
    StoreAt(st, f, below, v, slot);
    gas' := OneStep(st, f, gas, log);
    g := FrameState(f.locals[slot := Some(v)], below, f.pc + 1);
  }

  lemma {:induction false} BindAllRuns(
    st: Site, lim: GenLimits, sc: Slots, next: nat, env: Env, f: FrameState, gas: Gas, log: seq<NativeEvent>,
    below: seq<Value>, names: seq<string>, vs: seq<Value>, gen: Gen)
    returns (g: FrameState, gas': Gas)
    requires Ready(st, gas) && Holds(sc, next, env, f.locals) && sc != [] && env != []
    requires |names| == |vs| && f.stack == below + Reverse(vs)
    requires AllocAll(lim, sc, next, names) == Some(gen) && gen.next <= |f.locals|
    requires Here(st.code, f.pc, gen.code)
    ensures g == FrameState(g.locals, below, f.pc + |gen.code|)
    ensures Moves(st, gen.sc, gen.next, f, gas, log, g, BindAll(env, names, vs, log), gas')
    decreases |names|
  {
    hide From, Holds, Alloc, Bind, Goes, Fails, RunsDry, Ready, Here;
    if names == [] {
      g, gas' := f, gas;
      assert f.stack == below;
      MoveNothing(st, sc, next, env, f, gas, log);
    } else {
      var first := Alloc(lim, sc, next, names[0]).value;
      var rest := AllocAll(lim, first.sc, first.next, names[1..]).value;
      HereSplit(st.code, f.pc, first.code, rest.code);
      ReverseFirst(vs);
      assert f.stack == (below + Reverse(vs[1..])) + [vs[0]];
      var h, gas1 := BindRuns(st, lim, sc, next, env, f, gas, log, below + Reverse(vs[1..]), names[0], vs[0], first);
      g, gas' := FrameState(f.locals, below, f.pc + |gen.code|), gas1;
      var b := Bind(env, names[0], vs[0], log);
      if b.Next? && !RunsDry(st, f, gas, log) {
        g, gas' := BindAllRuns(st, lim, first.sc, first.next, b.env, h, gas1, b.log, below, names[1..], vs[1..], rest);
        MovesLater(st, gen.sc, gen.next, f, gas, log, h, gas1, b.log, g, BindAll(env, names, vs, log), gas');
      }
    }
  }

  lemma ReverseFirst(vs: seq<Value>)
    requires vs != []
    ensures Reverse(vs) == Reverse(vs[1..]) + [vs[0]]
  {
    var a, b := Reverse(vs), Reverse(vs[1..]) + [vs[0]];
    forall i | 0 <= i < |a|
      ensures a[i] == b[i]
    {
    }
  }

  lemma ReverseTwice(vs: seq<Value>)
    ensures Reverse(Reverse(vs)) == vs
  {
    forall i | 0 <= i < |vs|
      ensures Reverse(Reverse(vs))[i] == vs[i]
    {
    }
  }

  /** Dropping the top of the stack. */
  lemma PopRuns(st: Site, sc: Slots, next: nat, env: Env, f: FrameState, gas: Gas, log: seq<NativeEvent>,
                below: seq<Value>, v: Value)
    returns (g: FrameState, gas': Gas)
    requires Ready(st, gas) && Holds(sc, next, env, f.locals) && f.stack == below + [v]
    requires Here(st.code, f.pc, [Pop])
    ensures g == FrameState(f.locals, below, f.pc + 1)
    ensures Moves(st, sc, next, f, gas, log, g, Next(env, log), gas')
  {
    hide From, Holds, Here;
    HereAt(st.code, f.pc, Pop);
    gas' := OneStep(st, f, gas, log);
    assert f.stack[..|f.stack| - 1] == below;
    g := FrameState(f.locals, below, f.pc + 1);
  }

  lemma {:induction false} BindFieldsRuns(
    st: Site, lim: GenLimits, sc: Slots, next: nat, env: Env, f: FrameState, gas: Gas, log: seq<NativeEvent>,
    below: seq<Value>, bs: seq<Binding>, fields: seq<string>, vs: seq<Value>, gen: Gen)
    returns (g: FrameState, gas': Gas)
    requires Ready(st, gas) && Holds(sc, next, env, f.locals) && sc != [] && env != []
    requires |fields| == |vs| && f.stack == below + Reverse(vs)
    requires AllocFields(lim, sc, next, bs, fields) == Some(gen) && gen.next <= |f.locals|
    requires Here(st.code, f.pc, gen.code)
    ensures g == FrameState(g.locals, below, f.pc + |gen.code|)
    ensures Moves(st, gen.sc, gen.next, f, gas, log, g, BindFields(env, bs, fields, vs, log), gas')
    decreases |fields|
  {
    hide From, Holds, Alloc, Bind, Bound, Goes, Fails, RunsDry, Ready, Here;
    if fields == [] {
      g, gas' := f, gas;
      assert f.stack == below;
      MoveNothing(st, sc, next, env, f, gas, log);
    } else {
      var x := Bound(bs, fields[0]);
      var first := if x.None? then Gen([Pop], sc, next) else Alloc(lim, sc, next, x.value).value;
      var rest := AllocFields(lim, first.sc, first.next, bs, fields[1..]).value;
      HereSplit(st.code, f.pc, first.code, rest.code);
      ReverseFirst(vs);
      var under := below + Reverse(vs[1..]);
      assert f.stack == under + [vs[0]];
      var b := if x.None? then Next(env, log) else Bind(env, x.value, vs[0], log);
      var h, gas1;
      if x.None? {
        h, gas1 := PopRuns(st, sc, next, env, f, gas, log, under, vs[0]);
      } else {
        h, gas1 := BindRuns(st, lim, sc, next, env, f, gas, log, under, x.value, vs[0], first);
      }
      g, gas' := FrameState(f.locals, below, f.pc + |gen.code|), gas1;
      if b.Next? && !RunsDry(st, f, gas, log) {
        g, gas' := BindFieldsRuns(st, lim, first.sc, first.next, b.env, h, gas1, b.log, below, bs, fields[1..], vs[1..], rest);
        MovesLater(st, gen.sc, gen.next, f, gas, log, h, gas1, b.log, g, BindFields(env, bs, fields, vs, log), gas');
      }
    }
  }

  /** What a statement does with the value on the stack. */
  lemma TailRuns(
    w: World, lim: GenLimits, sm: SourceModule, st: Site, sc: Slots, next: nat, env: Env,
    f: FrameState, gas: Gas, log: seq<NativeEvent>, s: Stmt, v: Value, gen: Gen)
    returns (g: FrameState, gas': Gas)
    requires Ready(st, gas) && Holds(sc, next, env, f.locals) && sc != [] && env != [] && f.stack == [v]
    requires !s.SReturn? && !s.SIf?
    requires CompileTail(sm, lim, sc, next, s) == Some(gen) && gen.next <= |f.locals|
    requires Here(st.code, f.pc, gen.code)
    ensures g == FrameState(g.locals, [], f.pc + |gen.code|)
    ensures Moves(st, gen.sc, gen.next, f, gas, log, g, Finish(sm, env, log, s, v), gas')
  {
    hide From, Holds, Moves, Here;
    assert f.stack == [] + [v];
    match s
    case SLet(x, _) => g, gas' := BindRuns(st, lim, sc, next, env, f, gas, log, [], x, v, gen);
    case SLetTuple(names, _) => g, gas' := TupleTail(st, sm, lim, sc, next, env, f, gas, log, s, v, gen);
    case SLetStruct(tn, bs, _, rest) => g, gas' := StructTail(st, sm, lim, sc, next, env, f, gas, log, s, v, gen);
    case SExpr(_) => g, gas' := PlainTail(st, sm, lim, sc, next, env, f, gas, log, s, v, gen);
    case SReassign(_, _) => g, gas' := PlainTail(st, sm, lim, sc, next, env, f, gas, log, s, v, gen);
    case SFieldAssign(_, _, _) => g, gas' := PlainTail(st, sm, lim, sc, next, env, f, gas, log, s, v, gen);
  }

  /** What the one instruction behind a plain statement does. */
  lemma PlainAt(st: Site, sm: SourceModule, lim: GenLimits, sc: Slots, next: nat, env: Env, f: FrameState,
                log: seq<NativeEvent>, s: Stmt, v: Value, gen: Gen)
    returns (locals': seq<Option<Value>>)
    requires Holds(sc, next, env, f.locals) && sc != [] && env != [] && f.stack == [v]
    requires s.SExpr? || s.SReassign? || s.SFieldAssign?
    requires CompileTail(sm, lim, sc, next, s) == Some(gen)
    ensures |gen.code| == 1 && !gen.code[0].Call? && !gen.code[0].Return? && gen.sc == sc && gen.next == next
    ensures |locals'| == |f.locals|
    ensures var r := Exec(st.vm, st.addr, st.m, gen.code[0], f.(pc := f.pc + 1));
            var d := Finish(sm, env, log, s, v);
            if r.Err? then d == Halt(r.error, log)
            else r.value == FrameState(locals', [], f.pc + 1) && d.Next? && d.log == log
                 && Holds(sc, next, d.env, locals')
  {
    hide Holds;
    assert f.stack[..|f.stack| - 1] == [];
    locals' := f.locals;
    if !s.SExpr? {
      SlotHolds(sc, next, env, f.locals, s.x);
      var slot, i := SlotOf(sc, s.x).value, Scope(sc, s.x).value;
      if s.SReassign? {
        AssignHolds(sc, next, env, f.locals, i, s.x, Some(v));
        locals' := f.locals[slot := Some(v)];
      } else if f.locals[slot].Some? && WriteFieldPath(f.locals[slot].value, s.path, v).Ok? {
        var u := WriteFieldPath(f.locals[slot].value, s.path, v).value;
        AssignHolds(sc, next, env, f.locals, i, s.x, Some(u));
        locals' := f.locals[slot := Some(u)];
      }
    }
  }

  /** Dropping the value, or storing it in a variable or in a field of one. */
  lemma PlainTail(
    st: Site, sm: SourceModule, lim: GenLimits, sc: Slots, next: nat, env: Env,
    f: FrameState, gas: Gas, log: seq<NativeEvent>, s: Stmt, v: Value, gen: Gen)
    returns (g: FrameState, gas': Gas)
    requires Ready(st, gas) && Holds(sc, next, env, f.locals) && sc != [] && env != [] && f.stack == [v]
    requires s.SExpr? || s.SReassign? || s.SFieldAssign?
    requires CompileTail(sm, lim, sc, next, s) == Some(gen)
    requires Here(st.code, f.pc, gen.code)
    ensures g == FrameState(g.locals, [], f.pc + |gen.code|)
    ensures Moves(st, gen.sc, gen.next, f, gas, log, g, Finish(sm, env, log, s, v), gas')
  {
    hide From, Holds, Exec, Finish, CompileTail, Here;
    var locals' := PlainAt(st, sm, lim, sc, next, env, f, log, s, v, gen);
    assert gen.code == [gen.code[0]];
    HereAt(st.code, f.pc, gen.code[0]);
    gas' := OneStep(st, f, gas, log);
    g := FrameState(locals', [], f.pc + 1);
  }

  lemma UnpackTupleAt(st: Site, f: FrameState, v: Value, n: nat)
    requires f.stack == [v]
    ensures Exec(st.vm, st.addr, st.m, UnpackTuple(n), f.(pc := f.pc + 1))
         == if v.VTuple? && |v.elems| == n then Ok(FrameState(f.locals, [] + Reverse(v.elems), f.pc + 1)) else Err(TypeError)
  {
    assert f.stack[..|f.stack| - 1] == [];
  }

  lemma UnpackStructAt(st: Site, f: FrameState, v: Value, tn: Name, names: seq<string>)
    requires f.stack == [v]
    ensures Exec(st.vm, st.addr, st.m, UnpackStruct(tn, names), f.(pc := f.pc + 1))
         == if !v.VStruct? then Err(TypeError)
            else if TakeFields(FieldMap(v.fields), names).Err? then Err(TakeFields(FieldMap(v.fields), names).error)
            else Ok(FrameState(f.locals, [] + TakeFields(FieldMap(v.fields), names).value, f.pc + 1))
  {
    assert f.stack[..|f.stack| - 1] == [];
  }

  lemma TupleTail(
    st: Site, sm: SourceModule, lim: GenLimits, sc: Slots, next: nat, env: Env,
    f: FrameState, gas: Gas, log: seq<NativeEvent>, s: Stmt, v: Value, gen: Gen)
    returns (g: FrameState, gas': Gas)
    requires Ready(st, gas) && Holds(sc, next, env, f.locals) && sc != [] && env != [] && f.stack == [v]
    requires s.SLetTuple? && CompileTail(sm, lim, sc, next, s) == Some(gen) && gen.next <= |f.locals|
    requires Here(st.code, f.pc, gen.code)
    ensures g == FrameState(g.locals, [], f.pc + |gen.code|)
    ensures Moves(st, gen.sc, gen.next, f, gas, log, g, Finish(sm, env, log, s, v), gas')
  {
    hide From, Holds, Goes, Fails, RunsDry, Ready, Exec, Here;
    var stores := AllocAll(lim, sc, next, s.names).value;
    HereSplit(st.code, f.pc, [UnpackTuple(|s.names|)], stores.code);
    HereAt(st.code, f.pc, UnpackTuple(|s.names|));
    UnpackTupleAt(st, f, v, |s.names|);
    var gas1 := OneStep(st, f, gas, log);
    g, gas' := FrameState(f.locals, [], f.pc + |gen.code|), gas1;
    if v.VTuple? && |v.elems| == |s.names| && !RunsDry(st, f, gas, log) {
      var h := FrameState(f.locals, [] + Reverse(v.elems), f.pc + 1);
      g, gas' := BindAllRuns(st, lim, sc, next, env, h, gas1, log, [], s.names, v.elems, stores);
      MovesLater(st, gen.sc, gen.next, f, gas, log, h, gas1, log, g, Finish(sm, env, log, s, v), gas');
    }
  }

  lemma StructTailShape(sm: SourceModule, lim: GenLimits, sc: Slots, next: nat, env: Env, log: seq<NativeEvent>, s: Stmt, v: Value, gen: Gen)
    returns (names: seq<string>, stores: Gen)
    requires sc != [] && env != [] && s.SLetStruct? && CompileTail(sm, lim, sc, next, s) == Some(gen)
    ensures AllocFields(lim, sc, next, s.bindings, names) == Some(stores)
    ensures gen == stores.(code := [UnpackStruct(Local(s.tn), names)] + stores.code)
    ensures Finish(sm, env, log, s, v) ==
      if !v.VStruct? then Halt(TypeError, log)
      else if TakeFields(FieldMap(v.fields), names).Err? then Halt(TakeFields(FieldMap(v.fields), names).error, log)
      else BindFields(env, s.bindings, names, Reverse(TakeFields(FieldMap(v.fields), names).value), log)
  {
    hide AllocFields, BindFields, TakeFields, FieldMap, BindingsOk;
    names := FieldNames(FindStruct(sm.structs, s.tn).value);
    stores := AllocFields(lim, sc, next, s.bindings, names).value;
  }

  lemma StructTail(
    st: Site, sm: SourceModule, lim: GenLimits, sc: Slots, next: nat, env: Env,
    f: FrameState, gas: Gas, log: seq<NativeEvent>, s: Stmt, v: Value, gen: Gen)
    returns (g: FrameState, gas': Gas)
    requires Ready(st, gas) && Holds(sc, next, env, f.locals) && sc != [] && env != [] && f.stack == [v]
    requires s.SLetStruct? && CompileTail(sm, lim, sc, next, s) == Some(gen) && gen.next <= |f.locals|
    requires Here(st.code, f.pc, gen.code)
    ensures g == FrameState(g.locals, [], f.pc + |gen.code|)
    ensures Moves(st, gen.sc, gen.next, f, gas, log, g, Finish(sm, env, log, s, v), gas')
  {
    hide From, Holds, Goes, Fails, RunsDry, Ready, Exec, TakeFields, FieldMap, Finish, CompileTail, AllocFields, BindFields, Here;
    var names, stores := StructTailShape(sm, lim, sc, next, env, log, s, v, gen);
    HereSplit(st.code, f.pc, [UnpackStruct(Local(s.tn), names)], stores.code);
    HereAt(st.code, f.pc, UnpackStruct(Local(s.tn), names));
    UnpackStructAt(st, f, v, Local(s.tn), names);
    var gas1 := OneStep(st, f, gas, log);
    g, gas' := FrameState(f.locals, [], f.pc + |gen.code|), gas1;
    if v.VStruct? && TakeFields(FieldMap(v.fields), names).Ok? && !RunsDry(st, f, gas, log) {
      var vs := TakeFields(FieldMap(v.fields), names).value;
      var h := FrameState(f.locals, [] + vs, f.pc + 1);
      ReverseTwice(vs);
      g, gas' := BindFieldsRuns(st, lim, sc, next, env, h, gas1, log, [], s.bindings, names, Reverse(vs), stores);
      MovesLater(st, gen.sc, gen.next, f, gas, log, h, gas1, log, g, Finish(sm, env, log, s, v), gas');
    }
  }

  /** Running the code of a statement does what the statement does. */
  lemma {:induction false} StmtRuns(
    w: World, lim: GenLimits, sm: SourceModule, st: Site, sc: Slots, next: nat, env: Env,
    f: FrameState, gas: Gas, log: seq<NativeEvent>, s: Stmt, gen: Gen)
    returns (g: FrameState, gas': Gas)
    requires st.depth < w.maxDepth && Runs(w, lim, sm, st) && Ready(st, gas) && Holds(sc, next, env, f.locals)
    requires sc != [] && env != [] && f.stack == []
    requires CompileStmt(sm, lim, sc, next, s) == Some(gen) && gen.next <= |f.locals|
    requires Here(st.code, f.pc, gen.code)
    ensures g == FrameState(g.locals, [], f.pc + |gen.code|)
    ensures Moves(st, gen.sc, gen.next, f, gas, log, g, EvalStmt(w, st.addr, sm, env, log, st.depth, s), gas')
    decreases w.maxDepth - st.depth, 1, s, 2
  {
    hide Runs, From, Holds, Moves, Here;
    match s
    case SReturn(_) => g, gas' := ReturnRuns(w, lim, sm, st, sc, next, env, f, gas, log, s, gen);
    case SIf(_, _, _) => g, gas' := IfRuns(w, lim, sm, st, sc, next, env, f, gas, log, s, gen);
    case SLet(_, _) => g, gas' := BindingRuns(w, lim, sm, st, sc, next, env, f, gas, log, s, gen);
    case SReassign(_, _) => g, gas' := BindingRuns(w, lim, sm, st, sc, next, env, f, gas, log, s, gen);
    case SExpr(_) => g, gas' := BindingRuns(w, lim, sm, st, sc, next, env, f, gas, log, s, gen);
    case SFieldAssign(_, _, _) => g, gas' := BindingRuns(w, lim, sm, st, sc, next, env, f, gas, log, s, gen);
    case SLetTuple(_, _) => g, gas' := BindingRuns(w, lim, sm, st, sc, next, env, f, gas, log, s, gen);
    case SLetStruct(_, _, _, _) => g, gas' := BindingRuns(w, lim, sm, st, sc, next, env, f, gas, log, s, gen);
  }

  lemma {:induction false} BindingRuns(
    w: World, lim: GenLimits, sm: SourceModule, st: Site, sc: Slots, next: nat, env: Env,
    f: FrameState, gas: Gas, log: seq<NativeEvent>, s: Stmt, gen: Gen)
    returns (g: FrameState, gas': Gas)
    requires st.depth < w.maxDepth && Runs(w, lim, sm, st) && Ready(st, gas) && Holds(sc, next, env, f.locals)
    requires sc != [] && env != [] && f.stack == []
    requires !s.SReturn? && !s.SIf?
    requires CompileBinding(sm, lim, sc, next, s) == Some(gen) && gen.next <= |f.locals|
    requires Here(st.code, f.pc, gen.code)
    ensures g == FrameState(g.locals, [], f.pc + |gen.code|)
    ensures Moves(st, gen.sc, gen.next, f, gas, log, g, EvalBinding(w, st.addr, sm, env, log, st.depth, s), gas')
    decreases w.maxDepth - st.depth, 1, s.expr, 3
  {
    hide Runs, From, Holds, Finish, Goes, Fails, RunsDry, Ready, Here;
    var code, tail := CompileExpr(sm, lim, sc, s.expr).value, CompileTail(sm, lim, sc, next, s).value;
    HereSplit(st.code, f.pc, code, tail.code);
    var locals', gas1 := ExprRuns(w, lim, sm, st, sc, next, env, f, gas, log, s.expr, code);
    var d := EvalExpr(w, st.addr, sm, env, log, st.depth, s.expr);
    g, gas' := FrameState(f.locals, [], f.pc + |gen.code|), gas1;
    if d.Val? && !RunsDry(st, f, gas, log) {
      var h := FrameState(locals', f.stack + [d.value], f.pc + |code|);
      assert h.stack == [d.value];
      g, gas' := TailRuns(w, lim, sm, st, sc, next, d.env, h, gas1, d.log, s, d.value, tail);
      MovesLater(st, gen.sc, gen.next, f, gas, log, h, gas1, d.log, g, Finish(sm, d.env, d.log, s, d.value), gas');
    }
  }

  lemma {:induction false} ReturnRuns(
    w: World, lim: GenLimits, sm: SourceModule, st: Site, sc: Slots, next: nat, env: Env,
    f: FrameState, gas: Gas, log: seq<NativeEvent>, s: Stmt, gen: Gen)
    returns (g: FrameState, gas': Gas)
    requires st.depth < w.maxDepth && Runs(w, lim, sm, st) && Ready(st, gas) && Holds(sc, next, env, f.locals)
    requires sc != [] && env != [] && f.stack == []
    requires s.SReturn? && CompileStmt(sm, lim, sc, next, s) == Some(gen)
    requires Here(st.code, f.pc, gen.code)
    ensures g == FrameState(g.locals, [], f.pc + |gen.code|)
    ensures Moves(st, gen.sc, gen.next, f, gas, log, g, EvalStmt(w, st.addr, sm, env, log, st.depth, s), gas')
    decreases w.maxDepth - st.depth, 1, s, 1
  {
    hide Runs, From, Holds, Goes, Fails, RunsDry, Ready, Here;
    g, gas' := FrameState(f.locals, [], f.pc + |gen.code|), gas;
    if s.result.None? {
      HereAt(st.code, f.pc, Return);
      MoveReturns(st, gen.sc, gen.next, f, gas, log, g, gas');
    } else {
      var e := s.result.value;
      var code := CompileExpr(sm, lim, sc, e).value;
      HereSplit(st.code, f.pc, code, [Return]);
      HereAt(st.code, f.pc + |code|, Return);
      var locals', gas1 := ExprRuns(w, lim, sm, st, sc, next, env, f, gas, log, e, code);
      var d := EvalExpr(w, st.addr, sm, env, log, st.depth, e);
      if d.Val? && !RunsDry(st, f, gas, log) {
        var h := FrameState(locals', f.stack + [d.value], f.pc + |code|);
        MoveReturns(st, gen.sc, gen.next, h, gas1, d.log, g, gas');
        MovesLater(st, gen.sc, gen.next, f, gas, log, h, gas1, d.log, g, Ret(Some(d.value), d.log), gas');
      }
    }
  }

  /** A branch of an `if`: its scope opens on entry and closes at the end. */
  lemma {:induction false} BlockRuns(
    w: World, lim: GenLimits, sm: SourceModule, st: Site, sc: Slots, next: nat, env: Env,
    f: FrameState, gas: Gas, log: seq<NativeEvent>, body: seq<Stmt>, gen: Gen)
    returns (g: FrameState, gas': Gas)
    requires st.depth < w.maxDepth && Runs(w, lim, sm, st) && Ready(st, gas) && Holds(sc, next, env, f.locals)
    requires sc != [] && env != [] && f.stack == []
    requires CompileStmts(sm, lim, sc + [map[]], next, body) == Some(gen) && gen.next <= |f.locals|
    requires Here(st.code, f.pc, gen.code)
    ensures g == FrameState(g.locals, [], f.pc + |gen.code|)
    ensures Moves(st, sc, gen.next, f, gas, log, g, EvalBlock(w, st.addr, sm, env, log, st.depth, body), gas')
    decreases w.maxDepth - st.depth, 1, body, 3
  {
    hide Runs, From, Holds, Goes, Fails, RunsDry, Ready, Here, CompileStmts, EvalStmts;
    HoldsInner(sc, next, env, f.locals);
    g, gas' := StmtsRun(w, lim, sm, st, sc + [map[]], next, env + [map[]], f, gas, log, body, gen);
    var fl := EvalStmts(w, st.addr, sm, env + [map[]], log, st.depth, body);
    if fl.Next? && !RunsDry(st, f, gas, log) {
      HoldsOuter(gen.sc, gen.next, fl.env, g.locals);
      assert gen.sc[..|gen.sc| - 1] == sc by { assert (sc + [map[]])[..|sc|] == sc; }
    }
  }

  lemma {:induction false} StmtsRun(
    w: World, lim: GenLimits, sm: SourceModule, st: Site, sc: Slots, next: nat, env: Env,
    f: FrameState, gas: Gas, log: seq<NativeEvent>, ss: seq<Stmt>, gen: Gen)
    returns (g: FrameState, gas': Gas)
    requires st.depth < w.maxDepth && Runs(w, lim, sm, st) && Ready(st, gas) && Holds(sc, next, env, f.locals)
    requires sc != [] && env != [] && f.stack == []
    requires CompileStmts(sm, lim, sc, next, ss) == Some(gen) && gen.next <= |f.locals|
    requires Here(st.code, f.pc, gen.code)
    ensures g == FrameState(g.locals, [], f.pc + |gen.code|)
    ensures Moves(st, gen.sc, gen.next, f, gas, log, g, EvalStmts(w, st.addr, sm, env, log, st.depth, ss), gas')
    decreases w.maxDepth - st.depth, 1, ss, 2
  {
    hide Runs, From, Holds, Goes, Fails, RunsDry, Ready, Here;
    if ss == [] {
      g, gas' := f, gas;
      MoveNothing(st, sc, next, env, f, gas, log);
    } else {
      var init, last := ss[..|ss| - 1], ss[|ss| - 1];
      var a := CompileStmts(sm, lim, sc, next, init).value;
      var b := CompileStmt(sm, lim, a.sc, a.next, last).value;
      HereSplit(st.code, f.pc, a.code, b.code);
      var h, gas1 := StmtsRun(w, lim, sm, st, sc, next, env, f, gas, log, init, a);
      g, gas' := FrameState(f.locals, [], f.pc + |gen.code|), gas1;
      var fl := EvalStmts(w, st.addr, sm, env, log, st.depth, init);
      if fl.Next? && !RunsDry(st, f, gas, log) {
        g, gas' := StmtRuns(w, lim, sm, st, a.sc, a.next, fl.env, h, gas1, fl.log, last, b);
        MovesLater(st, gen.sc, gen.next, f, gas, log, h, gas1, fl.log, g,
                   EvalStmt(w, st.addr, sm, fl.env, fl.log, st.depth, last), gas');
      }
    }
  }

  /** The conditional jump: past the branch when the condition is false. */
  lemma BranchStep(st: Site, h: FrameState, gas: Gas, log: seq<NativeEvent>, v: Value, offset: nat)
    returns (gas': Gas)
    requires Ready(st, gas) && h.pc < |st.code| && st.code[h.pc] == JumpIfNot(offset) && h.stack == [v] && offset > 0
    ensures Ready(st, gas')
    ensures || RunsDry(st, h, gas, log)
            || (!v.VBool? && Fails(st, h, gas, log, TypeError, log))
            || (v.VBool? && Goes(st, h, gas, log,
                                 FrameState(h.locals, [], if v.b then h.pc + 1 else h.pc + offset), gas', log))
  {
    hide From, Here;
    gas' := OneStep(st, h, gas, log);
    assert h.stack[..|h.stack| - 1] == [];
  }

  /** Where the parts of a compiled `if` lie. */
  ghost predicate IfLaid(sm: SourceModule, lim: GenLimits, sc: Slots, next: nat, code: seq<Instr>, pc: nat, s: Stmt,
                         c: seq<Instr>, b: Gen, o: Gen, gen: Gen) {
    && s.SIf? && sc != []
    && CompileExpr(sm, lim, sc, s.cond) == Some(c) && Here(code, pc, c)
    && CompileStmts(sm, lim, sc + [map[]], next, s.body) == Some(b) && b.next <= gen.next
    && gen.sc == sc
    && var start := pc + |c| + 1;
       && start <= |code| && Here(code, start, b.code)
       && (s.other.NoElse? ==>
             code[start - 1] == JumpIfNot(|b.code| + 1) && gen.next == b.next && pc + |gen.code| == start + |b.code|)
       && (s.other.Else? ==>
             && CompileStmts(sm, lim, sc + [map[]], b.next, s.other.stmts) == Some(o) && gen.next == o.next
             && code[start - 1] == JumpIfNot(|b.code| + 2)
             && start + |b.code| < |code| && code[start + |b.code|] == Jump(|o.code| + 1)
             && Here(code, start + |b.code| + 1, o.code)
             && pc + |gen.code| == start + |b.code| + 1 + |o.code|)
  }

  /** The parts of a compiled `if` with one arm. */
  lemma LayoutPlain(code: seq<Instr>, pc: nat, c: seq<Instr>, jump: Instr, b: seq<Instr>)
    requires Here(code, pc, c + [jump] + b)
    ensures Here(code, pc, c) && pc + |c| < |code| && code[pc + |c|] == jump && Here(code, pc + |c| + 1, b)
  {
    hide Here;
    HereSplit(code, pc, c + [jump], b);
    HereSplit(code, pc, c, [jump]);
    HereAt(code, pc + |c|, jump);
  }

  /** The parts of a compiled `if` with two arms. */
  lemma LayoutElse(code: seq<Instr>, pc: nat, c: seq<Instr>, jump: Instr, b: seq<Instr>, over: Instr, o: seq<Instr>)
    requires Here(code, pc, c + [jump] + b + [over] + o)
    ensures Here(code, pc, c) && pc + |c| < |code| && code[pc + |c|] == jump && Here(code, pc + |c| + 1, b)
    ensures pc + |c| + 1 + |b| < |code| && code[pc + |c| + 1 + |b|] == over && Here(code, pc + |c| + 1 + |b| + 1, o)
  {
    hide Here;
    HereSplit(code, pc, c + [jump] + b + [over], o);
    HereSplit(code, pc, c + [jump] + b, [over]);
    HereAt(code, pc + |c| + 1 + |b|, over);
    LayoutPlain(code, pc, c, jump, b);
  }

  lemma IfLayout(sm: SourceModule, lim: GenLimits, sc: Slots, next: nat, code: seq<Instr>, pc: nat, s: Stmt, gen: Gen)
    returns (c: seq<Instr>, b: Gen, o: Gen)
    requires s.SIf? && sc != [] && CompileStmt(sm, lim, sc, next, s) == Some(gen) && Here(code, pc, gen.code)
    ensures IfLaid(sm, lim, sc, next, code, pc, s, c, b, o, gen)
  {
    hide CompileExpr, CompileStmts, Here;
    c := CompileExpr(sm, lim, sc, s.cond).value;
    b := CompileStmts(sm, lim, sc + [map[]], next, s.body).value;
    o := b;
    if s.other.NoElse? {
      LayoutPlain(code, pc, c, JumpIfNot(|b.code| + 1), b.code);
      HereFits(code, pc + |c| + 1, b.code);
    } else {
      o := CompileStmts(sm, lim, sc + [map[]], b.next, s.other.stmts).value;
      LayoutElse(code, pc, c, JumpIfNot(|b.code| + 2), b.code, Jump(|o.code| + 1), o.code);
    }
  }

  lemma HereFits(code: seq<Instr>, pc: nat, seg: seq<Instr>)
    requires Here(code, pc, seg)
    ensures pc + |seg| <= |code|
  {
  }

  /** What an `if` does once its condition is known. */
  function EvalArms(w: World, addr: Address, sm: SourceModule, env: Env, log: seq<NativeEvent>, depth: nat, s: Stmt, taken: bool)
    : (r: Ast.Flow)
    requires depth < w.maxDepth && env != [] && s.SIf?
  {
    if taken then EvalBlock(w, addr, sm, env, log, depth, s.body)
    else if s.other.Else? then EvalBlock(w, addr, sm, env, log, depth, s.other.stmts)
    else Next(env, log)
  }

  lemma {:induction false} IfRuns(
    w: World, lim: GenLimits, sm: SourceModule, st: Site, sc: Slots, next: nat, env: Env,
    f: FrameState, gas: Gas, log: seq<NativeEvent>, s: Stmt, gen: Gen)
    returns (g: FrameState, gas': Gas)
    requires st.depth < w.maxDepth && Runs(w, lim, sm, st) && Ready(st, gas) && Holds(sc, next, env, f.locals)
    requires sc != [] && env != [] && f.stack == []
    requires s.SIf? && CompileStmt(sm, lim, sc, next, s) == Some(gen) && gen.next <= |f.locals|
    requires Here(st.code, f.pc, gen.code)
    ensures g == FrameState(g.locals, [], f.pc + |gen.code|)
    ensures Moves(st, gen.sc, gen.next, f, gas, log, g, EvalStmt(w, st.addr, sm, env, log, st.depth, s), gas')
    decreases w.maxDepth - st.depth, 1, s, 1
  {
    hide Runs, From, Holds, Goes, Fails, RunsDry, Ready, CompileStmt, EvalBlock, Here;
    var c, b, o := IfLayout(sm, lim, sc, next, st.code, f.pc, s, gen);
    var skip := |b.code| + if s.other.NoElse? then 1 else 2;
    var locals', gas1 := ExprRuns(w, lim, sm, st, sc, next, env, f, gas, log, s.cond, c);
    var d := EvalExpr(w, st.addr, sm, env, log, st.depth, s.cond);
    g, gas' := FrameState(f.locals, [], f.pc + |gen.code|), gas1;
    if d.Val? && !RunsDry(st, f, gas, log) {
      var h := FrameState(locals', f.stack + [d.value], f.pc + |c|);
      assert h.stack == [d.value];
      var gas2 := BranchStep(st, h, gas1, d.log, d.value, skip);
      Earlier(st, f, gas, log, h, gas1, d.log);
      if d.value.VBool? && !RunsDry(st, f, gas, log) {
        var k := FrameState(locals', [], if d.value.b then h.pc + 1 else h.pc + skip);
        GoesOn(st, f, gas, log, h, gas1, d.log, k, gas2, d.log);
        g, gas' := ArmsRun(w, lim, sm, st, sc, next, d.env, k, gas2, d.log, s, d.value.b, f.pc, c, b, o, gen);
        MovesLater(st, gen.sc, gen.next, f, gas, log, k, gas2, d.log, g,
                   EvalArms(w, st.addr, sm, d.env, d.log, st.depth, s, d.value.b), gas');
      }
    }
  }

  /** The arm the condition chose. */
  lemma {:induction false} ArmsRun(
    w: World, lim: GenLimits, sm: SourceModule, st: Site, sc: Slots, next: nat, env: Env,
    k: FrameState, gas: Gas, log: seq<NativeEvent>, s: Stmt, taken: bool, pc: nat, c: seq<Instr>, b: Gen, o: Gen, gen: Gen)
    returns (g: FrameState, gas': Gas)
    requires st.depth < w.maxDepth && Runs(w, lim, sm, st) && Ready(st, gas) && Holds(sc, next, env, k.locals)
    requires sc != [] && env != [] && k.stack == [] && gen.next <= |k.locals|
    requires IfLaid(sm, lim, sc, next, st.code, pc, s, c, b, o, gen)
    requires k.pc == if taken then pc + |c| + 1 else pc + |c| + |b.code| + if s.other.NoElse? then 1 else 2
    ensures g == FrameState(g.locals, [], pc + |gen.code|)
    ensures Moves(st, gen.sc, gen.next, k, gas, log, g, EvalArms(w, st.addr, sm, env, log, st.depth, s, taken), gas')
    decreases w.maxDepth - st.depth, 1, s, 0
  {
    hide Runs, From, Holds, Goes, Fails, RunsDry, Ready, CompileStmts, CompileExpr, EvalBlock, Here;
    if taken {
      var h, gas1 := BlockRuns(w, lim, sm, st, sc, next, env, k, gas, log, s.body, b);
      g, gas' := h, gas1;
      if s.other.Else? {
        g, gas' := OverElse(st, sc, b.next, gen.next, k, gas, log, h, EvalBlock(w, st.addr, sm, env, log, st.depth, s.body), gas1, |o.code| + 1);
      }
    } else if s.other.Else? {
      HoldsMore(sc, next, b.next, env, k.locals);
      g, gas' := BlockRuns(w, lim, sm, st, sc, b.next, env, k, gas, log, s.other.stmts, o);
    } else {
      HoldsMore(sc, next, gen.next, env, k.locals);
      g, gas' := k, gas;
      MoveNothing(st, sc, gen.next, env, k, gas, log);
    }
  }

  /** The jump from the end of the first arm over the second. */
  lemma OverElse(st: Site, sc: Slots, next: nat, more: nat, k: FrameState, gas: Gas, log: seq<NativeEvent>,
                 h: FrameState, fl: Ast.Flow, gas1: Gas, offset: nat)
    returns (g: FrameState, gas': Gas)
    requires Moves(st, sc, next, k, gas, log, h, fl, gas1) && h.stack == [] && next <= more <= |k.locals|
    requires h.pc < |st.code| && st.code[h.pc] == Jump(offset) && offset > 0
    ensures g == FrameState(g.locals, [], h.pc + offset)
    ensures Moves(st, sc, more, k, gas, log, g, fl, gas')
  {
    hide From, Holds, Goes, Fails, RunsDry, Ready, Here;
    g, gas' := FrameState(h.locals, [], h.pc + offset), gas1;
    if fl.Next? && !RunsDry(st, k, gas, log) {
      gas' := OneStep(st, h, gas1, fl.log);
      HoldsMore(sc, next, more, fl.env, h.locals);
      Earlier(st, k, gas, log, h, gas1, fl.log);
      if !RunsDry(st, h, gas1, fl.log) {
        MoveOnce(st, sc, more, fl.env, h, gas1, fl.log, g, gas');
        MovesLater(st, sc, more, k, gas, log, h, gas1, fl.log, g, fl, gas');
      }
    }
  }

  // ---------------------------------------------------------------------- functions

  lemma DistinctInit(params: seq<Param>)
    requires params != [] && AllDistinct(ParamNames(params))
    ensures AllDistinct(ParamNames(params[..|params| - 1]))
    ensures ParamNames(params)[..|params| - 1] == ParamNames(params[..|params| - 1])
    ensures params[|params| - 1].name !in ParamNames(params[..|params| - 1])
  {
    var n := |params| - 1;
    var names, init := ParamNames(params), ParamNames(params[..n]);
    assert names[..n] == init;
    forall i | 0 <= i < n
      ensures init[i] != names[n]
    {
      assert names[i] == init[i];
    }
    forall i, j | 0 <= i < j < |init|
      ensures init[i] != init[j]
    {
      assert names[i] == init[i] && names[j] == init[j];
    }
  }

  /** One more parameter. */
  lemma ParamStep(lim: GenLimits, before: Gen, scope: map<string, Option<Value>>, locals: seq<Option<Value>>,
                  name: string, v: Value, gen: Gen)
    requires |before.sc| == 1 && name !in before.sc[0] && before.next < |locals|
    requires Holds(before.sc, before.next, [scope], locals)
    requires Alloc(lim, before.sc, before.next, name) == Some(gen)
    ensures gen.next == before.next + 1 && gen.sc == [before.sc[0][name := before.next]]
    ensures Holds(gen.sc, gen.next, [scope[name := Some(v)]], locals[before.next := Some(v)])
  {
    HoldsNew(before.sc, before.next, [scope], locals, name, v, gen.sc);
    assert Assign([scope], 0, name, Some(v)) == [scope[name := Some(v)]];
  }

  lemma FrameStep(vs: seq<Value>, localCount: nat)
    requires 0 < |vs| <= localCount
    ensures NewFrame(vs[..|vs| - 1], localCount).locals[|vs| - 1 := Some(vs[|vs| - 1])] == NewFrame(vs, localCount).locals
  {
  }

  lemma {:induction false} ParamCount(lim: GenLimits, params: seq<Param>, gen: Gen)
    requires AllDistinct(ParamNames(params)) && AllocParams(lim, ParamNames(params)) == Some(gen)
    ensures gen.next == |params| && |gen.sc| == 1
    ensures forall x :: x in gen.sc[0] ==> x in ParamNames(params)
  {
    if params != [] {
      var n := |params| - 1;
      DistinctInit(params);
      ParamCount(lim, params[..n], AllocParams(lim, ParamNames(params[..n])).value);
      assert ParamNames(params) == ParamNames(params[..n]) + [params[n].name];
    }
  }

  /** The frame of a call holds the parameters. */
  lemma {:induction false} ParamsHold(lim: GenLimits, params: seq<Param>, vs: seq<Value>, gen: Gen, localCount: nat)
    requires |params| == |vs| && AllDistinct(ParamNames(params))
    requires AllocParams(lim, ParamNames(params)) == Some(gen) && |vs| <= localCount
    ensures gen.next == |vs|
    ensures Holds(gen.sc, gen.next, [ParamScope(params, vs)], NewFrame(vs, localCount).locals)
  {
    ParamCount(lim, params, gen);
    if params != [] {
      var n := |params| - 1;
      DistinctInit(params);
      var before := AllocParams(lim, ParamNames(params[..n])).value;
      ParamCount(lim, params[..n], before);
      ParamsHold(lim, params[..n], vs[..n], before, localCount);
      ParamStep(lim, before, ParamScope(params[..n], vs[..n]), NewFrame(vs[..n], localCount).locals, params[n].name, vs[n], gen);
      FrameStep(vs, localCount);
    }
  }

  lemma FunctionShape(sm: SourceModule, lim: GenLimits, ast: AstFunction, fn: Function) returns (params: Gen, body: Gen)
    requires CompileFunction(sm, lim, ast) == Some(fn)
    ensures AllocParams(lim, ParamNames(ast.params)) == Some(params) && params.sc != []
    ensures CompileStmts(sm, lim, params.sc, params.next, ast.body) == Some(body)
    ensures fn.code == Closed(body.code) && fn.localCount == body.next && params.next <= body.next
  {
    params := AllocParams(lim, ParamNames(ast.params)).value;
    body := CompileStmts(sm, lim, params.sc, params.next, ast.body).value;
  }

  lemma EntryReady(vm: Machine, addr: Address, m: Module, fn: Function, gas: Gas, depth: nat, vs: seq<Value>, log: seq<NativeEvent>)
    requires Halting(vm, m, gas) && GetFunction(m, fn.name) == Some(fn) && depth < vm.config.maxCallDepth
    requires |vs| <= fn.localCount
    ensures Ready(Site(vm, addr, m, fn.code, depth), gas)
    ensures CallInner(vm, addr, m, fn.name, vs, gas, log, depth)
         == From(Site(vm, addr, m, fn.code, depth), NewFrame(vs, fn.localCount), gas, log)
  {
    hide Run;
  }

  /** A call of a compiled function ends as its source does, unless the gas runs out. */
  lemma {:induction false} FunctionRuns(
    w: World, lim: GenLimits, sm: SourceModule, vm: Machine, addr: Address, m: Module, ast: AstFunction, fn: Function,
    vs: seq<Value>, gas: Gas, log: seq<NativeEvent>, depth: nat)
    requires Built(w, lim, vm) && CompiledAs(m, sm, lim) && ParamsDistinct(sm)
    requires Halting(vm, m, gas) && GetFunction(m, fn.name) == Some(fn)
    requires CompileFunction(sm, lim, ast) == Some(fn) && AllDistinct(ParamNames(ast.params))
    requires |vs| == |ast.params|
    ensures Ends(CallInner(vm, addr, m, fn.name, vs, gas, log, depth), EvalFunction(w, addr, sm, ast, vs, log, depth))
    ensures gas.limit == U64_MAX ==> !Spent(CallInner(vm, addr, m, fn.name, vs, gas, log, depth))
    decreases if depth < w.maxDepth then w.maxDepth - depth else 0, 2
  {
    hide Holds, CompileStmts, Built, CompiledAs, ParamsDistinct, CompileFunction, Halting, Ready, From, Moves, EvalStmts,
      AllDistinct, AllocParams, Here, Closed, ParamScope;
    BuiltDepth(w, lim, vm);
    if gas.limit == U64_MAX { Metering.CallNotDry(vm, addr, m, fn.name, vs, gas, log, depth); }
    if depth < w.maxDepth {
      BodyRuns(w, lim, sm, vm, addr, m, ast, fn, vs, gas, log, depth);
    }
  }

  lemma {:induction false} BodyRuns(
    w: World, lim: GenLimits, sm: SourceModule, vm: Machine, addr: Address, m: Module, ast: AstFunction, fn: Function,
    vs: seq<Value>, gas: Gas, log: seq<NativeEvent>, depth: nat)
    requires Built(w, lim, vm) && CompiledAs(m, sm, lim) && ParamsDistinct(sm)
    requires Halting(vm, m, gas) && GetFunction(m, fn.name) == Some(fn)
    requires CompileFunction(sm, lim, ast) == Some(fn) && AllDistinct(ParamNames(ast.params))
    requires |vs| == |ast.params| && depth < w.maxDepth
    ensures Ends(CallInner(vm, addr, m, fn.name, vs, gas, log, depth), EvalFunction(w, addr, sm, ast, vs, log, depth))
    decreases w.maxDepth - depth, 1, ast.body, 3
  {
    hide Holds, CompileStmts, Built, CompiledAs, ParamsDistinct, CompileFunction, Halting, Ready, From, CallInner, Moves, Ends,
      EvalStmts, AllDistinct, AllocParams, Here, Closed, ParamScope, EvalFunction;
    BuiltDepth(w, lim, vm);
    var params, body := FunctionShape(sm, lim, ast, fn);
    ParamCount(lim, ast.params, params);
    ParamsHold(lim, ast.params, vs, params, fn.localCount);
    EntryReady(vm, addr, m, fn, gas, depth, vs, log);
    var st := Site(vm, addr, m, fn.code, depth);
    var f := NewFrame(vs, fn.localCount);
    ClosedKeeps(body.code);
    var g, gas' := StmtsRun(w, lim, sm, st, params.sc, params.next, [ParamScope(ast.params, vs)], f, gas, log, ast.body, body);
    var fl := EvalStmts(w, addr, sm, [ParamScope(ast.params, vs)], log, depth, ast.body);
    BodyEnds(st, body.sc, body.next, body.code, f, gas, log, g, fl, gas');
    FunctionIsBody(w, addr, sm, ast, vs, log, depth);
  }

  lemma FunctionIsBody(w: World, addr: Address, sm: SourceModule, ast: AstFunction, vs: seq<Value>, log: seq<NativeEvent>, depth: nat)
    requires |vs| == |ast.params| && depth < w.maxDepth
    ensures var fl := EvalStmts(w, addr, sm, [ParamScope(ast.params, vs)], log, depth, ast.body);
            EvalFunction(w, addr, sm, ast, vs, log, depth) == if fl.Next? then Ret(None, fl.log) else fl
  {
    hide EvalStmts;
  }

  lemma BuiltDepth(w: World, lim: GenLimits, vm: Machine)
    requires Built(w, lim, vm)
    ensures vm.config.maxCallDepth == w.maxDepth
  {
  }

  lemma ClosedKeeps(code: seq<Instr>)
    ensures Here(Closed(code), 0, code)
    ensures |Closed(code)| == |code| || (|Closed(code)| == |code| + 1 && Closed(code)[|code|] == Return)
  {
  }

  /** Running off the end of a body returns nothing, with or without a closing return. */
  lemma BodyEnds(st: Site, sc: Slots, next: nat, code: seq<Instr>, f: FrameState, gas: Gas, log: seq<NativeEvent>,
                 g: FrameState, fl: Ast.Flow, gas': Gas)
    requires st.code == Closed(code) && Ready(st, gas)
    requires g == FrameState(g.locals, [], |code|) && Moves(st, sc, next, f, gas, log, g, fl, gas')
    ensures Ends(From(st, f, gas, log), if fl.Next? then Ret(None, fl.log) else fl)
  {
    hide From, Holds, Here;
    ClosedKeeps(code);
    if fl.Next? && !RunsDry(st, f, gas, log) {
      if |st.code| == |code| {
        EndStep(st, g, gas', fl.log);
      } else {
        ReturnStep(st, g, gas', fl.log);
      }
    }
  }

  // ------------------------------------------------------------------- the theorem

  predicate JumpsForward(code: seq<Instr>) {
    forall i :: 0 <= i < |code| ==> (code[i].Jump? || code[i].JumpIf? || code[i].JumpIfNot?) ==> code[i].offset > 0
  }

  predicate NoJumps(code: seq<Instr>) {
    forall i :: 0 <= i < |code| ==> !code[i].Jump? && !code[i].JumpIf? && !code[i].JumpIfNot?
  }

  lemma {:induction false} ExprForward(sm: SourceModule, lim: GenLimits, sc: Slots, e: Expr)
    ensures CompileExpr(sm, lim, sc, e).Some? ==> NoJumps(CompileExpr(sm, lim, sc, e).value)
    decreases e, 0
  {
    match e
    case EBin(l, _, r) => ExprForward(sm, lim, sc, l); ExprForward(sm, lim, sc, r);
    case ENot(a) => ExprForward(sm, lim, sc, a);
    case EField(base, field) => FieldForward(sm, lim, sc, base, [field]);
    case EStruct(name, inits) =>
      var def := FindStruct(sm.structs, name);
      if def.Some? { InitsForward(sm, lim, sc, inits, FieldNames(def.value)); }
    case ETuple(items) => ExprsForward(sm, lim, sc, items);
    case ECall(_, args) => ExprsForward(sm, lim, sc, args);
    case _ =>
  }

  lemma {:induction false} FieldForward(sm: SourceModule, lim: GenLimits, sc: Slots, base: Expr, path: seq<string>)
    ensures CompileField(sm, lim, sc, base, path).Some? ==> NoJumps(CompileField(sm, lim, sc, base, path).value)
    decreases base, 1
  {
    if base.EField? {
      FieldForward(sm, lim, sc, base.base, [base.field] + path);
    } else {
      ExprForward(sm, lim, sc, base);
    }
  }

  lemma {:induction false} ExprsForward(sm: SourceModule, lim: GenLimits, sc: Slots, es: seq<Expr>)
    ensures CompileExprs(sm, lim, sc, es).Some? ==> NoJumps(CompileExprs(sm, lim, sc, es).value)
    decreases es, 0
  {
    if es != [] {
      ExprsForward(sm, lim, sc, es[..|es| - 1]);
      ExprForward(sm, lim, sc, es[|es| - 1]);
    }
  }

  lemma {:induction false} InitsForward(sm: SourceModule, lim: GenLimits, sc: Slots, inits: seq<Init>, names: seq<string>)
    ensures CompileInits(sm, lim, sc, inits, names).Some? ==> NoJumps(CompileInits(sm, lim, sc, inits, names).value)
    decreases inits, |names|
  {
    if names != [] {
      InitsForward(sm, lim, sc, inits, names[..|names| - 1]);
      var e := LastInit(inits, names[|names| - 1]);
      if e.Some? { ExprForward(sm, lim, sc, e.value); }
    }
  }

  lemma {:induction false} AllocForward(lim: GenLimits, sc: Slots, next: nat, names: seq<string>)
    requires sc != []
    ensures AllocAll(lim, sc, next, names).Some? ==> NoJumps(AllocAll(lim, sc, next, names).value.code)
    decreases |names|
  {
    if names != [] && Alloc(lim, sc, next, names[0]).Some? {
      var first := Alloc(lim, sc, next, names[0]).value;
      AllocForward(lim, first.sc, first.next, names[1..]);
    }
  }

  lemma {:induction false} FieldsForward(lim: GenLimits, sc: Slots, next: nat, bs: seq<Binding>, fields: seq<string>)
    requires sc != []
    ensures AllocFields(lim, sc, next, bs, fields).Some? ==> NoJumps(AllocFields(lim, sc, next, bs, fields).value.code)
    decreases |fields|
  {
    if fields != [] {
      var x := Bound(bs, fields[0]);
      var first := if x.None? then Some(Gen([Pop], sc, next)) else Alloc(lim, sc, next, x.value);
      if first.Some? {
        FieldsForward(lim, first.value.sc, first.value.next, bs, fields[1..]);
      }
    }
  }

  lemma TailForward(sm: SourceModule, lim: GenLimits, sc: Slots, next: nat, s: Stmt)
    requires sc != [] && !s.SReturn? && !s.SIf?
    ensures CompileTail(sm, lim, sc, next, s).Some? ==> NoJumps(CompileTail(sm, lim, sc, next, s).value.code)
  {
    if s.SLetTuple? {
      AllocForward(lim, sc, next, s.names);
    } else if s.SLetStruct? && FindStruct(sm.structs, s.tn).Some? {
      FieldsForward(lim, sc, next, s.bindings, FieldNames(FindStruct(sm.structs, s.tn).value));
    }
  }

  lemma JoinForward(a: seq<Instr>, b: seq<Instr>)
    requires JumpsForward(a) && JumpsForward(b)
    ensures JumpsForward(a + b)
  {
  }

  /** Emitted jumps only go forward. */
  lemma {:induction false} StmtForward(sm: SourceModule, lim: GenLimits, sc: Slots, next: nat, s: Stmt)
    requires sc != []
    ensures CompileStmt(sm, lim, sc, next, s).Some? ==> JumpsForward(CompileStmt(sm, lim, sc, next, s).value.code)
    decreases s, 0
  {
    hide CompileExpr, CompileTail;
    if CompileStmt(sm, lim, sc, next, s).Some? {
      match s
      case SReturn(e) =>
        if e.Some? { ExprForward(sm, lim, sc, e.value); }
      case SIf(cond, body, other) =>
        ExprForward(sm, lim, sc, cond);
        StmtsForward(sm, lim, sc + [map[]], next, body);
        var c := CompileExpr(sm, lim, sc, cond).value;
        var b := CompileStmts(sm, lim, sc + [map[]], next, body).value;
        if other.NoElse? {
          JoinForward(c, [JumpIfNot(|b.code| + 1)]);
          JoinForward(c + [JumpIfNot(|b.code| + 1)], b.code);
        } else {
          StmtsForward(sm, lim, sc + [map[]], b.next, other.stmts);
          var o := CompileStmts(sm, lim, sc + [map[]], b.next, other.stmts).value;
          JoinForward(c, [JumpIfNot(|b.code| + 2)]);
          JoinForward(c + [JumpIfNot(|b.code| + 2)], b.code);
          JoinForward(c + [JumpIfNot(|b.code| + 2)] + b.code, [Jump(|o.code| + 1)]);
          JoinForward(c + [JumpIfNot(|b.code| + 2)] + b.code + [Jump(|o.code| + 1)], o.code);
        }
      case _ =>
        ExprForward(sm, lim, sc, s.expr);
        TailForward(sm, lim, sc, next, s);
    }
  }

  lemma {:induction false} StmtsForward(sm: SourceModule, lim: GenLimits, sc: Slots, next: nat, ss: seq<Stmt>)
    requires sc != []
    ensures CompileStmts(sm, lim, sc, next, ss).Some? ==> JumpsForward(CompileStmts(sm, lim, sc, next, ss).value.code)
    decreases ss, 0
  {
    if ss != [] && CompileStmts(sm, lim, sc, next, ss).Some? {
      var init := CompileStmts(sm, lim, sc, next, ss[..|ss| - 1]).value;
      StmtsForward(sm, lim, sc, next, ss[..|ss| - 1]);
      StmtForward(sm, lim, init.sc, init.next, ss[|ss| - 1]);
      JoinForward(init.code, CompileStmt(sm, lim, init.sc, init.next, ss[|ss| - 1]).value.code);
    }
  }

  lemma ModuleForward(m: Module, sm: SourceModule, lim: GenLimits)
    requires CompiledAs(m, sm, lim)
    ensures ForwardModule(m)
  {
    hide CompileStmts;
    forall fn | fn in m.functions
      ensures Forward(fn.code)
    {
      var i :| 0 <= i < |m.functions| && m.functions[i] == fn;
      var params, body := FunctionShape(sm, lim, sm.functions[i], fn);
      StmtsForward(sm, lim, params.sc, params.next, sm.functions[i].body);
      JoinForward(body.code, [Return]);
    }
  }

  /** Compiled code halts with any gas meter, even one that never runs out. */
  lemma CompiledHalts(w: World, lim: GenLimits, vm: Machine, gas: Gas)
    requires Built(w, lim, vm)
    ensures Halting(vm, vm.main, gas)
  {
    ModuleForward(vm.main, w.main, lim);
    forall a | a in vm.deps
      ensures ForwardModule(vm.deps[a])
    {
      ModuleForward(vm.deps[a], w.deps[a], lim);
    }
  }

  /** Code generation preserves meaning: in a world of compiled modules, calling a function gives
      exactly the value or the error its source gives, with the same native calls in the same
      order, unless the gas runs out first; without a limit it does not. */
  lemma CodegenPreservesMeaning(w: World, lim: GenLimits, vm: Machine, name: string, vs: seq<Value>, gas: Gas)
    requires Built(w, lim, vm)
    requires FindAst(w.main.functions, name).Some? && |vs| == |FindAst(w.main.functions, name).value.params|
    ensures Halting(vm, vm.main, gas)
    ensures Ends(CallInner(vm, vm.addr, vm.main, name, vs, gas, [], 0),
                 EvalFunction(w, w.addr, w.main, FindAst(w.main.functions, name).value, vs, [], 0))
    ensures gas.limit == U64_MAX ==> !Spent(CallInner(vm, vm.addr, vm.main, name, vs, gas, [], 0))
  {
    hide CompileFunction, CallInner, EvalFunction, Ends, Halting;
    CompiledHalts(w, lim, vm, gas);
    FindAgrees(vm.main, w.main, lim, name);
    FunctionRuns(w, lim, w.main, vm, vm.addr, vm.main, FindAst(w.main.functions, name).value,
                 GetFunction(vm.main, name).value, vs, gas, [], 0);
  }
}
