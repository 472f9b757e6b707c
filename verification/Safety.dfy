/** Whole runs of verified code, at every call depth. */
module Safety {
  import opened MeowTypes
  import opened Vm
  import opened Verifier
  import opened Certificate
  import opened Typing
  import opened Structural
  import opened Soundness

  /** A run that ends well: a tolerable error, or a result of the declared type. */
  predicate EndsWell(vm: Machine, addr: Address, ret: Option<Type>, o: Outcome) {
    match o
    case Failed(e, _, _) => Benign(e)
    case Returned(v, _, _) => ReturnFits(vm, addr, ret, v)
  }

  lemma ReturnSound(vm: Machine, addr: Address, ret: Option<Type>, f: FrameState, st: State)
    requires Related(vm, addr, f, st) && CheckReturn(ret, st) == []
    ensures ReturnFits(vm, addr, ret, Top(f.stack))
  {
  }

  /** A frame set up for typed arguments is described by the pass's initial state. */
  lemma InitialRelated(vm: Machine, addr: Address, fn: Function, args: seq<Value>)
    requires |fn.params| <= fn.localCount
    requires AllTyped(vm, addr, args, ParamTypes(fn.params))
    ensures Related(vm, addr, NewFrame(args, fn.localCount), InitialState(fn))
  {
  }

  lemma LandedTyped(vm: Machine, caller: Address, callee: Address, ret: Option<Type>, v: Option<Value>)
    requires ReturnFits(vm, callee, ret, v)
    ensures HasType(vm, Landed(v), Qualify(caller, Qualify(callee, ReturnType(ret))))
  {
    QualifyIdempotent(caller, callee, ReturnType(ret));
  }

  /** Back in the caller: the arguments are gone and the result is on top. */
  lemma BackRelated(vm: Machine, addr: Address, f: FrameState, st: State, n: nat, v: Value, t: Type)
    requires Related(vm, addr, f, st) && n <= |st.stack| && HasType(vm, v, Qualify(addr, t))
    ensures Related(vm, addr, f.(stack := f.stack[..|f.stack| - n] + [v]), Pushed(PoppedN(st, n), t))
  {
    RelatedStack(vm, addr, f, st, |st.stack| - n, [v], [t]);
  }

  /** An accepted call to a module function: the target, its arguments and its result type. */
  lemma CallAccepted(vm: Machine, addr: Address, ctx: Context, maxTuple: nat, fn: Function, pc: nat, f: FrameState, st: State)
    requires ctx.deps == vm.deps && Loaded(vm, addr, ctx.m)
    requires pc < |fn.code| && fn.code[pc].Call? && InstrShape(ctx.m, ctx.deps, maxTuple, fn, pc)
    requires Related(vm, addr, f, st)
    requires StepCall(ctx, pc, fn.code[pc].callee, st).errs == []
    requires !ResolveCall(vm, addr, ctx.m, fn.code[pc].callee).ToNative?
    requires fn.code[pc].callee.Local? ==> GetFunction(ctx.m, fn.code[pc].callee.name).Some?
    ensures var target := ResolveCall(vm, addr, ctx.m, fn.code[pc].callee);
      && target.ToFunction? && Loaded(vm, target.addr, target.m)
      && GetFunction(target.m, fn.code[pc].callee.name) == Some(target.fn)
      && |target.fn.params| <= |st.stack|
      && AllTyped(vm, target.addr, f.stack[|f.stack| - |target.fn.params|..], ParamTypes(target.fn.params))
      && exists t :: Qualify(addr, t) == Qualify(addr, Qualify(target.addr, ReturnType(target.fn.ret)))
           && StepCall(ctx, pc, fn.code[pc].callee, st) == Straight(Pushed(PoppedN(st, |target.fn.params|), t), [])
  {
    var callee := fn.code[pc].callee;
    var target := ResolveCall(vm, addr, ctx.m, callee);
    var want := ParamTypes(target.fn.params);
    var k := |st.stack| - |want|;
    var args := f.stack[k..];
    var t := if callee.Qualified? then Qualify(target.addr, ReturnType(target.fn.ret)) else ReturnType(target.fn.ret);
    forall i | 0 <= i < |want| ensures HasType(vm, args[i], Qualify(target.addr, want[i])) {
      assert args[i] == f.stack[k + i] && st.stack[k..][i] == st.stack[k + i];
      assert HasType(vm, f.stack[k + i], Qualify(addr, st.stack[k + i]));
      QualifyIdempotent(addr, target.addr, want[i]);
    }
    QualifyIdempotent(addr, target.addr, ReturnType(target.fn.ret));
    assert StepCall(ctx, pc, callee, st) == Straight(Pushed(PoppedN(st, |target.fn.params|), t), []);
  }

  /** An accepted call to a native. */
  lemma NativeAccepted(vm: Machine, addr: Address, ctx: Context, pc: nat, n: string, f: FrameState, st: State)
    requires NativesTyped(vm, ctx.natives)
    requires Related(vm, addr, f, st)
    requires GetFunction(ctx.m, n).None?
    requires StepCall(ctx, pc, Local(n), st).errs == []
    ensures n in vm.natives && NativeHonest(vm, vm.natives[n]) && vm.natives[n].sig.name == n
    ensures var sig := vm.natives[n].sig;
      && |sig.params| <= |st.stack|
      && NativeArgsFit(vm, sig.params, f.stack[|f.stack| - |sig.params|..])
      && StepCall(ctx, pc, Local(n), st) == Straight(Pushed(PoppedN(st, |sig.params|), ReturnType(sig.ret)), [])
  {
    var sig := vm.natives[n].sig;
    var k := |st.stack| - |sig.params|;
    var args := f.stack[k..];
    var ts := st.stack[k..];
    forall i | 0 <= i < |args| ensures NativeArgFits(vm, sig.params[i], args[i]) {
      assert args[i] == f.stack[k + i] && ts[i] == st.stack[k + i];
      assert HasType(vm, args[i], Qualify(addr, ts[i]));
      assert NativeParamMatches(sig.params[i], ts[i]);
    }
  }

  /** Where a related frame is in a certified function, and what the pass says of the
      instruction there. */
  lemma AtInstruction(vm: Machine, sigs: seq<NativeSig>, maxTuple: nat, addr: Address, m: Module, fn: Function, f: FrameState)
    requires MachineOk(vm, sigs, maxTuple) && Loaded(vm, addr, m) && fn in m.functions
    requires At(vm, sigs, addr, m, fn, f)
    ensures var ctx := Context(m, vm.deps, sigs);
      var st := CheckFunction(ctx, fn).states[f.pc];
      && FieldsShape(m) && DistinctFieldNames(m)
      && InstrShape(m, vm.deps, maxTuple, fn, f.pc) && |st.locals| == fn.localCount
      && FieldsKnown(vm, addr, m, fn.code[f.pc], st)
      && Covered(fn, 0, CheckFunction(ctx, fn).states, f.pc, Step(ctx, fn.ret, f.pc, fn.code[f.pc], st))
  {
    LoadedOk(vm, sigs, maxTuple, addr, m, fn);
    var ctx := Context(m, vm.deps, sigs);
    assert Consistent(ctx, fn, 0, CheckFunction(ctx, fn).states, f.pc);
  }

  /** `f` is at an instruction of `fn` and is described by the pass's state there. */
  predicate At(vm: Machine, sigs: seq<NativeSig>, addr: Address, m: Module, fn: Function, f: FrameState) {
    var states := CheckFunction(Context(m, vm.deps, sigs), fn).states;
    && f.pc < |fn.code| == |states|
    && Related(vm, addr, f, states[f.pc])
    && |f.locals| == fn.localCount
  }

  /** A frame the pass's flow describes is at its next instruction. */
  lemma Arrives(vm: Machine, sigs: seq<NativeSig>, addr: Address, m: Module, fn: Function, pc: nat, flow: Flow, g: FrameState)
    requires var states := CheckFunction(Context(m, vm.deps, sigs), fn).states;
      && pc < |fn.code| == |states|
      && Covered(fn, 0, states, pc, flow)
    requires Lands(vm, addr, Ok(g), pc, flow) && |g.locals| == fn.localCount
    ensures At(vm, sigs, addr, m, fn, g)
  {
    var states := CheckFunction(Context(m, vm.deps, sigs), fn).states;
    if g.pc == pc + 1 && Related(vm, addr, g, flow.next) {
      RelatedBelow(vm, addr, g, flow.next, states[g.pc]);
    } else {
      RelatedBelow(vm, addr, g, flow.jumped, states[g.pc]);
    }
  }

  /** The first frame of a call with typed arguments. */
  lemma StartsAt(vm: Machine, sigs: seq<NativeSig>, maxTuple: nat, addr: Address, m: Module, fn: Function, args: seq<Value>)
    requires MachineOk(vm, sigs, maxTuple) && Loaded(vm, addr, m) && fn in m.functions
    requires AllTyped(vm, addr, args, ParamTypes(fn.params))
    ensures |args| <= fn.localCount && At(vm, sigs, addr, m, fn, NewFrame(args, fn.localCount))
  {
    LoadedOk(vm, sigs, maxTuple, addr, m, fn);
    InitialRelated(vm, addr, fn, args);
    var states := CheckFunction(Context(m, vm.deps, sigs), fn).states;
    RelatedBelow(vm, addr, NewFrame(args, fn.localCount), InitialState(fn), states[0]);
  }

  /** One instruction that is neither a call nor a return. */
  lemma StepAt(vm: Machine, sigs: seq<NativeSig>, maxTuple: nat, addr: Address, m: Module, fn: Function, f: FrameState)
    requires MachineOk(vm, sigs, maxTuple) && Loaded(vm, addr, m) && fn in m.functions
    requires At(vm, sigs, addr, m, fn, f)
    requires !fn.code[f.pc].Call? && !fn.code[f.pc].Return?
    ensures var r := Exec(vm, addr, m, fn.code[f.pc], f.(pc := f.pc + 1));
      if r.Err? then Benign(r.error) else At(vm, sigs, addr, m, fn, r.value)
  {
    AtInstruction(vm, sigs, maxTuple, addr, m, fn, f);
    var ctx := Context(m, vm.deps, sigs);
    var states := CheckFunction(ctx, fn).states;
    var f1 := f.(pc := f.pc + 1);
    assert Related(vm, addr, f1, states[f.pc]);
    var flow := Step(ctx, fn.ret, f.pc, fn.code[f.pc], states[f.pc]);
    StepSound(vm, addr, ctx, maxTuple, fn, f.pc, f1, states[f.pc]);
    StepShape(ctx, fn.ret, f.pc, fn.code[f.pc], states[f.pc]);
    var r := Exec(vm, addr, m, fn.code[f.pc], f1);
    if r.Ok? {
      Arrives(vm, sigs, addr, m, fn, f.pc, flow, r.value);
    }
  }

  /** The accepted call in the state of the pass: the target, its arguments, and the state after it. */
  lemma CallTarget(vm: Machine, sigs: seq<NativeSig>, maxTuple: nat, addr: Address, m: Module, fn: Function, f: FrameState)
    returns (flow: Flow, t: Type)
    requires MachineOk(vm, sigs, maxTuple) && Loaded(vm, addr, m) && fn in m.functions
    requires At(vm, sigs, addr, m, fn, f)
    requires fn.code[f.pc].Call? && !ResolveCall(vm, addr, m, fn.code[f.pc].callee).ToNative?
    ensures var target := ResolveCall(vm, addr, m, fn.code[f.pc].callee);
      && target.ToFunction? && |target.fn.params| <= |f.stack|
      && Loaded(vm, target.addr, target.m) && GetFunction(target.m, target.fn.name) == Some(target.fn)
      && AllTyped(vm, target.addr, f.stack[|f.stack| - |target.fn.params|..], ParamTypes(target.fn.params))
      && Qualify(addr, t) == Qualify(addr, Qualify(target.addr, ReturnType(target.fn.ret)))
      && var states := CheckFunction(Context(m, vm.deps, sigs), fn).states;
         Covered(fn, 0, states, f.pc, flow) && flow == Straight(Pushed(PoppedN(states[f.pc], |target.fn.params|), t), [])
  {
    hide Step, StepCall, HasType, CheckFunction, Qualify;
    AtInstruction(vm, sigs, maxTuple, addr, m, fn, f);
    var ctx := Context(m, vm.deps, sigs);
    var st := CheckFunction(ctx, fn).states[f.pc];
    var callee := fn.code[f.pc].callee;
    flow := StepCall(ctx, f.pc, callee, st);
    assert flow == Step(ctx, fn.ret, f.pc, fn.code[f.pc], st) by { CallStep(ctx, fn.ret, f.pc, callee, st); }
    CallKnown(vm, addr, ctx, f.pc, callee, st);
    CallAccepted(vm, addr, ctx, maxTuple, fn, f.pc, f, st);
    var target := ResolveCall(vm, addr, m, callee);
    t :| Qualify(addr, t) == Qualify(addr, Qualify(target.addr, ReturnType(target.fn.ret)))
         && flow == Straight(Pushed(PoppedN(st, |target.fn.params|), t), []);
  }

  /** A call to a module function: its arguments fit, and any result that fits brings the
      caller to its next instruction. */
  lemma CallAt(vm: Machine, sigs: seq<NativeSig>, maxTuple: nat, addr: Address, m: Module, fn: Function, f: FrameState)
    requires MachineOk(vm, sigs, maxTuple) && Loaded(vm, addr, m) && fn in m.functions
    requires At(vm, sigs, addr, m, fn, f)
    requires fn.code[f.pc].Call? && !ResolveCall(vm, addr, m, fn.code[f.pc].callee).ToNative?
    ensures var target := ResolveCall(vm, addr, m, fn.code[f.pc].callee);
      && target.ToFunction? && |target.fn.params| <= |f.stack|
      && var k := |f.stack| - |target.fn.params|;
         Entered(vm, sigs, addr, m, fn, target.addr, target.m, target.fn, f.stack[k..],
                 f.(pc := f.pc + 1, stack := f.stack[..k]))
  {
    hide Step, StepCall, HasType, CheckFunction, Covered, ReturnFits, Related, MachineOk, Loaded, ResolveCall;
    hide AllTyped, Qualify, Landed;
    var flow, t := CallTarget(vm, sigs, maxTuple, addr, m, fn, f);
    var st := CheckFunction(Context(m, vm.deps, sigs), fn).states[f.pc];
    var target := ResolveCall(vm, addr, m, fn.code[f.pc].callee);
    forall v | ReturnFits(vm, target.addr, target.fn.ret, v)
      ensures At(vm, sigs, addr, m, fn,
                 Push(f.(pc := f.pc + 1, stack := f.stack[..|f.stack| - |target.fn.params|]), Landed(v)))
    {
      ResumesWith(vm, sigs, addr, m, fn, f, st, flow, target.addr, target.fn, t, v);
    }
  }

  /** A result that fits brings the caller to its next instruction. */
  lemma ResumesWith(vm: Machine, sigs: seq<NativeSig>, addr: Address, m: Module, fn: Function, f: FrameState, st: State,
                    flow: Flow, addr': Address, fn': Function, t: Type, v: Option<Value>)
    requires At(vm, sigs, addr, m, fn, f) && |fn'.params| <= |f.stack|
    requires st == CheckFunction(Context(m, vm.deps, sigs), fn).states[f.pc]
    requires Covered(fn, 0, CheckFunction(Context(m, vm.deps, sigs), fn).states, f.pc, flow)
    requires Qualify(addr, t) == Qualify(addr, Qualify(addr', ReturnType(fn'.ret)))
    requires flow == Straight(Pushed(PoppedN(st, |fn'.params|), t), [])
    requires ReturnFits(vm, addr', fn'.ret, v)
    ensures At(vm, sigs, addr, m, fn, Push(f.(pc := f.pc + 1, stack := f.stack[..|f.stack| - |fn'.params|]), Landed(v)))
  {
    hide HasType, CheckFunction, Covered;
    var n := |fn'.params|;
    var back := f.(pc := f.pc + 1, stack := f.stack[..|f.stack| - n]);
    LandedTyped(vm, addr, addr', fn'.ret, v);
    BackRelated(vm, addr, f.(pc := f.pc + 1), st, n, Landed(v), t);
    Arrives(vm, sigs, addr, m, fn, f.pc, flow, Push(back, Landed(v)));
  }

  lemma CallStep(ctx: Context, ret: Option<Type>, pc: nat, callee: Name, st: State)
    ensures Step(ctx, ret, pc, Call(callee), st) == StepCall(ctx, pc, callee, st)
  {
  }

  /** Calling `fn'` with `args` is sound, and coming back to `back` with its result is too. */
  ghost predicate Entered(vm: Machine, sigs: seq<NativeSig>, addr: Address, m: Module, fn: Function,
                    addr': Address, m': Module, fn': Function, args: seq<Value>, back: FrameState)
  {
    && Loaded(vm, addr', m')
    && GetFunction(m', fn'.name) == Some(fn')
    && AllTyped(vm, addr', args, ParamTypes(fn'.params))
    && back.pc > 0
    && Resumes(vm, sigs, addr, m, fn, addr', fn', back)
  }

  ghost predicate Resumes(vm: Machine, sigs: seq<NativeSig>, addr: Address, m: Module, fn: Function,
                          addr': Address, fn': Function, back: FrameState)
  {
    forall v | ReturnFits(vm, addr', fn'.ret, v) :: At(vm, sigs, addr, m, fn, Push(back, Landed(v)))
  }

  /** A local callee the pass accepts is a function of the module unless it is a native. */
  lemma CallKnown(vm: Machine, addr: Address, ctx: Context, pc: nat, callee: Name, st: State)
    requires NativesTyped(vm, ctx.natives)
    requires StepCall(ctx, pc, callee, st).errs == []
    requires !ResolveCall(vm, addr, ctx.m, callee).ToNative?
    ensures callee.Local? ==> GetFunction(ctx.m, callee.name).Some?
  {
  }

  /** Calling a native. */
  lemma NativeAt(vm: Machine, sigs: seq<NativeSig>, maxTuple: nat, addr: Address, m: Module, fn: Function, f: FrameState, log: seq<NativeEvent>)
    requires MachineOk(vm, sigs, maxTuple) && Loaded(vm, addr, m) && fn in m.functions
    requires At(vm, sigs, addr, m, fn, f)
    requires fn.code[f.pc].Call? && ResolveCall(vm, addr, m, fn.code[f.pc].callee).ToNative?
    ensures var entry := ResolveCall(vm, addr, m, fn.code[f.pc].callee).entry;
      var k := |f.stack| - |entry.sig.params|;
      && k >= 0
      && NativeArgsFit(vm, entry.sig.params, f.stack[k..])
      && var r := entry.func(log, f.stack[k..]);
         r.NReturn? ==> At(vm, sigs, addr, m, fn, f.(pc := f.pc + 1, stack := f.stack[..k] + [Landed(r.value)]))
  {
    hide Step, StepCall, HasType, CheckFunction, Covered, Landed;
    AtInstruction(vm, sigs, maxTuple, addr, m, fn, f);
    var ctx := Context(m, vm.deps, sigs);
    var st := CheckFunction(ctx, fn).states[f.pc];
    var callee := fn.code[f.pc].callee;
    var flow := StepCall(ctx, f.pc, callee, st);
    assert flow == Step(ctx, fn.ret, f.pc, fn.code[f.pc], st) by { CallStep(ctx, fn.ret, f.pc, callee, st); }
    NativeAccepted(vm, addr, ctx, f.pc, callee.name, f, st);
    var entry := vm.natives[callee.name];
    var n := |entry.sig.params|;
    var r := entry.func(log, f.stack[|f.stack| - n..]);
    if r.NReturn? {
      assert ReturnFits(vm, addr, entry.sig.ret, r.value);
      NativeBack(vm, sigs, addr, m, fn, f, st, flow, entry, r.value);
    }
  }

  /** What a native returned brings its caller to the next instruction. */
  lemma NativeBack(vm: Machine, sigs: seq<NativeSig>, addr: Address, m: Module, fn: Function, f: FrameState, st: State,
                   flow: Flow, entry: NativeEntry, v: Option<Value>)
    requires At(vm, sigs, addr, m, fn, f) && |entry.sig.params| <= |f.stack|
    requires st == CheckFunction(Context(m, vm.deps, sigs), fn).states[f.pc]
    requires Covered(fn, 0, CheckFunction(Context(m, vm.deps, sigs), fn).states, f.pc, flow)
    requires flow == Straight(Pushed(PoppedN(st, |entry.sig.params|), ReturnType(entry.sig.ret)), [])
    requires ReturnFits(vm, addr, entry.sig.ret, v)
    ensures At(vm, sigs, addr, m, fn,
               f.(pc := f.pc + 1, stack := f.stack[..|f.stack| - |entry.sig.params|] + [Landed(v)]))
  {
    hide HasType, CheckFunction, Covered, ReturnFits, Landed;
    LandedNative(vm, addr, entry, v);
    var n, f1 := |entry.sig.params|, f.(pc := f.pc + 1);
    BackRelated(vm, addr, f1, st, n, Landed(v), ReturnType(entry.sig.ret));
    Arrives(vm, sigs, addr, m, fn, f.pc, flow, f1.(stack := f.stack[..|f.stack| - n] + [Landed(v)]));
  }

  lemma LandedNative(vm: Machine, addr: Address, entry: NativeEntry, v: Option<Value>)
    requires ReturnFits(vm, addr, entry.sig.ret, v)
    ensures HasType(vm, Landed(v), Qualify(addr, ReturnType(entry.sig.ret)))
  {
  }

  /** What one turn of the main loop does from a described frame. */
  ghost predicate MoveOk(vm: Machine, sigs: seq<NativeSig>, addr: Address, m: Module, fn: Function, move: Move) {
    match move
    case Stop(o) => EndsWell(vm, addr, fn.ret, o)
    case Go(g, _, _) => At(vm, sigs, addr, m, fn, g)
    case Enter(addr', m', fn', args, back, _) => Entered(vm, sigs, addr, m, fn, addr', m', fn', args, back)
  }

  lemma NativeMoves(vm: Machine, sigs: seq<NativeSig>, maxTuple: nat, addr: Address, m: Module, fn: Function,
                    f: FrameState, gas: Gas, log: seq<NativeEvent>)
    requires MachineOk(vm, sigs, maxTuple) && Loaded(vm, addr, m) && fn in m.functions
    requires At(vm, sigs, addr, m, fn, f)
    requires fn.code[f.pc].Call? && ResolveCall(vm, addr, m, fn.code[f.pc].callee).ToNative?
    ensures MoveOk(vm, sigs, addr, m, fn, FetchCall(vm, addr, m, fn.code[f.pc].callee, f.(pc := f.pc + 1), gas, log))
  {
    hide MachineOk, Related, CheckFunction, NativeArgsFit, Charge, Landed, ReturnFits;
    NativeAt(vm, sigs, maxTuple, addr, m, fn, f, log);
  }

  lemma CallMoves(vm: Machine, sigs: seq<NativeSig>, maxTuple: nat, addr: Address, m: Module, fn: Function,
                  f: FrameState, gas: Gas, log: seq<NativeEvent>)
    requires MachineOk(vm, sigs, maxTuple) && Loaded(vm, addr, m) && fn in m.functions
    requires At(vm, sigs, addr, m, fn, f)
    requires fn.code[f.pc].Call? && !ResolveCall(vm, addr, m, fn.code[f.pc].callee).ToNative?
    ensures MoveOk(vm, sigs, addr, m, fn, FetchCall(vm, addr, m, fn.code[f.pc].callee, f.(pc := f.pc + 1), gas, log))
  {
    hide MachineOk, Related, CheckFunction, Entered, FetchNative;
    CallAt(vm, sigs, maxTuple, addr, m, fn, f);
  }

  lemma MoveSound(vm: Machine, sigs: seq<NativeSig>, maxTuple: nat, addr: Address, m: Module, fn: Function,
                  f: FrameState, gas: Gas, log: seq<NativeEvent>)
    requires MachineOk(vm, sigs, maxTuple) && Loaded(vm, addr, m) && fn in m.functions
    requires At(vm, sigs, addr, m, fn, f)
    ensures MoveOk(vm, sigs, addr, m, fn, Fetch(vm, addr, m, fn.code, f, gas, log))
  {
    hide Exec, Step, HasType, MachineOk, Related, CheckFunction, Entered, Fetch, FetchCall, Charge, CappedCost, ResolveCall;
    FetchShape(vm, addr, m, fn.code, f, gas, log);
    var i := fn.code[f.pc];
    var paid := Charge(gas, CappedCost(i));
    if paid.0 {
      if i.Return? {
        ReturnAt(vm, sigs, maxTuple, addr, m, fn, f);
      } else if i.Call? && ResolveCall(vm, addr, m, i.callee).ToNative? {
        NativeMoves(vm, sigs, maxTuple, addr, m, fn, f, paid.1, log);
      } else if i.Call? {
        CallMoves(vm, sigs, maxTuple, addr, m, fn, f, paid.1, log);
      } else {
        StepAt(vm, sigs, maxTuple, addr, m, fn, f);
      }
    }
  }

  lemma ReturnAt(vm: Machine, sigs: seq<NativeSig>, maxTuple: nat, addr: Address, m: Module, fn: Function, f: FrameState)
    requires MachineOk(vm, sigs, maxTuple) && Loaded(vm, addr, m) && fn in m.functions
    requires At(vm, sigs, addr, m, fn, f) && fn.code[f.pc].Return?
    ensures ReturnFits(vm, addr, fn.ret, Top(f.stack))
  {
    AtInstruction(vm, sigs, maxTuple, addr, m, fn, f);
    ReturnSound(vm, addr, fn.ret, f, CheckFunction(Context(m, vm.deps, sigs), fn).states[f.pc]);
  }

  /** Every run from a described frame ends well. */
  lemma {:induction false} RunSound(vm: Machine, sigs: seq<NativeSig>, maxTuple: nat, addr: Address, m: Module, fn: Function,
                                    f: FrameState, gas: Gas, log: seq<NativeEvent>, depth: nat)
    requires MachineOk(vm, sigs, maxTuple) && Loaded(vm, addr, m) && fn in m.functions
    requires Halting(vm, m, gas) && Forward(fn.code) && depth < vm.config.maxCallDepth
    requires At(vm, sigs, addr, m, fn, f)
    ensures EndsWell(vm, addr, fn.ret, Run(vm, addr, m, fn.code, f, gas, log, depth))
    decreases Budget(vm, gas, depth), 0, CodeLeft(fn.code, f.pc)
  {
    hide Fetch, MachineOk, Related, CheckFunction;
    MoveSound(vm, sigs, maxTuple, addr, m, fn, f, gas, log);
    FetchAdvances(vm, addr, m, fn.code, f, gas, log);
    match Fetch(vm, addr, m, fn.code, f, gas, log)
    case Stop(_) =>
    case Go(g, gas1, log1) =>
      RunSound(vm, sigs, maxTuple, addr, m, fn, g, gas1, log1, depth);
    case Enter(addr', m', fn', args, back, gas1) =>
      MachineHalts(vm, sigs, maxTuple, addr', m', gas1);
      CallSound(vm, sigs, maxTuple, addr', m', fn', fn'.name, args, gas1, log, depth + 1);
      var o := CallInner(vm, addr', m', fn'.name, args, gas1, log, depth + 1);
      if o.Returned? {
        assert At(vm, sigs, addr, m, fn, Push(back, Landed(o.value)));
        RunSound(vm, sigs, maxTuple, addr, m, fn, Push(back, Landed(o.value)), o.gas, o.log, depth);
      }
  }

  /** Every call with typed arguments ends well. */
  lemma {:induction false} CallSound(vm: Machine, sigs: seq<NativeSig>, maxTuple: nat, addr: Address, m: Module, fn: Function,
                                     name: string, args: seq<Value>, gas: Gas, log: seq<NativeEvent>, depth: nat)
    requires MachineOk(vm, sigs, maxTuple) && Loaded(vm, addr, m)
    requires GetFunction(m, name) == Some(fn)
    requires Halting(vm, m, gas)
    requires AllTyped(vm, addr, args, ParamTypes(fn.params))
    ensures EndsWell(vm, addr, fn.ret, CallInner(vm, addr, m, name, args, gas, log, depth))
    decreases Budget(vm, gas, depth), 1, 0
  {
    hide MachineOk, Run, At, AllTyped;
    if depth < vm.config.maxCallDepth {
      MachineHalts(vm, sigs, maxTuple, addr, m, gas);
      StartsAt(vm, sigs, maxTuple, addr, m, fn, args);
      RunSound(vm, sigs, maxTuple, addr, m, fn, NewFrame(args, fn.localCount), gas, log, depth);
    }
  }
}
