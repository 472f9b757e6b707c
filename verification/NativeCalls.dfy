/** What verified code hands to native functions: arguments that fit their signatures. */
module NativeCalls {
  import opened MeowTypes
  import opened Vm
  import opened Verifier
  import opened Typing
  import opened Structural
  import opened Soundness
  import opened Safety
  import opened Conservation
  import opened Verify
  import opened Logs

  /** The `i`-th native call named a native of the machine, passed arguments that fit it, and
      got what the native returns after the calls before it. */
  ghost predicate EventFits(vm: Machine, log: seq<NativeEvent>, i: nat)
    requires i < |log|
  {
    EventTrue(vm, log, i) && NativeArgsFit(vm, vm.natives[log[i].name].sig.params, log[i].args)
  }

  ghost predicate LogFits(vm: Machine, log: seq<NativeEvent>) {
    forall i {:trigger EventFits(vm, log, i)} :: 0 <= i < |log| ==> EventFits(vm, log, i)
  }

  lemma LogSnoc(vm: Machine, log: seq<NativeEvent>, ev: NativeEvent)
    requires LogFits(vm, log)
    requires EventFits(vm, log + [ev], |log|)
    ensures LogFits(vm, log + [ev])
  {
    hide NativeArgsFit;
    var log' := log + [ev];
    forall i: nat | i < |log'|
      ensures EventFits(vm, log', i)
    {
      if i < |log| {
        assert EventFits(vm, log, i);
        assert log'[..i] == log[..i];
      }
    }
  }

  /** A native call that returns is logged, and fits. */
  lemma NativeLogs(vm: Machine, sigs: seq<NativeSig>, maxTuple: nat, addr: Address, m: Module, fn: Function,
                   f: FrameState, gas: Gas, log: seq<NativeEvent>)
    requires MachineOk(vm, sigs, maxTuple) && Loaded(vm, addr, m) && fn in m.functions
    requires At(vm, sigs, addr, m, fn, f) && LogFits(vm, log)
    requires fn.code[f.pc].Call? && ResolveCall(vm, addr, m, fn.code[f.pc].callee).ToNative?
    ensures LogFits(vm, MoveLog(FetchCall(vm, addr, m, fn.code[f.pc].callee, f.(pc := f.pc + 1), gas, log), log))
  {
    hide Related, CheckFunction, NativeArgsFit, MachineOk, LogFits, Charge, At;
    AtCode(vm, sigs, addr, m, fn, f);
    NativeAt(vm, sigs, maxTuple, addr, m, fn, f, log);
    NativeNamed(vm, sigs, maxTuple, addr, m, fn, f);
    var entry := ResolveCall(vm, addr, m, fn.code[f.pc].callee).entry;
    var args := f.stack[|f.stack| - |entry.sig.params|..];
    var r := entry.func(log, args);
    if r.NReturn? {
      var ev := NativeEvent(entry.sig.name, args, r.value);
      assert (log + [ev])[..|log|] == log;
      LogSnoc(vm, log, ev);
    }
  }

  /** One turn of the main loop logs at most one native call, and that one fits. */
  lemma MoveLogs(vm: Machine, sigs: seq<NativeSig>, maxTuple: nat, addr: Address, m: Module, fn: Function,
                 f: FrameState, gas: Gas, log: seq<NativeEvent>)
    requires MachineOk(vm, sigs, maxTuple) && Loaded(vm, addr, m) && fn in m.functions
    requires At(vm, sigs, addr, m, fn, f)
    requires LogFits(vm, log)
    ensures LogFits(vm, MoveLog(Fetch(vm, addr, m, fn.code, f, gas, log), log))
  {
    hide Exec, Related, CheckFunction, MachineOk, LogFits, Fetch, Charge, CappedCost, At, FetchNative;
    AtCode(vm, sigs, addr, m, fn, f);
    FetchShape(vm, addr, m, fn.code, f, gas, log);
    var i := fn.code[f.pc];
    if i.Call? && ResolveCall(vm, addr, m, i.callee).ToNative? {
      NativeLogs(vm, sigs, maxTuple, addr, m, fn, f, Charge(gas, CappedCost(i)).1, log);
    }
  }

  /** A native that verified code calls is registered under its own name. */
  lemma NativeNamed(vm: Machine, sigs: seq<NativeSig>, maxTuple: nat, addr: Address, m: Module, fn: Function, f: FrameState)
    requires MachineOk(vm, sigs, maxTuple) && Loaded(vm, addr, m) && fn in m.functions
    requires At(vm, sigs, addr, m, fn, f)
    requires fn.code[f.pc].Call? && ResolveCall(vm, addr, m, fn.code[f.pc].callee).ToNative?
    ensures var entry := ResolveCall(vm, addr, m, fn.code[f.pc].callee).entry;
            entry.sig.name in vm.natives && vm.natives[entry.sig.name] == entry
  {
    hide Step, StepCall, HasType;
    AtInstruction(vm, sigs, maxTuple, addr, m, fn, f);
    var ctx := Context(m, vm.deps, sigs);
    var st := CheckFunction(ctx, fn).states[f.pc];
    var callee := fn.code[f.pc].callee;
    CallStep(ctx, fn.ret, f.pc, callee, st);
    NativeAccepted(vm, addr, ctx, f.pc, callee.name, f, st);
  }

  /** A property of logs that every turn of described code keeps. */
  ghost predicate Kept(vm: Machine, sigs: seq<NativeSig>, inv: seq<NativeEvent> -> bool) {
    forall addr, m, fn, f, gas, log {:trigger Fetch(vm, addr, m, fn.code, f, gas, log)} ::
      Loaded(vm, addr, m) && fn in m.functions && At(vm, sigs, addr, m, fn, f) && inv(log) ==>
        inv(MoveLog(Fetch(vm, addr, m, fn.code, f, gas, log), log))
  }

  lemma KeptHere(vm: Machine, sigs: seq<NativeSig>, inv: seq<NativeEvent> -> bool, addr: Address, m: Module, fn: Function,
                 f: FrameState, gas: Gas, log: seq<NativeEvent>)
    requires Kept(vm, sigs, inv) && Loaded(vm, addr, m) && fn in m.functions && At(vm, sigs, addr, m, fn, f) && inv(log)
    ensures inv(MoveLog(Fetch(vm, addr, m, fn.code, f, gas, log), log))
  {
    hide At, Fetch, MoveLog, Loaded;
  }

  lemma {:induction false} RunLogs(vm: Machine, sigs: seq<NativeSig>, maxTuple: nat, inv: seq<NativeEvent> -> bool,
                                   addr: Address, m: Module, fn: Function, f: FrameState, gas: Gas, log: seq<NativeEvent>,
                                   depth: nat)
    requires MachineOk(vm, sigs, maxTuple) && Loaded(vm, addr, m) && fn in m.functions
    requires Halting(vm, m, gas) && Forward(fn.code) && depth < vm.config.maxCallDepth
    requires At(vm, sigs, addr, m, fn, f)
    requires Kept(vm, sigs, inv) && inv(log)
    ensures inv(Run(vm, addr, m, fn.code, f, gas, log, depth).log)
    decreases Budget(vm, gas, depth), 0, CodeLeft(fn.code, f.pc)
  {
    hide Fetch, MachineOk, Related, CheckFunction, EndsWell, Kept;
    MoveSound(vm, sigs, maxTuple, addr, m, fn, f, gas, log);
    KeptHere(vm, sigs, inv, addr, m, fn, f, gas, log);
    FetchAdvances(vm, addr, m, fn.code, f, gas, log);
    match Fetch(vm, addr, m, fn.code, f, gas, log)
    case Stop(_) =>
    case Go(g, gas1, log1) =>
      RunLogs(vm, sigs, maxTuple, inv, addr, m, fn, g, gas1, log1, depth);
    case Enter(addr', m', fn', args, back, gas1) =>
      MachineHalts(vm, sigs, maxTuple, addr', m', gas1);
      CallLogs(vm, sigs, maxTuple, inv, addr', m', fn', fn'.name, args, gas1, log, depth + 1);
      CallReturns(vm, sigs, maxTuple, addr', m', fn', args, gas1, log, depth + 1);
      var o := CallInner(vm, addr', m', fn'.name, args, gas1, log, depth + 1);
      if o.Returned? {
        assert At(vm, sigs, addr, m, fn, Push(back, Landed(o.value)));
        RunLogs(vm, sigs, maxTuple, inv, addr, m, fn, Push(back, Landed(o.value)), o.gas, o.log, depth);
      }
  }

  /** What every turn keeps of the log, a whole call keeps, at any depth. */
  lemma {:induction false} CallLogs(vm: Machine, sigs: seq<NativeSig>, maxTuple: nat, inv: seq<NativeEvent> -> bool,
                                    addr: Address, m: Module, fn: Function, name: string, args: seq<Value>, gas: Gas,
                                    log: seq<NativeEvent>, depth: nat)
    requires MachineOk(vm, sigs, maxTuple) && Loaded(vm, addr, m)
    requires GetFunction(m, name) == Some(fn)
    requires Halting(vm, m, gas)
    requires AllTyped(vm, addr, args, ParamTypes(fn.params))
    requires Kept(vm, sigs, inv) && inv(log)
    ensures inv(CallInner(vm, addr, m, name, args, gas, log, depth).log)
    decreases Budget(vm, gas, depth), 1, 0
  {
    hide MachineOk, Run, At, AllTyped, Kept;
    if depth < vm.config.maxCallDepth {
      MachineHalts(vm, sigs, maxTuple, addr, m, gas);
      StartsAt(vm, sigs, maxTuple, addr, m, fn, args);
      RunLogs(vm, sigs, maxTuple, inv, addr, m, fn, NewFrame(args, fn.localCount), gas, log, depth);
    }
  }

  /** A property of logs that every turn keeps and the empty log has holds of whatever a call from
      outside logs. */
  lemma LogsKeep(vm: Machine, natives: seq<NativeSig>, cfg: Limits, inv: seq<NativeEvent> -> bool, name: string,
                 args: seq<Value>, gas: Gas)
    requires MachineVerified(vm, natives, cfg) && EntryError(vm, name).None?
    requires AllTyped(vm, vm.addr, args, ParamTypes(GetFunction(vm.main, name).value.params))
    requires Kept(vm, AllNatives(natives), inv) && inv([])
    ensures Halting(vm, vm.main, gas)
    ensures inv(TopCall(vm, name, args, gas).log)
  {
    hide MachineVerified, MachineOk, CallInner, AllTyped, Kept;
    VerifiedHalts(vm, natives, cfg, gas);
    VerifiedMachine(vm, natives, cfg);
    MainLoaded(vm, natives, cfg);
    CallLogs(vm, AllNatives(natives), cfg.maxTupleElements, inv, vm.addr, vm.main, GetFunction(vm.main, name).value,
             name, args, gas, [], 0);
  }

  /** At any depth and however the call ends, natives only ever see arguments of the types they
      declare. */
  lemma NativesSeeTypedArguments(vm: Machine, natives: seq<NativeSig>, cfg: Limits, name: string, args: seq<Value>, gas: Gas)
    requires MachineVerified(vm, natives, cfg)
    requires EntryError(vm, name).None?
    requires AllTyped(vm, vm.addr, args, ParamTypes(GetFunction(vm.main, name).value.params))
    ensures Halting(vm, vm.main, gas)
    ensures LogFits(vm, TopCall(vm, name, args, gas).log)
  {
    hide MachineVerified, MachineOk, TopCall, AllTyped, Fetch, At, EntryError;
    VerifiedMachine(vm, natives, cfg);
    var sigs := AllNatives(natives);
    forall addr, m, fn, f, gas, log | Loaded(vm, addr, m) && fn in m.functions && At(vm, sigs, addr, m, fn, f) && LogFits(vm, log)
      ensures f.pc < |fn.code| && LogFits(vm, MoveLog(Fetch(vm, addr, m, fn.code, f, gas, log), log))
    {
      AtCode(vm, sigs, addr, m, fn, f);
      MoveLogs(vm, sigs, cfg.maxTupleElements, addr, m, fn, f, gas, log);
    }
    LogsKeep(vm, natives, cfg, log => LogFits(vm, log), name, args, gas);
  }
}
