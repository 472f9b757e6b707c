/** What any run, verified or not, leaves in its log of native calls: exactly what the natives did. */
module Logs {
  import opened MeowTypes
  import opened Vm
  import opened Metering

  /** The `i`-th native call named a native of the machine and got what it returns after the calls
      before it. */
  ghost predicate EventTrue(vm: Machine, log: seq<NativeEvent>, i: nat)
    requires i < |log|
  {
    && log[i].name in vm.natives
    && vm.natives[log[i].name].func(log[..i], log[i].args) == NReturn(log[i].result)
  }

  ghost predicate Recorded(vm: Machine, log: seq<NativeEvent>) {
    forall i {:trigger EventTrue(vm, log, i)} :: 0 <= i < |log| ==> EventTrue(vm, log, i)
  }

  /** Natives are registered under their own names. */
  ghost predicate OwnNames(vm: Machine) {
    forall n :: n in vm.natives ==> vm.natives[n].sig.name == n
  }

  ghost function MoveLog(move: Move, log: seq<NativeEvent>): (r: seq<NativeEvent>) {
    match move
    case Stop(o) => o.log
    case Go(_, _, log') => log'
    case Enter(_, _, _, _, _, _) => log
  }

  lemma RecordedSnoc(vm: Machine, log: seq<NativeEvent>, ev: NativeEvent)
    requires Recorded(vm, log) && EventTrue(vm, log + [ev], |log|)
    ensures Recorded(vm, log + [ev])
  {
    var log' := log + [ev];
    forall i: nat | i < |log'| ensures EventTrue(vm, log', i) {
      if i < |log| {
        assert EventTrue(vm, log, i);
        assert log'[..i] == log[..i];
      }
    }
  }

  lemma RecordedInit(vm: Machine, log: seq<NativeEvent>)
    requires log != [] && Recorded(vm, log)
    ensures Recorded(vm, log[..|log| - 1])
  {
    var init := log[..|log| - 1];
    forall i: nat | i < |init| ensures EventTrue(vm, init, i) {
      assert EventTrue(vm, log, i);
      assert init[..i] == log[..i];
    }
  }

  lemma NativeRecords(vm: Machine, n: string, f: FrameState, gas: Gas, log: seq<NativeEvent>)
    requires OwnNames(vm) && n in vm.natives && Recorded(vm, log)
    ensures Recorded(vm, MoveLog(FetchNative(vm.natives[n], f, gas, log), log))
  {
    hide Recorded, Charge;
    var entry := vm.natives[n];
    var k := |f.stack| - |entry.sig.params|;
    if k >= 0 {
      var r := entry.func(log, f.stack[k..]);
      if r.NReturn? {
        var ev := NativeEvent(entry.sig.name, f.stack[k..], r.value);
        assert (log + [ev])[..|log|] == log;
        RecordedSnoc(vm, log, ev);
      }
    }
  }

  lemma FetchRecords(vm: Machine, addr: Address, m: Module, code: seq<Instr>, f: FrameState, gas: Gas, log: seq<NativeEvent>)
    requires OwnNames(vm) && f.pc < |code| && Recorded(vm, log)
    ensures Recorded(vm, MoveLog(Fetch(vm, addr, m, code, f, gas, log), log))
  {
    hide Exec, Fetch, Recorded, Charge, CappedCost, OwnNames, FetchNative;
    FetchShape(vm, addr, m, code, f, gas, log);
    var i := code[f.pc];
    if i.Call? && ResolveCall(vm, addr, m, i.callee).ToNative? {
      NativeRecords(vm, i.callee.name, f.(pc := f.pc + 1), Charge(gas, CappedCost(i)).1, log);
    }
  }

  lemma {:induction false} RunRecords(
    vm: Machine, addr: Address, m: Module, code: seq<Instr>, f: FrameState, gas: Gas, log: seq<NativeEvent>, depth: nat)
    requires OwnNames(vm) && Recorded(vm, log)
    requires Halting(vm, m, gas) && (gas.limit == U64_MAX ==> Forward(code)) && depth < vm.config.maxCallDepth
    ensures Recorded(vm, Run(vm, addr, m, code, f, gas, log, depth).log)
    decreases Budget(vm, gas, depth), 0, CodeLeft(code, f.pc)
  {
    hide Fetch, Halting, Recorded, OwnNames;
    if f.pc < |code| {
      FetchAdvances(vm, addr, m, code, f, gas, log);
      FetchRecords(vm, addr, m, code, f, gas, log);
      match Fetch(vm, addr, m, code, f, gas, log)
      case Stop(_) =>
      case Go(g, gas1, log1) =>
        StillHalts(vm, m, gas, gas1);
        RunRecords(vm, addr, m, code, g, gas1, log1, depth);
      case Enter(a, m', fn, args, back, gas1) =>
        EnteredHalts(vm, addr, m, code, f, gas, log);
        StillHalts(vm, m', gas, gas1);
        CallRecords(vm, a, m', fn.name, args, gas1, log, depth + 1);
        var o := CallInner(vm, a, m', fn.name, args, gas1, log, depth + 1);
        if o.Returned? {
          StillHalts(vm, m, gas, o.gas);
          RunRecords(vm, addr, m, code, Push(back, Landed(o.value)), o.gas, o.log, depth);
        }
    }
  }

  /** The log of any call that ends, at any depth, is what the natives did. */
  lemma {:induction false} CallRecords(
    vm: Machine, addr: Address, m: Module, name: string, args: seq<Value>, gas: Gas, log: seq<NativeEvent>, depth: nat)
    requires OwnNames(vm) && Recorded(vm, log) && Halting(vm, m, gas)
    ensures Recorded(vm, CallInner(vm, addr, m, name, args, gas, log, depth).log)
    decreases Budget(vm, gas, depth), 1, 0
  {
    hide Run, Recorded, OwnNames;
    if depth < vm.config.maxCallDepth && GetFunction(m, name).Some? {
      var fn := GetFunction(m, name).value;
      if |args| <= fn.localCount {
        RunRecords(vm, addr, m, fn.code, NewFrame(args, fn.localCount), gas, log, depth);
      }
    }
  }
}
