/** The interpreter as it runs: a frame, a gas meter and a native host that are updated in
    place, proved to compute what `Vm.CallInner` says. */
module Interpreter {
  import opened MeowTypes
  import opened Vm

  class GasMeter {
    const limit: u64
    var spent: u64

    ghost predicate Valid()
      reads this
    {
      spent <= limit
    }

    function Reading(): (g: Gas)
      requires Valid()
      reads this
    {
      Gas(limit, spent)
    }

    constructor (limit: u64)
      ensures Valid() && Reading() == Gas(limit, 0)
    {
      this.limit := limit;
      spent := 0;
    }

    /** The meter never passes its limit: a charge that does not fit uses up what is left. */
    method Charge(cost: u64) returns (paid: bool)
      requires Valid()
      modifies this`spent
      ensures Valid() && (paid, Reading()) == Vm.Charge(old(Reading()), cost)
    {
      spent := if spent + cost > U64_MAX then U64_MAX else spent + cost;
      paid := true;
      if spent > limit {
        spent := limit;
        paid := false;
      }
    }
  }

  /** What the native closures of one machine share: the calls completed so far. */
  class NativeHost {
    var log: seq<NativeEvent>

    constructor ()
      ensures log == []
    {
      log := [];
    }

    method Invoke(entry: NativeEntry, args: seq<Value>) returns (r: NativeResult)
      modifies this
      ensures r == entry.func(old(log), args)
      ensures log == if r.NReturn? then old(log) + [NativeEvent(entry.sig.name, args, r.value)] else old(log)
    {
      r := entry.func(log, args);
      if r.NReturn? {
        log := log + [NativeEvent(entry.sig.name, args, r.value)];
      }
    }
  }

  class Frame {
    var locals: seq<Option<Value>>
    var stack: seq<Value>
    var pc: nat

    function State(): (r: FrameState)
      reads this
    {
      FrameState(locals, stack, pc)
    }

    constructor (args: seq<Value>, localCount: nat)
      requires |args| <= localCount
      ensures State() == NewFrame(args, localCount)
    {
      locals := seq(localCount, i requires 0 <= i < localCount => if i < |args| then Some(args[i]) else None);
      stack := [];
      pc := 0;
    }

    /** Pop `n` values, deepest first; the frame is unchanged if there are too few. */
    method PopN(n: nat) returns (r: Res<seq<Value>>)
      modifies this`stack
      ensures if n <= |old(stack)|
              then r == Ok(old(stack)[|old(stack)| - n..]) && stack == old(stack)[..|old(stack)| - n]
              else r == Err(StackUnderflow) && stack == old(stack)
    {
      if n > |stack| {
        return Err(StackUnderflow);
      }
      var k := |stack| - n;
      r := Ok(stack[k..]);
      stack := stack[..k];
    }

    method PushValue(v: Value)
      modifies this`stack
      ensures State() == Push(old(State()), v)
    {
      stack := stack + [v];
    }

    /** Carry out an instruction that only touches the frame. */
    method Step(vm: Machine, addr: Address, m: Module, i: Instr) returns (r: Res<()>)
      requires !i.Call? && !i.Return?
      modifies this
      ensures match Exec(vm, addr, m, i, old(State()))
        case Ok(g) => r == Ok(()) && State() == g
        case Err(e) => r == Err(e)
    {
      match Exec(vm, addr, m, i, State()) {
        case Ok(g) =>
          locals, stack, pc := g.locals, g.stack, g.pc;
          r := Ok(());
        case Err(e) =>
          r := Err(e);
      }
    }
  }

  function OutcomeOf(r: Res<Option<Value>>, gas: Gas, log: seq<NativeEvent>): (result: Outcome) {
    match r
    case Ok(v) => Returned(v, gas, log)
    case Err(e) => Failed(e, gas, log)
  }

  /** `call_inner`. */
  method CallFunction(vm: Machine, addr: Address, m: Module, name: string, args: seq<Value>,
                      gas: GasMeter, host: NativeHost, depth: nat) returns (r: Res<Option<Value>>)
    requires gas.Valid() && Halting(vm, m, gas.Reading())
    modifies gas`spent, host
    ensures gas.Valid()
    ensures OutcomeOf(r, gas.Reading(), host.log) ==
            CallInner(vm, addr, m, name, args, old(gas.Reading()), old(host.log), depth)
    decreases Budget(vm, gas.Reading(), depth), 1, 0
  {
    if depth >= vm.config.maxCallDepth {
      return Err(CallStackOverflow);
    }
    var fn := GetFunction(m, name);
    if fn.None? {
      return Err(UndefinedFunction);
    }
    if |args| > fn.value.localCount {
      return Err(ArityMismatch);
    }
    assert gas.Reading().limit == U64_MAX ==> Forward(fn.value.code);
    r := RunFunction(vm, addr, m, fn.value, args, gas, host, depth);
  }

  method RunFunction(vm: Machine, addr: Address, m: Module, fn: Function, args: seq<Value>,
                     gas: GasMeter, host: NativeHost, depth: nat) returns (r: Res<Option<Value>>)
    requires gas.Valid() && Halting(vm, m, gas.Reading())
    requires gas.Reading().limit == U64_MAX ==> Forward(fn.code)
    requires depth < vm.config.maxCallDepth && |args| <= fn.localCount
    modifies gas`spent, host
    ensures gas.Valid()
    ensures OutcomeOf(r, gas.Reading(), host.log) ==
            Run(vm, addr, m, fn.code, NewFrame(args, fn.localCount), old(gas.Reading()), old(host.log), depth)
    decreases Budget(vm, gas.Reading(), depth), 0, |fn.code| + 2
  {
    hide Fetch;
    ghost var spec := Run(vm, addr, m, fn.code, NewFrame(args, fn.localCount), gas.Reading(), host.log, depth);
    var frame := new Frame(args, fn.localCount);
    while frame.pc < |fn.code|
      modifies frame, gas`spent, host
      invariant gas.Valid() && old(gas.Reading()).spent <= gas.spent
      invariant Run(vm, addr, m, fn.code, frame.State(), gas.Reading(), host.log, depth) == spec
      decreases Budget(vm, gas.Reading(), depth), CodeLeft(fn.code, frame.pc)
    {
      var stopped := Turn(vm, addr, m, fn.code, frame, gas, host, depth);
      if stopped.Some? {
        return stopped.value;
      }
    }
    r := Ok(Top(frame.stack));
  }

  /** One turn of the main loop: a result, or a frame from which the run goes on to the same end. */
  method Turn(vm: Machine, addr: Address, m: Module, code: seq<Instr>, frame: Frame,
              gas: GasMeter, host: NativeHost, depth: nat) returns (stopped: Option<Res<Option<Value>>>)
    requires gas.Valid() && Halting(vm, m, gas.Reading()) && frame.pc < |code|
    requires gas.Reading().limit == U64_MAX ==> Forward(code)
    requires depth < vm.config.maxCallDepth
    modifies frame, gas`spent, host
    ensures gas.Valid() && old(gas.spent) <= gas.spent
    ensures var o := old(Run(vm, addr, m, code, frame.State(), gas.Reading(), host.log, depth));
      if stopped.Some? then OutcomeOf(stopped.value, gas.Reading(), host.log) == o
      else Run(vm, addr, m, code, frame.State(), gas.Reading(), host.log, depth) == o
    ensures stopped.None? && (gas.limit == U64_MAX || gas.spent == old(gas.spent)) ==> old(frame.pc) < frame.pc
    decreases Budget(vm, gas.Reading(), depth), 0, CodeLeft(code, frame.pc) + 1
  {
    hide Exec, FetchNative, ResolveCall, Vm.Charge;
    ghost var f, g, log := frame.State(), gas.Reading(), host.log;
    ghost var move := Fetch(vm, addr, m, code, f, g, log);
    FetchAdvances(vm, addr, m, code, f, g, log);
    stopped := None;
    var i := code[frame.pc];
    var paid := gas.Charge(CappedCost(i));
    if !paid {
      return Some(Err(OutOfGas));
    }
    frame.pc := frame.pc + 1;
    if i.Return? {
      return Some(Ok(Top(frame.stack)));
    }
    if i.Call? {
      var target := ResolveCall(vm, addr, m, i.callee);
      match target {
        case ToNothing(e) =>
          stopped := Some(Err(e));
        case ToNative(entry) =>
          var failed := CallNative(entry, frame, gas, host);
          stopped := if failed.Some? then Some(Err(failed.value)) else None;
        case ToFunction(a, m', callee) =>
          var popped := frame.PopN(|callee.params|);
          if popped.Err? {
            return Some(Err(popped.error));
          }
          assert move == Enter(a, m', callee, popped.value, frame.State(), gas.Reading());
          EnterLoaded(vm, addr, m, code, f, g, log);
          var back := CallFunction(vm, a, m', callee.name, popped.value, gas, host, depth + 1);
          if back.Err? {
            return Some(Err(back.error));
          }
          frame.PushValue(Landed(back.value));
      }
    } else {
      var done := frame.Step(vm, addr, m, i);
      stopped := if done.Err? then Some(Err(done.error)) else None;
    }
  }

  /** Charge for a native, pop its arguments, invoke it and push its result. */
  method CallNative(entry: NativeEntry, frame: Frame, gas: GasMeter, host: NativeHost) returns (failed: Option<VmError>)
    requires gas.Valid()
    modifies frame`stack, gas`spent, host
    ensures gas.Valid()
    ensures var move := old(FetchNative(entry, frame.State(), gas.Reading(), host.log));
      if failed.Some? then move == Stop(Failed(failed.value, gas.Reading(), host.log))
      else move == Go(frame.State(), gas.Reading(), host.log)
  {
    var paid := gas.Charge(entry.gasCost);
    if !paid {
      return Some(OutOfGas);
    }
    var popped := frame.PopN(|entry.sig.params|);
    if popped.Err? {
      return Some(popped.error);
    }
    var result := host.Invoke(entry, popped.value);
    match result {
      case NAbort(code, msg) => failed := Some(Aborted(code, msg));
      case NError(msg) => failed := Some(NativeError(msg));
      case NReturn(v) =>
        frame.PushValue(Landed(v));
        failed := None;
    }
  }
}
