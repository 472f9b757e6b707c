/** How long a run can take. */
module HaltingBounds {
  import opened MeowTypes
  import opened Vm

  /** Instructions executed by a run, its callees' included. */
  function Turns(vm: Machine, addr: Address, m: Module, code: seq<Instr>, f: FrameState,
                 gas: Gas, log: seq<NativeEvent>, depth: nat): (r: nat)
    requires Halting(vm, m, gas)
    requires gas.limit == U64_MAX ==> Forward(code)
    requires depth < vm.config.maxCallDepth
    decreases Budget(vm, gas, depth), 0, CodeLeft(code, f.pc)
  {
    if f.pc >= |code| then 0
    else
      FetchAdvances(vm, addr, m, code, f, gas, log);
      match Fetch(vm, addr, m, code, f, gas, log)
      case Stop(_) => 1
      case Go(f1, gas1, log1) => 1 + Turns(vm, addr, m, code, f1, gas1, log1, depth)
      case Enter(a, m', fn, args, back, gas1) =>
        EnterLoaded(vm, addr, m, code, f, gas, log);
        var inside := CallTurns(vm, a, m', fn.name, args, gas1, log, depth + 1);
        match CallInner(vm, a, m', fn.name, args, gas1, log, depth + 1)
        case Failed(_, _, _) => 1 + inside
        case Returned(v, gas2, log2) =>
          1 + inside + Turns(vm, addr, m, code, Push(back, Landed(v)), gas2, log2, depth)
  }

  function CallTurns(vm: Machine, addr: Address, m: Module, name: string, args: seq<Value>,
                     gas: Gas, log: seq<NativeEvent>, depth: nat): (r: nat)
    requires Halting(vm, m, gas)
    decreases Budget(vm, gas, depth), 1, 0
  {
    var fn := GetFunction(m, name);
    if depth >= vm.config.maxCallDepth || fn.None? || |args| > fn.value.localCount then 0
    else Turns(vm, addr, m, fn.value.code, NewFrame(args, fn.value.localCount), gas, log, depth)
  }

  /** No function the machine can reach is longer than `size`. */
  predicate AtMost(vm: Machine, m: Module, size: nat) {
    && (forall fn | fn in m.functions :: |fn.code| <= size)
    && forall a, fn | a in vm.deps && fn in vm.deps[a].functions :: |fn.code| <= size
  }

  /** Turns still allowed: every unit of gas pays for one pass through the longest function. */
  function Allowance(gas: Gas, size: nat): (r: nat) {
    (gas.limit - gas.spent) * (size + 1)
  }

  lemma AllowanceSpent(gas: Gas, later: Gas, size: nat)
    requires gas.limit == later.limit && gas.spent <= later.spent
    ensures Allowance(later, size) <= Allowance(gas, size)
    ensures gas.spent < later.spent ==> Allowance(later, size) + size + 1 <= Allowance(gas, size)
  {
    Products(gas.limit - gas.spent, gas.limit - later.spent, size + 1);
  }

  lemma {:induction false} Products(a: nat, b: nat, k: nat)
    requires b <= a
    ensures b * k <= a * k && (b < a ==> b * k + k <= a * k)
    decreases a - b
  {
    if b < a {
      Products(a, b + 1, k);
      assert (b + 1) * k == b * k + k;
    }
  }

  /** Any bytecode, verified or not, halts under a limit the meter can pass: its length and the
      gas it was given bound the instructions it executes. */
  lemma {:induction false} GasBoundsTurns(vm: Machine, addr: Address, m: Module, code: seq<Instr>, f: FrameState,
                                          gas: Gas, log: seq<NativeEvent>, depth: nat, size: nat)
    requires gas.limit < U64_MAX && depth < vm.config.maxCallDepth
    requires |code| <= size && AtMost(vm, m, size)
    ensures Turns(vm, addr, m, code, f, gas, log, depth) + Allowance(Run(vm, addr, m, code, f, gas, log, depth).gas, size)
            <= Allowance(gas, size) + CodeLeft(code, f.pc)
    decreases Budget(vm, gas, depth), 0, CodeLeft(code, f.pc)
  {
    hide Fetch, Allowance, NewFrame;
    if f.pc < |code| {
      FetchAdvances(vm, addr, m, code, f, gas, log);
      match Fetch(vm, addr, m, code, f, gas, log)
      case Stop(o) => AllowanceSpent(gas, o.gas, size);
      case Go(f1, gas1, log1) =>
        AllowanceSpent(gas, gas1, size);
        GasBoundsTurns(vm, addr, m, code, f1, gas1, log1, depth, size);
      case Enter(a, m', fn, args, back, gas1) =>
        EnterLoaded(vm, addr, m, code, f, gas, log);
        AllowanceSpent(gas, gas1, size);
        GasBoundsCall(vm, a, m', fn.name, args, gas1, log, depth + 1, size);
        var o := CallInner(vm, a, m', fn.name, args, gas1, log, depth + 1);
        if o.Returned? {
          GasBoundsTurns(vm, addr, m, code, Push(back, Landed(o.value)), o.gas, o.log, depth, size);
        }
    }
  }

  lemma {:induction false} GasBoundsCall(vm: Machine, addr: Address, m: Module, name: string, args: seq<Value>,
                                         gas: Gas, log: seq<NativeEvent>, depth: nat, size: nat)
    requires gas.limit < U64_MAX && AtMost(vm, m, size)
    ensures CallTurns(vm, addr, m, name, args, gas, log, depth) + Allowance(CallInner(vm, addr, m, name, args, gas, log, depth).gas, size)
            <= Allowance(gas, size) + size
    decreases Budget(vm, gas, depth), 1, 0
  {
    hide Fetch, Allowance;
    var fn := GetFunction(m, name);
    if depth < vm.config.maxCallDepth && fn.Some? && |args| <= fn.value.localCount {
      GasBoundsTurns(vm, addr, m, fn.value.code, NewFrame(args, fn.value.localCount), gas, log, depth, size);
    }
  }

  /** Instructions executed in the run's own frame. */
  function OwnTurns(vm: Machine, addr: Address, m: Module, code: seq<Instr>, f: FrameState,
                    gas: Gas, log: seq<NativeEvent>, depth: nat): (r: nat)
    requires Halting(vm, m, gas)
    requires gas.limit == U64_MAX ==> Forward(code)
    requires depth < vm.config.maxCallDepth
    decreases Budget(vm, gas, depth), 0, CodeLeft(code, f.pc)
  {
    if f.pc >= |code| then 0
    else
      FetchAdvances(vm, addr, m, code, f, gas, log);
      match Fetch(vm, addr, m, code, f, gas, log)
      case Stop(_) => 1
      case Go(f1, gas1, log1) => 1 + OwnTurns(vm, addr, m, code, f1, gas1, log1, depth)
      case Enter(a, m', fn, args, back, gas1) =>
        EnterLoaded(vm, addr, m, code, f, gas, log);
        match CallInner(vm, a, m', fn.name, args, gas1, log, depth + 1)
        case Failed(_, _, _) => 1
        case Returned(v, gas2, log2) => 1 + OwnTurns(vm, addr, m, code, Push(back, Landed(v)), gas2, log2, depth)
  }

  /** Code without backward jumps executes each of its instructions at most once per frame,
      whatever the meter. */
  lemma {:induction false} ForwardOnce(vm: Machine, addr: Address, m: Module, code: seq<Instr>, f: FrameState,
                                       gas: Gas, log: seq<NativeEvent>, depth: nat)
    requires Halting(vm, m, gas) && Forward(code) && depth < vm.config.maxCallDepth
    ensures OwnTurns(vm, addr, m, code, f, gas, log, depth) <= CodeLeft(code, f.pc)
    decreases Budget(vm, gas, depth), 0, CodeLeft(code, f.pc)
  {
    hide Fetch, Forward;
    if f.pc < |code| {
      FetchAdvances(vm, addr, m, code, f, gas, log);
      match Fetch(vm, addr, m, code, f, gas, log)
      case Stop(_) =>
      case Go(f1, gas1, log1) => ForwardOnce(vm, addr, m, code, f1, gas1, log1, depth);
      case Enter(a, m', fn, args, back, gas1) =>
        EnterLoaded(vm, addr, m, code, f, gas, log);
        var o := CallInner(vm, a, m', fn.name, args, gas1, log, depth + 1);
        if o.Returned? {
          ForwardOnce(vm, addr, m, code, Push(back, Landed(o.value)), o.gas, o.log, depth);
        }
    }
  }

  /** The main loop is still going in this function after `n` turns. */
  predicate GoesOnFor(vm: Machine, addr: Address, m: Module, code: seq<Instr>, f: FrameState, gas: Gas,
                      log: seq<NativeEvent>, n: nat)
    decreases n
  {
    n > 0 ==>
      && f.pc < |code|
      && var move := Fetch(vm, addr, m, code, f, gas, log);
         move.Go? && GoesOnFor(vm, addr, m, code, move.f, move.gas, move.log, n - 1)
  }

  /** With the meter at its maximum the limit cannot be passed, so a jump to itself is never
      left, after any number of turns: the bound on the limit is needed. */
  lemma {:induction false} UnlimitedLoops(
    vm: Machine, addr: Address, m: Module, f: FrameState, gas: Gas, log: seq<NativeEvent>, n: nat)
    requires gas.limit == U64_MAX && f.pc == 0
    ensures GoesOnFor(vm, addr, m, [Jump(0)], f, gas, log, n)
    decreases n
  {
    if n > 0 {
      var i := [Jump(0)][0];
      assert i == Jump(0) && CappedCost(i) == 2;
      assert Exec(vm, addr, m, i, f.(pc := 1)) == Ok(f);
      var move := Fetch(vm, addr, m, [Jump(0)], f, gas, log);
      UnlimitedLoops(vm, addr, m, move.f, move.gas, move.log, n - 1);
    }
  }
}
