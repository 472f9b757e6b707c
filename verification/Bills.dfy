/** What a run is charged: the price of each instruction and each native it got to, no more and no less,
    up to the limit. */
module Bills {
  import opened MeowTypes
  import opened Vm

  datatype Item = Op(i: Instr) | Native(entry: NativeEntry)

  function Price(x: Item): (n: nat) {
    match x
    case Op(i) => CappedCost(i)
    case Native(entry) => entry.gasCost
  }

  function Total(items: seq<Item>): (n: nat) {
    if items == [] then 0 else Price(items[0]) + Total(items[1..])
  }

  lemma {:induction false} TotalConcat(a: seq<Item>, b: seq<Item>)
    ensures Total(a + b) == Total(a) + Total(b)
  {
    if a == [] {
      assert a + b == b;
    } else {
      assert (a + b)[0] == a[0] && (a + b)[1..] == a[1..] + b;
      TotalConcat(a[1..], b);
    }
  }

  /** What one turn gets to: an instruction, and the native it calls, if it could pay for the call. */
  function TurnItems(vm: Machine, addr: Address, m: Module, code: seq<Instr>, f: FrameState, gas: Gas): (r: seq<Item>)
    requires f.pc < |code|
  {
    var i := code[f.pc];
    [Op(i)] +
    if i.Call? && gas.spent + CappedCost(i) <= gas.limit && ResolveCall(vm, addr, m, i.callee).ToNative?
    then [Native(ResolveCall(vm, addr, m, i.callee).entry)] else []
  }

  /** What a run gets to, its callees' part included, in order. */
  function Items(vm: Machine, addr: Address, m: Module, code: seq<Instr>, f: FrameState,
                 gas: Gas, log: seq<NativeEvent>, depth: nat): (r: seq<Item>)
    requires Halting(vm, m, gas)
    requires gas.limit == U64_MAX ==> Forward(code)
    requires depth < vm.config.maxCallDepth
    decreases Budget(vm, gas, depth), 0, CodeLeft(code, f.pc)
  {
    if f.pc >= |code| then []
    else
      FetchAdvances(vm, addr, m, code, f, gas, log);
      TurnItems(vm, addr, m, code, f, gas) +
      match Fetch(vm, addr, m, code, f, gas, log)
      case Stop(_) => []
      case Go(f1, gas1, log1) => Items(vm, addr, m, code, f1, gas1, log1, depth)
      case Enter(a, m', fn, args, back, gas1) =>
        EnterLoaded(vm, addr, m, code, f, gas, log);
        CallItems(vm, a, m', fn.name, args, gas1, log, depth + 1) +
        match CallInner(vm, a, m', fn.name, args, gas1, log, depth + 1)
        case Failed(_, _, _) => []
        case Returned(v, gas2, log2) => Items(vm, addr, m, code, Push(back, Landed(v)), gas2, log2, depth)
  }

  function CallItems(vm: Machine, addr: Address, m: Module, name: string, args: seq<Value>,
                     gas: Gas, log: seq<NativeEvent>, depth: nat): (r: seq<Item>)
    requires Halting(vm, m, gas)
    decreases Budget(vm, gas, depth), 1, 0
  {
    var fn := GetFunction(m, name);
    if depth >= vm.config.maxCallDepth || fn.None? || |args| > fn.value.localCount then []
    else Items(vm, addr, m, fn.value.code, NewFrame(args, fn.value.localCount), gas, log, depth)
  }

  /** The meter goes from one reading to the next by this much, or to its limit. */
  predicate Billed(gas: Gas, later: Gas, n: nat) {
    && later.limit == gas.limit
    && later.spent == if gas.spent + n <= gas.limit then gas.spent + n else gas.limit
  }

  function GasAfter(move: Move): (g: Gas) {
    if move.Stop? then move.outcome.gas else move.gas
  }

  lemma ChargeBills(gas: Gas, cost: u64)
    ensures Billed(gas, Charge(gas, cost).1, cost)
    ensures gas.spent + cost <= gas.limit ==> Charge(gas, cost).0
    ensures gas.limit < U64_MAX && gas.spent + cost > gas.limit ==> !Charge(gas, cost).0
  {
  }

  lemma NativeBilled(entry: NativeEntry, f: FrameState, gas: Gas, log: seq<NativeEvent>)
    ensures Billed(gas, GasAfter(FetchNative(entry, f, gas, log)), entry.gasCost)
  {
    hide Charge;
    ChargeBills(gas, entry.gasCost);
  }

  lemma CallBilled(vm: Machine, addr: Address, m: Module, callee: Name, f: FrameState, gas: Gas, log: seq<NativeEvent>)
    ensures var target := ResolveCall(vm, addr, m, callee);
            var cost := if target.ToNative? then target.entry.gasCost else 0;
            Billed(gas, GasAfter(FetchCall(vm, addr, m, callee, f, gas, log)), cost)
  {
    hide FetchNative, ResolveCall;
    var target := ResolveCall(vm, addr, m, callee);
    if target.ToNative? { NativeBilled(target.entry, f, gas, log); }
  }

  lemma Sums(a: Item, b: Item)
    ensures Total([a]) == Price(a) && Total([a, b]) == Price(a) + Price(b)
  {
    assert [a][1..] == [] && [a, b][1..] == [b] && [b][1..] == [];
  }

  lemma TurnBilled(vm: Machine, addr: Address, m: Module, code: seq<Instr>, f: FrameState, gas: Gas, log: seq<NativeEvent>)
    requires f.pc < |code|
    ensures Billed(gas, GasAfter(Fetch(vm, addr, m, code, f, gas, log)), Total(TurnItems(vm, addr, m, code, f, gas)))
  {
    hide Fetch, Exec, FetchCall, Charge, CappedCost, ResolveCall, Top, Total;
    FetchShape(vm, addr, m, code, f, gas, log);
    var i := code[f.pc];
    var gas1 := Charge(gas, CappedCost(i)).1;
    ChargeBills(gas, CappedCost(i));
    Sums(Op(i), Op(i));
    assert [Op(i)] + [] == [Op(i)];
    if i.Call? {
      var target := ResolveCall(vm, addr, m, i.callee);
      CallBilled(vm, addr, m, i.callee, f.(pc := f.pc + 1), gas1, log);
      if target.ToNative? {
        Sums(Op(i), Native(target.entry));
        assert [Op(i)] + [Native(target.entry)] == [Op(i), Native(target.entry)];
      }
    }
  }

  lemma BilledOn(gas: Gas, mid: Gas, later: Gas, a: seq<Item>, b: seq<Item>)
    requires Billed(gas, mid, Total(a)) && Billed(mid, later, Total(b))
    ensures Billed(gas, later, Total(a + b))
  {
    TotalConcat(a, b);
  }

  /** Any run, of verified code or not, is charged exactly for what it got to, until the limit. */
  lemma {:induction false} RunBilled(vm: Machine, addr: Address, m: Module, code: seq<Instr>, f: FrameState,
                                     gas: Gas, log: seq<NativeEvent>, depth: nat)
    requires Halting(vm, m, gas)
    requires gas.limit == U64_MAX ==> Forward(code)
    requires depth < vm.config.maxCallDepth
    ensures Billed(gas, Run(vm, addr, m, code, f, gas, log, depth).gas, Total(Items(vm, addr, m, code, f, gas, log, depth)))
    decreases Budget(vm, gas, depth), 0, CodeLeft(code, f.pc)
  {
    hide Fetch, NewFrame, TurnItems, Total, Billed;
    if f.pc >= |code| {
      NothingBilled(gas);
    } else {
      FetchAdvances(vm, addr, m, code, f, gas, log);
      TurnBilled(vm, addr, m, code, f, gas, log);
      var first := TurnItems(vm, addr, m, code, f, gas);
      match Fetch(vm, addr, m, code, f, gas, log)
      case Stop(o) => assert first + [] == first;
      case Go(f1, gas1, log1) =>
        RunBilled(vm, addr, m, code, f1, gas1, log1, depth);
        var end := Run(vm, addr, m, code, f1, gas1, log1, depth).gas;
        BilledOn(gas, gas1, end, first, Items(vm, addr, m, code, f1, gas1, log1, depth));
      case Enter(a, m', fn, args, back, gas1) =>
        EnterLoaded(vm, addr, m, code, f, gas, log);
        CallIsBilled(vm, a, m', fn.name, args, gas1, log, depth + 1);
        var o := CallInner(vm, a, m', fn.name, args, gas1, log, depth + 1);
        var inside := CallItems(vm, a, m', fn.name, args, gas1, log, depth + 1);
        if o.Failed? {
          assert inside + [] == inside;
          BilledOn(gas, gas1, o.gas, first, inside);
        } else {
          var g := Push(back, Landed(o.value));
          RunBilled(vm, addr, m, code, g, o.gas, o.log, depth);
          var rest, end := Items(vm, addr, m, code, g, o.gas, o.log, depth), Run(vm, addr, m, code, g, o.gas, o.log, depth).gas;
          BilledOn(gas1, o.gas, end, inside, rest);
          BilledOn(gas, gas1, end, first, inside + rest);
        }
    }
  }

  lemma NothingBilled(gas: Gas)
    ensures Billed(gas, gas, Total([]))
  {
  }

  /** So is a whole call, at any depth. */
  lemma {:induction false} CallIsBilled(vm: Machine, addr: Address, m: Module, name: string, args: seq<Value>,
                                        gas: Gas, log: seq<NativeEvent>, depth: nat)
    requires Halting(vm, m, gas)
    ensures Billed(gas, CallInner(vm, addr, m, name, args, gas, log, depth).gas,
                   Total(CallItems(vm, addr, m, name, args, gas, log, depth)))
    decreases Budget(vm, gas, depth), 1, 0
  {
    hide Fetch, Total, Billed;
    NothingBilled(gas);
    var fn := GetFunction(m, name);
    if depth < vm.config.maxCallDepth && fn.Some? && |args| <= fn.value.localCount {
      RunBilled(vm, addr, m, fn.value.code, NewFrame(args, fn.value.localCount), gas, log, depth);
    }
  }
}
