/** What the functions of the coin module, compiled and run, do to the coin supply: `mint` makes what
    it is asked for, `transfer`, `split` and `merge` keep it, `burn` takes it away. */
module CoinSupply {
  import opened MeowTypes
  import opened Vm
  import Ast
  import opened Codegen
  import Meaning
  import opened Ledger
  import opened Effects
  import opened Executor
  import opened History
  import opened Verify
  import opened Adapter
  import AtMostOnce
  import opened Assertions
  import opened Supply
  import opened Coin
  import opened CoinCode

  /** A machine running the compiled coin module on the chain's natives. */
  ghost predicate CoinMachine(w: Ast.World, lim: GenLimits, vm: Machine, s: Session) {
    Meaning.Built(w, lim, vm) && CoinWorld(w, s)
  }

  function CodeOf(lim: GenLimits, i: nat): (f: Function)
    requires Roomy(lim) && i < 10
    ensures |COIN_SOURCE.functions| == 10 && Some(f) == CompileFunction(COIN_SOURCE, lim, COIN_SOURCE.functions[i])
  {
    CoinCompiles(lim, i);
    CompileFunction(COIN_SOURCE, lim, COIN_SOURCE.functions[i]).value
  }

  /** The compiled module. */
  function CompiledCoin(lim: GenLimits): (m: Module)
    requires Roomy(lim)
    ensures CompiledAs(m, COIN_SOURCE, lim)
  {
    hide CodeOf, CompileFunction;
    assert |COIN_SOURCE.functions| == 10 by { CoinCompiles(lim, 0); }
    Module("meow_coin", [OBJECT_MODULE], COIN_SOURCE.structs, seq(10, i requires 0 <= i < 10 => CodeOf(lim, i)))
  }

  const OBJECT_SOURCE: Ast.SourceModule := Ast.SourceModule(map[], [StructDef("Id", [FieldDef("inner", Addr)], true)], [])

  /** There is such a machine, and its public functions can be called. */
  lemma CoinMachineExists(lim: GenLimits, s: Session, name: string, fn: Ast.AstFunction) returns (w: Ast.World, vm: Machine)
    requires Roomy(lim) && Ast.FindAst(COIN_SOURCE.functions, name) == Some(fn) && name !in Natives(s)
    ensures CoinMachine(w, lim, vm, s) && EntryError(vm, name).None?
  {
    hide CompileFunction, Natives, Ast.FindAst, CompiledCoin, COIN_SOURCE;
    var main := CompiledCoin(lim);
    var object' := Module("meow_object", [], OBJECT_SOURCE.structs, []);
    w := Ast.World(COIN_MODULE, COIN_SOURCE, map[OBJECT_MODULE := OBJECT_SOURCE], Natives(s), 256);
    vm := Machine(COIN_MODULE, main, map[OBJECT_MODULE := object'], Natives(s), Config(256, 64, true));
    CoinParams();
    assert vm.deps.Keys == {OBJECT_MODULE};
    assert CompiledAs(object', OBJECT_SOURCE, lim);
    Meaning.FindAgrees(main, COIN_SOURCE, lim, name);
  }

  lemma CoinParams()
    ensures Meaning.ParamsDistinct(COIN_SOURCE)
  {
    forall i | 0 <= i < 10 ensures AllDistinct(ParamNames(COIN_SOURCE.functions[i].params)) {
      ParamsTold(i);
    }
  }

  lemma ParamsTold(i: nat)
    requires i < 10
    ensures |COIN_SOURCE.functions| == 10 && AllDistinct(ParamNames(COIN_SOURCE.functions[i].params))
  {
    assert |"from"| == 4 && |"to"| == 2 && |"recipient"| == 9 && |"amount"| == 6 && |"balance"| == 7 && |"owner"| == 5 && |"coin"| == 4;
    assert i == 0 || i == 1 || i == 2 || i == 3 || i == 4 || i == 5 || i == 6 || i == 7 || i == 8 || i == 9;
  }

  /** A call of the compiled module ends as its source does, unless it runs out of gas. */
  lemma CoinCall(w: Ast.World, lim: GenLimits, vm: Machine, s: Session, name: string, fn: Ast.AstFunction, vs: seq<Value>, gas: Gas)
    requires CoinMachine(w, lim, vm, s) && EntryError(vm, name).None?
    requires Ast.FindAst(COIN_SOURCE.functions, name) == Some(fn) && |vs| == |fn.params|
    ensures Halting(vm, vm.main, gas)
    ensures var end, flow := MachineEnd(vm, name, vs, gas), Ends(w, fn, vs);
            && (flow.Ret? && (end.Finished? || gas.limit == U64_MAX) ==> end.Finished? && end.ctx == ContextOf(flow.log))
            && (flow.Halt? ==> end.Stopped?)
  {
    hide Meaning.Built, CallInner, Ast.EvalFunction, Halting, EntryError, COIN_SOURCE, ContextOf, CoinWorld;
    WorldMain(w, s);
    BuiltAt(w, lim, vm);
    Meaning.CodegenPreservesMeaning(w, lim, vm, name, vs, gas);
  }

  lemma WorldMain(w: Ast.World, s: Session)
    requires CoinWorld(w, s)
    ensures w.main == COIN_SOURCE && w.addr == COIN_MODULE
  {
  }

  lemma BuiltAt(w: Ast.World, lim: GenLimits, vm: Machine)
    requires Meaning.Built(w, lim, vm)
    ensures vm.addr == w.addr
  {
  }

  // ------------------------------------------------------------------- contexts

  lemma SentLast(log: seq<NativeEvent>, v: Value, to: Address)
    ensures ContextOf(log + [Sent(v, to)]) ==
              ContextOf(log).(transfers := ContextOf(log).transfers + [Transfer(v, to)])
  {
    hide FreshName, TransferName, DestroyName;
    NamesDistinct();
    assert (log + [Sent(v, to)])[..|log|] == log;
  }

  lemma GoneLast(log: seq<NativeEvent>, a: Address)
    ensures ContextOf(log + [Gone(a)]) == ContextOf(log).(destroyed := ContextOf(log).destroyed + [a])
  {
    hide FreshName, TransferName, DestroyName;
    NamesDistinct();
    assert (log + [Gone(a)])[..|log|] == log;
  }

  lemma DrawnLast(log: seq<NativeEvent>, s: Session, before: seq<NativeEvent>)
    ensures ContextOf(log + [Drawn(s, before)]) ==
              ContextOf(log).(freshIds := ContextOf(log).freshIds + [NextId(s, before)])
  {
    hide FreshName, TransferName, DestroyName, NextId;
    NamesDistinct();
    assert (log + [Drawn(s, before)])[..|log|] == log;
  }

  lemma OtherLast(log: seq<NativeEvent>, ev: NativeEvent)
    requires ev.name == AbortName() || ev.name == SenderName()
    ensures ContextOf(log + [ev]) == ContextOf(log)
  {
    hide FreshName, TransferName, DestroyName, AbortName, SenderName;
    NamesDistinct();
    assert (log + [ev])[..|log|] == log;
  }

  const NO_EFFECTS: Context := Context([], [], [])

  lemma NoLog()
    ensures ContextOf([]) == NO_EFFECTS
  {
  }

  // ---------------------------------------------------------------------- coins

  /** A live coin object worth `n`, as the module makes them. */
  predicate IsCoinOf(c: Object, n: u64) {
    c.content == Instance(COIN_TYPE, [Field("balance", VU64(n))]) && c.owner.OwnedBy? && c.version < U64_MAX
  }

  lemma CoinWorth(c: Object, n: u64)
    requires IsCoinOf(c, n)
    ensures c.content.Instance? && ToValue(c) == CoinValue(c.addr, n) && Worth(c) == n
  {
    assert [Field(ID_FIELD, IdValue(c.addr))] + [Field("balance", VU64(n))] == CoinValue(c.addr, n).fields;
    assert Place(c.content.fields, BALANCE) == 0;
  }

  lemma ValueOfCoin(a: Address, n: u64)
    ensures ValueWorth(CoinValue(a, n)) == n && Convertible(CoinValue(a, n)) && IdOf(CoinValue(a, n)) == a
  {
    var fields := CoinValue(a, n).fields;
    assert |"id"| != |"balance"|;
    assert fields[1..] == [Field("balance", VU64(n))];
    assert Place(fields[1..], BALANCE) == 0;
    assert Place(fields, BALANCE) == 1;
  }

  lemma MovedLast(ts: seq<Transfer>, a: Address, n: u64, to: Address)
    ensures SumMoved(ts + [Transfer(CoinValue(a, n), to)]) == SumMoved(ts) + n
  {
    hide CoinValue, ValueWorth;
    ValueOfCoin(a, n);
    assert (ts + [Transfer(CoinValue(a, n), to)])[..|ts|] == ts;
  }

  lemma WorthOne(c: Object)
    ensures SumWorth([c]) == Worth(c) && Addrs([c]) == [c.addr]
  {
    assert [c][..0] == [];
  }

  lemma WorthTwo(c: Object, d: Object)
    ensures SumWorth([c, d]) == Worth(c) + Worth(d)
  {
    WorthOne(c);
    assert [c, d][..1] == [c];
  }

  lemma {:induction false} ArgIs(objs: seq<Object>, i: nat)
    requires i < |objs|
    ensures ArgAt(objs, objs[i].addr).Some?
  {
  }

  // ------------------------------------------------------------------ the functions

  /** `burn`: all of the coin's worth is taken and nothing is given. */
  lemma BurnShifts(w: Ast.World, lim: GenLimits, vm: Machine, s: Session, c: Object, n: u64, gas: Gas)
    requires CoinMachine(w, lim, vm, s) && EntryError(vm, "burn").None? && IsCoinOf(c, n)
    ensures Halting(vm, vm.main, gas)
    ensures var end := MachineEnd(vm, "burn", [ToValue(c)], gas);
            && (gas.limit == U64_MAX ==> end.Finished?)
            && (end.Finished? ==> Settled(end.ctx, [c]) == Shift(Worth(c), 0))
  {
    hide CoinMachine, EntryError, MachineEnd, Halting, Ends, CoinValue, ToValue, ContextOf, Settled;
    CoinWorth(c, n);
    CoinFunctions();
    CoinWorldOf(w, lim, vm, s);
    BurnEvaluates(w, s, c.addr, n);
    CoinCall(w, lim, vm, s, "burn", BURN_SOURCE, [CoinValue(c.addr, n)], gas);
    BurnSettles(c, n);
  }

  lemma BurnSettles(c: Object, n: u64)
    requires IsCoinOf(c, n)
    ensures Settled(ContextOf([Gone(c.addr)]), [c]) == Shift(Worth(c), 0)
  {
    hide ContextOf, SumWorth, SumMoved, Worth;
    NoLog();
    GoneLast([], c.addr);
    assert [] + [Gone(c.addr)] == [Gone(c.addr)] && [] + [c.addr] == [c.addr];
    NothingMoved();
    WorthOne(c);
    ArgIs([c], 0);
  }

  lemma CoinWorldOf(w: Ast.World, lim: GenLimits, vm: Machine, s: Session)
    requires CoinMachine(w, lim, vm, s)
    ensures CoinWorld(w, s)
  {
  }

  /** `transfer`: what is taken is given. */
  lemma TransferShifts(w: Ast.World, lim: GenLimits, vm: Machine, s: Session, c: Object, n: u64, to: Address, gas: Gas)
    requires CoinMachine(w, lim, vm, s) && EntryError(vm, "transfer").None? && IsCoinOf(c, n)
    ensures Halting(vm, vm.main, gas)
    ensures var end := MachineEnd(vm, "transfer", [ToValue(c), VAddr(to)], gas);
            && (gas.limit == U64_MAX ==> end.Finished?)
            && (end.Finished? ==> Settled(end.ctx, [c]) == Shift(Worth(c), Worth(c)))
  {
    hide CoinMachine, EntryError, MachineEnd, Halting, Ends, CoinValue, ToValue, ContextOf, Settled;
    CoinWorth(c, n);
    CoinFunctions();
    CoinWorldOf(w, lim, vm, s);
    TransferEvaluates(w, s, c.addr, n, to);
    CoinCall(w, lim, vm, s, "transfer", TRANSFER_SOURCE, [CoinValue(c.addr, n), VAddr(to)], gas);
    TransferSettles(c, n, to);
  }

  lemma TransferSettles(c: Object, n: u64, to: Address)
    requires IsCoinOf(c, n)
    ensures Settled(ContextOf([Sent(CoinValue(c.addr, n), to)]), [c]) == Shift(Worth(c), Worth(c))
  {
    hide CoinValue, ContextOf, SumWorth, SumMoved, Convertible, IdOf, Worth;
    CoinWorth(c, n);
    NoLog();
    SentLast([], CoinValue(c.addr, n), to);
    var t := Transfer(CoinValue(c.addr, n), to);
    assert [] + [Sent(t.value, to)] == [Sent(t.value, to)] && [] + [t] == [t];
    MovedLast([], c.addr, n, to);
    NothingMoved();
    ValueOfCoin(c.addr, n);
    WorthOne(c);
    ArgIs([c], 0);
    TransferIdsSnoc([], t);
    assert TransferIds([t])[0] == c.addr;
  }

  lemma NothingMoved()
    ensures SumMoved([]) == 0
  {
  }

  /** `merge_and_transfer`: what is taken from both is given in one. */
  lemma MergeShifts(w: Ast.World, lim: GenLimits, vm: Machine, s: Session, c: Object, n: u64, d: Object, k: u64, to: Address, gas: Gas)
    requires CoinMachine(w, lim, vm, s) && EntryError(vm, "merge_and_transfer").None? && IsCoinOf(c, n) && IsCoinOf(d, k)
    ensures Halting(vm, vm.main, gas)
    ensures var end := MachineEnd(vm, "merge_and_transfer", [ToValue(c), ToValue(d), VAddr(to)], gas);
            && (gas.limit == U64_MAX ==> (end.Finished? <==> n + k <= U64_MAX))
            && (end.Finished? ==> Settled(end.ctx, [c, d]) == Shift(Worth(c) + Worth(d), Worth(c) + Worth(d)))
  {
    hide CoinMachine, EntryError, MachineEnd, Halting, Ends, CoinValue, ToValue, ContextOf;
    CoinWorth(c, n);
    CoinWorth(d, k);
    CoinFunctions();
    CoinWorldOf(w, lim, vm, s);
    MergeEvaluates(w, s, c.addr, n, d.addr, k, to);
    CoinCall(w, lim, vm, s, "merge_and_transfer", MERGE_SOURCE, [CoinValue(c.addr, n), CoinValue(d.addr, k), VAddr(to)], gas);
    if n + k <= U64_MAX {
      MergeSettles(c, n, d, k, to);
    }
  }

  lemma MergeSettles(c: Object, n: u64, d: Object, k: u64, to: Address)
    requires IsCoinOf(c, n) && IsCoinOf(d, k) && n + k <= U64_MAX
    ensures Settled(ContextOf([Gone(c.addr), Sent(CoinValue(d.addr, n + k), to)]), [c, d]) ==
              Shift(Worth(c) + Worth(d), Worth(c) + Worth(d))
  {
    hide CoinValue, ContextOf, SumWorth, SumMoved, Convertible, IdOf, Worth;
    CoinWorth(c, n);
    CoinWorth(d, k);
    var t := Transfer(CoinValue(d.addr, n + k), to);
    MergeContext(c.addr, t.value, to);
    assert [] + [t] == [t];
    MovedLast([], d.addr, n + k, to);
    NothingMoved();
    ValueOfCoin(d.addr, n + k);
    WorthTwo(c, d);
    SettledBy([c, d], c.addr, t);
  }

  lemma MergeContext(a: Address, v: Value, to: Address)
    ensures ContextOf([Gone(a), Sent(v, to)]) == Context([], [Transfer(v, to)], [a])
  {
    hide ContextOf, Gone, Sent;
    NoLog();
    GoneLast([], a);
    SentLast([Gone(a)], v, to);
    assert [] + [Gone(a)] == [Gone(a)] && [Gone(a)] + [Sent(v, to)] == [Gone(a), Sent(v, to)];
    assert [] + [a] == [a] && [] + [Transfer(v, to)] == [Transfer(v, to)];
  }

  /** Two objects, one destroyed and one transferred, are accounted for. */
  lemma SettledBy(objs: seq<Object>, a: Address, t: Transfer)
    requires |objs| == 2 && objs[0].addr == a && Convertible(t.value) && IdOf(t.value) == objs[1].addr && ArgsOk(objs)
    ensures Settled(Context([], [t], [a]), objs) == Shift(SumWorth(objs), SumMoved([t]))
  {
    hide Convertible, IdOf, SumWorth, SumMoved, ArgAt;
    ArgIs(objs, 0);
    ArgIs(objs, 1);
    assert TransferIds([t])[0] == objs[1].addr;
  }

  /** `split_and_transfer`: what is taken is given in two. */
  lemma SplitShifts(w: Ast.World, lim: GenLimits, vm: Machine, s: Session, c: Object, n: u64, amount: u64, to: Address, gas: Gas)
    requires CoinMachine(w, lim, vm, s) && EntryError(vm, "split_and_transfer").None? && IsCoinOf(c, n)
    ensures Halting(vm, vm.main, gas)
    ensures var end := MachineEnd(vm, "split_and_transfer", [ToValue(c), VU64(amount), VAddr(to)], gas);
            && (gas.limit == U64_MAX ==> (end.Finished? <==> amount <= n))
            && (end.Finished? ==> Settled(end.ctx, [c]) == Shift(Worth(c), Worth(c)))
  {
    hide CoinMachine, EntryError, MachineEnd, Halting, Ends, CoinValue, ToValue, ContextOf, SplitLog;
    CoinWorth(c, n);
    CoinFunctions();
    CoinWorldOf(w, lim, vm, s);
    SplitEvaluates(w, s, c.addr, n, amount, to);
    CoinCall(w, lim, vm, s, "split_and_transfer", SPLIT_SOURCE, [CoinValue(c.addr, n), VU64(amount), VAddr(to)], gas);
    if amount <= n {
      SplitSettles(s, c, n, amount, to);
    }
  }

  lemma SplitSettles(s: Session, c: Object, n: u64, amount: u64, to: Address)
    requires IsCoinOf(c, n) && amount <= n
    ensures Settled(ContextOf(SplitLog(s, c.addr, n, amount, to)), [c]) == Shift(Worth(c), Worth(c))
  {
    hide CoinValue, ContextOf, SumWorth, SumMoved, Convertible, IdOf, Worth, NextId, SplitLog, Settled, TransferIds;
    CoinWorth(c, n);
    var id := NextId(s, [Checked(true)]);
    var t, u := Transfer(CoinValue(id, amount), to), Transfer(CoinValue(c.addr, n - amount), s.sender);
    SplitContext(s, c.addr, n, amount, to);
    MovedLast([], id, amount, to);
    MovedLast([t], c.addr, n - amount, s.sender);
    assert [] + [t] == [t] && [t] + [u] == [t, u];
    NothingMoved();
    ValueOfCoin(id, amount);
    ValueOfCoin(c.addr, n - amount);
    WorthOne(c);
    SettledFresh(id, t, u, c);
  }

  /** A fresh object and the only argument, both transferred, are accounted for. */
  lemma SettledFresh(id: Address, t: Transfer, u: Transfer, c: Object)
    requires Convertible(t.value) && IdOf(t.value) == id && Convertible(u.value) && IdOf(u.value) == c.addr && ArgsOk([c])
    ensures Settled(Context([id], [t, u], []), [c]) == Shift(SumWorth([c]), SumMoved([t, u]))
  {
    hide Convertible, IdOf, SumWorth, SumMoved, ArgAt;
    ArgIs([c], 0);
    assert TransferIds([t, u])[0] == id && TransferIds([t, u])[1] == c.addr;
  }

  lemma SplitContext(s: Session, a: Address, n: u64, amount: u64, to: Address)
    requires amount <= n
    ensures var id := NextId(s, [Checked(true)]);
            ContextOf(SplitLog(s, a, n, amount, to)) ==
              Context([id], [Transfer(CoinValue(id, amount), to), Transfer(CoinValue(a, n - amount), s.sender)], [])
  {
    hide CoinValue, ContextOf, NextId, Drawn, Sent, AbortName, SenderName, INSUFFICIENT;
    var log1 := [Checked(true)];
    var id := NextId(s, log1);
    var v, rest := CoinValue(id, amount), CoinValue(a, n - amount);
    var t, u := Transfer(v, to), Transfer(rest, s.sender);
    NoLog();
    OtherLast([], Checked(true));
    assert [] + [Checked(true)] == log1;
    DrawnLast(log1, s, log1);
    SentLast(log1 + [Drawn(s, log1)], v, to);
    OtherLast(log1 + [Drawn(s, log1)] + [Sent(v, to)], AskedSender(s));
    SentLast(log1 + [Drawn(s, log1)] + [Sent(v, to)] + [AskedSender(s)], rest, s.sender);
    assert [] + [id] == [id] && [] + [t] == [t] && [t] + [u] == [t, u];
  }

  // ------------------------------------------------------------------- minting

  /** The mint, run without a gas limit, always makes one coin worth the amount. */
  lemma MintRuns(w: Ast.World, lim: GenLimits, vm: Machine, s: Session, n: u64, to: Address)
    requires CoinMachine(w, lim, vm, s) && EntryError(vm, MINT).None?
    ensures Halting(vm, vm.main, Gas(U64_MAX, 0))
    ensures var end, id := MachineEnd(vm, MINT, [VU64(n), VAddr(to)], Gas(U64_MAX, 0)), NextId(s, []);
            end.Finished? && end.ctx == Context([id], [Transfer(CoinValue(id, n), to)], [])
  {
    hide CoinMachine, EntryError, MachineEnd, Halting, Ends, CoinValue, ContextOf, NextId, Drawn, Sent;
    CoinFunctions();
    CoinWorldOf(w, lim, vm, s);
    MintEvaluates(w, s, n, to);
    CoinCall(w, lim, vm, s, MINT, MINT_SOURCE, [VU64(n), VAddr(to)], Gas(U64_MAX, 0));
    MintContext(s, n, to);
  }

  lemma MintContext(s: Session, n: u64, to: Address)
    ensures var id := NextId(s, []);
            ContextOf([Drawn(s, []), Sent(CoinValue(id, n), to)]) == Context([id], [Transfer(CoinValue(id, n), to)], [])
  {
    hide CoinValue, ContextOf, NextId, Drawn, Sent;
    var id := NextId(s, []);
    var v := CoinValue(id, n);
    NoLog();
    DrawnLast([], s, []);
    SentLast([Drawn(s, [])], v, to);
    assert [] + [Drawn(s, [])] == [Drawn(s, [])] && [Drawn(s, [])] + [Sent(v, to)] == [Drawn(s, []), Sent(v, to)];
    assert [] + [id] == [id] && [] + [Transfer(v, to)] == [Transfer(v, to)];
  }

  lemma MintSettles(id: Address, n: u64, to: Address, d: Digest)
    ensures var r := Settle(Context([id], [Transfer(CoinValue(id, n), to)], []), [], d);
            SumWorth(r.created) == n && r.changed == [] && r.destroyed == []
  {
    hide CoinValue, SumMoved, Convertible, IdOf, ToObject, Worth;
    var t := Transfer(CoinValue(id, n), to);
    ValueOfCoin(id, n);
    MovedLast([], id, n, to);
    NothingMoved();
    assert [] + [t] == [t] && [t][..0] == [];
    assert TransferIds([t])[0] == id;
    MovedIsWritten([t], [id], [], d);
  }

  /** The run is the compiled mint, on the reward's arguments. */
  ghost predicate MintRun(n: u64, end: CallEnd) {
    exists w, lim, vm, s, to :: MintRunOf(n, end, w, lim, vm, s, to)
  }

  ghost predicate MintRunOf(n: u64, end: CallEnd, w: Ast.World, lim: GenLimits, vm: Machine, s: Session, to: Address) {
    && CoinMachine(w, lim, vm, s) && EntryError(vm, MINT).None?
    && Halting(vm, vm.main, Gas(U64_MAX, 0))
    && end == MachineEnd(vm, MINT, [VU64(n), VAddr(to)], Gas(U64_MAX, 0))
  }

  /** An executor that runs the compiled coin module for rewards mints exactly what it is asked for. */
  lemma MachineMints(p: Protocol, e: Executor.Env, g: Store)
    requires forall t, s, amount, mining {:trigger IsReward(t, amount, mining), e.runSystem(t, s, Gas(U64_MAX, 0))} ::
               IsReward(t, amount, mining) && AtMostOnce.Framework(g, s) ==>
                 e.callError(t, s).None? && MintRun(amount, e.runSystem(t, s, Gas(U64_MAX, 0)))
    ensures Mints(p, e, g)
  {
    hide MintRun, IsReward, Settle, SumWorth;
    forall t, s, amount, mining | IsReward(t, amount, mining) && AtMostOnce.Framework(g, s)
      ensures var r := ExecuteReward(p, e, t, s);
              SumWorth(r.created) == amount && r.changed == [] && r.destroyed == []
    {
      var end := e.runSystem(t, s, Gas(U64_MAX, 0));
      MintEnds(amount, end, p.txDigest(t));
    }
  }

  lemma MintEnds(n: u64, end: CallEnd, d: Digest)
    requires MintRun(n, end)
    ensures end.Finished?
    ensures var r := Settle(end.ctx, [], d);
            SumWorth(r.created) == n && r.changed == [] && r.destroyed == []
  {
    hide CoinMachine, EntryError, MachineEnd, Halting, Settle, NextId, CoinValue;
    var w, lim, vm, s, to :| MintRunOf(n, end, w, lim, vm, s, to);
    MintRuns(w, lim, vm, s, n, to);
    MintSettles(NextId(s, []), n, to, d);
  }

  // ------------------------------------------------------------------- burning

  /** The supply is not fixed: a transaction that burns a coin lowers it by the coin's worth, on top
      of its gas. */
  lemma BurnLowersSupply(
    p: Protocol, e: Executor.Env, g: Store, good: Object -> bool, t: Tx, s: Store, seed: Digest, time: nat, c: Object, n: u64, gas: Gas,
    w: Ast.World, lim: GenLimits, vm: Machine, ses: Session)
    requires Honest(p, e) && Accountable(p, e, g, good) && Lasting(good) && Sound(e, g, good, s)
    requires DerivesFresh(e) && NoneLive(e, p.txDigest(t), s) && CallArgsOk(t)
    requires Execute(p, e, t, s, seed, time).Some?
    requires t.kind.MeowCall? && e.callError(t, s).None? && ObjectArgs(p, t.kind.args, t.sender, s) == Some([c]) && IsCoinOf(c, n)
    requires Charge(Gas(Worth(s[t.gasCoin.addr]), 0), BASE_TRANSACTION_GAS_COST) == (true, gas)
    requires CoinMachine(w, lim, vm, ses) && EntryError(vm, "burn").None? && Halting(vm, vm.main, gas)
    requires e.run(t, s, [c], seed, time, gas) == MachineEnd(vm, "burn", [ToValue(c)], gas)
    requires e.run(t, s, [c], seed, time, gas).Finished?
    ensures var r := Execute(p, e, t, s, seed, time).value;
            Total(Apply(s, r)) + r.gasUsed + n == Total(s)
  {
    hide Honest, Accountable, Lasting, Sound, DerivesFresh, NoneLive, CallArgsOk, Execute, ObjectArgs, CoinMachine, EntryError,
      Halting, MachineEnd, ToValue, Settled, Total, Apply, Charge, GasCoin;
    CoinWorth(c, n);
    CoinLive(p, e, t, s, seed, time);
    BurnShifts(w, lim, vm, ses, c, n, gas);
    BurnShift(p, e, t, s, seed, time, c, gas);
    ExecuteShifts(p, e, g, good, t, s, seed, time);
  }

  lemma BurnShift(p: Protocol, e: Executor.Env, t: Tx, s: Store, seed: Digest, time: nat, c: Object, gas: Gas)
    requires Execute(p, e, t, s, seed, time).Some?
    requires t.kind.MeowCall? && e.callError(t, s).None? && ObjectArgs(p, t.kind.args, t.sender, s) == Some([c])
    requires t.gasCoin.addr in s && Charge(Gas(Worth(s[t.gasCoin.addr]), 0), BASE_TRANSACTION_GAS_COST) == (true, gas)
    requires e.run(t, s, [c], seed, time, gas).Finished?
    ensures TxShift(p, e, t, s, seed, time) == Settled(e.run(t, s, [c], seed, time, gas).ctx, [c])
  {
    hide ObjectArgs, Settled, Charge, ExecuteCall, ExecutePublish, Spend;
  }
}
