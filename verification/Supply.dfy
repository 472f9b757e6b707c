/** The total of all coin balances: exact gas, and exactly when a chain leaves the supply as it was. */
module Supply {
  import opened MeowTypes
  import opened Vm
  import opened Ledger
  import opened Effects
  import opened Executor
  import opened History
  import opened Chain
  import opened AtMostOnce
  import opened Assertions

  // ---------------------------------------------------------------------- totals

  function Worth(o: Object): (n: nat) {
    if Balance(o).Some? then Balance(o).value else 0
  }

  function WorthAt(s: Store, a: Address): (n: nat) {
    if a in s then Worth(s[a]) else 0
  }

  /** The balances of all live coins. */
  ghost function Total(s: Store): (n: nat) {
    if s == map[] then 0
    else
      var a :| a in s;
      Worth(s[a]) + Total(s - {a})
  }

  lemma {:induction false} TotalWithout(s: Store, a: Address)
    ensures Total(s) == WorthAt(s, a) + Total(s - {a})
    decreases |s|
  {
    if a !in s {
      assert s - {a} == s;
    } else {
      var b :| b in s && Total(s) == Worth(s[b]) + Total(s - {b});
      if b != a {
        TotalWithout(s - {b}, a);
        TotalWithout(s - {a}, b);
        assert (s - {b}) - {a} == (s - {a}) - {b};
      }
    }
  }

  lemma TotalPut(s: Store, o: Object)
    ensures Total(s[o.addr := o]) + WorthAt(s, o.addr) == Total(s) + Worth(o)
  {
    TotalWithout(s, o.addr);
    TotalWithout(s[o.addr := o], o.addr);
    assert s[o.addr := o] - {o.addr} == s - {o.addr};
  }

  function SumWorth(os: seq<Object>): (n: nat) {
    if os == [] then 0 else SumWorth(os[..|os| - 1]) + Worth(os[|os| - 1])
  }

  function SumAt(s: Store, xs: seq<Address>): (n: nat) {
    if xs == [] then 0 else SumAt(s, xs[..|xs| - 1]) + WorthAt(s, xs[|xs| - 1])
  }

  lemma SumWorthSnoc(os: seq<Object>, o: Object)
    ensures SumWorth(os + [o]) == SumWorth(os) + Worth(o)
  {
    assert (os + [o])[..|os|] == os;
  }

  lemma SumAtSnoc(s: Store, xs: seq<Address>, a: Address)
    ensures SumAt(s, xs + [a]) == SumAt(s, xs) + WorthAt(s, a)
  {
    assert (xs + [a])[..|xs|] == xs;
  }

  lemma {:induction false} SumAtConcat(s: Store, xs: seq<Address>, ys: seq<Address>)
    ensures SumAt(s, xs + ys) == SumAt(s, xs) + SumAt(s, ys)
  {
    if ys == [] {
      assert xs + ys == xs;
    } else {
      assert (xs + ys)[..|xs + ys| - 1] == xs + ys[..|ys| - 1];
      SumAtConcat(s, xs, ys[..|ys| - 1]);
    }
  }

  /** Sums agree on stores that agree at the addresses summed. */
  lemma {:induction false} SumAtSame(s: Store, t: Store, xs: seq<Address>)
    requires forall a :: a in xs ==> WorthAt(s, a) == WorthAt(t, a)
    ensures SumAt(s, xs) == SumAt(t, xs)
  {
    if xs != [] {
      SumAtSame(s, t, xs[..|xs| - 1]);
    }
  }

  ghost function Only(s: Store, xs: seq<Address>): (r: Store) {
    map a | a in s && a in xs :: s[a]
  }

  /** Over distinct addresses, the sum is the total of that part of the store. */
  lemma {:induction false} SumAtIsTotal(s: Store, xs: seq<Address>)
    requires Unique(xs)
    ensures SumAt(s, xs) == Total(Only(s, xs))
  {
    if xs == [] {
      assert Only(s, xs) == map[];
    } else {
      var init, a := xs[..|xs| - 1], xs[|xs| - 1];
      SumAtIsTotal(s, init);
      assert xs == init + [a];
      TotalWithout(Only(s, xs), a);
      assert Only(s, xs) - {a} == Only(s, init);
    }
  }

  /** Distinct addresses sum the same in any order. */
  lemma SumAtReorder(s: Store, xs: seq<Address>, ys: seq<Address>)
    requires Unique(xs) && Unique(ys) && forall a :: a in xs <==> a in ys
    ensures SumAt(s, xs) == SumAt(s, ys)
  {
    SumAtIsTotal(s, xs);
    SumAtIsTotal(s, ys);
    assert Only(s, xs) == Only(s, ys);
  }

  lemma {:induction false} TotalInsertAll(s: Store, os: seq<Object>)
    requires Unique(Addrs(os))
    ensures Total(InsertAll(s, os)) + SumAt(s, Addrs(os)) == Total(s) + SumWorth(os)
  {
    if os != [] {
      var init, o := os[..|os| - 1], os[|os| - 1];
      AddrsSnoc(init, o);
      assert os == init + [o];
      UniqueSnoc(Addrs(init), o.addr);
      TotalInsertAll(s, init);
      var before := InsertAll(s, init);
      TotalPut(before, o);
      InsertedKeys(s, init, o.addr);
      if o.addr in before { Inserted(s, init, o.addr); }
      SumAtSnoc(s, Addrs(init), o.addr);
    }
  }

  lemma {:induction false} TotalRemoveAll(s: Store, os: seq<Object>)
    requires Unique(Addrs(os))
    ensures Total(RemoveAll(s, os)) + SumAt(s, Addrs(os)) == Total(s)
  {
    if os != [] {
      var init, o := os[..|os| - 1], os[|os| - 1];
      AddrsSnoc(init, o);
      assert os == init + [o];
      UniqueSnoc(Addrs(init), o.addr);
      TotalRemoveAll(s, init);
      TotalWithout(RemoveAll(s, init), o.addr);
      RemovedAt(s, init, o.addr);
      SumAtSnoc(s, Addrs(init), o.addr);
    }
  }

  /** The total after a result that writes no address twice: what it wrote, less what was there. */
  lemma TotalApply(e: Env, d: Digest, s: Store, r: ExecResult)
    requires NoneLive(e, d, s) && Touches(e, d, s, r) && Distinct(r)
    ensures Total(Apply(s, r)) + SumAt(s, Addrs(r.changed) + Addrs(r.destroyed))
         == Total(s) + SumWorth(r.created) + SumWorth(r.changed)
  {
    hide Unique, Addrs, InsertAll, RemoveAll, Total, Worth;
    var s1 := InsertAll(s, r.created);
    var s2 := InsertAll(s1, r.changed);
    UniqueConcat(Addrs(r.changed), Addrs(r.destroyed));
    TotalInsertAll(s, r.created);
    TotalInsertAll(s1, r.changed);
    TotalRemoveAll(s2, r.destroyed);
    SumAtConcat(s, Addrs(r.changed), Addrs(r.destroyed));
    forall a
      ensures a in Addrs(r.created) ==> WorthAt(s, a) == WorthAt(map[], a)
      ensures a in Addrs(r.changed) ==> WorthAt(s1, a) == WorthAt(s, a)
      ensures a in Addrs(r.destroyed) ==> WorthAt(s2, a) == WorthAt(s, a)
    {
      WorthKept(e, d, s, r, a);
    }
    SumAtSame(s, map[], Addrs(r.created));
    SumAtNothing(Addrs(r.created));
    SumAtSame(s1, s, Addrs(r.changed));
    SumAtSame(s2, s, Addrs(r.destroyed));
  }

  lemma {:induction false} SumAtNothing(xs: seq<Address>)
    ensures SumAt(map[], xs) == 0
  {
    if xs != [] { SumAtNothing(xs[..|xs| - 1]); }
  }

  lemma WorthKept(e: Env, d: Digest, s: Store, r: ExecResult, a: Address)
    requires NoneLive(e, d, s) && Touches(e, d, s, r) && Distinct(r)
    ensures var s1 := InsertAll(s, r.created);
            var s2 := InsertAll(s1, r.changed);
            && (a in Addrs(r.created) ==> a !in s)
            && (a in Addrs(r.changed) ==> WorthAt(s1, a) == WorthAt(s, a))
            && (a in Addrs(r.destroyed) ==> WorthAt(s2, a) == WorthAt(s, a))
  {
    hide Unique, Addrs, InsertAll, Worth;
    var s1 := InsertAll(s, r.created);
    var s2 := InsertAll(s1, r.changed);
    UniqueConcat(Addrs(r.changed), Addrs(r.destroyed));
    CreatedNotLive(e, d, s, r, a);
    ChangedLive(s, r.changed, a);
    DestroyedOwned(s, r.destroyed, a);
    InsertedKeys(s, r.created, a);
    InsertedKeys(s1, r.changed, a);
    if a in s1 { Inserted(s, r.created, a); }
    if a in s2 { Inserted(s1, r.changed, a); }
  }

  // ----------------------------------------------------------------------- calls

  function ValueWorth(v: Value): (n: nat) {
    if v.VStruct? && v.tn == COIN_TYPE && BalanceIn(v.fields).Some? then BalanceIn(v.fields).value else 0
  }

  function SumMoved(ts: seq<Transfer>): (n: nat) {
    if ts == [] then 0 else SumMoved(ts[..|ts| - 1]) + ValueWorth(ts[|ts| - 1].value)
  }

  lemma FirstFieldNext(f: Field, rest: seq<Field>, name: string)
    ensures FirstField([f] + rest, name) == if f.name == name then Some(f.value) else FirstField(rest, name)
  {
    assert ([f] + rest)[1..] == rest;
  }

  lemma WithoutIdNext(f: Field, rest: seq<Field>)
    ensures WithoutId([f] + rest) == (if f.name == ID_FIELD then [] else [f]) + WithoutId(rest)
  {
    assert ([f] + rest)[1..] == rest;
  }

  lemma {:induction false} IdAside(fields: seq<Field>)
    ensures FirstField(WithoutId(fields), BALANCE) == FirstField(fields, BALANCE)
  {
    if fields != [] {
      var f, rest := fields[0], fields[1..];
      assert fields == [f] + rest;
      IdAside(rest);
      FirstFieldNext(f, rest, BALANCE);
      WithoutIdNext(f, rest);
      if f.name == ID_FIELD {
        assert f.name[0] != BALANCE[0];
        assert [] + WithoutId(rest) == WithoutId(rest);
      } else {
        FirstFieldNext(f, WithoutId(rest), BALANCE);
      }
    }
  }

  lemma WorthOfValue(v: Value, owner: Owner, tx: Digest, version: u64)
    requires Convertible(v)
    ensures Worth(ToObject(v, owner, tx, version)) == ValueWorth(v)
  {
    IdAside(v.fields);
  }

  /** Every transferred value is written once, as a created or as a changed object. */
  lemma {:induction false} MovedIsWritten(ts: seq<Transfer>, ids: seq<Address>, args: seq<Object>, tx: Digest)
    requires ArgsOk(args) && AllMove(ts, ids, args)
    ensures SumWorth(CreatedBy(ts, ids, args, tx)) + SumWorth(ChangedBy(ts, ids, args, tx)) == SumMoved(ts)
  {
    hide ToObject, Worth, ValueWorth, ArgAt, IdOf;
    if ts != [] {
      var init, t := ts[..|ts| - 1], ts[|ts| - 1];
      MovedIsWritten(init, ids, args, tx);
      assert Moves(t, ids, args);
      if IdOf(t.value) in ids {
        var o := ToObject(t.value, OwnedBy(t.to), tx, 1);
        WorthOfValue(t.value, OwnedBy(t.to), tx, 1);
        SumWorthSnoc(CreatedBy(init, ids, args, tx), o);
        assert ChangedBy(ts, ids, args, tx) == ChangedBy(init, ids, args, tx);
      } else {
        var version := Bump(ArgAt(args, IdOf(t.value)).value);
        var o := ToObject(t.value, OwnedBy(t.to), tx, version);
        WorthOfValue(t.value, OwnedBy(t.to), tx, version);
        SumWorthSnoc(ChangedBy(init, ids, args, tx), o);
        assert CreatedBy(ts, ids, args, tx) == CreatedBy(init, ids, args, tx);
      }
    }
  }

  lemma {:induction false} SumLive(s: Store, objs: seq<Object>)
    requires Live(objs, s)
    ensures SumAt(s, Addrs(objs)) == SumWorth(objs)
  {
    if objs != [] {
      SumLive(s, objs[..|objs| - 1]);
    }
  }

  /** The coin value a run takes in and the coin value it gives out. */
  datatype Shift = Shift(taken: nat, moved: nat)

  const NOTHING: Shift := Shift(0, 0)

  function Add(a: Shift, b: Shift): (r: Shift) {
    Shift(a.taken + b.taken, a.moved + b.moved)
  }

  /** What a finished run shifts: its arguments against its transfers, if it settles. */
  function Settled(ctx: Context, objs: seq<Object>): (r: Shift) {
    if Resolvable(ctx, objs) && Effects.Consumed(ctx, objs) then Shift(SumWorth(objs), SumMoved(ctx.transfers)) else NOTHING
  }

  function CallShift(p: Protocol, e: Env, t: Tx, s: Store, seed: Digest, time: nat, gas: Gas): (r: Shift)
    requires t.kind.MeowCall?
  {
    var objs := ObjectArgs(p, t.kind.args, t.sender, s);
    if e.callError(t, s).Some? || objs.None? then NOTHING
    else
      match e.run(t, s, objs.value, seed, time, gas)
      case Stopped(_, _) => NOTHING
      case Finished(ctx, _) => Settled(ctx, objs.value)
  }

  /** What a transaction shifts, gas aside: only a call that runs does. */
  function TxShift(p: Protocol, e: Env, t: Tx, s: Store, seed: Digest, time: nat): (r: Shift) {
    var coin := GasCoin(p, t, s);
    if coin.None? || Balance(coin.value).None? then NOTHING
    else
      var (paid, gas) := Charge(Gas(Balance(coin.value).value, 0), BASE_TRANSACTION_GAS_COST);
      if paid && t.kind.MeowCall? then CallShift(p, e, t, s, seed, time, gas) else NOTHING
  }

  /** The result writes what it replaces, shifted, less what was paid. */
  ghost predicate Balanced(s: Store, r: ExecResult, shift: Shift, paid: nat) {
    SumAt(s, Addrs(r.changed) + Addrs(r.destroyed)) + shift.moved == SumWorth(r.created) + SumWorth(r.changed) + shift.taken + paid
  }

  lemma SettleBalanced(p: Protocol, e: Env, t: Tx, s: Store, objs: seq<Object>, gas: Gas, end: CallEnd, good: Object -> bool)
    requires DerivesFresh(e) && NoneLive(e, p.txDigest(t), s)
    requires end.Finished? && EndOk(p, e, t, gas, end) && EndFits(good, objs, end)
    requires Unique(Addrs(objs)) && ArgsOk(objs) && Live(objs, s)
    ensures Balanced(s, Settle(end.ctx, objs, p.txDigest(t)), Settled(end.ctx, objs), 0)
  {
    hide DerivesFresh, NoneLive, Unique, Addrs, ArgsOk, Live, Effects.Consumed, AllMove, AllKnown, SumMoved, IdsLinear, GoodTransfers;
    var d := p.txDigest(t);
    var r := Settle(end.ctx, objs, d);
    FreshApart(e, d, |end.ctx.freshIds|, objs, s);
    if Resolvable(end.ctx, objs) && Effects.Consumed(end.ctx, objs) {
      EffectsPartition(end.ctx, objs, d);
      UniqueConcat(Addrs(r.created) + Addrs(r.changed), Addrs(r.destroyed));
      UniqueConcat(Addrs(r.created), Addrs(r.changed));
      UniqueConcat(Addrs(r.changed), Addrs(r.destroyed));
      SumAtReorder(s, Addrs(r.changed) + Addrs(r.destroyed), Addrs(objs));
      SumLive(s, objs);
      MovedIsWritten(end.ctx.transfers, end.ctx.freshIds, objs, d);
    } else {
      NothingBalanced(s, "object not accounted for", d);
    }
  }

  lemma NothingBalanced(s: Store, message: string, d: Digest)
    ensures Balanced(s, Failure(message, d), NOTHING, 0)
  {
    assert Addrs([]) + Addrs([]) == [];
  }

  lemma CallBalanced(p: Protocol, e: Env, g: Store, good: Object -> bool, t: Tx, s: Store, seed: Digest, time: nat, gas: Gas)
    requires Honest(p, e) && Accountable(p, e, g, good) && Sound(e, g, good, s)
    requires DerivesFresh(e) && NoneLive(e, p.txDigest(t), s)
    requires t.kind.MeowCall? && CallArgsOk(t)
    ensures Balanced(s, ExecuteCall(p, e, t, s, seed, time, gas).0, CallShift(p, e, t, s, seed, time, gas), 0)
  {
    hide DerivesFresh, NoneLive, Balanced, Unique, Addrs, ObjectArgs, Settle, Settled, Published, AllGood, EndFits;
    var d := p.txDigest(t);
    ObjectArgsAre(p, t.kind.args, t.sender, s);
    var objs := ObjectArgs(p, t.kind.args, t.sender, s);
    if e.callError(t, s).Some? {
      NothingBalanced(s, e.callError(t, s).value, d);
    } else if objs.None? {
      NothingBalanced(s, "argument", d);
    } else {
      var end := e.run(t, s, objs.value, seed, time, gas);
      assert EndOk(p, e, t, gas, end) && EndFits(good, objs.value, end);
      if end.Stopped? {
        NothingBalanced(s, end.message, d);
      } else {
        SettleBalanced(p, e, t, s, objs.value, gas, end, good);
      }
    }
  }

  lemma PublishBalanced(p: Protocol, e: Env, t: Tx, s: Store, gas: Gas)
    requires t.kind.ModulePublish?
    ensures Balanced(s, ExecutePublish(p, e, t, s, gas).0, NOTHING, 0)
  {
    assert Addrs([]) + Addrs([]) == [];
  }

  // ------------------------------------------------------------------------- gas

  /** Taking gas within the balance lowers the written total by exactly the gas. */
  lemma SpendExactly(s: Store, r: ExecResult, shift: Shift, coin: Object, spent: u64, d: Digest)
    requires Balanced(s, r, shift, 0)
    requires coin.addr in s && s[coin.addr] == coin && coin.version < U64_MAX
    requires Balance(coin).Some? && spent <= Balance(coin).value
    ensures Balanced(s, Spend(r, coin, spent, d), shift, spent)
  {
    hide Addrs;
    var q := Spend(r, coin, spent, d);
    var updated := Spent(coin, spent, d);
    DeductExactly(coin.content.fields, spent, BALANCE);
    assert Worth(updated) == Worth(coin) - spent;
    AddrsSnoc(r.changed, updated);
    SumWorthSnoc(r.changed, updated);
    SumAtSnoc(s, Addrs(r.changed), coin.addr);
    SumAtConcat(s, Addrs(r.changed), Addrs(r.destroyed));
    SumAtConcat(s, Addrs(q.changed), Addrs(q.destroyed));
  }

  /** A transaction never uses more gas than its coin holds, so the saturating subtraction from the
      coin is exact. Nothing is asked of the code it runs. */
  lemma GasWithinBalance(p: Protocol, e: Env, t: Tx, s: Store, seed: Digest, time: nat)
    requires Honest(p, e) && Execute(p, e, t, s, seed, time).Some?
    ensures Execute(p, e, t, s, seed, time).value.gasUsed <= Worth(s[t.gasCoin.addr])
  {
    hide Honest, ExecuteCall, ExecutePublish, Spend;
    var coin := GasCoin(p, t, s).value;
    var (paid, gas) := Charge(Gas(Balance(coin).value, 0), BASE_TRANSACTION_GAS_COST);
    if paid && t.kind.MeowCall? {
      CallWithin(p, e, t, s, seed, time, gas);
    } else if paid {
      PublishTouches(p, e, t, s, gas);
    }
  }

  lemma CallWithin(p: Protocol, e: Env, t: Tx, s: Store, seed: Digest, time: nat, gas: Gas)
    requires Honest(p, e) && t.kind.MeowCall?
    ensures ExecuteCall(p, e, t, s, seed, time, gas).1.limit == gas.limit
  {
    hide ObjectArgs, Settle;
    var objs := ObjectArgs(p, t.kind.args, t.sender, s);
    if objs.Some? { assert EndOk(p, e, t, gas, e.run(t, s, objs.value, seed, time, gas)); }
  }

  /** Exact supply of one transaction: the total falls by the gas it used and by what its call took,
      and rises by what its call transferred. */
  lemma ExecuteShifts(p: Protocol, e: Env, g: Store, good: Object -> bool, t: Tx, s: Store, seed: Digest, time: nat)
    requires Honest(p, e) && Accountable(p, e, g, good) && Lasting(good) && Sound(e, g, good, s)
    requires DerivesFresh(e) && NoneLive(e, p.txDigest(t), s) && CallArgsOk(t)
    requires Execute(p, e, t, s, seed, time).Some?
    ensures var r, shift := Execute(p, e, t, s, seed, time).value, TxShift(p, e, t, s, seed, time);
            Total(Apply(s, r)) + r.gasUsed + shift.taken == Total(s) + shift.moved
  {
    hide DerivesFresh, Honest, Accountable, Lasting, NoneLive, Touches, Tidy, Unique, Addrs, CallArgsOk, Published, AllGood,
      ExecuteCall, ExecutePublish, CallShift, Spend, Apply, Total;
    var d := p.txDigest(t);
    var r := Execute(p, e, t, s, seed, time).value;
    var coin := GasCoin(p, t, s).value;
    var (paid, gas) := Charge(Gas(Balance(coin).value, 0), BASE_TRANSACTION_GAS_COST);
    ExecuteTouches(p, e, t, s, seed, time);
    ExecuteTidy(p, e, g, good, t, s, seed, time);
    TidyTotal(e, d, s, r, good);
    GasWithinBalance(p, e, t, s, seed, time);
    if !paid {
      NothingBalanced(s, "out of gas", d);
      SpendExactly(s, Failure("out of gas", d), NOTHING, coin, gas.spent, d);
    } else if t.kind.MeowCall? {
      CallBalanced(p, e, g, good, t, s, seed, time, gas);
      var (q, left) := ExecuteCall(p, e, t, s, seed, time, gas);
      SpendExactly(s, q, CallShift(p, e, t, s, seed, time, gas), coin, left.spent, d);
    } else {
      PublishBalanced(p, e, t, s, gas);
      var (q, left) := ExecutePublish(p, e, t, s, gas);
      SpendExactly(s, q, NOTHING, coin, left.spent, d);
    }
  }

  lemma TidyTotal(e: Env, d: Digest, s: Store, r: ExecResult, good: Object -> bool)
    requires NoneLive(e, d, s) && Touches(e, d, s, r) && Tidy(good, r)
    ensures Total(Apply(s, r)) + SumAt(s, Addrs(r.changed) + Addrs(r.destroyed))
         == Total(s) + SumWorth(r.created) + SumWorth(r.changed)
  {
    hide NoneLive, Touches, Distinct, Apply, Total;
    TotalApply(e, d, s, r);
  }

  // ---------------------------------------------------------------------- blocks

  function SumGas(rs: seq<ExecResult>): (n: nat) {
    if rs == [] then 0 else SumGas(rs[..|rs| - 1]) + rs[|rs| - 1].gasUsed
  }

  /** A gas sum that fits in 64 bits is the sum; otherwise it falls short of it. */
  lemma {:induction false} NoOverflow(rs: seq<ExecResult>)
    ensures TotalGas(rs) <= SumGas(rs)
    ensures TotalGas(rs) == SumGas(rs) <==> SumGas(rs) <= U64_MAX
  {
    if rs != [] { NoOverflow(rs[..|rs| - 1]); }
  }

  /** What a run of transactions shifts, each on the store the ones before it left. */
  function RunShift(p: Protocol, e: Env, txs: seq<SignedTx>, s: Store, seed: Digest, time: nat): (r: Shift) {
    if txs == [] then NOTHING
    else
      var init, last := txs[..|txs| - 1], txs[|txs| - 1];
      var before := RunAll(p, init, s, seed, time);
      if before.None? then NOTHING
      else Add(RunShift(p, e, init, s, seed, time), TxShift(p, e, last.tx, before.value.0, seed, time))
  }

  lemma OneShifts(p: Protocol, e: Env, past: Past, s: Store, good: Object -> bool, x: SignedTx, seed: Digest, time: nat)
    requires FitWorld(p, e, past.genesis, good) && PastOk(p, e, past, s) && AllGood(good, s)
    requires p.signedOk(x) && p.execute(x.tx, s, seed, time).Some?
    ensures var r, shift := p.execute(x.tx, s, seed, time).value, TxShift(p, e, x.tx, s, seed, time);
            && Total(Apply(s, r)) + r.gasUsed + shift.taken == Total(s) + shift.moved
            && r.gasUsed <= Total(s)
  {
    hide Collisionless, DerivesFresh, Honest, GenesisOk, PastOk, Apply, Total, Execute, TxShift, CallArgsOk, Accountable, Lasting,
      Sound, AllGood, Tidy, Touches, AssertsHold, NoneLive;
    var t := x.tx;
    TransactionFits(p, e, past, s, good, x, seed, time);
    PastSound(p, e, past, s, good);
    assert p.execute(t, s, seed, time) == Execute(p, e, t, s, seed, time);
    ExecuteShifts(p, e, past.genesis, good, t, s, seed, time);
    GasWithinBalance(p, e, t, s, seed, time);
    CoinLive(p, e, t, s, seed, time);
    TotalWithout(s, t.gasCoin.addr);
  }

  lemma CoinLive(p: Protocol, e: Env, t: Tx, s: Store, seed: Digest, time: nat)
    requires Execute(p, e, t, s, seed, time).Some?
    ensures t.gasCoin.addr in s
  {
  }

  /** The transactions of a block lower the total by their gas, shifted by what their calls do. */
  lemma {:induction false} RunShifts(
    p: Protocol, e: Env, past: Past, s: Store, good: Object -> bool, txs: seq<SignedTx>, seed: Digest, time: nat)
    requires FitWorld(p, e, past.genesis, good) && PastOk(p, e, past, s) && AllGood(good, s) && AllSigned(p, txs)
    requires RunAll(p, txs, s, seed, time).Some?
    ensures var r, shift := RunAll(p, txs, s, seed, time).value, RunShift(p, e, txs, s, seed, time);
            Total(r.0) + SumGas(r.1) + shift.taken == Total(s) + shift.moved
  {
    hide World, Accountable, Lasting, PastOk, AllGood, RunHolds, Apply, Total, Digests, TxShift;
    if txs != [] {
      var init, last := txs[..|txs| - 1], txs[|txs| - 1];
      RunShifts(p, e, past, s, good, init, seed, time);
      RunAllOnce(p, e, past, s, init, seed, time);
      RunFits(p, e, past, s, good, init, seed, time);
      var before := RunAll(p, init, s, seed, time).value;
      OneShifts(p, e, Then(past, Digests(p, init), past.height), before.0, good, last, seed, time);
      var r := RunAll(p, txs, s, seed, time).value;
      assert r.1[..|r.1| - 1] == before.1;
    }
  }

  /** With the system modules in place, the mint creates coins worth the requested amount, and
      touches nothing else. */
  ghost predicate Mints(p: Protocol, e: Env, g: Store) {
    forall t, s, amount, mining {:trigger IsReward(t, amount, mining), ExecuteReward(p, e, t, s)} ::
      IsReward(t, amount, mining) && Framework(g, s) ==>
        var r := ExecuteReward(p, e, t, s);
        SumWorth(r.created) == amount && r.changed == [] && r.destroyed == []
  }

  lemma RewardMints(p: Protocol, e: Env, past: Past, s: Store, good: Object -> bool, x: SignedTx, h: Header, amount: u64)
    requires FitWorld(p, e, past.genesis, good) && Mints(p, e, past.genesis) && PastOk(p, e, past, s) && AllGood(good, s)
    requires IsReward(x.tx, amount, MiningHash(p, h)) && h.height > past.height
    ensures Total(Apply(s, p.executeReward(x.tx, s))) == Total(s) + amount
  {
    hide Collisionless, DerivesFresh, Honest, GenesisOk, Published, Apply, Total, IsReward, Tidy, Touches, AllGood, Accountable,
      Lasting, NoneLive, AssertsHold, ExecuteReward;
    RewardFits(p, e, past, s, good, x, h, amount);
    var r := ExecuteReward(p, e, x.tx, s);
    assert p.executeReward(x.tx, s) == r;
    TidyTotal(e, p.txDigest(x.tx), s, r, good);
    assert Addrs(r.changed) + Addrs(r.destroyed) == [];
  }

  function BlockShift(p: Protocol, e: Env, b: Block, s: Store): (r: Shift) {
    RunShift(p, e, b.txs, s, MiningHash(p, b.header), b.header.timestamp)
  }

  /** Exact supply of one block: the reward mints back the gas, as far as its 64-bit sum goes, so
      what is left is what the calls shift. */
  lemma BlockShifts(p: Protocol, e: Env, past: Past, s: Store, good: Object -> bool, b: Block)
    requires FitWorld(p, e, past.genesis, good) && Mints(p, e, past.genesis) && PastOk(p, e, past, s) && AllGood(good, s)
    requires AllSigned(p, b.txs) && b.header.height > past.height
    requires Replay(p, b, s).Ok?
    ensures var shift := BlockShift(p, e, b, s);
            Total(Replay(p, b, s).value) + SumGas(b.results) + shift.taken == Total(s) + TotalGas(b.results) + shift.moved
  {
    hide World, Accountable, Lasting, Mints, PastOk, AllGood, RunHolds, Apply, Total, RunAll, RunShift, Digests, IsReward, TotalGas,
      SumGas;
    var seed := MiningHash(p, b.header);
    RunShifts(p, e, past, s, good, b.txs, seed, b.header.timestamp);
    RunFits(p, e, past, s, good, b.txs, seed, b.header.timestamp);
    RunAllOnce(p, e, past, s, b.txs, seed, b.header.timestamp);
    var mid := RunAll(p, b.txs, s, seed, b.header.timestamp).value.0;
    if b.reward.Some? {
      RewardMints(p, e, Then(past, Digests(p, b.txs), past.height), mid, good, b.reward.value, b.header, TotalGas(b.results));
    }
  }

  // ---------------------------------------------------------------------- chains

  /** The store a chain is replayed to. */
  ghost function After(p: Protocol, bs: seq<Block>, g: Store): (s: Store) {
    if bs == [] then g
    else
      var r := Replay(p, bs[|bs| - 1], After(p, bs[..|bs| - 1], g));
      if r.Ok? then r.value else map[]
  }

  lemma {:induction false} ReplaysAfter(p: Protocol, bs: seq<Block>, g: Store, t: Store)
    requires Replays(p, bs, g, t)
    ensures After(p, bs, g) == t
  {
    hide Replay;
    if bs != [] {
      var init, last := bs[..|bs| - 1], bs[|bs| - 1];
      var u :| Replays(p, init, g, u) && Replay(p, last, u) == Result.Ok(t);
      ReplaysAfter(p, init, g, u);
    }
  }

  /** What the calls of a chain shift. */
  ghost function ChainShift(p: Protocol, e: Env, bs: seq<Block>, g: Store): (r: Shift) {
    if bs == [] then NOTHING
    else
      var init := bs[..|bs| - 1];
      Add(ChainShift(p, e, init, g), BlockShift(p, e, bs[|bs| - 1], After(p, init, g)))
  }

  /** The gas that 64-bit sums lose along a chain. */
  function Lost(bs: seq<Block>): (n: nat) {
    if bs == [] then 0
    else
      NoOverflow(bs[|bs| - 1].results);
      Lost(bs[..|bs| - 1]) + SumGas(bs[|bs| - 1].results) - TotalGas(bs[|bs| - 1].results)
  }

  /** Along any chain replayed from genesis: genesis supply plus what its calls transferred is the
      supply plus what its calls took and what gas sums lost. So the supply is the genesis supply
      exactly when calls transferred as much as was taken and lost. */
  lemma {:induction false} ChainSupply(p: Protocol, e: Env, g: Store, good: Object -> bool, bs: seq<Block>, t: Store)
    requires FitWorld(p, e, g, good) && AllGood(good, g) && Mints(p, e, g)
    requires Replays(p, bs, g, t)
    ensures var shift := ChainShift(p, e, bs, g);
            && Total(t) + shift.taken + Lost(bs) == Total(g) + shift.moved
            && (Total(t) == Total(g) <==> shift.moved == shift.taken + Lost(bs))
  {
    hide World, Accountable, Lasting, AllGood, Mints, PastOk, Total, Replay, ChainDigests, BlockShift, SumGas, TotalGas, Sound,
      ChainHolds;
    if bs != [] {
      var init, last := bs[..|bs| - 1], bs[|bs| - 1];
      var u :| Replays(p, init, g, u) && Replay(p, last, u) == Result.Ok(t);
      ChainSupply(p, e, g, good, init, u);
      ReplaysAfter(p, init, g, u);
      NoOverflow(last.results);
      ChainHistory(p, e, g, init, u);
      ChainNeverTrips(p, e, g, good, init, u);
      SoundGood(e, g, good, u);
      BlockShifts(p, e, Then(Past(g, {}, 0), ChainDigests(p, init), TopHeight(init)), u, good, last);
    }
  }

  // ------------------------------------------------------- where no value is made

  /** No call of a run of transactions gives out more than it takes. */
  ghost predicate RunThrifty(p: Protocol, e: Env, txs: seq<SignedTx>, s: Store, seed: Digest, time: nat) {
    txs != [] ==>
      var init, last := txs[..|txs| - 1], txs[|txs| - 1];
      var before := RunAll(p, init, s, seed, time);
      && RunThrifty(p, e, init, s, seed, time)
      && (before.Some? ==>
            var shift := TxShift(p, e, last.tx, before.value.0, seed, time);
            shift.moved <= shift.taken)
  }

  /** Nor does any call of a chain. */
  ghost predicate Thrifty(p: Protocol, e: Env, bs: seq<Block>, g: Store) {
    bs != [] ==>
      var init, last := bs[..|bs| - 1], bs[|bs| - 1];
      && Thrifty(p, e, init, g)
      && RunThrifty(p, e, last.txs, After(p, init, g), MiningHash(p, last.header), last.header.timestamp)
  }

  lemma {:induction false} ThriftyRun(p: Protocol, e: Env, txs: seq<SignedTx>, s: Store, seed: Digest, time: nat)
    requires RunThrifty(p, e, txs, s, seed, time)
    ensures RunShift(p, e, txs, s, seed, time).moved <= RunShift(p, e, txs, s, seed, time).taken
  {
    hide TxShift;
    if txs != [] { ThriftyRun(p, e, txs[..|txs| - 1], s, seed, time); }
  }

  /** If no call makes value, no gas sum overflows, the supply never rises, and it is the genesis
      supply exactly when no call lost value either. */
  lemma {:induction false} ThriftySupply(p: Protocol, e: Env, g: Store, good: Object -> bool, bs: seq<Block>, t: Store)
    requires FitWorld(p, e, g, good) && AllGood(good, g) && Mints(p, e, g)
    requires Replays(p, bs, g, t) && Thrifty(p, e, bs, g) && Total(g) <= U64_MAX
    ensures Lost(bs) == 0 && Total(t) <= Total(g)
    ensures var shift := ChainShift(p, e, bs, g);
            Total(t) + shift.taken == Total(g) + shift.moved && shift.moved <= shift.taken
  {
    hide World, Accountable, Lasting, AllGood, Mints, PastOk, Total, Replay, ChainDigests, SumGas, TotalGas, Sound, ChainHolds,
      RunThrifty, RunShift, RunAll, Digests, RunHolds, IsReward;
    ChainSupply(p, e, g, good, bs, t);
    if bs != [] {
      var init, last := bs[..|bs| - 1], bs[|bs| - 1];
      var u :| Replays(p, init, g, u) && Replay(p, last, u) == Result.Ok(t);
      ThriftySupply(p, e, g, good, init, u);
      ReplaysAfter(p, init, g, u);
      ThriftyRun(p, e, last.txs, u, MiningHash(p, last.header), last.header.timestamp);
      ChainHistory(p, e, g, init, u);
      ChainNeverTrips(p, e, g, good, init, u);
      SoundGood(e, g, good, u);
      GasFits(p, e, Then(Past(g, {}, 0), ChainDigests(p, init), TopHeight(init)), u, good, last);
    }
  }

  lemma GasFits(p: Protocol, e: Env, past: Past, s: Store, good: Object -> bool, b: Block)
    requires FitWorld(p, e, past.genesis, good) && PastOk(p, e, past, s) && AllGood(good, s) && AllSigned(p, b.txs)
    requires Replay(p, b, s).Ok? && Total(s) <= U64_MAX
    requires BlockShift(p, e, b, s).moved <= BlockShift(p, e, b, s).taken
    ensures SumGas(b.results) == TotalGas(b.results)
  {
    hide World, Accountable, Lasting, AllGood, PastOk, Total, SumGas, TotalGas, RunShift, RunAll, IsReward;
    RunShifts(p, e, past, s, good, b.txs, MiningHash(p, b.header), b.header.timestamp);
    NoOverflow(b.results);
  }
}
