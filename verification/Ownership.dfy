/** Who can do what to an object: a transaction reaches only its sender's objects, and what it
    transfers arrives at the recipient it names. */
module Ownership {
  import opened MeowTypes
  import opened Vm
  import opened Ledger
  import opened Effects
  import opened Executor
  import opened History
  import opened Chain
  import AtMostOnce

  // ---------------------------------------------------------------- the sender

  ghost predicate Owns(who: Address, s: Store, a: Address) {
    a in s && s[a].owner == OwnedBy(who)
  }

  lemma CallOwns(p: Protocol, e: Env, t: Tx, s: Store, seed: Digest, time: nat, gas: Gas, a: Address)
    requires Honest(p, e) && t.kind.MeowCall? && Keyed(s)
    ensures var r := ExecuteCall(p, e, t, s, seed, time, gas).0;
            a in Addrs(r.changed) + Addrs(r.destroyed) ==> Owns(t.sender, s, a)
  {
    hide Touches, Addrs, ObjectArgs, Settle, Keyed;
    var d := p.txDigest(t);
    ObjectArgsAre(p, t.kind.args, t.sender, s);
    var objs := ObjectArgs(p, t.kind.args, t.sender, s);
    if e.callError(t, s).Some? {
      NothingTouches(e, d, s, e.callError(t, s).value);
    } else if objs.None? {
      NothingTouches(e, d, s, "argument");
    } else {
      var end := e.run(t, s, objs.value, seed, time, gas);
      assert EndOk(p, e, t, gas, end);
      if end.Stopped? {
        NothingTouches(e, d, s, end.message);
      } else {
        SettleTouches(p, e, t, s, objs.value, gas, end);
        if a in Addrs(objs.value) {
          var i :| 0 <= i < |objs.value| && Addrs(objs.value)[i] == a;
          assert objs.value[i].addr == a;
        }
      }
    }
  }

  lemma SpendOwns(who: Address, s: Store, r: ExecResult, coin: Object, spent: u64, d: Digest, a: Address)
    requires coin.content.Instance? && coin.version < U64_MAX && Owns(who, s, coin.addr)
    requires a in Addrs(r.changed) + Addrs(r.destroyed) ==> Owns(who, s, a)
    ensures var q := Spend(r, coin, spent, d);
            a in Addrs(q.changed) + Addrs(q.destroyed) ==> Owns(who, s, a)
  {
    AddrsSnoc(r.changed, Spent(coin, spent, d));
  }

  /** Whatever code a transaction runs, it changes and destroys only objects of its sender. */
  lemma TouchesOwn(p: Protocol, e: Env, t: Tx, s: Store, seed: Digest, time: nat, a: Address)
    requires Honest(p, e) && Keyed(s) && Execute(p, e, t, s, seed, time).Some?
    ensures var r := Execute(p, e, t, s, seed, time).value;
            a in Addrs(r.changed) + Addrs(r.destroyed) ==> Owns(t.sender, s, a)
  {
    hide Honest, Addrs, ExecuteCall, ExecutePublish, Spend;
    var d := p.txDigest(t);
    var coin := GasCoin(p, t, s).value;
    assert Owns(t.sender, s, coin.addr);
    var (paid, gas) := Charge(Gas(Balance(coin).value, 0), BASE_TRANSACTION_GAS_COST);
    if !paid {
      NothingTouches(e, d, s, "out of gas");
      SpendOwns(t.sender, s, Failure("out of gas", d), coin, gas.spent, d, a);
    } else if t.kind.MeowCall? {
      CallOwns(p, e, t, s, seed, time, gas, a);
      var (r, left) := ExecuteCall(p, e, t, s, seed, time, gas);
      SpendOwns(t.sender, s, r, coin, left.spent, d, a);
    } else {
      PublishTouches(p, e, t, s, gas);
      var (r, left) := ExecutePublish(p, e, t, s, gas);
      SpendOwns(t.sender, s, r, coin, left.spent, d, a);
    }
  }

  /** So nobody else's object, and nothing immutable, is any different afterwards. */
  lemma OthersUntouched(p: Protocol, e: Env, t: Tx, s: Store, seed: Digest, time: nat, a: Address)
    requires Honest(p, e) && Keyed(s) && NoneLive(e, p.txDigest(t), s) && Execute(p, e, t, s, seed, time).Some?
    requires a in s && !Owns(t.sender, s, a)
    ensures var u := Apply(s, Execute(p, e, t, s, seed, time).value); a in u && u[a] == s[a]
  {
    hide Honest, Keyed, NoneLive, Touches, Addrs, Execute, Apply;
    TouchesOwn(p, e, t, s, seed, time, a);
    ExecuteTouches(p, e, t, s, seed, time);
    AtMostOnce.AfterApply(e, p.txDigest(t), s, Execute(p, e, t, s, seed, time).value, a);
  }

  lemma RewardUntouched(p: Protocol, e: Env, t: Tx, s: Store, a: Address)
    requires Honest(p, e) && NoneLive(e, p.txDigest(t), s) && a in s
    ensures var u := Apply(s, ExecuteReward(p, e, t, s)); a in u && u[a] == s[a]
  {
    hide Touches, Addrs, Settle, Apply, NoneLive;
    var d := p.txDigest(t);
    var r := ExecuteReward(p, e, t, s);
    RewardTouches(p, e, t, s);
    if e.callError(t, s).Some? {
      NothingTouches(e, d, s, e.callError(t, s).value);
    } else {
      var end := e.runSystem(t, s, Gas(U64_MAX, 0));
      assert EndOk(p, e, t, Gas(U64_MAX, 0), end);
      if end.Stopped? {
        NothingTouches(e, d, s, end.message);
      } else {
        SettleTouches(p, e, t, s, [], Gas(U64_MAX, 0), end);
        assert Addrs([]) == [];
      }
    }
    assert a !in Addrs(r.changed) + Addrs(r.destroyed);
    AtMostOnce.AfterApply(e, d, s, r, a);
  }

  // ---------------------------------------------------------------- the chain

  ghost predicate NoneFrom(who: Owner, txs: seq<SignedTx>) {
    forall i | 0 <= i < |txs| :: who != OwnedBy(txs[i].tx.sender)
  }

  lemma ExecutedUntouched(p: Protocol, e: Env, past: AtMostOnce.Past, s: Store, x: SignedTx, seed: Digest, time: nat, a: Address)
    requires AtMostOnce.World(p, e, past.genesis) && AtMostOnce.PastOk(p, e, past, s)
    requires p.execute(x.tx, s, seed, time).Some? && a in s && s[a].owner != OwnedBy(x.tx.sender)
    ensures var u := Apply(s, p.execute(x.tx, s, seed, time).value); a in u && u[a] == s[a]
  {
    hide AtMostOnce.PastOk, Collisionless, DerivesFresh, Honest, AtMostOnce.GenesisOk, Apply, Execute, NoneLive;
    AtMostOnce.ExecutesOnce(p, e, past, s, x, seed, time);
    AtMostOnce.NewDigestFresh(p, e, past, s, p.txDigest(x.tx));
    AtMostOnce.PastKeyed(p, e, past, s);
    assert p.execute(x.tx, s, seed, time) == Execute(p, e, x.tx, s, seed, time);
    OthersUntouched(p, e, x.tx, s, seed, time, a);
  }

  lemma {:induction false} BatchUntouched(
    p: Protocol, e: Env, past: AtMostOnce.Past, s: Store, txs: seq<SignedTx>, seed: Digest, time: nat, a: Address)
    requires AtMostOnce.World(p, e, past.genesis) && AtMostOnce.PastOk(p, e, past, s)
    requires RunAll(p, txs, s, seed, time).Some? && a in s && NoneFrom(s[a].owner, txs)
    ensures var u := RunAll(p, txs, s, seed, time).value.0; a in u && u[a] == s[a]
  {
    hide AtMostOnce.World, AtMostOnce.PastOk, Apply;
    if txs != [] {
      var init := txs[..|txs| - 1];
      BatchUntouched(p, e, past, s, init, seed, time, a);
      AtMostOnce.RunAllOnce(p, e, past, s, init, seed, time);
      ExecutedUntouched(p, e, AtMostOnce.Then(past, Digests(p, init), past.height),
                        RunAll(p, init, s, seed, time).value.0, txs[|txs| - 1], seed, time, a);
    }
  }

  lemma MintUntouched(p: Protocol, e: Env, past: AtMostOnce.Past, s: Store, x: SignedTx, h: Header, amount: u64, a: Address)
    requires AtMostOnce.World(p, e, past.genesis) && AtMostOnce.PastOk(p, e, past, s)
    requires IsReward(x.tx, amount, MiningHash(p, h)) && h.height > past.height && a in s
    ensures var u := Apply(s, p.executeReward(x.tx, s)); a in u && u[a] == s[a]
  {
    hide AtMostOnce.PastOk, Collisionless, DerivesFresh, Honest, AtMostOnce.GenesisOk, Apply, ExecuteReward, NoneLive, IsReward;
    AtMostOnce.RewardsOnce(p, e, past, s, x, h, amount);
    AtMostOnce.NewDigestFresh(p, e, past, s, p.txDigest(x.tx));
    assert p.executeReward(x.tx, s) == ExecuteReward(p, e, x.tx, s);
    RewardUntouched(p, e, x.tx, s, a);
  }

  lemma BlockUntouched(p: Protocol, e: Env, past: AtMostOnce.Past, s: Store, b: Block, a: Address)
    requires AtMostOnce.World(p, e, past.genesis) && AtMostOnce.PastOk(p, e, past, s) && b.header.height > past.height
    requires Replay(p, b, s).Ok? && a in s && NoneFrom(s[a].owner, b.txs)
    ensures var u := Replay(p, b, s).value; a in u && u[a] == s[a]
  {
    hide AtMostOnce.World, AtMostOnce.PastOk, Apply, RunAll, NoneFrom, IsReward, TotalGas, Digests;
    var seed := MiningHash(p, b.header);
    BatchUntouched(p, e, past, s, b.txs, seed, b.header.timestamp, a);
    if b.reward.Some? {
      AtMostOnce.RunAllOnce(p, e, past, s, b.txs, seed, b.header.timestamp);
      MintUntouched(p, e, AtMostOnce.Then(past, Digests(p, b.txs), past.height),
                    RunAll(p, b.txs, s, seed, b.header.timestamp).value.0, b.reward.value, b.header, TotalGas(b.results), a);
    }
  }

  /** The store a chain leads to is the only one. */
  lemma {:induction false} OneOutcome(p: Protocol, bs: seq<Block>, g: Store, s: Store, t: Store)
    requires AtMostOnce.Replays(p, bs, g, s) && AtMostOnce.Replays(p, bs, g, t)
    ensures s == t
  {
    hide Replay;
    if bs != [] {
      var init, last := bs[..|bs| - 1], bs[|bs| - 1];
      var u :| AtMostOnce.Replays(p, init, g, u) && Replay(p, last, u) == Result.Ok(s);
      var v :| AtMostOnce.Replays(p, init, g, v) && Replay(p, last, v) == Result.Ok(t);
      OneOutcome(p, init, g, u, v);
    }
  }

  /** Owners decide: along any chain from genesis, an object stays exactly as it is, owner, version
      and content, until a block holds a transaction sent by its owner. */
  lemma {:induction false} OwnersDecide(
    p: Protocol, e: Env, g: Store, bs: seq<Block>, t: Store, k: nat, s: Store, a: Address)
    requires AtMostOnce.World(p, e, g) && k <= |bs|
    requires AtMostOnce.Replays(p, bs[..k], g, s) && AtMostOnce.Replays(p, bs, g, t)
    requires a in s && forall i | k <= i < |bs| :: NoneFrom(s[a].owner, bs[i].txs)
    ensures a in t && t[a] == s[a]
    decreases |bs|
  {
    hide AtMostOnce.World, AtMostOnce.PastOk, Replay, NoneFrom;
    if k == |bs| {
      assert bs[..k] == bs;
      OneOutcome(p, bs, g, s, t);
    } else {
      var n := |bs| - 1;
      var init, last := bs[..n], bs[n];
      var u :| AtMostOnce.Replays(p, init, g, u) && Replay(p, last, u) == Result.Ok(t);
      assert init[..k] == bs[..k];
      OwnersDecide(p, e, g, init, u, k, s, a);
      AtMostOnce.ChainHistory(p, e, g, init, u);
      BlockUntouched(p, e, AtMostOnce.Then(AtMostOnce.Past(g, {}, 0), AtMostOnce.ChainDigests(p, init), AtMostOnce.TopHeight(init)),
                     u, last, a);
    }
  }

  // ------------------------------------------------------------ what a call leaves

  lemma Written(s: Store, objs: seq<Object>, o: Object)
    requires Unique(Addrs(objs)) && o in objs
    ensures o.addr in InsertAll(s, objs) && InsertAll(s, objs)[o.addr] == o
  {
    hide Unique, Addrs, InsertAll;
    var i :| 0 <= i < |objs| && objs[i] == o;
    assert Addrs(objs)[i] == o.addr;
    AtMostOnce.InsertedKeys(s, objs, o.addr);
    AtMostOnce.Inserted(s, objs, o.addr);
    var j :| 0 <= j < |objs| && objs[j] == InsertAll(s, objs)[o.addr];
    UniqueAt(Addrs(objs), i, j);
  }

  /** A result that writes no address twice leaves exactly what it lists, and the rest as it was. */
  lemma StoreAfter(e: Env, d: Digest, s: Store, r: ExecResult)
    requires NoneLive(e, d, s) && Touches(e, d, s, r) && Distinct(r)
    ensures var u := Apply(s, r);
            && (forall o | o in r.created || o in r.changed :: o.addr in u && u[o.addr] == o)
            && (forall a | a in Addrs(r.destroyed) :: a !in u)
            && (forall a | a !in Addrs(r.created) && a !in Addrs(r.changed) && a !in Addrs(r.destroyed) ::
                  (a in u <==> a in s) && (a in s ==> u[a] == s[a]))
  {
    hide Unique, Addrs, InsertAll, RemoveAll, Touches, NoneLive;
    var s1 := InsertAll(s, r.created);
    var s2 := InsertAll(s1, r.changed);
    UniqueConcat(Addrs(r.changed), Addrs(r.destroyed));
    forall o | o in r.created || o in r.changed
      ensures o.addr in Apply(s, r) && Apply(s, r)[o.addr] == o
    {
      AddrListed(r.created, o);
      AddrListed(r.changed, o);
      TouchedApart(e, d, s, r, o.addr);
      if o in r.changed {
        Written(s1, r.changed, o);
      } else {
        Written(s, r.created, o);
        AtMostOnce.InsertedKeys(s1, r.changed, o.addr);
        AtMostOnce.Inserted(s1, r.changed, o.addr);
      }
      AtMostOnce.RemovedAt(s2, r.destroyed, o.addr);
    }
    forall a ensures a in Addrs(r.destroyed) ==> a !in Apply(s, r) {
      AtMostOnce.RemovedAt(s2, r.destroyed, a);
    }
    forall a | a !in Addrs(r.created) && a !in Addrs(r.changed) && a !in Addrs(r.destroyed)
      ensures (a in Apply(s, r) <==> a in s) && (a in s ==> Apply(s, r)[a] == s[a])
    {
      AtMostOnce.InsertedKeys(s, r.created, a);
      AtMostOnce.InsertedKeys(s1, r.changed, a);
      AtMostOnce.RemovedAt(s2, r.destroyed, a);
      if a in s1 { AtMostOnce.Inserted(s, r.created, a); }
      if a in s2 { AtMostOnce.Inserted(s1, r.changed, a); }
    }
  }

  lemma AddrListed(objs: seq<Object>, o: Object)
    ensures o in objs ==> o.addr in Addrs(objs)
  {
    if o in objs {
      var i :| 0 <= i < |objs| && objs[i] == o;
      assert Addrs(objs)[i] == o.addr;
    }
  }

  lemma TouchedApart(e: Env, d: Digest, s: Store, r: ExecResult, a: Address)
    requires NoneLive(e, d, s) && Touches(e, d, s, r)
    ensures a in Addrs(r.created) ==> a !in Addrs(r.changed) && a !in Addrs(r.destroyed)
  {
    hide Addrs;
    AtMostOnce.CreatedNotLive(e, d, s, r, a);
    AtMostOnce.ChangedLive(s, r.changed, a);
    AtMostOnce.DestroyedOwned(s, r.destroyed, a);
  }

  predicate Any(o: Object) {
    true
  }

  /** What a call leaves behind: every transferred object, as its transfer says; nothing of what it
      destroyed; the gas coin, `spent` poorer; and everything else as it was. */
  ghost predicate CallLeaves(
    s: Store, u: Store, ctx: Context, objs: seq<Object>, d: Digest, coin: Object, spent: u64)
  {
    && (forall i | 0 <= i < |ctx.transfers| ::
          && IdOf(ctx.transfers[i].value) in u
          && Delivers(u[IdOf(ctx.transfers[i].value)], ctx.transfers[i], ctx.freshIds, objs, d))
    && (forall a | a in ctx.destroyed :: a !in u)
    && coin.addr in u && coin.content.Instance? && coin.version < U64_MAX && u[coin.addr] == Spent(coin, spent, d)
    && (forall a | a !in TransferIds(ctx.transfers) && a !in ctx.destroyed && a != coin.addr ::
          (a in u <==> a in s) && (a in s ==> u[a] == s[a]))
  }

  lemma LinearArgs(ctx: Context, objs: seq<Object>)
    requires IdsLinear(ctx, objs)
    ensures ArgsOk(objs) && Resolvable(ctx, objs)
    ensures forall a | a in ctx.destroyed :: a !in TransferIds(ctx.transfers) && a in ctx.freshIds + Addrs(objs)
  {
    hide Unique, Addrs, TransferIds;
    LinearResolves(ctx, objs);
    UniqueConcat(TransferIds(ctx.transfers), ctx.destroyed);
    forall a | a in ctx.destroyed ensures a in ctx.freshIds + Addrs(objs) {
      assert a in TransferIds(ctx.transfers) + ctx.destroyed;
    }
  }

  lemma FreshNotLive(p: Protocol, e: Env, t: Tx, s: Store, gas: Gas, end: CallEnd, a: Address)
    requires NoneLive(e, p.txDigest(t), s) && end.Finished? && EndOk(p, e, t, gas, end) && a in end.ctx.freshIds
    ensures a !in s
  {
    var k :| 0 <= k < |end.ctx.freshIds| && end.ctx.freshIds[k] == a;
    assert e.derive(p.txDigest(t), k) == a;
  }

  /** The result of the run and the gas it cost, as the store takes it. */
  lemma ResultLeaves(s: Store, u: Store, ctx: Context, objs: seq<Object>, d: Digest, coin: Object, spent: u64, q: ExecResult)
    requires IdsLinear(ctx, objs) && Resolvable(ctx, objs)
    requires coin.content.Instance? && coin.version < U64_MAX
    requires q == Spend(Success(EffectsOf(ctx, objs, d), d), coin, spent, d)
    requires forall o | o in q.created || o in q.changed :: o.addr in u && u[o.addr] == o
    requires forall a | a in Addrs(q.destroyed) :: a !in u
    requires forall a | a !in Addrs(q.created) && a !in Addrs(q.changed) && a !in Addrs(q.destroyed) ::
               (a in u <==> a in s) && (a in s ==> u[a] == s[a])
    requires forall a | a in ctx.freshIds :: a !in s
    requires coin.addr in s
    ensures CallLeaves(s, u, ctx, objs, d, coin, spent)
  {
    hide Unique, Addrs, EffectsOf, Delivers, IdOf, TransferIds, Spent, IdsLinear, Resolvable;
    var r := EffectsOf(ctx, objs, d);
    AddrsSnoc(r.changed, Spent(coin, spent, d));
    LinearArgs(ctx, objs);
    assert Spent(coin, spent, d) in q.changed;
    forall i | 0 <= i < |ctx.transfers|
      ensures IdOf(ctx.transfers[i].value) in u
      ensures Delivers(u[IdOf(ctx.transfers[i].value)], ctx.transfers[i], ctx.freshIds, objs, d)
    {
      var o := Arrival(ctx, objs, d, i);
      assert o in q.created || o in q.changed;
    }
    forall a ensures a in ctx.destroyed ==> a !in u {
      EffectAddrs(ctx, objs, d, a);
    }
    forall a | a !in TransferIds(ctx.transfers) && a !in ctx.destroyed && a != coin.addr
      ensures (a in u <==> a in s) && (a in s ==> u[a] == s[a])
    {
      EffectAddrs(ctx, objs, d, a);
    }
  }

  lemma Arrival(ctx: Context, objs: seq<Object>, d: Digest, i: nat) returns (o: Object)
    requires IdsLinear(ctx, objs) && Resolvable(ctx, objs) && i < |ctx.transfers|
    ensures var e := EffectsOf(ctx, objs, d); o in e.created || o in e.changed
    ensures o.addr == IdOf(ctx.transfers[i].value) && Delivers(o, ctx.transfers[i], ctx.freshIds, objs, d)
  {
    hide IdOf, EffectsOf, IdsLinear, Resolvable, Delivers;
    EffectsDeliver(ctx, objs, d, i);
    var e, t := EffectsOf(ctx, objs, d), ctx.transfers[i];
    if IdOf(t.value) in ctx.freshIds {
      o :| o in e.created && Delivers(o, t, ctx.freshIds, objs, d);
    } else {
      o :| o in e.changed && Delivers(o, t, ctx.freshIds, objs, d);
    }
    DeliveredAt(o, t, ctx.freshIds, objs, d);
  }

  /** A settled run, with its gas paid, leaves exactly that. */
  lemma SettledLeaves(
    p: Protocol, e: Env, t: Tx, s: Store, objs: seq<Object>, gas: Gas, end: CallEnd, coin: Object, spent: u64)
    requires DerivesFresh(e) && NoneLive(e, p.txDigest(t), s)
    requires end.Finished? && EndOk(p, e, t, gas, end) && Consumed(end.ctx, objs) && IdsLinear(end.ctx, objs)
    requires Live(objs, s) && Unique(Addrs(objs))
    requires coin.addr in s && s[coin.addr] == coin && coin.owner.OwnedBy? && coin.content.Instance? && coin.version < U64_MAX
    requires coin.addr !in Addrs(objs)
    ensures var d := p.txDigest(t);
            CallLeaves(s, Apply(s, Spend(Settle(end.ctx, objs, d), coin, spent, d)), end.ctx, objs, d, coin, spent)
  {
    hide DerivesFresh, NoneLive, Unique, Addrs, Touches, Apply, EffectsOf, Consumed, IdsLinear, Live, CallLeaves,
      Spent, EndOk, Resolvable;
    var ctx, d := end.ctx, p.txDigest(t);
    LinearArgs(ctx, objs);
    var r := Settle(ctx, objs, d);
    var q := Spend(r, coin, spent, d);
    SettleTouches(p, e, t, s, objs, gas, end);
    SettleTidy(p, e, t, s, objs, gas, end, Any);
    SpendTouches(e, d, s, r, coin, spent);
    SpendTidy(Any, r, coin, spent, d);
    StoreAfter(e, d, s, q);
    forall a | a in ctx.freshIds ensures a !in s {
      FreshNotLive(p, e, t, s, gas, end, a);
    }
    ResultLeaves(s, Apply(s, q), ctx, objs, d, coin, spent, q);
  }

  /** A call succeeds only by running to the end on the objects it names, leaving none over. */
  lemma Succeeded(p: Protocol, e: Env, t: Tx, s: Store, seed: Digest, time: nat)
    returns (coin: Object, objs: seq<Object>, gas: Gas, end: CallEnd)
    requires t.kind.MeowCall? && Execute(p, e, t, s, seed, time).Some? && Execute(p, e, t, s, seed, time).value.error.None?
    ensures GasCoin(p, t, s) == Some(coin) && ObjectArgs(p, t.kind.args, t.sender, s) == Some(objs)
    ensures e.callError(t, s).None? && end == e.run(t, s, objs, seed, time, gas)
    ensures Balance(coin).Some? && gas == Gas(Balance(coin).value, BASE_TRANSACTION_GAS_COST)
    ensures end.Finished? && Consumed(end.ctx, objs)
    ensures Execute(p, e, t, s, seed, time).value
            == Spend(Settle(end.ctx, objs, p.txDigest(t)), coin, end.gas.spent, p.txDigest(t))
  {
    hide ObjectArgs, Consumed, Resolvable, Balance, EffectsOf;
    coin := GasCoin(p, t, s).value;
    gas := Charge(Gas(Balance(coin).value, 0), BASE_TRANSACTION_GAS_COST).1;
    objs := ObjectArgs(p, t.kind.args, t.sender, s).value;
    end := e.run(t, s, objs, seed, time, gas);
  }

  /** A call that succeeds used the ids of its objects linearly; its transfers arrive, what it
      destroyed is gone, and nothing else changes but its gas coin. */
  lemma CallOutcome(p: Protocol, e: Env, g: Store, good: Object -> bool, t: Tx, s: Store, seed: Digest, time: nat)
    returns (coin: Object, objs: seq<Object>, gas: Gas, end: CallEnd)
    requires Honest(p, e) && Accountable(p, e, g, good) && Sound(e, g, good, s)
    requires DerivesFresh(e) && NoneLive(e, p.txDigest(t), s) && t.kind.MeowCall? && CallArgsOk(t)
    requires Execute(p, e, t, s, seed, time).Some? && Execute(p, e, t, s, seed, time).value.error.None?
    ensures GasCoin(p, t, s) == Some(coin) && ObjectArgs(p, t.kind.args, t.sender, s) == Some(objs)
    ensures end == e.run(t, s, objs, seed, time, gas) && end.Finished?
    ensures Balance(coin).Some? && gas == Gas(Balance(coin).value, BASE_TRANSACTION_GAS_COST)
    ensures CallLeaves(s, Apply(s, Execute(p, e, t, s, seed, time).value), end.ctx, objs, p.txDigest(t), coin, end.gas.spent)
  {
    hide DerivesFresh, NoneLive, Unique, Addrs, ObjectArgs, Published, AllGood, CallLeaves, Apply, Spend, Execute,
      Settle, IdsLinear, Consumed;
    coin, objs, gas, end := Succeeded(p, e, t, s, seed, time);
    ObjectArgsAre(p, t.kind.args, t.sender, s);
    assert EndOk(p, e, t, gas, end) && EndFits(good, objs, end);
    FreshApart(e, p.txDigest(t), |end.ctx.freshIds|, objs, s);
    SettledLeaves(p, e, t, s, objs, gas, end, coin, end.gas.spent);
  }

  // ---------------------------------------------------- refusals, failures, publications

  /** The reference names this object in this very state. */
  predicate Names(p: Protocol, r: ObjectRef, o: Object) {
    o.version == r.version && p.objectDigest(o) == r.digest
  }

  /** A transaction executes, well or badly, exactly when its gas coin is a live coin of its sender
      with a balance, in the state it names; every other transaction is refused. */
  lemma ExecutesExactly(p: Protocol, e: Env, t: Tx, s: Store, seed: Digest, time: nat)
    ensures Execute(p, e, t, s, seed, time).Some? <==>
            && Owns(t.sender, s, t.gasCoin.addr)
            && Balance(s[t.gasCoin.addr]).Some?
            && s[t.gasCoin.addr].version < U64_MAX
            && Names(p, t.gasCoin, s[t.gasCoin.addr])
  {
    hide ExecuteCall, ExecutePublish, Charge;
  }

  /** A call gets its objects exactly when each is a live instance of the sender's in the state named. */
  lemma {:induction false} ObjectArgsExactly(p: Protocol, args: seq<Input>, sender: Address, s: Store)
    ensures ObjectArgs(p, args, sender, s).Some? <==>
            forall i | 0 <= i < |args| && args[i].ObjectArg? ::
              && Owns(sender, s, args[i].ref.addr)
              && s[args[i].ref.addr].content.Instance?
              && s[args[i].ref.addr].version < U64_MAX
              && Names(p, args[i].ref, s[args[i].ref.addr])
  {
    if args != [] {
      var k := |args| - 1;
      var init := args[..k];
      ObjectArgsExactly(p, init, sender, s);
      if ObjectArgs(p, args, sender, s).Some? {
        forall i | 0 <= i < |args| && args[i].ObjectArg? ensures ArgUsable(p, args[i].ref, sender, s) {
          if i < k { assert init[i] == args[i]; }
        }
      }
    }
  }

  /** A call that executes succeeds exactly when its coin covers the base cost, it is not refused, its
      objects are there, it runs to the end, and what it did to its objects adds up. */
  lemma SucceedsExactly(p: Protocol, e: Env, t: Tx, s: Store, seed: Digest, time: nat)
    requires t.kind.MeowCall? && Execute(p, e, t, s, seed, time).Some?
    ensures Execute(p, e, t, s, seed, time).value.error.None? <==>
            var balance := Balance(s[t.gasCoin.addr]);
            && balance.Some? && balance.value >= BASE_TRANSACTION_GAS_COST
            && e.callError(t, s).None?
            && var objs := ObjectArgs(p, t.kind.args, t.sender, s);
            && objs.Some?
            && var end := e.run(t, s, objs.value, seed, time, Gas(balance.value, BASE_TRANSACTION_GAS_COST));
            end.Finished? && Resolvable(end.ctx, objs.value) && Consumed(end.ctx, objs.value)
  {
    hide ObjectArgs, Consumed, Resolvable, Balance, EffectsOf;
  }

  lemma OnlyCoin(s: Store, message: string, d: Digest, coin: Object, spent: u64)
    requires coin.content.Instance? && coin.version < U64_MAX
    ensures Apply(s, Spend(Failure(message, d), coin, spent, d)) == s[coin.addr := Spent(coin, spent, d)]
  {
    hide InsertAll, RemoveAll, Spent;
    var q := Spend(Failure(message, d), coin, spent, d);
    assert q.changed == [Spent(coin, spent, d)];
    RemoveNone(s);
    InsertOne(s, Spent(coin, spent, d));
    RemoveNone(s[coin.addr := Spent(coin, spent, d)]);
  }

  /** A transaction that fails costs its gas and does nothing else. */
  lemma FailureCostsGas(p: Protocol, e: Env, t: Tx, s: Store, seed: Digest, time: nat)
    requires Execute(p, e, t, s, seed, time).Some? && Execute(p, e, t, s, seed, time).value.error.Some?
    ensures var r := Execute(p, e, t, s, seed, time).value;
            var coin := s[t.gasCoin.addr];
            && coin.content.Instance? && coin.version < U64_MAX
            && Apply(s, r) == s[coin.addr := Spent(coin, r.gasUsed, p.txDigest(t))]
  {
    hide ObjectArgs, Resolvable, Consumed, EffectsOf, Apply, Spent, Charge, Balance;
    var d := p.txDigest(t);
    var r := Execute(p, e, t, s, seed, time).value;
    var coin := GasCoin(p, t, s).value;
    assert r == Spend(Failure(r.error.value, d), coin, r.gasUsed, d);
    OnlyCoin(s, r.error.value, d, coin, r.gasUsed);
  }

  /** A publication succeeds exactly when the module fits, is not refused and is paid for; then the
      store has it, immutable, at the first address derived from the transaction, for ever. */
  lemma PublishOutcome(p: Protocol, e: Env, t: Tx, s: Store, seed: Digest, time: nat)
    requires t.kind.ModulePublish? && Execute(p, e, t, s, seed, time).Some?
    ensures var r, d := Execute(p, e, t, s, seed, time).value, p.txDigest(t);
            var coin, size := s[t.gasCoin.addr], e.moduleSize(t.kind.code);
            && (r.error.None? <==>
                  && size <= MAX_MODULE_SIZE && e.publishError(t, s).None?
                  && BASE_TRANSACTION_GAS_COST + size * GAS_PER_MODULE_BYTE <= Balance(coin).value)
            && (r.error.None? ==>
                  && r.gasUsed == BASE_TRANSACTION_GAS_COST + size * GAS_PER_MODULE_BYTE
                  && Apply(s, r) == s[e.derive(d, 0) := Object(e.derive(d, 0), Immutable, d, 1, ModuleCode(t.kind.code))]
                                     [coin.addr := Spent(coin, r.gasUsed, d)])
  {
    hide Balance, Spent, Apply;
    var r, d := Execute(p, e, t, s, seed, time).value, p.txDigest(t);
    if r.error.None? {
      OneCreated(s, Object(e.derive(d, 0), Immutable, d, 1, ModuleCode(t.kind.code)), d, s[t.gasCoin.addr], r.gasUsed);
    }
  }

  lemma OneCreated(s: Store, o: Object, d: Digest, coin: Object, spent: u64)
    requires coin.content.Instance? && coin.version < U64_MAX
    ensures Apply(s, Spend(Success(ObjectEffects([o], [], []), d), coin, spent, d))
            == s[o.addr := o][coin.addr := Spent(coin, spent, d)]
  {
    hide InsertAll, RemoveAll, Spent;
    var q := Spend(Success(ObjectEffects([o], [], []), d), coin, spent, d);
    assert q.changed == [Spent(coin, spent, d)];
    InsertOne(s, o);
    InsertOne(s[o.addr := o], Spent(coin, spent, d));
    RemoveNone(s[o.addr := o][coin.addr := Spent(coin, spent, d)]);
  }

  lemma InsertOne(s: Store, o: Object)
    ensures InsertAll(s, [o]) == s[o.addr := o]
  {
    assert [o][..0] == [];
  }

  lemma RemoveNone(s: Store)
    ensures RemoveAll(s, []) == s && InsertAll(s, []) == s
  {
  }
}
