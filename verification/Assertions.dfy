/** The store's own assertions along a chain: where runs fit, no result of any block ever writes an
    address twice, overwrites what is not there, or removes what is gone. */
module Assertions {
  import opened MeowTypes
  import opened Ledger
  import opened Effects
  import opened Executor
  import opened History
  import opened Chain
  import opened AtMostOnce

  /** The world of a chain whose runs fit on every store its blocks can lead to. */
  ghost predicate FitWorld(p: Protocol, e: Env, g: Store, good: Object -> bool) {
    World(p, e, g) && Accountable(p, e, g, good) && Lasting(good)
  }

  lemma PastSound(p: Protocol, e: Env, past: Past, s: Store, good: Object -> bool)
    requires PastOk(p, e, past, s) && AllGood(good, s)
    ensures Sound(e, past.genesis, good, s)
  {
  }

  /** Good objects stay good when a tidy result is applied, and no assertion trips. */
  lemma TidyApplies(e: Env, d: Digest, s: Store, r: ExecResult, good: Object -> bool)
    requires NoneLive(e, d, s) && Touches(e, d, s, r) && Tidy(good, r) && AllGood(good, s)
    ensures AssertsHold(s, r) && AllGood(good, Apply(s, r))
  {
    hide NoneLive, Touches, Distinct, Apply, AssertsHold;
    DistinctFits(e, d, s, r);
    forall a | a in Apply(s, r) ensures good(Apply(s, r)[a]) {
      AfterApply(e, d, s, r, a);
    }
  }

  lemma TransactionFits(
    p: Protocol, e: Env, past: Past, s: Store, good: Object -> bool, x: SignedTx, seed: Digest, time: nat)
    requires FitWorld(p, e, past.genesis, good) && PastOk(p, e, past, s) && AllGood(good, s)
    requires p.signedOk(x) && p.execute(x.tx, s, seed, time).Some?
    ensures var r := p.execute(x.tx, s, seed, time).value;
            && NoneLive(e, p.txDigest(x.tx), s) && Touches(e, p.txDigest(x.tx), s, r) && Tidy(good, r)
            && AssertsHold(s, r) && AllGood(good, Apply(s, r))
  {
    hide Collisionless, DerivesFresh, Honest, GenesisOk, Touches, Tidy, Apply, NoneLive, PastOk, CallArgsOk, AssertsHold, Accountable,
      Lasting, AllGood, Sound, Execute;
    var t, d := x.tx, p.txDigest(x.tx);
    assert p.execute(t, s, seed, time) == Execute(p, e, t, s, seed, time);
    ExecutesOnce(p, e, past, s, x, seed, time);
    NewDigestFresh(p, e, past, s, d);
    PastKeyed(p, e, past, s);
    PastSound(p, e, past, s, good);
    ExecuteTouches(p, e, t, s, seed, time);
    ExecuteTidy(p, e, past.genesis, good, t, s, seed, time);
    TidyApplies(e, d, s, p.execute(t, s, seed, time).value, good);
  }

  lemma RewardFits(p: Protocol, e: Env, past: Past, s: Store, good: Object -> bool, x: SignedTx, h: Header, amount: u64)
    requires FitWorld(p, e, past.genesis, good) && PastOk(p, e, past, s) && AllGood(good, s)
    requires IsReward(x.tx, amount, MiningHash(p, h)) && h.height > past.height
    ensures var r := p.executeReward(x.tx, s);
            && NoneLive(e, p.txDigest(x.tx), s) && Touches(e, p.txDigest(x.tx), s, r) && Tidy(good, r)
            && AssertsHold(s, r) && AllGood(good, Apply(s, r))
  {
    hide Collisionless, DerivesFresh, Honest, GenesisOk, Touches, Tidy, Apply, NoneLive, PastOk, AssertsHold, Accountable,
      Lasting, AllGood, Sound, ExecuteReward;
    var t, d := x.tx, p.txDigest(x.tx);
    assert p.executeReward(t, s) == ExecuteReward(p, e, t, s);
    RewardsOnce(p, e, past, s, x, h, amount);
    NewDigestFresh(p, e, past, s, d);
    PastSound(p, e, past, s, good);
    assert Rewards(t);
    RewardTouches(p, e, t, s);
    RewardTidy(p, e, past.genesis, good, t, s);
    TidyApplies(e, d, s, p.executeReward(t, s), good);
  }

  // ---------------------------------------------------------------------- blocks

  /** No assertion trips while the transactions run in turn. */
  ghost predicate RunHolds(p: Protocol, txs: seq<SignedTx>, s: Store, seed: Digest, time: nat) {
    txs != [] ==>
      var init, last := txs[..|txs| - 1], txs[|txs| - 1];
      var before := RunAll(p, init, s, seed, time);
      && RunHolds(p, init, s, seed, time)
      && (before.Some? && p.execute(last.tx, before.value.0, seed, time).Some? ==>
            AssertsHold(before.value.0, p.execute(last.tx, before.value.0, seed, time).value))
  }

  ghost predicate BlockHolds(p: Protocol, b: Block, s: Store) {
    var run := RunAll(p, b.txs, s, MiningHash(p, b.header), b.header.timestamp);
    && RunHolds(p, b.txs, s, MiningHash(p, b.header), b.header.timestamp)
    && (run.Some? && b.reward.Some? ==> AssertsHold(run.value.0, p.executeReward(b.reward.value.tx, run.value.0)))
  }

  lemma {:induction false} RunFits(
    p: Protocol, e: Env, past: Past, s: Store, good: Object -> bool, txs: seq<SignedTx>, seed: Digest, time: nat)
    requires FitWorld(p, e, past.genesis, good) && PastOk(p, e, past, s) && AllGood(good, s) && AllSigned(p, txs)
    requires RunAll(p, txs, s, seed, time).Some?
    ensures RunHolds(p, txs, s, seed, time) && AllGood(good, RunAll(p, txs, s, seed, time).value.0)
  {
    hide World, Accountable, Lasting, PastOk, Apply, AllGood, AssertsHold, Tidy, Touches, NoneLive, Digests;
    if txs != [] {
      var init, last := txs[..|txs| - 1], txs[|txs| - 1];
      RunFits(p, e, past, s, good, init, seed, time);
      RunAllOnce(p, e, past, s, init, seed, time);
      TransactionFits(p, e, Then(past, Digests(p, init), past.height), RunAll(p, init, s, seed, time).value.0, good, last, seed, time);
    }
  }

  lemma BlockFits(p: Protocol, e: Env, past: Past, s: Store, good: Object -> bool, b: Block)
    requires FitWorld(p, e, past.genesis, good) && PastOk(p, e, past, s) && AllGood(good, s)
    requires AllSigned(p, b.txs) && b.header.height > past.height
    requires Replay(p, b, s).Ok?
    ensures BlockHolds(p, b, s) && AllGood(good, Replay(p, b, s).value)
  {
    hide World, Accountable, Lasting, PastOk, Apply, AllGood, AssertsHold, Tidy, Touches, NoneLive, Digests, RunHolds, RunAll,
      IsReward, TotalGas;
    var seed := MiningHash(p, b.header);
    RunFits(p, e, past, s, good, b.txs, seed, b.header.timestamp);
    RunAllOnce(p, e, past, s, b.txs, seed, b.header.timestamp);
    if b.reward.Some? {
      RewardFits(p, e, Then(past, Digests(p, b.txs), past.height), RunAll(p, b.txs, s, seed, b.header.timestamp).value.0, good,
                 b.reward.value, b.header, TotalGas(b.results));
    }
  }

  /** A chain is replayed in one way. */
  lemma {:induction false} ReplaysOnce(p: Protocol, bs: seq<Block>, g: Store, t: Store, u: Store)
    requires Replays(p, bs, g, t) && Replays(p, bs, g, u)
    ensures t == u
  {
    hide Replay;
    if bs != [] {
      var init, last := bs[..|bs| - 1], bs[|bs| - 1];
      var t1 :| Replays(p, init, g, t1) && Replay(p, last, t1) == Result.Ok(t);
      var u1 :| Replays(p, init, g, u1) && Replay(p, last, u1) == Result.Ok(u);
      ReplaysOnce(p, init, g, t1, u1);
    }
  }

  ghost predicate ChainHolds(p: Protocol, bs: seq<Block>, g: Store) {
    bs != [] ==>
      var init, last := bs[..|bs| - 1], bs[|bs| - 1];
      ChainHolds(p, init, g) && forall u :: Replays(p, init, g, u) ==> BlockHolds(p, last, u)
  }

  /** Along any chain whose runs fit, no assertion of the store ever trips, every module was
      accepted when it was published, and every object is good. */
  lemma {:induction false} ChainNeverTrips(p: Protocol, e: Env, g: Store, good: Object -> bool, bs: seq<Block>, t: Store)
    requires FitWorld(p, e, g, good) && AllGood(good, g)
    requires Replays(p, bs, g, t)
    ensures ChainHolds(p, bs, g)
    ensures Sound(e, g, good, t)
  {
    hide World, Accountable, Lasting, PastOk, AllGood, BlockHolds, Replay, ChainDigests, Sound;
    ChainHistory(p, e, g, bs, t);
    if bs != [] {
      var init, last := bs[..|bs| - 1], bs[|bs| - 1];
      var u :| Replays(p, init, g, u) && Replay(p, last, u) == Result.Ok(t);
      ChainNeverTrips(p, e, g, good, init, u);
      SoundGood(e, g, good, u);
      ChainHistory(p, e, g, init, u);
      BlockFits(p, e, Then(Past(g, {}, 0), ChainDigests(p, init), TopHeight(init)), u, good, last);
      forall v | Replays(p, init, g, v) ensures BlockHolds(p, last, v) {
        ReplaysOnce(p, init, g, u, v);
      }
    }
    PastSound(p, e, Then(Past(g, {}, 0), ChainDigests(p, bs), TopHeight(bs)), t, good);
  }

  lemma SoundGood(e: Env, g: Store, good: Object -> bool, s: Store)
    requires Sound(e, g, good, s)
    ensures AllGood(good, s)
  {
  }
}
