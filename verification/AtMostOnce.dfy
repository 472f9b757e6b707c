/** A transaction takes effect at most once along a chain replayed from genesis, whatever code the
    chain runs; where runs fit, the store's own assertions never trip either. */
module AtMostOnce {
  import opened MeowTypes
  import opened Vm
  import opened Ledger
  import opened Effects
  import opened Executor
  import opened History
  import opened Chain

  /** What has happened so far: the genesis store, the digests that took effect, and the
      height reached. */
  datatype Past = Past(genesis: Store, done: set<Digest>, height: nat)

  // ------------------------------------------------------------ one step of a store

  lemma {:induction false} Inserted(s: Store, objs: seq<Object>, a: Address)
    requires a in InsertAll(s, objs)
    ensures a !in Addrs(objs) ==> a in s && InsertAll(s, objs)[a] == s[a]
    ensures a in Addrs(objs) ==> InsertAll(s, objs)[a] in objs && InsertAll(s, objs)[a].addr == a
  {
    if objs != [] {
      var init, last := objs[..|objs| - 1], objs[|objs| - 1];
      assert objs == init + [last];
      AddrsSnoc(init, last);
      if a != last.addr {
        Inserted(s, init, a);
      }
    }
  }

  /** The store after a result, address by address. */
  lemma AfterApply(e: Env, d: Digest, s: Store, r: ExecResult, a: Address)
    requires NoneLive(e, d, s) && Touches(e, d, s, r)
    ensures var u := Apply(s, r);
            && (a in u && a !in s ==> DerivedFrom(e, d, a))
            && (a in u && a in s ==> u[a].version >= s[a].version)
            && (a in u && a in Addrs(r.changed) ==> a in s && u[a].version == s[a].version + 1)
            && (a in s && !s[a].owner.OwnedBy? ==> a in u && u[a] == s[a])
            && (a in s && a !in Addrs(r.changed) && a !in Addrs(r.destroyed) ==> a in u && u[a] == s[a])
            && (a in u ==> u[a] in r.created || u[a] in r.changed || (a in s && u[a] == s[a]))
  {
    hide Addrs, InsertAll, RemoveAll;
    var s1 := InsertAll(s, r.created);
    var s2 := InsertAll(s1, r.changed);
    CreatedNotLive(e, d, s, r, a);
    ChangedLive(s, r.changed, a);
    RemovedAt(s2, r.destroyed, a);
    DestroyedOwned(s, r.destroyed, a);
    if a in s1 { Inserted(s, r.created, a); }
    if a in s2 { Inserted(s1, r.changed, a); }
    InsertedKeys(s, r.created, a);
    InsertedKeys(s1, r.changed, a);
  }

  lemma CreatedNotLive(e: Env, d: Digest, s: Store, r: ExecResult, a: Address)
    requires NoneLive(e, d, s) && Touches(e, d, s, r)
    ensures a in Addrs(r.created) ==> a !in s && DerivedFrom(e, d, a)
  {
    hide Addrs;
    if a in Addrs(r.created) {
      var k :| e.derive(d, k) == a;
    }
  }

  lemma ChangedLive(s: Store, objs: seq<Object>, a: Address)
    requires forall o :: o in objs ==> Renews(s, o)
    ensures a in Addrs(objs) ==> a in s && s[a].owner.OwnedBy?
  {
    if a in Addrs(objs) {
      var i :| 0 <= i < |objs| && Addrs(objs)[i] == a;
      assert Renews(s, objs[i]);
    }
  }

  lemma DestroyedOwned(s: Store, objs: seq<Object>, a: Address)
    requires forall o :: o in objs ==> o.addr in s && s[o.addr].owner.OwnedBy?
    ensures a in Addrs(objs) ==> a in s && s[a].owner.OwnedBy?
  {
    if a in Addrs(objs) {
      var i :| 0 <= i < |objs| && Addrs(objs)[i] == a;
      assert objs[i] in objs;
    }
  }

  lemma InsertedKeys(s: Store, objs: seq<Object>, a: Address)
    ensures a in InsertAll(s, objs) <==> a in s || a in Addrs(objs)
  {
    if a in InsertAll(s, objs) && a !in s {
      var i :| 0 <= i < |objs| && objs[i].addr == a;
      assert Addrs(objs)[i] == a;
    }
    if a in s || a in Addrs(objs) {
      Present(s, objs, a);
    }
  }

  lemma RemovedAt(s: Store, objs: seq<Object>, a: Address)
    ensures a in RemoveAll(s, objs) <==> a in s && a !in Addrs(objs)
    ensures a in RemoveAll(s, objs) ==> RemoveAll(s, objs)[a] == s[a]
  {
    if a in Addrs(objs) {
      var i :| 0 <= i < |objs| && Addrs(objs)[i] == a;
      assert objs[i].addr == a;
    }
    if a !in Addrs(objs) {
      forall i | 0 <= i < |objs|
        ensures objs[i].addr != a
      {
        assert Addrs(objs)[i] in Addrs(objs);
      }
    }
  }

  /** A result that writes no address twice trips none of the store's assertions. */
  lemma DistinctFits(e: Env, d: Digest, s: Store, r: ExecResult)
    requires NoneLive(e, d, s) && Touches(e, d, s, r) && Distinct(r)
    ensures AssertsHold(s, r)
  {
    hide Unique, Addrs;
    UniqueConcat(Addrs(r.changed), Addrs(r.destroyed));
    forall a
      ensures a in Addrs(r.created) ==> a !in s
      ensures a in Addrs(r.changed) ==> a in s
      ensures a in Addrs(r.destroyed) ==> a in s
    {
      CreatedNotLive(e, d, s, r, a);
      ChangedLive(s, r.changed, a);
      DestroyedOwned(s, r.destroyed, a);
    }
  }

  // ------------------------------------------------------------------ the invariant

  /** An address that has been used: a genesis object, or derived from a done transaction. */
  ghost predicate Born(e: Env, past: Past, a: Address) {
    a in past.genesis || exists d, k :: d in past.done && e.derive(d, k) == a
  }

  /** The transaction cannot execute any more: its gas coin is used up or has moved on. */
  ghost predicate Consumed(e: Env, past: Past, s: Store, t: Tx) {
    && (t.gasCoin.addr == ZERO_ADDRESS || Born(e, past, t.gasCoin.addr))
    && (t.gasCoin.addr in s ==> s[t.gasCoin.addr].version > t.gasCoin.version)
  }

  /** The digest of a reward's gas coin is the mining hash of a header up to this height. */
  ghost predicate Mined(p: Protocol, d: Digest, height: nat) {
    exists m: MiningHeader :: p.miningHash(m) == d && m.height <= height
  }

  ghost predicate PastOk(p: Protocol, e: Env, past: Past, s: Store) {
    && Keyed(s) && ZERO_ADDRESS !in s
    && (forall a :: a in s ==> Born(e, past, a))
    && (forall t: Tx {:trigger p.txDigest(t)} :: p.txDigest(t) in past.done ==>
          Consumed(e, past, s, t) && (t.gasCoin.addr == ZERO_ADDRESS ==> Mined(p, t.gasCoin.digest, past.height)))
    && Framework(past.genesis, s) && Published(e, past.genesis, s)
  }

  /** The system modules are there, as genesis has them, and nobody owns them. */
  ghost predicate Framework(g: Store, s: Store) {
    && OBJECT_MODULE in s && OBJECT_MODULE in g && s[OBJECT_MODULE] == g[OBJECT_MODULE] && g[OBJECT_MODULE].owner.Immutable?
    && COIN_MODULE in s && COIN_MODULE in g && s[COIN_MODULE] == g[COIN_MODULE] && g[COIN_MODULE].owner.Immutable?
  }

  ghost predicate GenesisOk(e: Env, g: Store) {
    && Keyed(g) && ZERO_ADDRESS !in g
    && (forall d, k {:trigger e.derive(d, k)} :: e.derive(d, k) !in g)
    && Framework(g, g)
  }

  lemma GenesisStarts(p: Protocol, e: Env, g: Store)
    requires GenesisOk(e, g)
    ensures PastOk(p, e, Past(g, {}, 0), g)
  {
  }

  /** Nothing derived from a digest that has not been used is live. */
  lemma NewDigestFresh(p: Protocol, e: Env, past: Past, s: Store, d: Digest)
    requires DerivesFresh(e) && GenesisOk(e, past.genesis)
    requires PastOk(p, e, past, s) && d !in past.done
    ensures NoneLive(e, d, s)
    ensures forall k {:trigger e.derive(d, k)} :: !Born(e, past, e.derive(d, k))
  {
    forall k
      ensures !Born(e, past, e.derive(d, k)) && e.derive(d, k) !in s
    {
      forall d', k' | d' in past.done
        ensures e.derive(d', k') != e.derive(d, k)
      {
      }
    }
  }

  /** The immutable part of a store only grows, and by accepted modules only. */
  lemma PublishedGrows(e: Env, g: Store, d: Digest, s: Store, r: ExecResult)
    requires NoneLive(e, d, s) && Touches(e, d, s, r) && Published(e, g, s)
    ensures Persists(s, Apply(s, r)) && Published(e, g, Apply(s, r))
  {
    hide NoneLive, Touches, Apply, Addrs, AcceptedAt;
    var u := Apply(s, r);
    forall a | a in s && !s[a].owner.OwnedBy? ensures a in u && u[a] == s[a] {
      AfterApply(e, d, s, r, a);
    }
    forall a | a in u && u[a].content.ModuleCode?
      ensures (a in g && g[a] == u[a]) || AcceptedBefore(e, u[a].content.code, u)
    {
      AfterApply(e, d, s, r, a);
      WrittenModules(e, d, s, r, u[a]);
      if u[a] in r.created {
        assert Persists(s, u) && AcceptedAt(e, u[a].content.code, s);
      } else if !(a in g && g[a] == s[a]) {
        var before :| Persists(before, s) && AcceptedAt(e, s[a].content.code, before);
        assert Persists(before, u);
      }
    }
  }

  lemma WrittenModules(e: Env, d: Digest, s: Store, r: ExecResult, o: Object)
    requires Touches(e, d, s, r) && o.content.ModuleCode?
    ensures o !in r.changed
    ensures o in r.created ==> AcceptedAt(e, o.content.code, s)
  {
    hide Addrs, AcceptedAt;
    assert o in r.created ==> Enters(e, s, o);
    assert o in r.changed ==> Renews(s, o);
  }

  /** A result of a new transaction carries the history forward: nothing dead comes
      back, versions only grow, and what could not execute before still cannot. */
  lemma HistoryGrows(p: Protocol, e: Env, past: Past, s: Store, t: Tx, r: ExecResult, height: nat)
    requires Collisionless(p) && DerivesFresh(e) && GenesisOk(e, past.genesis)
    requires PastOk(p, e, past, s) && past.height <= height
    requires p.txDigest(t) !in past.done
    requires Touches(e, p.txDigest(t), s, r)
    requires t.gasCoin.addr == ZERO_ADDRESS ==> Mined(p, t.gasCoin.digest, height)
    requires t.gasCoin.addr != ZERO_ADDRESS ==>
      t.gasCoin.addr in s && s[t.gasCoin.addr].version == t.gasCoin.version && t.gasCoin.addr in Addrs(r.changed)
    ensures PastOk(p, e, past.(done := past.done + {p.txDigest(t)}, height := height), Apply(s, r))
  {
    hide Collisionless, DerivesFresh, Addrs, Touches, Apply, GenesisOk, NoneLive, Born, Published;
    var d := p.txDigest(t);
    var later := past.(done := past.done + {d}, height := height);
    var u := Apply(s, r);
    NewDigestFresh(p, e, past, s, d);
    forall a
      ensures a in u ==> Born(e, later, a) && a != ZERO_ADDRESS
      ensures Born(e, past, a) ==> Born(e, later, a) && (a in u ==> a in s && u[a].version >= s[a].version)
    {
      AddressGrows(p, e, past, s, d, r, a, later);
    }
    forall x: Tx | p.txDigest(x) in later.done
      ensures Consumed(e, later, u, x)
      ensures x.gasCoin.addr == ZERO_ADDRESS ==> Mined(p, x.gasCoin.digest, height)
    {
      if p.txDigest(x) == d {
        SameTx(p, x, t);
        AfterApply(e, d, s, r, t.gasCoin.addr);
      }
    }
    PublishedGrows(e, past.genesis, d, s, r);
    AfterApply(e, d, s, r, OBJECT_MODULE);
    AfterApply(e, d, s, r, COIN_MODULE);
  }

  lemma SameTx(p: Protocol, x: Tx, t: Tx)
    requires Collisionless(p) && p.txDigest(x) == p.txDigest(t)
    ensures x == t
  {
  }

  lemma AddressGrows(
    p: Protocol, e: Env, past: Past, s: Store, d: Digest, r: ExecResult, a: Address, later: Past)
    requires DerivesFresh(e) && NoneLive(e, d, s) && Touches(e, d, s, r)
    requires PastOk(p, e, past, s)
    requires forall k {:trigger e.derive(d, k)} :: !Born(e, past, e.derive(d, k))
    requires later.genesis == past.genesis && later.done == past.done + {d}
    ensures a in Apply(s, r) ==> Born(e, later, a) && a != ZERO_ADDRESS
    ensures Born(e, past, a) ==>
      Born(e, later, a) && (a in Apply(s, r) ==> a in s && Apply(s, r)[a].version >= s[a].version)
  {
    hide Addrs, Touches, Apply, NoneLive, Published;
    AfterApply(e, d, s, r, a);
    if a in Apply(s, r) && a !in s {
      var k :| e.derive(d, k) == a;
      assert d in later.done;
    }
  }

  // -------------------------------------------------------------------- transactions

  /** The executor the chain runs is this one, and signatures vouch for the arguments. */
  ghost predicate Runs(p: Protocol, e: Env) {
    && (forall t, s, seed, time {:trigger p.execute(t, s, seed, time)} ::
          p.execute(t, s, seed, time) == Execute(p, e, t, s, seed, time))
    && (forall t, s {:trigger p.executeReward(t, s)} :: p.executeReward(t, s) == ExecuteReward(p, e, t, s))
    && (forall x: SignedTx {:trigger p.signedOk(x)} :: p.signedOk(x) ==> CallArgsOk(x.tx))
  }

  ghost predicate World(p: Protocol, e: Env, g: Store) {
    Collisionless(p) && DerivesFresh(e) && Honest(p, e) && Runs(p, e) && GenesisOk(e, g)
  }

  /** A transaction that executes has not taken effect before, and it joins the history. */
  lemma ExecutesOnce(p: Protocol, e: Env, past: Past, s: Store, x: SignedTx, seed: Digest, time: nat)
    requires World(p, e, past.genesis)
    requires PastOk(p, e, past, s)
    requires p.execute(x.tx, s, seed, time).Some?
    ensures p.txDigest(x.tx) !in past.done
    ensures PastOk(p, e, past.(done := past.done + {p.txDigest(x.tx)}), Apply(s, p.execute(x.tx, s, seed, time).value))
  {
    hide Collisionless, DerivesFresh, Honest, GenesisOk, Touches, Apply, NoneLive, Addrs, Published;
    var t, d := x.tx, p.txDigest(x.tx);
    assert p.execute(t, s, seed, time) == Execute(p, e, t, s, seed, time);
    assert t.gasCoin.addr in s && s[t.gasCoin.addr].version == t.gasCoin.version;
    assert !Consumed(e, past, s, t);
    ExecuteTouches(p, e, t, s, seed, time) by { PastKeyed(p, e, past, s); }
    PastNonZero(p, e, past, s, t.gasCoin.addr);
    HistoryGrows(p, e, past, s, t, p.execute(t, s, seed, time).value, past.height);
    assert past.(done := past.done + {d}) == past.(done := past.done + {d}, height := past.height);
  }

  lemma PastKeyed(p: Protocol, e: Env, past: Past, s: Store)
    requires PastOk(p, e, past, s)
    ensures Keyed(s)
  {
  }

  lemma PastNonZero(p: Protocol, e: Env, past: Past, s: Store, a: Address)
    requires PastOk(p, e, past, s) && a in s
    ensures a != ZERO_ADDRESS
  {
  }

  /** The reward of a higher block has not taken effect before either. */
  lemma RewardsOnce(p: Protocol, e: Env, past: Past, s: Store, x: SignedTx, h: Header, amount: u64)
    requires World(p, e, past.genesis)
    requires PastOk(p, e, past, s)
    requires IsReward(x.tx, amount, MiningHash(p, h)) && h.height > past.height
    ensures p.txDigest(x.tx) !in past.done
    ensures PastOk(p, e, past.(done := past.done + {p.txDigest(x.tx)}, height := h.height),
                   Apply(s, p.executeReward(x.tx, s)))
  {
    hide DerivesFresh, Honest, GenesisOk, Touches, Apply, NoneLive, Addrs, Published;
    var t, d := x.tx, p.txDigest(x.tx);
    assert Mined(p, t.gasCoin.digest, h.height) by { assert p.miningHash(Ledger.Mining(h)) == t.gasCoin.digest; }
    assert !Mined(p, t.gasCoin.digest, past.height) by {
      forall m: MiningHeader | p.miningHash(m) == t.gasCoin.digest
        ensures m.height > past.height
      {
        assert m == Ledger.Mining(h);
      }
    }
    assert d !in past.done;
    RewardTouches(p, e, t, s);
    HistoryGrows(p, e, past, s, t, ExecuteReward(p, e, t, s), h.height);
  }

  // -------------------------------------------------------------------------- chains

  ghost function DigestSet(ds: seq<Digest>): (r: set<Digest>) {
    set d | d in ds
  }

  ghost predicate AllSigned(p: Protocol, txs: seq<SignedTx>) {
    forall i :: 0 <= i < |txs| ==> p.signedOk(txs[i])
  }

  /** Digests that are new, and distinct among themselves. */
  ghost predicate NewOnes(ds: seq<Digest>, past: Past) {
    NoDuplicates(ds) && forall d :: d in ds ==> d !in past.done
  }

  ghost function Then(past: Past, ds: seq<Digest>, height: nat): (r: Past) {
    past.(done := past.done + DigestSet(ds), height := height)
  }

  lemma NewOnesSnoc(ds: seq<Digest>, past: Past, d: Digest)
    requires NewOnes(ds, past) && d !in past.done + DigestSet(ds)
    ensures NewOnes(ds + [d], past)
    ensures past.done + DigestSet(ds + [d]) == past.done + DigestSet(ds) + {d}
  {
  }

  lemma {:induction false} RunAllOnce(p: Protocol, e: Env, past: Past, s: Store, txs: seq<SignedTx>, seed: Digest, time: nat)
    requires World(p, e, past.genesis) && PastOk(p, e, past, s)
    requires RunAll(p, txs, s, seed, time).Some?
    ensures NewOnes(Digests(p, txs), past)
    ensures PastOk(p, e, Then(past, Digests(p, txs), past.height), RunAll(p, txs, s, seed, time).value.0)
  {
    hide World, PastOk, Apply, NewOnes, DigestSet;
    if txs == [] {
      assert Then(past, Digests(p, txs), past.height) == past by { NothingNew(past, Digests(p, txs)); }
      NothingNew(past, Digests(p, txs));
    } else {
      var init, last := txs[..|txs| - 1], txs[|txs| - 1];
      RunAllOnce(p, e, past, s, init, seed, time);
      var later := Then(past, Digests(p, init), past.height);
      ExecutesOnce(p, e, later, RunAll(p, init, s, seed, time).value.0, last, seed, time);
      assert Digests(p, txs) == Digests(p, init) + [p.txDigest(last.tx)];
      NewOnesSnoc(Digests(p, init), past, p.txDigest(last.tx));
      assert Then(past, Digests(p, txs), past.height) == later.(done := later.done + {p.txDigest(last.tx)});
    }
  }

  lemma NothingNew(past: Past, ds: seq<Digest>)
    requires ds == []
    ensures NewOnes(ds, past) && past.done + DigestSet(ds) == past.done
  {
  }

  /** The digests a block brings into effect: its transactions and its reward. */
  function BlockDigests(p: Protocol, b: Block): (ds: seq<Digest>) {
    Digests(p, b.txs) + if b.reward.Some? then [p.txDigest(b.reward.value.tx)] else []
  }

  lemma HigherPast(p: Protocol, e: Env, past: Past, s: Store, height: nat)
    requires PastOk(p, e, past, s) && past.height <= height
    ensures PastOk(p, e, past.(height := height), s)
  {
    var later := past.(height := height);
    forall a | Born(e, past, a)
      ensures Born(e, later, a)
    {
    }
    forall t: Tx | p.txDigest(t) in later.done
      ensures Consumed(e, later, s, t)
      ensures t.gasCoin.addr == ZERO_ADDRESS ==> Mined(p, t.gasCoin.digest, height)
    {
      assert Consumed(e, past, s, t);
      if t.gasCoin.addr == ZERO_ADDRESS {
        var m: MiningHeader :| p.miningHash(m) == t.gasCoin.digest && m.height <= past.height;
        assert p.miningHash(m) == t.gasCoin.digest && m.height <= height;
      }
    }
  }

  lemma {:induction false} ReplayOnce(p: Protocol, e: Env, past: Past, s: Store, b: Block)
    requires World(p, e, past.genesis) && PastOk(p, e, past, s)
    requires b.header.height > past.height
    requires Replay(p, b, s).Ok?
    ensures NewOnes(BlockDigests(p, b), past)
    ensures PastOk(p, e, Then(past, BlockDigests(p, b), b.header.height), Replay(p, b, s).value)
  {
    hide World, PastOk, Apply, NewOnes, DigestSet, RunAll, Digests, IsReward, TotalGas;
    var seed := MiningHash(p, b.header);
    RunAllOnce(p, e, past, s, b.txs, seed, b.header.timestamp);
    var later := Then(past, Digests(p, b.txs), past.height);
    var mid := RunAll(p, b.txs, s, seed, b.header.timestamp).value.0;
    if b.reward.Some? {
      var d := p.txDigest(b.reward.value.tx);
      RewardsOnce(p, e, later, mid, b.reward.value, b.header, TotalGas(b.results));
      NewOnesSnoc(Digests(p, b.txs), past, d);
      assert Then(past, BlockDigests(p, b), b.header.height) == later.(done := later.done + {d}, height := b.header.height);
    } else {
      assert BlockDigests(p, b) == Digests(p, b.txs);
      HigherPast(p, e, later, mid, b.header.height);
      assert Then(past, BlockDigests(p, b), b.header.height) == later.(height := b.header.height);
    }
  }

  /** Blocks of growing height, each signed and each replaying on the store before it. */
  ghost predicate Replays(p: Protocol, bs: seq<Block>, s: Store, t: Store) {
    if bs == [] then s == t
    else
      var init, last := bs[..|bs| - 1], bs[|bs| - 1];
      && AllSigned(p, last.txs)
      && last.header.height > TopHeight(init)
      && exists u :: Replays(p, init, s, u) && Replay(p, last, u) == Result.Ok(t)
  }

  ghost function TopHeight(bs: seq<Block>): (h: nat) {
    if bs == [] then 0 else bs[|bs| - 1].header.height
  }

  function ChainDigests(p: Protocol, bs: seq<Block>): (ds: seq<Digest>) {
    if bs == [] then [] else ChainDigests(p, bs[..|bs| - 1]) + BlockDigests(p, bs[|bs| - 1])
  }

  lemma NewOnesConcat(xs: seq<Digest>, ys: seq<Digest>, past: Past, h: nat)
    requires NewOnes(xs, past) && NewOnes(ys, Then(past, xs, h))
    ensures NewOnes(xs + ys, past)
    ensures past.done + DigestSet(xs) + DigestSet(ys) == past.done + DigestSet(xs + ys)
  {
    assert DigestSet(xs + ys) == DigestSet(xs) + DigestSet(ys);
    forall i, j | 0 <= i < j < |xs + ys|
      ensures (xs + ys)[i] != (xs + ys)[j]
    {
      if i < |xs| <= j {
        assert xs[i] in DigestSet(xs) && ys[j - |xs|] in ys;
      }
    }
  }

  lemma {:induction false} ChainHistory(p: Protocol, e: Env, g: Store, bs: seq<Block>, t: Store)
    requires World(p, e, g)
    requires Replays(p, bs, g, t)
    ensures NewOnes(ChainDigests(p, bs), Past(g, {}, 0))
    ensures PastOk(p, e, Then(Past(g, {}, 0), ChainDigests(p, bs), TopHeight(bs)), t)
  {
    hide PastOk, NewOnes, DigestSet, Replay, BlockDigests, Collisionless, DerivesFresh, Honest, Runs, GenesisOk;
    var past := Past(g, {}, 0);
    if bs == [] {
      NothingNew(past, []);
      GenesisStarts(p, e, g);
    } else {
      var init, last := bs[..|bs| - 1], bs[|bs| - 1];
      var u :| Replays(p, init, g, u) && Replay(p, last, u) == Result.Ok(t);
      ChainHistory(p, e, g, init, u);
      var later := Then(past, ChainDigests(p, init), TopHeight(init));
      ReplayOnce(p, e, later, u, last);
      NewOnesConcat(ChainDigests(p, init), BlockDigests(p, last), past, TopHeight(init));
      assert Then(later, BlockDigests(p, last), last.header.height)
          == Then(past, ChainDigests(p, bs), TopHeight(bs));
    }
  }

  /** At most once: along any chain replayed from genesis, no digest takes effect twice, whether
      as a transaction or as a reward. */
  lemma TakesEffectOnce(p: Protocol, e: Env, g: Store, bs: seq<Block>, t: Store)
    requires World(p, e, g)
    requires Replays(p, bs, g, t)
    ensures NoDuplicates(ChainDigests(p, bs))
  {
    hide PastOk, World, Replays, ChainDigests;
    ChainHistory(p, e, g, bs, t);
  }

  /** What is done stays done: no later store lets a transaction of the chain execute again. */
  lemma NeverAgain(p: Protocol, e: Env, g: Store, bs: seq<Block>, t: Store, x: SignedTx, seed: Digest, time: nat)
    requires World(p, e, g)
    requires Replays(p, bs, g, t)
    requires p.txDigest(x.tx) in ChainDigests(p, bs)
    ensures p.execute(x.tx, t, seed, time).None?
  {
    hide PastOk, World, Replays, ChainDigests;
    ChainHistory(p, e, g, bs, t);
    var past := Then(Past(g, {}, 0), ChainDigests(p, bs), TopHeight(bs));
    if p.execute(x.tx, t, seed, time).Some? {
      ExecutesOnce(p, e, past, t, x, seed, time);
    }
  }
}
