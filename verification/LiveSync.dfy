/** The gossip service as its event loop runs it, updated in place. */
module LiveSync {
  import opened MeowTypes
  import opened Ledger
  import opened Chain
  import opened CatchUp
  import opened Node
  import opened LiveNode
  import opened Sync

  /** Put a block behind the ones that are not higher. */
  method Insert(sorted: seq<Block>, b: Block) returns (r: seq<Block>)
    requires SortedByHeight(sorted)
    ensures SortedByHeight(r) && multiset(r) == multiset(sorted) + multiset{b}
  {
    var i := |sorted|;
    while i > 0 && sorted[i - 1].header.height > b.header.height
      invariant 0 <= i <= |sorted|
      invariant forall j :: i <= j < |sorted| ==> sorted[j].header.height > b.header.height
    {
      i := i - 1;
    }
    Placed(sorted, b, i);
    r := sorted[..i] + [b] + sorted[i..];
  }

  /** What stands at place `x` after `b` was put at place `i`. */
  lemma At(sorted: seq<Block>, b: Block, i: nat, x: nat)
    requires i <= |sorted| && x <= |sorted|
    ensures (sorted[..i] + [b] + sorted[i..])[x] == if x < i then sorted[x] else if x == i then b else sorted[x - 1]
  {
  }

  lemma Placed(sorted: seq<Block>, b: Block, i: nat)
    requires SortedByHeight(sorted) && i <= |sorted|
    requires forall j :: i <= j < |sorted| ==> sorted[j].header.height > b.header.height
    requires i > 0 ==> sorted[i - 1].header.height <= b.header.height
    ensures SortedByHeight(sorted[..i] + [b] + sorted[i..])
    ensures multiset(sorted[..i] + [b] + sorted[i..]) == multiset(sorted) + multiset{b}
  {
    hide SortedByHeight;
    assert multiset(sorted) == multiset(sorted[..i]) + multiset(sorted[i..]) by {
      assert sorted == sorted[..i] + sorted[i..];
    }
    PlacedSorted(sorted, b, i, sorted[..i] + [b] + sorted[i..]);
  }

  lemma PlacedSorted(sorted: seq<Block>, b: Block, i: nat, r: seq<Block>)
    requires SortedByHeight(sorted) && i <= |sorted| && r == sorted[..i] + [b] + sorted[i..]
    requires forall j :: i <= j < |sorted| ==> sorted[j].header.height > b.header.height
    requires i > 0 ==> sorted[i - 1].header.height <= b.header.height
    ensures SortedByHeight(r)
  {
    forall x, y | 0 <= x < y < |r|
      ensures r[x].header.height <= r[y].header.height
    {
      At(sorted, b, i, x);
      At(sorted, b, i, y);
    }
  }

  method SortByHeight(bs: seq<Block>) returns (r: seq<Block>)
    ensures ByHeight(r, bs)
  {
    r := [];
    for i := 0 to |bs|
      invariant SortedByHeight(r) && multiset(r) == multiset(bs[..i])
    {
      assert bs[..i + 1] == bs[..i] + [bs[i]];
      r := Insert(r, bs[i]);
    }
    assert bs[..|bs|] == bs;
  }

  lemma DeliverNext(p: Protocol, cfg: Settings, sys: System, done: seq<Block>, b: Block, now: nat)
    requires HasHead(sys.node.chain)
    ensures Deliver(p, cfg, sys, done + [b], now).node == ArrivalStep(p, Deliver(p, cfg, sys, done, now).node, b, now)
  {
    hide ArrivalStep;
    var evs := Arrivals(done + [b], now);
    assert evs[..|evs| - 1] == Arrivals(done, now) && evs[|evs| - 1] == Arrival(b, now);
  }

  lemma FirstsNext(p: Protocol, bs: seq<Block>, i: nat, seen: set<Digest>)
    requires i < |bs|
    ensures Firsts(p, bs[i..], seen) ==
            if HashOf(p, bs[i]) in seen then Firsts(p, bs[i + 1..], seen)
            else [bs[i]] + Firsts(p, bs[i + 1..], seen + {HashOf(p, bs[i])})
  {
    assert bs[i..][0] == bs[i] && bs[i..][1..] == bs[i + 1..];
  }

  class GossipService {
    const miner: Miner
    var mode: Mode
    var pulling: bool
    var fetching: bool
    var peers: set<PeerId>

    constructor (miner: Miner)
      ensures this.miner == miner && mode == Working && !pulling && !fetching && peers == {}
    {
      this.miner, mode, pulling, fetching, peers := miner, Working, false, false, {};
    }

    /** The service and its miner are in state `s`. */
    ghost predicate In(s: Service)
      reads this, miner, miner.chain, miner.pool
    {
      && miner.Valid() && miner.Value() == s.sys.node && HasHead(s.sys.node.chain)
      && mode == s.mode && pulling == s.pulling && fetching == s.fetching && peers == s.peers
    }

    method KeepPeer(from: Option<PeerId>, ghost s: Service)
      requires In(s)
      modifies this
      ensures In(SyncStep(miner.p, miner.cfg, s, PeerInfo(from)))
    {
      if from.Some? { peers := peers + {from.value}; }
    }

    /** Offer the blocks whose hashes have not been offered, one after another. */
    method Offer(bs: seq<Block>, before: set<Digest>, now: nat, ghost sys: System) returns (seen: set<Digest>)
      requires miner.Valid() && miner.Value() == sys.node && HasHead(sys.node.chain)
      modifies miner.chain, miner.pool
      ensures miner.Valid() && miner.chain == old(miner.chain) && miner.pool == old(miner.pool)
      ensures miner.Value() == Deliver(miner.p, miner.cfg, sys, Firsts(miner.p, bs, before), now).node
      ensures seen == before + Hashes(miner.p, bs)
    {
      hide Firsts, Deliver, ArrivalStep, Hashes;
      seen := before;
      ghost var p, cfg := miner.p, miner.cfg;
      ghost var done: seq<Block> := [];
      assert bs[0..] == bs && done + Firsts(p, bs, before) == Firsts(p, bs, before);
      DeliverNothing(p, cfg, sys, now);
      assert bs[..0] == [] && Hashes(p, bs[..0]) == {} by { HashesNone(p); }
      for i := 0 to |bs|
        invariant miner.Valid() && miner.chain == old(miner.chain) && miner.pool == old(miner.pool)
        invariant miner.Value() == Deliver(p, cfg, sys, done, now).node
        invariant Firsts(p, bs, before) == done + Firsts(p, bs[i..], seen)
        invariant seen == before + Hashes(p, bs[..i])
      {
        FirstsNext(p, bs, i, seen);
        assert bs[..i + 1] == bs[..i] + [bs[i]];
        HashesConcat(p, bs[..i], [bs[i]]);
        HashesOne(p, bs[i]);
        var h := miner.p.headerHash(bs[i].header);
        if h !in seen {
          seen := seen + {h};
          DeliverNext(p, cfg, sys, done, bs[i], now);
          done := done + [bs[i]];
          var _ := miner.ReceiveBlock(bs[i], now);
        }
      }
      assert bs[|bs|..] == [] && bs[..|bs|] == bs;
      FirstsNone(p, seen);
      assert done + [] == done;
    }

    /** A pull completed: sort, offer what was pulled, then what was buffered. */
    method PullCompleted(pulled: seq<Block>, now: nat, ghost s: Service)
      returns (ghost order: seq<Block>, ghost buffered: seq<Block>)
      requires In(s)
      modifies this, miner.chain, miner.pool
      ensures ByHeight(order, pulled) && (s.mode.Syncing? ==> ByHeight(buffered, s.mode.buffer.blocks))
      ensures In(PulledStep(miner.p, miner.cfg, s, order, buffered, now))
    {
      hide Firsts, Deliver, Hashes, ByHeight;
      pulling := false;
      var sorted := SortByHeight(pulled);
      var seen := Offer(sorted, {}, now, s.sys);
      order := sorted;
      assert {} + Hashes(miner.p, order) == Hashes(miner.p, order);
      ghost var first := Deliver(miner.p, miner.cfg, s.sys, Firsts(miner.p, order, {}), now);
      buffered := [];
      if mode.Syncing? {
        var rest := SortByHeight(mode.buffer.blocks);
        buffered := rest;
        seen := Offer(rest, seen, now, first);
      }
      mode := Working;
    }

    /** A snapshot arrived, or the fetch failed. */
    method FetchCompleted(snapshot: Option<(Block, seq<Object>)>, now: nat, ghost s: Service)
      returns (ghost buffered: seq<Block>)
      requires In(s)
      modifies this, miner, miner.chain, miner.pool
      ensures s.mode.StateSyncing? ==> ByHeight(buffered, s.mode.buffer.blocks)
      ensures In(FetchedStep(miner.p, miner.cfg, s, snapshot, buffered, now))
    {
      hide Firsts, Deliver, ByHeight, RestoreStep, RestoreAllowed, Run;
      fetching := false;
      var rest := SortByHeight(Waiting(mode));
      buffered := rest;
      if snapshot.Some? {
        ghost var restored := Run(miner.p, miner.cfg, s.sys, [Restore(snapshot.value.0, snapshot.value.1, now)]);
        assert restored.node == RestoreStep(miner.p, s.sys.node, snapshot.value.0, snapshot.value.1, now) by {
          RunOne(miner.p, miner.cfg, s.sys, Restore(snapshot.value.0, snapshot.value.1, now));
        }
        var e := miner.ReplaceFromSnapshot(snapshot.value.0, snapshot.value.1, now);
        if e.None? && mode.StateSyncing? {
          var _ := Offer(rest, {}, now, restored);
        }
      }
      mode := Working;
    }

    /** A block came by gossip: buffer it during a sync, and otherwise apply it or start one. */
    method BlockGossiped(b: Block, now: nat, ghost s: Service)
      requires In(s)
      modifies this, miner.chain, miner.pool
      ensures In(GossipStep(miner.p, miner.cfg, s, b, [], now))
    {
      hide Deliver, ArrivalStep, Judge, Noted, HashOf, Run;
      var p := miner.p;
      var hash := HashOf(p, b);
      RunNothing(miner.p, miner.cfg, s.sys);
      if !mode.Working? {
        var q := if |mode.buffer.blocks| >= MAX_BUFFERED_SYNC_BLOCKS || hash in mode.buffer.hashes then mode.buffer
                 else Buffer(mode.buffer.blocks + [b], mode.buffer.hashes + {hash});
        assert q == Noted(p, mode.buffer, b) by { NotedIs(p, mode.buffer, b); }
        mode := if mode.Syncing? then Syncing(q) else StateSyncing(q);
        return;
      }
      var height := miner.chain.blocks[miner.chain.head].header.height;
      if b.header.height > height + miner.chain.depth {
        mode := StateSyncing(Buffer([b], {hash}));
        if peers != {} { fetching := true; }
        return;
      }
      var needSync := b.header.height > height + 1;
      if !needSync {
        DeliverNothing(miner.p, miner.cfg, s.sys, now);
        DeliverNext(miner.p, miner.cfg, s.sys, [], b, now);
        assert [] + [b] == [b];
        var r := miner.ReceiveBlock(b, now);
        needSync := b.header.height > height && r.Err?;
      }
      if needSync {
        mode := Syncing(Buffer([b], {hash}));
        if peers != {} { pulling := true; }
      }
    }
  }

  lemma NotedIs(p: Protocol, q: Buffer, b: Block)
    ensures Noted(p, q, b) ==
            if |q.blocks| >= MAX_BUFFERED_SYNC_BLOCKS || HashOf(p, b) in q.hashes then q
            else Buffer(q.blocks + [b], q.hashes + {HashOf(p, b)})
  {
  }

  lemma RunOne(p: Protocol, cfg: Settings, sys: System, ev: Event)
    requires HasHead(sys.node.chain)
    ensures Run(p, cfg, sys, [ev]) == Step(p, cfg, sys, ev)
  {
    hide Step;
    assert [ev][..0] == [];
    RunNothing(p, cfg, sys);
  }

  lemma FirstsNone(p: Protocol, seen: set<Digest>)
    ensures Firsts(p, [], seen) == []
  {
  }

  lemma HashesNone(p: Protocol)
    ensures Hashes(p, []) == {}
  {
  }

  lemma DeliverNothing(p: Protocol, cfg: Settings, sys: System, now: nat)
    requires HasHead(sys.node.chain)
    ensures Deliver(p, cfg, sys, [], now) == sys
  {
    assert Arrivals([], now) == [];
  }
}
