/** The gossip service's synchronisation: when it buffers blocks, when it pulls them from a peer,
    when it fetches a snapshot, and what it then offers to the chain. */
module Sync {
  import opened MeowTypes
  import opened Ledger
  import opened Chain
  import opened Node
  import opened CatchUp
  import opened Pool

  const MAX_BUFFERED_SYNC_BLOCKS: nat := 100_000

  type PeerId = nat

  datatype Buffer = Buffer(blocks: seq<Block>, hashes: set<Digest>)

  datatype Mode = Working | Syncing(buffer: Buffer) | StateSyncing(buffer: Buffer)

  /** The service with the node it drives. `pulling` and `fetching` say whether the future of a
      block pull or of a snapshot fetch is running. */
  datatype Service = Service(mode: Mode, pulling: bool, fetching: bool, peers: set<PeerId>, sys: System)

  /** What the event loop reacts to. A gossiped block finds that the miner may have taken steps
      of its own after the heights were read; lists of blocks come in some order of height. */
  datatype Happening =
    | Local(ev: Event)
    | PeerInfo(from: Option<PeerId>)
    | Gossiped(b: Block, between: seq<Event>, now: nat)
    | Pulled(pulled: seq<Block>, buffered: seq<Block>, now: nat)
    | Fetched(snapshot: Option<(Block, seq<Object>)>, buffered: seq<Block>, now: nat)

  // ---------------------------------------------------------------------- steps

  function HashOf(p: Protocol, b: Block): (h: Digest) {
    p.headerHash(b.header)
  }

  function Hashes(p: Protocol, bs: seq<Block>): (r: set<Digest>) {
    set i | 0 <= i < |bs| :: HashOf(p, bs[i])
  }

  function Alone(p: Protocol, b: Block): (r: Buffer) {
    Buffer([b], {HashOf(p, b)})
  }

  /** A block that arrives during a sync is kept, unless the buffer is full or has it. */
  function Noted(p: Protocol, q: Buffer, b: Block): (r: Buffer) {
    if |q.blocks| >= MAX_BUFFERED_SYNC_BLOCKS || HashOf(p, b) in q.hashes then q
    else Buffer(q.blocks + [b], q.hashes + {HashOf(p, b)})
  }

  function Arrivals(bs: seq<Block>, now: nat): (evs: seq<Event>) {
    seq(|bs|, i requires 0 <= i < |bs| => Arrival(bs[i], now))
  }

  function Deliver(p: Protocol, cfg: Settings, sys: System, bs: seq<Block>, now: nat): (r: System)
    requires HasHead(sys.node.chain)
    ensures HasHead(r.node.chain)
  {
    Run(p, cfg, sys, Arrivals(bs, now))
  }

  function GossipStep(p: Protocol, cfg: Settings, s: Service, b: Block, between: seq<Event>, now: nat): (r: Service)
    requires HasHead(s.sys.node.chain)
    ensures HasHead(r.sys.node.chain)
  {
    var later := Run(p, cfg, s.sys, between);
    match s.mode
    case Syncing(q) => s.(mode := Syncing(Noted(p, q, b)), sys := later)
    case StateSyncing(q) => s.(mode := StateSyncing(Noted(p, q, b)), sys := later)
    case Working =>
      var height := HeadHeight(s.sys.node.chain);
      if b.header.height > height + s.sys.node.chain.depth then
        s.(mode := StateSyncing(Alone(p, b)), fetching := s.fetching || s.peers != {}, sys := later)
      else if b.header.height > height + 1 then
        s.(mode := Syncing(Alone(p, b)), pulling := s.pulling || s.peers != {}, sys := later)
      else
        var after := Deliver(p, cfg, later, [b], now);
        if b.header.height > height && Judge(p, later.node.chain, b, now).Err? then
          s.(mode := Syncing(Alone(p, b)), pulling := s.pulling || s.peers != {}, sys := after)
        else s.(sys := after)
  }

  /** Pulled blocks first, then what was buffered meanwhile; no hash twice. */
  function PulledStep(p: Protocol, cfg: Settings, s: Service, pulled: seq<Block>, buffered: seq<Block>, now: nat)
    : (r: Service)
    requires HasHead(s.sys.node.chain)
    ensures HasHead(r.sys.node.chain)
  {
    var first := Deliver(p, cfg, s.sys, Firsts(p, pulled, {}), now);
    var all := if s.mode.Syncing? then Deliver(p, cfg, first, Firsts(p, buffered, Hashes(p, pulled)), now) else first;
    s.(mode := Working, pulling := false, sys := all)
  }

  function FetchedStep(
    p: Protocol, cfg: Settings, s: Service, snapshot: Option<(Block, seq<Object>)>, buffered: seq<Block>, now: nat)
    : (r: Service)
    requires HasHead(s.sys.node.chain)
    ensures HasHead(r.sys.node.chain)
  {
    var sys :=
      if snapshot.None? then s.sys
      else
        var restored := Run(p, cfg, s.sys, [Restore(snapshot.value.0, snapshot.value.1, now)]);
        if s.mode.StateSyncing? && RestoreAllowed(p, s.sys.node, snapshot.value.0, snapshot.value.1, now) then
          Deliver(p, cfg, restored, Firsts(p, buffered, {}), now)
        else restored;
    s.(mode := Working, fetching := false, sys := sys)
  }

  function SyncStep(p: Protocol, cfg: Settings, s: Service, h: Happening): (r: Service)
    requires HasHead(s.sys.node.chain)
    ensures HasHead(r.sys.node.chain)
  {
    match h
    case Local(ev) => s.(sys := Run(p, cfg, s.sys, [ev]))
    case PeerInfo(from) => if from.Some? then s.(peers := s.peers + {from.value}) else s
    case Gossiped(b, between, now) => GossipStep(p, cfg, s, b, between, now)
    case Pulled(pulled, buffered, now) => PulledStep(p, cfg, s, pulled, buffered, now)
    case Fetched(snapshot, buffered, now) => FetchedStep(p, cfg, s, snapshot, buffered, now)
  }

  /** Some order of the blocks by height. */
  ghost predicate ByHeight(order: seq<Block>, bs: seq<Block>) {
    SortedByHeight(order) && multiset(order) == multiset(bs)
  }

  function Waiting(m: Mode): (bs: seq<Block>) {
    if m.Working? then [] else m.buffer.blocks
  }

  /** A future completes only while it runs, and what it hands over is ordered first. */
  ghost predicate Enabled(s: Service, h: Happening) {
    && (h.Pulled? ==> s.pulling && SortedByHeight(h.pulled) && ByHeight(h.buffered, Waiting(s.mode)))
    && (h.Fetched? ==> s.fetching && ByHeight(h.buffered, Waiting(s.mode)))
  }

  function SyncRun(p: Protocol, cfg: Settings, s: Service, hs: seq<Happening>): (r: Service)
    requires HasHead(s.sys.node.chain)
    ensures HasHead(r.sys.node.chain)
  {
    if hs == [] then s else SyncStep(p, cfg, SyncRun(p, cfg, s, hs[..|hs| - 1]), hs[|hs| - 1])
  }

  ghost predicate EnabledAll(p: Protocol, cfg: Settings, s: Service, hs: seq<Happening>)
    requires HasHead(s.sys.node.chain)
  {
    hs != [] ==>
      EnabledAll(p, cfg, s, hs[..|hs| - 1]) && Enabled(SyncRun(p, cfg, s, hs[..|hs| - 1]), hs[|hs| - 1])
  }

  // ------------------------------------------------------------------ invariant

  ghost predicate BufferOk(p: Protocol, q: Buffer) {
    && 0 < |q.blocks| <= MAX_BUFFERED_SYNC_BLOCKS
    && q.hashes == Hashes(p, q.blocks)
    && Apart(p, q.blocks)
  }

  /** No two blocks share a hash. */
  ghost predicate Apart(p: Protocol, bs: seq<Block>) {
    forall i, j :: 0 <= i < j < |bs| ==> HashOf(p, bs[i]) != HashOf(p, bs[j])
  }

  ghost predicate ServiceOk(p: Protocol, s: Service) {
    && (s.pulling ==> s.mode.Syncing?)
    && (s.fetching ==> s.mode.StateSyncing?)
    && (!s.mode.Working? ==> BufferOk(p, s.mode.buffer))
  }

  lemma NotedKeeps(p: Protocol, q: Buffer, b: Block)
    requires BufferOk(p, q)
    ensures BufferOk(p, Noted(p, q, b))
  {
    var r := Noted(p, q, b);
    if r != q {
      HashesConcat(p, q.blocks, [b]);
      HashesOne(p, b);
      forall i | 0 <= i < |q.blocks| ensures HashOf(p, q.blocks[i]) != HashOf(p, b) {
        assert HashOf(p, q.blocks[i]) in Hashes(p, q.blocks);
      }
    }
  }

  lemma HashesOne(p: Protocol, b: Block)
    ensures Hashes(p, [b]) == {HashOf(p, b)}
  {
    assert [b][0] == b;
  }

  lemma HashesConcat(p: Protocol, a: seq<Block>, b: seq<Block>)
    ensures Hashes(p, a + b) == Hashes(p, a) + Hashes(p, b)
  {
    forall h ensures h in Hashes(p, a + b) <==> h in Hashes(p, a) + Hashes(p, b) {
      if h in Hashes(p, a) { var i :| 0 <= i < |a| && HashOf(p, a[i]) == h; assert (a + b)[i] == a[i]; }
      if h in Hashes(p, b) { var i :| 0 <= i < |b| && HashOf(p, b[i]) == h; assert (a + b)[|a| + i] == b[i]; }
    }
  }

  lemma ServiceStepKeeps(p: Protocol, cfg: Settings, s: Service, h: Happening)
    requires HasHead(s.sys.node.chain) && ServiceOk(p, s) && Enabled(s, h)
    ensures ServiceOk(p, SyncStep(p, cfg, s, h))
  {
    hide Run, Deliver, Firsts, Noted, ByHeight;
    if h.Gossiped? {
      HashesOne(p, h.b);
      assert BufferOk(p, Alone(p, h.b));
      if !s.mode.Working? { NotedKeeps(p, s.mode.buffer, h.b); }
    }
  }

  /** Over every run: a pull runs only while syncing blocks and a fetch only while syncing state,
      and a buffer is within its cap, without repetition, and indexed by exactly its hashes. */
  lemma {:induction false} ServiceReachesOk(p: Protocol, cfg: Settings, s: Service, hs: seq<Happening>)
    requires HasHead(s.sys.node.chain) && ServiceOk(p, s) && EnabledAll(p, cfg, s, hs)
    ensures ServiceOk(p, SyncRun(p, cfg, s, hs))
  {
    hide SyncStep, ServiceOk, Enabled;
    if hs != [] {
      ServiceReachesOk(p, cfg, s, hs[..|hs| - 1]);
      ServiceStepKeeps(p, cfg, SyncRun(p, cfg, s, hs[..|hs| - 1]), hs[|hs| - 1]);
    }
  }

  /** So a pull never completes outside a block sync, and no running future is ever replaced. */
  lemma NoStrayCompletion(p: Protocol, cfg: Settings, s: Service, hs: seq<Happening>)
    requires HasHead(s.sys.node.chain) && s.mode.Working? && !s.pulling && !s.fetching
    requires EnabledAll(p, cfg, s, hs)
    ensures var t := SyncRun(p, cfg, s, hs);
            && (forall h :: Enabled(t, h) && h.Pulled? ==> t.mode.Syncing?)
            && (forall h :: Enabled(t, h) && h.Fetched? ==> t.mode.StateSyncing?)
            && !(t.pulling && t.fetching)
            && (t.mode.Working? ==> !t.pulling && !t.fetching)
  {
    hide SyncRun, SyncStep;
    ServiceReachesOk(p, cfg, s, hs);
  }

  // ------------------------------------------------------- the node under the service

  lemma {:induction false} RunConcat(p: Protocol, cfg: Settings, sys: System, a: seq<Event>, b: seq<Event>)
    requires HasHead(sys.node.chain)
    ensures Run(p, cfg, sys, a + b) == Run(p, cfg, Run(p, cfg, sys, a), b)
  {
    hide Step;
    if b == [] {
      assert a + b == a;
    } else {
      assert (a + b)[..|a + b| - 1] == a + b[..|b| - 1];
      RunConcat(p, cfg, sys, a, b[..|b| - 1]);
    }
  }

  /** The node's own events behind one happening. */
  ghost function Traced(p: Protocol, cfg: Settings, s: Service, h: Happening): (evs: seq<Event>)
    requires HasHead(s.sys.node.chain)
  {
    match h
    case Local(ev) => [ev]
    case PeerInfo(_) => []
    case Gossiped(b, between, now) =>
      if s.mode.Working? && b.header.height <= HeadHeight(s.sys.node.chain) + s.sys.node.chain.depth
         && b.header.height <= HeadHeight(s.sys.node.chain) + 1
      then between + Arrivals([b], now)
      else between
    case Pulled(pulled, buffered, now) =>
      Arrivals(Firsts(p, pulled, {}), now) +
      (if s.mode.Syncing? then Arrivals(Firsts(p, buffered, Hashes(p, pulled)), now) else [])
    case Fetched(snapshot, buffered, now) =>
      if snapshot.None? then []
      else
        var taken := s.mode.StateSyncing? && RestoreAllowed(p, s.sys.node, snapshot.value.0, snapshot.value.1, now);
        [Restore(snapshot.value.0, snapshot.value.1, now)] +
        (if taken then Arrivals(Firsts(p, buffered, {}), now) else [])
  }

  lemma StepIsTraced(p: Protocol, cfg: Settings, s: Service, h: Happening)
    requires HasHead(s.sys.node.chain)
    ensures SyncStep(p, cfg, s, h).sys == Run(p, cfg, s.sys, Traced(p, cfg, s, h))
  {
    hide Run, Firsts, Noted, RestoreAllowed, Judge, Arrivals;
    match h
    case Local(_) =>
    case PeerInfo(_) => RunNothing(p, cfg, s.sys);
    case Gossiped(b, between, now) => RunConcat(p, cfg, s.sys, between, Arrivals([b], now));
    case Pulled(pulled, buffered, now) =>
      var first := Arrivals(Firsts(p, pulled, {}), now);
      RunConcat(p, cfg, s.sys, first, Arrivals(Firsts(p, buffered, Hashes(p, pulled)), now));
      assert first + [] == first;
    case Fetched(snapshot, buffered, now) =>
      RunNothing(p, cfg, s.sys);
      if snapshot.Some? {
        var first := [Restore(snapshot.value.0, snapshot.value.1, now)];
        RunConcat(p, cfg, s.sys, first, Arrivals(Firsts(p, buffered, {}), now));
        assert first + [] == first;
      }
  }

  lemma RunNothing(p: Protocol, cfg: Settings, sys: System)
    requires HasHead(sys.node.chain)
    ensures Run(p, cfg, sys, []) == sys
  {
  }

  ghost function TracedAll(p: Protocol, cfg: Settings, s: Service, hs: seq<Happening>): (evs: seq<Event>)
    requires HasHead(s.sys.node.chain)
  {
    if hs == [] then []
    else TracedAll(p, cfg, s, hs[..|hs| - 1]) +
         Traced(p, cfg, SyncRun(p, cfg, s, hs[..|hs| - 1]), hs[|hs| - 1])
  }

  /** Every run of the service is a run of the node it drives. */
  lemma {:induction false} ServiceRunsNode(p: Protocol, cfg: Settings, s: Service, hs: seq<Happening>)
    requires HasHead(s.sys.node.chain)
    ensures SyncRun(p, cfg, s, hs).sys == Run(p, cfg, s.sys, TracedAll(p, cfg, s, hs))
  {
    hide SyncStep, Traced, Run;
    if hs == [] {
      RunNothing(p, cfg, s.sys);
    } else {
      var init := hs[..|hs| - 1];
      ServiceRunsNode(p, cfg, s, init);
      var before := SyncRun(p, cfg, s, init);
      StepIsTraced(p, cfg, before, hs[|hs| - 1]);
      RunConcat(p, cfg, s.sys, TracedAll(p, cfg, s, init), Traced(p, cfg, before, hs[|hs| - 1]));
    }
  }

  /** So syncing, in every interleaving with mining, keeps the node's invariant and never lowers
      its head. */
  lemma SyncKeepsNode(p: Protocol, cfg: Settings, s: Service, hs: seq<Happening>)
    requires Collisionless(p) && Configured(p, cfg) && SystemOk(p, cfg, s.sys)
    ensures HasHead(s.sys.node.chain)
    ensures SystemOk(p, cfg, SyncRun(p, cfg, s, hs).sys)
    ensures HeadHeight(s.sys.node.chain) <= HeadHeight(SyncRun(p, cfg, s, hs).sys.node.chain)
  {
    hide Collisionless, Configured, SystemOk, SyncRun, Run, TracedAll;
    OkHasHead(p, cfg, s.sys);
    var evs := TracedAll(p, cfg, s, hs);
    ServiceRunsNode(p, cfg, s, hs);
    ReachableOk(p, cfg, s.sys, evs);
    HeadClimbs(p, cfg, s.sys, evs, 0);
    assert evs[..0] == [];
    RunNothing(p, cfg, s.sys);
  }

  // -------------------------------------------------------------- each block once

  lemma {:induction false} FirstsExact(p: Protocol, bs: seq<Block>, seen: set<Digest>)
    ensures Apart(p, Firsts(p, bs, seen))
    ensures Hashes(p, Firsts(p, bs, seen)) == Hashes(p, bs) - seen
  {
    if bs != [] {
      var h, rest := HashOf(p, bs[0]), bs[1..];
      assert bs == [bs[0]] + rest;
      HashesConcat(p, [bs[0]], rest);
      HashesOne(p, bs[0]);
      if h in seen {
        FirstsExact(p, rest, seen);
      } else {
        FirstsExact(p, rest, seen + {h});
        var more := Firsts(p, rest, seen + {h});
        HashesConcat(p, [bs[0]], more);
        forall i | 0 <= i < |more| ensures HashOf(p, more[i]) != h { assert more[i] in more; }
      }
    }
  }

  lemma {:induction false} FirstsConcat(p: Protocol, a: seq<Block>, b: seq<Block>, seen: set<Digest>)
    ensures Firsts(p, a + b, seen) == Firsts(p, a, seen) + Firsts(p, b, seen + Hashes(p, a))
  {
    if a == [] {
      assert a + b == b && seen + Hashes(p, a) == seen;
    } else {
      var h, rest := HashOf(p, a[0]), a[1..];
      assert (a + b)[0] == a[0] && (a + b)[1..] == rest + b && a == [a[0]] + rest;
      HashesConcat(p, [a[0]], rest);
      HashesOne(p, a[0]);
      if h in seen {
        assert seen + Hashes(p, a) == seen + Hashes(p, rest);
        FirstsConcat(p, rest, b, seen);
      } else {
        assert seen + Hashes(p, a) == seen + {h} + Hashes(p, rest);
        FirstsConcat(p, rest, b, seen + {h});
      }
    }
  }

  lemma HashesOrdered(p: Protocol, order: seq<Block>, bs: seq<Block>)
    requires ByHeight(order, bs)
    ensures Hashes(p, order) == Hashes(p, bs)
  {
    hide SortedByHeight;
    forall i | 0 <= i < |bs| ensures HashOf(p, bs[i]) in Hashes(p, order) {
      assert bs[i] in multiset(bs);
      assert bs[i] in order;
    }
    forall i | 0 <= i < |order| ensures HashOf(p, order[i]) in Hashes(p, bs) {
      assert order[i] in multiset(order);
      assert order[i] in bs;
    }
  }

  lemma {:induction false} DeliverChain(p: Protocol, cfg: Settings, sys: System, bs: seq<Block>, now: nat)
    requires HasHead(sys.node.chain)
    ensures Deliver(p, cfg, sys, bs, now).node.chain == ApplyAll(p, sys.node.chain, bs, now)
  {
    hide ApplyBlock, Judge, RetainValid;
    if bs == [] {
    } else {
      var init := bs[..|bs| - 1];
      DeliverChain(p, cfg, sys, init, now);
      var evs := Arrivals(bs, now);
      assert evs[..|evs| - 1] == Arrivals(init, now);
      assert evs[|evs| - 1] == Arrival(bs[|bs| - 1], now);
    }
  }

  /** A completed pull offers the chain one block for each hash pulled or buffered, and no other. */
  lemma PullOffersOnce(p: Protocol, cfg: Settings, s: Service, h: Happening)
    requires HasHead(s.sys.node.chain) && ServiceOk(p, s) && h.Pulled? && Enabled(s, h)
    ensures var offered := Firsts(p, h.pulled + h.buffered, {});
            && SyncStep(p, cfg, s, h).sys.node.chain == ApplyAll(p, s.sys.node.chain, offered, h.now)
            && Apart(p, offered)
            && Hashes(p, offered) == Hashes(p, h.pulled) + Hashes(p, s.mode.buffer.blocks)
  {
    hide Run, Firsts, ApplyAll, Deliver, Hashes, Arrivals, Apart;
    var a, b := Firsts(p, h.pulled, {}), Firsts(p, h.buffered, Hashes(p, h.pulled));
    FirstsConcat(p, h.pulled, h.buffered, {});
    assert {} + Hashes(p, h.pulled) == Hashes(p, h.pulled);
    FirstsExact(p, h.pulled + h.buffered, {});
    HashesConcat(p, h.pulled, h.buffered);
    HashesOrdered(p, h.buffered, s.mode.buffer.blocks);
    var first := Deliver(p, cfg, s.sys, a, h.now);
    DeliverChain(p, cfg, s.sys, a, h.now);
    DeliverChain(p, cfg, first, b, h.now);
    ApplyAllSplit(p, s.sys.node.chain, a, b, h.now);
  }

  lemma {:induction false} FirstsSorted(p: Protocol, bs: seq<Block>, seen: set<Digest>)
    requires SortedByHeight(bs)
    ensures SortedByHeight(Firsts(p, bs, seen))
  {
    if bs != [] {
      var h, rest := HashOf(p, bs[0]), bs[1..];
      if h in seen {
        FirstsSorted(p, rest, seen);
      } else {
        FirstsSorted(p, rest, seen + {h});
        var more := Firsts(p, rest, seen + {h});
        forall i | 0 <= i < |more| ensures bs[0].header.height <= more[i].header.height {
          assert more[i] in rest;
          var j :| 0 <= j < |rest| && rest[j] == more[i];
          assert bs[j + 1] == more[i];
        }
      }
    }
  }

  /** The chain after a pull, in its two parts. */
  lemma PullInParts(p: Protocol, cfg: Settings, s: Service, h: Happening)
    requires HasHead(s.sys.node.chain) && ServiceOk(p, s) && h.Pulled? && Enabled(s, h)
    ensures var a, b := Firsts(p, h.pulled, {}), Firsts(p, h.buffered, Hashes(p, h.pulled));
            && SortedByHeight(a) && SortedByHeight(b)
            && SyncStep(p, cfg, s, h).sys.node.chain == ApplyAll(p, ApplyAll(p, s.sys.node.chain, a, h.now), b, h.now)
  {
    hide ApplyAll, Firsts, Deliver, Hashes, SyncStep, SortedByHeight, ServiceOk;
    var a, b := Firsts(p, h.pulled, {}), Firsts(p, h.buffered, Hashes(p, h.pulled));
    FirstsSorted(p, h.pulled, {});
    FirstsSorted(p, h.buffered, Hashes(p, h.pulled));
    PullOffersOnce(p, cfg, s, h);
    FirstsConcat(p, h.pulled, h.buffered, {});
    assert {} + Hashes(p, h.pulled) == Hashes(p, h.pulled);
    ApplyAllSplit(p, s.sys.node.chain, a, b, h.now);
  }

  /** Some block of the list joins the chain and has this height. */
  ghost predicate JoinsWith(p: Protocol, c: ChainValue, bs: seq<Block>, now: nat, height: nat) {
    exists k :: 0 <= k < |bs| && JoinedTo(p, c, bs, now, k) && bs[k].header.height == height
  }

  /** After a pull the head height is exactly the maximum of the old head, the pulled blocks that
      join the chain, and the buffered ones that join what the pulled ones made of it. */
  lemma PullCatchesUp(p: Protocol, cfg: Settings, s: Service, h: Happening)
    requires Collisionless(p) && Faithful(p, s.sys.node.chain, s.sys.anchor) && HasHead(s.sys.node.chain)
    requires s.sys.node.chain.depth >= 1
    requires ServiceOk(p, s) && h.Pulled? && Enabled(s, h)
    ensures var a, b := Firsts(p, h.pulled, {}), Firsts(p, h.buffered, Hashes(p, h.pulled));
            var c := s.sys.node.chain;
            var mid := ApplyAll(p, c, a, h.now);
            var top := HeadHeight(SyncStep(p, cfg, s, h).sys.node.chain);
            && HeadHeight(c) <= top
            && (forall k :: 0 <= k < |a| && JoinedTo(p, c, a, h.now, k) ==> a[k].header.height <= top)
            && (forall k :: 0 <= k < |b| && JoinedTo(p, mid, b, h.now, k) ==> b[k].header.height <= top)
            && (top == HeadHeight(c) || JoinsWith(p, c, a, h.now, top) || JoinsWith(p, mid, b, h.now, top))
  {
    hide Collisionless, Faithful, ApplyAll, Firsts, Hashes, JoinedTo, SyncStep, SortedByHeight, ServiceOk;
    var a, b := Firsts(p, h.pulled, {}), Firsts(p, h.buffered, Hashes(p, h.pulled));
    var c := s.sys.node.chain;
    PullInParts(p, cfg, s, h);
    ApplyAllKeeps(p, c, s.sys.anchor, a, h.now);
    FinalHeight(p, c, s.sys.anchor, a, h.now);
    FinalHeight(p, ApplyAll(p, c, a, h.now), s.sys.anchor, b, h.now);
  }

  /** No hash stands for two blocks of the list. */
  ghost predicate OnePerHash(p: Protocol, bs: seq<Block>) {
    forall i, j :: 0 <= i < |bs| && 0 <= j < |bs| && HashOf(p, bs[i]) == HashOf(p, bs[j]) ==> bs[i] == bs[j]
  }

  lemma {:induction false} FirstsKeepAll(p: Protocol, bs: seq<Block>, seen: set<Digest>, b: Block)
    requires OnePerHash(p, bs) && b in bs && HashOf(p, b) !in seen
    ensures b in Firsts(p, bs, seen)
  {
    var h, rest := HashOf(p, bs[0]), bs[1..];
    assert bs == [bs[0]] + rest;
    if b != bs[0] {
      var k :| 0 <= k < |bs| && bs[k] == b;
      assert HashOf(p, bs[k]) != HashOf(p, bs[0]);
      FirstsKeepAll(p, rest, if h in seen then seen else seen + {h}, b);
    }
  }

  /** The blocks that a node whose chain is `peer` answers a pull with. */
  ghost predicate PulledFrom(p: Protocol, peer: ChainValue, bs: seq<Block>, from: nat) {
    forall b :: b in bs <==> exists h :: h in peer.blocks && peer.blocks[h] == b && b.header.height >= from
  }

  lemma PeerListed(p: Protocol, d: ChainValue, anchor: Digest, bs: seq<Block>, from: nat)
    requires Faithful(p, d, anchor) && PulledFrom(p, d, bs, from)
    ensures Answers(Firsts(p, bs, {}), d, from)
  {
    hide Linked, RootsLowest, Descends, Sealed, Firsts;
    forall i, j | 0 <= i < |bs| && 0 <= j < |bs| && HashOf(p, bs[i]) == HashOf(p, bs[j])
      ensures bs[i] == bs[j]
    {
      assert bs[i] in bs && bs[j] in bs;
    }
    forall h | h in d.blocks && d.blocks[h].header.height >= from
      ensures d.blocks[h] in Firsts(p, bs, {})
    {
      assert d.blocks[h] in bs;
      FirstsKeepAll(p, bs, {}, d.blocks[h]);
    }
  }

  /** Two nodes: a pull from a peer whose chain passes through a block kept here leaves the head
      at least as high as the peer's. */
  lemma PullReachesPeer(p: Protocol, cfg: Settings, s: Service, h: Happening, d: ChainValue, anchor: Digest, path: seq<Digest>)
    requires Collisionless(p) && Faithful(p, s.sys.node.chain, s.sys.anchor) && HasHead(s.sys.node.chain)
    requires Faithful(p, d, anchor) && s.sys.node.chain.difficulty == d.difficulty && s.sys.node.chain.depth >= 1
    requires ServiceOk(p, s) && h.Pulled? && Enabled(s, h) && PulledFrom(p, d, h.pulled, SyncFrom(s.sys.node.chain))
    requires Path(d, path) && path[|path| - 1] == d.head && AllPresentable(p, d, path, h.now)
    requires path[0] in s.sys.node.chain.blocks
    requires s.sys.node.chain.blocks[path[0]].header.height == 0 ==>
               s.sys.node.chain.snapshots[path[0]] == d.snapshots[path[0]]
    ensures HasHead(d) && HeadHeight(d) <= HeadHeight(SyncStep(p, cfg, s, h).sys.node.chain)
  {
    hide Collisionless, Faithful, ApplyAll, Firsts, Hashes, SyncStep, SortedByHeight, ServiceOk, AllPresentable, Answers;
    hide PulledFrom;
    var a, b := Firsts(p, h.pulled, {}), Firsts(p, h.buffered, Hashes(p, h.pulled));
    var c := s.sys.node.chain;
    PullInParts(p, cfg, s, h);
    PeerListed(p, d, anchor, h.pulled, SyncFrom(c));
    PeerReached(p, c, s.sys.anchor, d, anchor, a, h.now, path);
    ApplyAllKeeps(p, c, s.sys.anchor, a, h.now);
    HeadNeverLower(p, ApplyAll(p, c, a, h.now), s.sys.anchor, b, h.now);
  }

  // ------------------------------------------------------------------- stranding

  /** A sync that nothing is running for. */
  predicate Stranded(s: Service) {
    !s.mode.Working? && !s.pulling && !s.fetching
  }

  /** A service is stranded exactly by needing a sync when it knows no peer. */
  lemma StrandedExactly(p: Protocol, cfg: Settings, s: Service, h: Happening)
    requires HasHead(s.sys.node.chain) && ServiceOk(p, s) && Enabled(s, h) && !Stranded(s)
    ensures Stranded(SyncStep(p, cfg, s, h)) <==>
            (h.Gossiped? && s.mode.Working? && s.peers == {} && NeedsSync(p, cfg, s, h.b, h.between, h.now))
  {
    hide Run, Deliver, Firsts, Noted, ByHeight, Judge;
  }

  /** The service as it starts, on a chain at genesis. */
  function StartService(p: Protocol, store: Store, difficulty: nat, depth: nat): (s: Service) {
    Service(Working, false, false, {},
            System(NodeValue(NewChain(p, store, difficulty, depth), EMPTY), [], p.headerHash(GENESIS.header)))
  }

  /** It can happen to the very first block: one two or more above genesis, before any peer is
      known, strands the service for good. */
  lemma StrandedAtStart(
    p: Protocol, cfg: Settings, store: Store, difficulty: nat, depth: nat, b: Block, now: nat, hs: seq<Happening>)
    requires b.header.height >= 2
    ensures var s := StartService(p, store, difficulty, depth);
            && HasHead(s.sys.node.chain) && ServiceOk(p, s) && Enabled(s, Gossiped(b, [], now))
            && var t := SyncStep(p, cfg, s, Gossiped(b, [], now));
               Stranded(t) && (EnabledAll(p, cfg, t, hs) ==> Stranded(SyncRun(p, cfg, t, hs)))
  {
    hide Judge, SyncRun, EnabledAll;
    var s := StartService(p, store, difficulty, depth);
    var t := SyncStep(p, cfg, s, Gossiped(b, [], now));
    RunNothing(p, cfg, s.sys);
    if EnabledAll(p, cfg, t, hs) { StrandedStays(p, cfg, t, hs); }
  }

  predicate NeedsSync(p: Protocol, cfg: Settings, s: Service, b: Block, between: seq<Event>, now: nat)
    requires HasHead(s.sys.node.chain)
  {
    var height := HeadHeight(s.sys.node.chain);
    || b.header.height > height + s.sys.node.chain.depth
    || b.header.height > height + 1
    || (b.header.height > height && Judge(p, Run(p, cfg, s.sys, between).node.chain, b, now).Err?)
  }

  /** A stranded service stays stranded whatever happens, and from then on no gossiped block
      reaches its chain. */
  lemma {:induction false} StrandedStays(p: Protocol, cfg: Settings, s: Service, hs: seq<Happening>)
    requires HasHead(s.sys.node.chain) && Stranded(s) && EnabledAll(p, cfg, s, hs)
    ensures Stranded(SyncRun(p, cfg, s, hs))
    ensures TracedAll(p, cfg, s, hs) == OwnEvents(hs)
  {
    hide Run, Deliver, Firsts, Noted, ByHeight, Judge, Arrivals;
    if hs != [] {
      StrandedStays(p, cfg, s, hs[..|hs| - 1]);
    }
  }

  /** The miner's own steps. */
  function OwnEvents(hs: seq<Happening>): (evs: seq<Event>) {
    if hs == [] then []
    else
      OwnEvents(hs[..|hs| - 1]) +
      match hs[|hs| - 1]
      case Local(ev) => [ev]
      case Gossiped(_, between, _) => between
      case _ => []
  }
}
