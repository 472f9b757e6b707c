/** Which kind of sync the service chooses, for which block, and what each of them offers the chain. */
module Choices {
  import opened MeowTypes
  import opened Ledger
  import opened Chain
  import opened Node
  import opened CatchUp
  import opened Sync

  /** How far above the head a gossiped block is. */
  datatype Gap = Known | Next | Missing | TooFar

  function GapOf(c: ChainValue, b: Block): (g: Gap)
    requires HasHead(c)
    ensures g.TooFar? <==> b.header.height > HeadHeight(c) + c.depth
    ensures g.Known? ==> b.header.height <= HeadHeight(c)
    ensures g.Next? ==> b.header.height == HeadHeight(c) + 1
    ensures g.Missing? ==> b.header.height > HeadHeight(c) + 1
  {
    if b.header.height > HeadHeight(c) + c.depth then TooFar
    else if b.header.height > HeadHeight(c) + 1 then Missing
    else if b.header.height > HeadHeight(c) then Next
    else Known
  }

  /** No chain state admits the block at this point. */
  ghost predicate Rejected(p: Protocol, c: ChainValue, b: Block, now: nat)
    requires HasHead(c)
  {
    forall s :: !Admissible(p, c, b, now, s)
  }

  lemma RejectedExactly(p: Protocol, c: ChainValue, b: Block, now: nat)
    requires HasHead(c)
    ensures Rejected(p, c, b, now) <==> Judge(p, c, b, now).Err?
  {
    hide Judge, Admissible;
    forall s ensures Admissible(p, c, b, now, s) <==> Judge(p, c, b, now) == Result.Ok(s) {
      JudgeExact(p, c, b, now, s);
    }
  }

  /** A working service with a peer asks for a snapshot. */
  ghost predicate StartsFetch(s: Service, h: Happening)
    requires HasHead(s.sys.node.chain)
  {
    h.Gossiped? && s.mode.Working? && s.peers != {} && GapOf(s.sys.node.chain, h.b).TooFar?
  }

  /** A working service with a peer asks for blocks: some are missing below this one, or it is the next
      and does not fit. */
  ghost predicate StartsPull(p: Protocol, cfg: Settings, s: Service, h: Happening)
    requires HasHead(s.sys.node.chain)
  {
    && h.Gossiped? && s.mode.Working? && s.peers != {}
    && (|| GapOf(s.sys.node.chain, h.b).Missing?
        || (GapOf(s.sys.node.chain, h.b).Next?
            && Rejected(p, Run(p, cfg, s.sys, h.between).node.chain, h.b, h.now)))
  }

  /** A fetch starts exactly on a gap deeper than the snapshots kept, a pull exactly on a smaller one or
      on a next block that does not fit, and each ends exactly when it completes. */
  lemma SyncStartsExactly(p: Protocol, cfg: Settings, s: Service, h: Happening)
    requires HasHead(s.sys.node.chain) && ServiceOk(p, s) && Enabled(s, h)
    ensures var t := SyncStep(p, cfg, s, h);
            && (t.fetching <==> if s.fetching then !h.Fetched? else StartsFetch(s, h))
            && (t.pulling <==> if s.pulling then !h.Pulled? else StartsPull(p, cfg, s, h))
  {
    hide Run, Deliver, Firsts, Noted, ByHeight, Judge, Rejected;
    if h.Gossiped? {
      RejectedExactly(p, Run(p, cfg, s.sys, h.between).node.chain, h.b, h.now);
    }
  }

  /** The service at the `i`-th moment of a run. */
  function At(p: Protocol, cfg: Settings, s: Service, hs: seq<Happening>, i: nat): (r: Service)
    requires HasHead(s.sys.node.chain) && i <= |hs|
    ensures HasHead(r.sys.node.chain)
  {
    SyncRun(p, cfg, s, hs[..i])
  }

  /** A fetch started at moment `i` and has not completed since. */
  ghost predicate FetchSince(p: Protocol, cfg: Settings, s: Service, hs: seq<Happening>, i: nat)
    requires HasHead(s.sys.node.chain)
  {
    && i < |hs| && StartsFetch(At(p, cfg, s, hs, i), hs[i])
    && forall k | i < k < |hs| :: !hs[k].Fetched?
  }

  /** Over every run: a snapshot is being fetched exactly when some gossiped block was too far ahead of a
      working service that had a peer, and no fetch has completed since. */
  lemma {:induction false} FetchRunsExactly(p: Protocol, cfg: Settings, s: Service, hs: seq<Happening>)
    requires HasHead(s.sys.node.chain) && ServiceOk(p, s) && !s.fetching && EnabledAll(p, cfg, s, hs)
    ensures SyncRun(p, cfg, s, hs).fetching <==> exists i :: FetchSince(p, cfg, s, hs, i)
  {
    hide SyncStep, ServiceOk, Enabled, StartsFetch, StartsPull;
    if hs != [] {
      var n := |hs| - 1;
      var init := hs[..n];
      FetchRunsExactly(p, cfg, s, init);
      ServiceReachesOk(p, cfg, s, init);
      var t := SyncRun(p, cfg, s, init);
      SyncStartsExactly(p, cfg, t, hs[n]);
      FetchingMeansSync(p, t);
      StartNeedsWork(t, hs[n]);
      if t.fetching && !hs[n].Fetched? {
        var i :| FetchSince(p, cfg, s, init, i);
        FetchGoesOn(p, cfg, s, hs, i);
      } else if !t.fetching && StartsFetch(t, hs[n]) {
        assert FetchSince(p, cfg, s, hs, n);
      }
      if i :| FetchSince(p, cfg, s, hs, i) {
        FetchWentOn(p, cfg, s, hs, i);
      }
    }
  }

  lemma FetchingMeansSync(p: Protocol, s: Service)
    requires ServiceOk(p, s)
    ensures s.fetching ==> !s.mode.Working?
  {
  }

  lemma StartNeedsWork(s: Service, h: Happening)
    requires HasHead(s.sys.node.chain)
    ensures StartsFetch(s, h) ==> s.mode.Working? && !h.Fetched?
  {
  }

  lemma FetchGoesOn(p: Protocol, cfg: Settings, s: Service, hs: seq<Happening>, i: nat)
    requires HasHead(s.sys.node.chain) && hs != [] && !hs[|hs| - 1].Fetched?
    requires FetchSince(p, cfg, s, hs[..|hs| - 1], i)
    ensures FetchSince(p, cfg, s, hs, i)
  {
    hide SyncRun, StartsFetch;
    assert hs[..|hs| - 1][..i] == hs[..i];
    forall k | i < k < |hs| ensures !hs[k].Fetched? {
      if k < |hs| - 1 { assert hs[..|hs| - 1][k] == hs[k]; }
    }
  }

  lemma FetchWentOn(p: Protocol, cfg: Settings, s: Service, hs: seq<Happening>, i: nat)
    requires HasHead(s.sys.node.chain) && hs != [] && FetchSince(p, cfg, s, hs, i)
    ensures i < |hs| - 1 ==> !hs[|hs| - 1].Fetched? && FetchSince(p, cfg, s, hs[..|hs| - 1], i)
    ensures i == |hs| - 1 ==> StartsFetch(SyncRun(p, cfg, s, hs[..|hs| - 1]), hs[|hs| - 1])
  {
    hide SyncRun, StartsFetch;
    if i < |hs| - 1 {
      assert hs[..|hs| - 1][..i] == hs[..i];
    }
  }

  // ------------------------------------------------------------------ what happens

  /** While it works, the service hands a block that is not too far ahead to the chain; while it syncs,
      it keeps the block for later, unless the buffer is full. Blocks already kept stay, in order. */
  lemma GossipExactly(p: Protocol, cfg: Settings, s: Service, b: Block, between: seq<Event>, now: nat)
    requires HasHead(s.sys.node.chain) && ServiceOk(p, s)
    ensures var t := SyncStep(p, cfg, s, Gossiped(b, between, now));
            var later := Run(p, cfg, s.sys, between);
            && (s.mode.Working? && (GapOf(s.sys.node.chain, b).Known? || GapOf(s.sys.node.chain, b).Next?) ==>
                  t.sys.node.chain == ApplyBlock(p, later.node.chain, b, now))
            && (s.mode.Working? && GapOf(s.sys.node.chain, b).Known? ==> t.mode.Working?)
            && (s.mode.Working? && !t.mode.Working? ==> t.mode.buffer.blocks == [b])
            && (!s.mode.Working? ==>
                  && t.sys == later && t.mode.Syncing? == s.mode.Syncing?
                  && !t.mode.Working?
                  && s.mode.buffer.blocks <= t.mode.buffer.blocks <= s.mode.buffer.blocks + [b]
                  && (HashOf(p, b) in Hashes(p, t.mode.buffer.blocks) || |s.mode.buffer.blocks| == MAX_BUFFERED_SYNC_BLOCKS))
  {
    hide Run, ApplyBlock, Judge, Hashes;
    DeliverOne(p, cfg, Run(p, cfg, s.sys, between), b, now);
    if !s.mode.Working? {
      NotedKeeps(p, s.mode.buffer, b);
      HashesConcat(p, s.mode.buffer.blocks, [b]);
      HashesOne(p, b);
    }
  }

  lemma DeliverOne(p: Protocol, cfg: Settings, sys: System, b: Block, now: nat)
    requires HasHead(sys.node.chain)
    ensures Deliver(p, cfg, sys, [b], now).node.chain == ApplyBlock(p, sys.node.chain, b, now)
  {
    hide Run, ApplyBlock;
    DeliverChain(p, cfg, sys, [b], now);
    assert [b][..0] == [];
  }

  /** A completed fetch restores an allowed snapshot and then offers the chain one block for each hash
      that was buffered; a snapshot that is not allowed, or none, changes nothing. */
  lemma FetchOffersOnce(p: Protocol, cfg: Settings, s: Service, h: Happening)
    requires HasHead(s.sys.node.chain) && ServiceOk(p, s) && h.Fetched? && Enabled(s, h)
    ensures var t := SyncStep(p, cfg, s, h);
            var offered := Firsts(p, h.buffered, {});
            && t.mode.Working? && !t.fetching
            && (if h.snapshot.Some? && RestoreAllowed(p, s.sys.node, h.snapshot.value.0, h.snapshot.value.1, h.now)
                then var restored := Run(p, cfg, s.sys, [Restore(h.snapshot.value.0, h.snapshot.value.1, h.now)]);
                     t.sys.node.chain == ApplyAll(p, restored.node.chain, offered, h.now)
                else t.sys == s.sys)
            && Apart(p, offered) && Hashes(p, offered) == Hashes(p, s.mode.buffer.blocks)
  {
    hide Firsts, ApplyAll, Hashes, Apart, RestoreAllowed, Deliver;
    FirstsExact(p, h.buffered, {});
    HashesOrdered(p, h.buffered, s.mode.buffer.blocks);
    if h.snapshot.Some? {
      var ev := Restore(h.snapshot.value.0, h.snapshot.value.1, h.now);
      RunNothing(p, cfg, s.sys);
      assert [ev][..0] == [];
      var restored := Run(p, cfg, s.sys, [ev]);
      assert restored == Step(p, cfg, s.sys, ev);
      DeliverChain(p, cfg, restored, Firsts(p, h.buffered, {}), h.now);
    }
  }
}
