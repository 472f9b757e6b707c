/** What each step of the node does to the chain, the pool and the work handed out: no less and no
    more than the rules allow. */
module Steps {
  import opened MeowTypes
  import opened Ledger
  import opened Chain
  import opened LiveChain
  import opened Pool
  import opened Mining
  import opened Node
  import opened Order

  // --------------------------------------------------------------- references

  /** The transaction refers to the object: as its gas coin or as an argument. */
  ghost predicate RefersTo(t: Tx, r: ObjectRef) {
    r == t.gasCoin || (t.kind.MeowCall? && ObjectArg(r) in t.kind.args)
  }

  lemma {:induction false} ArgRefsAre(args: seq<Input>, r: ObjectRef)
    ensures r in ArgRefs(args) <==> ObjectArg(r) in args
  {
    if args != [] {
      ArgRefsAre(args[1..], r);
      assert args == [args[0]] + args[1..];
    }
  }

  /** Everything the transaction refers to is live, in the version and with the digest it names. */
  ghost predicate UpToDate(p: Protocol, t: Tx, s: Store) {
    forall r | RefersTo(t, r) :: Current(p, r, s)
  }

  lemma ValidExactly(p: Protocol, t: Tx, s: Store)
    ensures ValidAgainst(p, t, s) <==> UpToDate(p, t, s)
  {
    var refs := Refs(t);
    forall r ensures r in refs <==> RefersTo(t, r) {
      if t.kind.MeowCall? { ArgRefsAre(t.kind.args, r); }
    }
    if UpToDate(p, t, s) {
      forall i | 0 <= i < |refs| ensures Current(p, refs[i], s) {
        assert refs[i] in refs;
      }
    }
    if ValidAgainst(p, t, s) {
      forall r | RefersTo(t, r) ensures Current(p, r, s) {
        var i :| 0 <= i < |refs| && refs[i] == r;
      }
    }
  }

  // --------------------------------------------------------------- submissions

  /** What a transaction needs to enter the pool. */
  ghost predicate MayEnter(p: Protocol, n: NodeValue, t: SignedTx)
    requires HasHead(n.chain)
  {
    && p.signedOk(t)
    && (forall i | 0 <= i < |n.pool.pending| :: p.txDigest(n.pool.pending[i].tx) != p.txDigest(t.tx))
    && |n.pool.pending| < MAX_MEMPOOL_SIZE
    && UpToDate(p, t.tx, HeadStore(n.chain))
  }

  /** A submission joins the end of the queue exactly when it may, and does nothing else. */
  lemma SubmissionExactly(p: Protocol, cfg: Settings, sys: System, t: SignedTx)
    requires SystemOk(p, cfg, sys) && HasHead(sys.node.chain)
    ensures var after := Step(p, cfg, sys, Submission(t));
            && after == sys.(node := sys.node.(pool := after.node.pool))
            && after.node.pool.pending == sys.node.pool.pending + if MayEnter(p, sys.node, t) then [t] else []
  {
    hide Faithful, WorkOk, UpToDate, ValidAgainst, Digests;
    var m := sys.node.pool;
    ValidExactly(p, t.tx, HeadStore(sys.node.chain));
    if p.txDigest(t.tx) in m.seen {
      var i :| 0 <= i < |m.pending| && p.txDigest(m.pending[i].tx) == p.txDigest(t.tx);
    }
    if i :| 0 <= i < |m.pending| && p.txDigest(m.pending[i].tx) == p.txDigest(t.tx) {
      assert p.txDigest(m.pending[i].tx) in Held(p, m.pending);
    }
  }

  // -------------------------------------------------------------------- rounds

  /** Work on the head of the chain, at this time. */
  ghost predicate OnHead(p: Protocol, c: ChainValue, w: Work, now: nat)
    requires HasHead(c)
  {
    && w.header.parent == c.head && w.header.height == HeadHeight(c) + 1 && w.header.timestamp == now
    && w.parentStore == c.snapshots[c.head] && w.difficulty == c.difficulty
    && w.header.txRoot == p.txRoot(Digests(p, w.batch))
  }

  /** A round takes exactly a batch from the front of the queue, once there is one, into work on
      the head; otherwise it does nothing. */
  lemma RoundExactly(p: Protocol, cfg: Settings, sys: System, now: nat)
    requires HasHead(sys.node.chain)
    ensures var after, queue := Step(p, cfg, sys, Round(now)), sys.node.pool.pending;
            && (|queue| < cfg.batchSize ==> after == sys)
            && (|queue| >= cfg.batchSize ==>
                  && |after.issued| == |sys.issued| + 1 && after.issued[..|sys.issued|] == sys.issued
                  && var w := after.issued[|sys.issued|];
                  && |w.batch| == cfg.batchSize && w.batch + after.node.pool.pending == queue
                  && OnHead(p, sys.node.chain, w, now)
                  && w.sign == cfg.sign && w.miner == cfg.miner && w.rewardTo == cfg.rewardTo
                  && after.node.chain == sys.node.chain && after.anchor == sys.anchor)
  {
    hide Digests, Held;
  }

  // -------------------------------------------------------------------- blocks

  /** The chain `d` is `c` with one more block: the highest of the two is the head, and what is more
      than `depth` behind it is gone. */
  ghost predicate OneMore(p: Protocol, c: ChainValue, d: ChainValue, b: Block, s: Store)
    requires HasHead(c) && HasHead(d)
  {
    var h := p.headerHash(b.header);
    var blocks, snapshots := c.blocks[h := b], c.snapshots[h := s];
    && d.head == (if b.header.height > HeadHeight(c) then h else c.head)
    && (forall x :: x in d.blocks <==> x in blocks && HeadHeight(d) <= blocks[x].header.height + c.depth)
    && (forall x | x in d.blocks :: d.blocks[x] == blocks[x] && d.snapshots[x] == snapshots[x])
    && d.depth == c.depth && d.difficulty == c.difficulty
  }

  /** The queue keeps exactly the entries that are up to date in the store, in their order. */
  ghost predicate Filtered(p: Protocol, before: PoolValue, after: PoolValue, s: Store) {
    && Subsequence(after.pending, before.pending)
    && (forall t :: t in after.pending <==> t in before.pending && UpToDate(p, t.tx, s))
    && after.seen == Held(p, after.pending)
  }

  lemma RetainFilters(p: Protocol, m: PoolValue, s: Store)
    ensures Filtered(p, m, RetainValid(p, m, s), s)
  {
    hide Subsequence, UpToDate, ValidAgainst, Held;
    RetainOrdered(p, m.pending, s);
    forall t: SignedTx ensures ValidAgainst(p, t.tx, s) <==> UpToDate(p, t.tx, s) {
      ValidExactly(p, t.tx, s);
    }
  }

  lemma AcceptIsOneMore(p: Protocol, c: ChainValue, anchor: Digest, b: Block, s: Store)
    requires Faithful(p, c, anchor) && HasHead(c) && Fits(p, c, b, s)
    ensures OneMore(p, c, Accept(p, c, b, s), b, s)
  {
    hide WellFormed, Replay, Linked, RootsLowest, Descends, Sealed;
    var h := p.headerHash(b.header);
    if b.header.height <= HeadHeight(c) {
      assert Kept(c, c.blocks[b.header.parent]);
      assert c.blocks[h := b].Keys == c.blocks.Keys + {h};
    }
  }

  /** A block from a peer is taken exactly when it is admissible. When that moves the head, every
      pending transaction is up to date on the new head, and none that is was lost; when it does not,
      the pool is as it was. */
  lemma ArrivalExactly(p: Protocol, cfg: Settings, sys: System, b: Block, now: nat)
    requires SystemOk(p, cfg, sys) && HasHead(sys.node.chain)
    ensures var after, c := Step(p, cfg, sys, Arrival(b, now)), sys.node.chain;
            && after == sys.(node := after.node) && HasHead(after.node.chain)
            && ((forall s :: !Admissible(p, c, b, now, s)) ==> after == sys)
            && (forall s :: Admissible(p, c, b, now, s) ==> OneMore(p, c, after.node.chain, b, s))
            && (after.node.chain.head != c.head ==>
                  Filtered(p, sys.node.pool, after.node.pool, HeadStore(after.node.chain)))
            && (after.node.chain.head == c.head ==> after.node.pool == sys.node.pool)
  {
    hide WellFormed, Replay, Judge, Faithful, PoolOk, WorkOk, RetainValid, Filtered, OneMore, Fits;
    var c := sys.node.chain;
    var verdict := Judge(p, c, b, now);
    forall s ensures Admissible(p, c, b, now, s) <==> verdict == Result.Ok(s) {
      JudgeExact(p, c, b, now, s);
    }
    if verdict.Ok? {
      AcceptIsOneMore(p, c, sys.anchor, b, verdict.value);
      RetainFilters(p, sys.node.pool, HeadStore(ApplyBlock(p, c, b, now)));
      NewHead(p, c, b, verdict.value);
    }
  }

  lemma NewHead(p: Protocol, c: ChainValue, b: Block, s: Store)
    requires HasHead(c) && Fits(p, c, b, s)
    ensures Accept(p, c, b, s).head != c.head <==> b.header.height > HeadHeight(c)
  {
    hide WellFormed, Replay;
  }

  /** In every run: right after an arrival that moved the head, the pool is the old one without
      what the new head has overtaken. */
  lemma PoolFollowsHead(p: Protocol, cfg: Settings, sys: System, evs: seq<Event>, i: nat)
    requires Collisionless(p) && Configured(p, cfg) && SystemOk(p, cfg, sys) && HasHead(sys.node.chain)
    requires i < |evs| && evs[i].Arrival?
    ensures var before, after := Run(p, cfg, sys, evs[..i]).node, Run(p, cfg, sys, evs[..i + 1]).node;
            if after.chain.head == before.chain.head then after.pool == before.pool
            else Filtered(p, before.pool, after.pool, HeadStore(after.chain))
  {
    hide Collisionless, Configured, SystemOk, Step, Filtered;
    assert evs[..i + 1][..i] == evs[..i];
    ReachableOk(p, cfg, sys, evs[..i]);
    ArrivalExactly(p, cfg, Run(p, cfg, sys, evs[..i]), evs[i].b, evs[i].now);
  }

  // ------------------------------------------------------------------- commits

  /** A solved work unit becomes the head exactly when the head is still its parent and its time is
      not ahead of the clock by more than the drift; otherwise nothing happens. The pool stays. */
  lemma SolvedExactly(p: Protocol, cfg: Settings, sys: System, k: nat, now: nat)
    requires Collisionless(p) && Configured(p, cfg) && SystemOk(p, cfg, sys) && HasHead(sys.node.chain)
    requires k < |sys.issued|
    ensures var after, w, c := Step(p, cfg, sys, Solved(k, now)), sys.issued[k], sys.node.chain;
            var r := Grind(p, w, w.batch, w.header.txRoot);
            && HasHead(after.node.chain)
            && (if r.Some? && w.header.parent == c.head && w.header.timestamp <= now + MAX_BLOCK_FUTURE_DRIFT_MS
                then OneMore(p, c, after.node.chain, r.value.0, r.value.1)
                     && after.node.chain.head == p.headerHash(r.value.0.header)
                     && after == sys.(node := sys.node.(chain := after.node.chain))
                else after == sys)
  {
    hide Collisionless, Grind, WellFormed, Replay, Faithful, Digests, StructureError, OneMore, Fits, Extend;
    var w, c := sys.issued[k], sys.node.chain;
    var r := Grind(p, w, w.batch, w.header.txRoot);
    if r.Some? {
      GroundOnParent(p, w, w.batch, w.header.txRoot);
      assert WorkOk(p, cfg, c, w);
      CommitStopsOnlyOnTime(p, cfg, c, w, now);
      if w.header.parent == c.head {
        CommitKeeps(p, cfg, c, sys.anchor, w);
        FitsAbove(p, c, r.value.0, r.value.1);
        AcceptIsOneMore(p, c, sys.anchor, r.value.0, r.value.1);
      }
    }
  }

  lemma FitsAbove(p: Protocol, c: ChainValue, b: Block, s: Store)
    requires HasHead(c) && Fits(p, c, b, s) && b.header.parent == c.head
    ensures b.header.height == HeadHeight(c) + 1
    ensures Extend(p, c, b, s) == Accept(p, c, b, s) && Extend(p, c, b, s).head == p.headerHash(b.header)
  {
    hide WellFormed, Replay;
  }

  // ------------------------------------------------------------------ restores

  /** A snapshot replaces chain and pool exactly when it is higher than the head, sound on its own,
      and its objects are those its header commits to; otherwise nothing happens. */
  lemma RestoreExactly(p: Protocol, cfg: Settings, sys: System, b: Block, objects: seq<Object>, now: nat)
    requires HasHead(sys.node.chain)
    ensures var after, c, s := Step(p, cfg, sys, Restore(b, objects, now)), sys.node.chain, InsertAll(map[], objects);
            var h := p.headerHash(b.header);
            if && b.header.height > HeadHeight(c)
               && WellFormed(p, b, c.difficulty) && TimeAllows(b, now)
               && p.stateRoot(s) == b.header.stateRoot
            then && after.node.chain.blocks == map[h := b] && after.node.chain.snapshots == map[h := s]
                 && after.node.chain.head == h && after.anchor == h
                 && after.node.chain.difficulty == c.difficulty && after.node.chain.depth == c.depth
                 && after.node.pool.pending == [] && after.node.pool.seen == {} && after.issued == sys.issued
            else after == sys
  {
    hide WellFormed, InsertAll;
  }
}
