/** The miner node as a state machine: its atomic steps interleave in any order, and a work
    unit prepared in one step may be committed in any later one. */
module Node {
  import opened MeowTypes
  import opened Ledger
  import opened Chain
  import opened LiveChain
  import opened Pool
  import opened Mining

  datatype Settings = Settings(batchSize: nat, sign: Tx -> SignedTx, miner: Address, rewardTo: Address)

  datatype NodeValue = NodeValue(chain: ChainValue, pool: PoolValue)

  /** A node with the work units it has handed out. `anchor` is the block its chain grew from. */
  datatype System = System(node: NodeValue, issued: seq<Work>, anchor: Digest)

  datatype Event =
    | Submission(t: SignedTx)
    | Round(now: nat)
    | Solved(k: nat, now: nat)
    | Arrival(b: Block, now: nat)
    | Restore(b: Block, objects: seq<Object>, now: nat)

  // --------------------------------------------------------------------- steps

  function HeadStore(c: ChainValue): (s: Store)
    requires HasHead(c)
  {
    c.snapshots[c.head]
  }

  function SubmitStep(p: Protocol, n: NodeValue, t: SignedTx): (r: NodeValue)
    requires HasHead(n.chain)
  {
    n.(pool := Submit(p, n.pool, t, HeadStore(n.chain)))
  }

  predicate RoundReady(cfg: Settings, n: NodeValue) {
    |n.pool.pending| >= cfg.batchSize
  }

  /** The work handed out on the current head. */
  function Prepared(p: Protocol, cfg: Settings, n: NodeValue, now: nat): (w: Work)
    requires HasHead(n.chain)
  {
    var batch := Drained(n.pool, cfg.batchSize);
    Work(Header(HeadHeight(n.chain) + 1, n.chain.head, p.txRoot(Digests(p, batch)), None, ZERO_DIGEST, now, 0),
         batch, HeadStore(n.chain), n.chain.difficulty, cfg.sign, cfg.miner, cfg.rewardTo)
  }

  function RoundStep(p: Protocol, cfg: Settings, n: NodeValue): (r: NodeValue) {
    if RoundReady(cfg, n) then n.(pool := Drain(p, n.pool, cfg.batchSize)) else n
  }

  /** A mined block is committed only if its parent is still the head. */
  function CommitStep(p: Protocol, n: NodeValue, b: Block, s: Store): (r: NodeValue)
    requires HasHead(n.chain)
  {
    if b.header.parent != n.chain.head then n else n.(chain := Extend(p, n.chain, b, s))
  }

  function ArrivalStep(p: Protocol, n: NodeValue, b: Block, now: nat): (r: NodeValue)
    requires HasHead(n.chain)
  {
    var c := ApplyBlock(p, n.chain, b, now);
    var reorged := Judge(p, n.chain, b, now).Ok? && b.header.height > HeadHeight(n.chain);
    NodeValue(c, if reorged then RetainValid(p, n.pool, HeadStore(c)) else n.pool)
  }

  predicate RestoreAllowed(p: Protocol, n: NodeValue, b: Block, objects: seq<Object>, now: nat)
    requires HasHead(n.chain)
  {
    SnapshotError(p, HeadHeight(n.chain), b, InsertAll(map[], objects), n.chain.difficulty, now).None?
  }

  function RestoreStep(p: Protocol, n: NodeValue, b: Block, objects: seq<Object>, now: nat): (r: NodeValue)
    requires HasHead(n.chain)
  {
    if RestoreAllowed(p, n, b, objects, now) then
      NodeValue(Anchored(p, b, InsertAll(map[], objects), n.chain.difficulty, n.chain.depth), EMPTY)
    else n
  }

  /** A commit on the head whose structural check fails ends the program; nothing is committed. */
  predicate CommitPanics(p: Protocol, n: NodeValue, b: Block, now: nat) {
    b.header.parent == n.chain.head && StructureError(p, b, n.chain.difficulty, now).Some?
  }

  function Step(p: Protocol, cfg: Settings, sys: System, ev: Event): (r: System)
    requires HasHead(sys.node.chain)
  {
    match ev
    case Submission(t) => sys.(node := SubmitStep(p, sys.node, t))
    case Round(now) =>
      var issued := if RoundReady(cfg, sys.node) then [Prepared(p, cfg, sys.node, now)] else [];
      sys.(node := RoundStep(p, cfg, sys.node), issued := sys.issued + issued)
    case Solved(k, now) =>
      if k >= |sys.issued| then sys
      else
        var ground := Grind(p, sys.issued[k], sys.issued[k].batch, sys.issued[k].header.txRoot);
        if ground.None? || CommitPanics(p, sys.node, ground.value.0, now) then sys
        else sys.(node := CommitStep(p, sys.node, ground.value.0, ground.value.1))
    case Arrival(b, now) => sys.(node := ArrivalStep(p, sys.node, b, now))
    case Restore(b, objects, now) =>
      sys.(node := RestoreStep(p, sys.node, b, objects, now),
           anchor := if RestoreAllowed(p, sys.node, b, objects, now) then p.headerHash(b.header) else sys.anchor)
  }

  // ------------------------------------------------------------------ invariant

  /** A work unit handed out at some point. If its parent is the head now, it still describes
      the head: the height is one above and the parent store is the head's snapshot. */
  ghost predicate WorkOk(p: Protocol, cfg: Settings, c: ChainValue, w: Work)
    requires HasHead(c)
  {
    && w.difficulty == c.difficulty
    && w.sign == cfg.sign && w.miner == cfg.miner && w.rewardTo == cfg.rewardTo
    && |w.batch| <= cfg.batchSize
    && NoDuplicates(Digests(p, w.batch))
    && (forall i :: 0 <= i < |w.batch| ==> p.signedOk(w.batch[i]))
    && w.header.txRoot == p.txRoot(Digests(p, w.batch))
    && FollowsHeight(p, w.header.parent, w.header.height)
    && w.header.height <= HeadHeight(c) + 1
    && (w.header.parent == c.head ==>
          w.header.height == HeadHeight(c) + 1 && w.parentStore == c.snapshots[c.head])
  }

  ghost predicate SystemOk(p: Protocol, cfg: Settings, sys: System) {
    && Faithful(p, sys.node.chain, sys.anchor)
    && PoolOk(p, sys.node.pool)
    && HasHead(sys.node.chain)
    && (forall k :: 0 <= k < |sys.issued| ==> WorkOk(p, cfg, sys.node.chain, sys.issued[k]))
  }

  ghost predicate Configured(p: Protocol, cfg: Settings) {
    && cfg.batchSize <= MAX_TRANSACTIONS_PER_BLOCK
    && forall amount: u64, mining: Digest {:trigger MakeReward(cfg.miner, cfg.rewardTo, amount, mining)} ::
         var t := MakeReward(cfg.miner, cfg.rewardTo, amount, mining);
         cfg.sign(t).tx == t && p.signedOk(cfg.sign(t))
  }

  /** The head either stays, with its snapshot, or moves strictly higher. */
  ghost predicate Advances(c: ChainValue, d: ChainValue) {
    && HasHead(c) && HasHead(d)
    && d.difficulty == c.difficulty
    && (d.head == c.head ==> HeadHeight(d) == HeadHeight(c) && d.snapshots[d.head] == c.snapshots[c.head])
    && (d.head != c.head ==> HeadHeight(d) > HeadHeight(c))
  }

  /** An old work unit stays fine when the head advances: a new head is never its parent. */
  lemma WorkStays(p: Protocol, cfg: Settings, c: ChainValue, d: ChainValue, w: Work)
    requires Collisionless(p)
    requires Advances(c, d) && WorkOk(p, cfg, c, w)
    requires p.headerHash(d.blocks[d.head].header) == d.head
    ensures WorkOk(p, cfg, d, w)
  {
    hide Collisionless, Digests;
    if d.head != c.head && w.header.parent == d.head {
      var g: Header :| p.headerHash(g) == w.header.parent && g.height + 1 == w.header.height;
      HeaderHashInjective(p, g, d.blocks[d.head].header);
    }
  }

  /** Committing a ground block on the head keeps the chain faithful and moves the head up. */
  lemma CommitKeeps(p: Protocol, cfg: Settings, c: ChainValue, anchor: Digest, w: Work)
    requires Collisionless(p) && Configured(p, cfg)
    requires Faithful(p, c, anchor) && HasHead(c) && WorkOk(p, cfg, c, w)
    requires w.header.parent == c.head
    ensures var r := Grind(p, w, w.batch, w.header.txRoot);
            r.Some? ==>
              && Fits(p, c, r.value.0, r.value.1)
              && r.value.0.header.parent == c.head
              && Faithful(p, Extend(p, c, r.value.0, r.value.1), anchor)
              && Advances(c, Extend(p, c, r.value.0, r.value.1))
  {
    hide Collisionless, Grind, WellFormed, Replay, Digests, LinkedAt;
    var r := Grind(p, w, w.batch, w.header.txRoot);
    GrindSound(p, w, w.batch, w.header.txRoot);
    if r.Some? {
      var (b, s) := r.value;
      if p.headerHash(b.header) in c.blocks {
        HeaderHashInjective(p, c.blocks[p.headerHash(b.header)].header, b.header);
      }
      ExtendKeeps(p, c, anchor, b, s);
    }
  }

  /** The structural check on a mined block, whose failure would stop the node, fails exactly
      when the clock has fallen more than the drift behind the time of the round. */
  lemma CommitStopsOnlyOnTime(p: Protocol, cfg: Settings, c: ChainValue, w: Work, now: nat)
    requires Configured(p, cfg) && HasHead(c) && WorkOk(p, cfg, c, w)
    ensures var r := Grind(p, w, w.batch, w.header.txRoot);
            r.Some? ==>
              (StructureError(p, r.value.0, c.difficulty, now).None? <==>
               w.header.timestamp <= now + MAX_BLOCK_FUTURE_DRIFT_MS)
  {
    hide Grind, WellFormed, Replay, Digests;
    GrindSound(p, w, w.batch, w.header.txRoot);
  }

  /** A block ground on the head is new to the chain. */
  lemma GroundIsNew(p: Protocol, cfg: Settings, c: ChainValue, anchor: Digest, w: Work)
    requires Collisionless(p) && Configured(p, cfg)
    requires Faithful(p, c, anchor) && HasHead(c) && WorkOk(p, cfg, c, w) && w.header.parent == c.head
    ensures var r := Grind(p, w, w.batch, w.header.txRoot);
            r.Some? ==> p.headerHash(r.value.0.header) !in c.blocks
  {
    hide Collisionless, Configured, Grind, Extend, WorkOk, Faithful;
    CommitKeeps(p, cfg, c, anchor, w);
  }

  /** The miner's own block against the rules it holds others to: work on the current head gives a
      block that the chain itself would accept exactly when the clock of the round was past the
      head's time and is not further ahead than the drift. */
  lemma OwnBlockExactly(p: Protocol, cfg: Settings, sys: System, k: nat, now: nat)
    requires Collisionless(p) && Configured(p, cfg) && SystemOk(p, cfg, sys)
    requires HasHead(sys.node.chain)
    requires k < |sys.issued| && sys.issued[k].header.parent == sys.node.chain.head
    ensures var w, c := sys.issued[k], sys.node.chain;
            var r := Grind(p, w, w.batch, w.header.txRoot);
            r.Some? ==>
              && (Judge(p, c, r.value.0, now).Ok? <==>
                  c.blocks[c.head].header.timestamp < w.header.timestamp <= now + MAX_BLOCK_FUTURE_DRIFT_MS)
              && (Judge(p, c, r.value.0, now).Ok? ==> Judge(p, c, r.value.0, now) == Ok(r.value.1))
  {
    hide Collisionless, Grind, Judge, Faithful, Digests;
    var w, c := sys.issued[k], sys.node.chain;
    assert WorkOk(p, cfg, c, w);
    GroundIsNew(p, cfg, c, sys.anchor, w);
    MinerAndValidatorAgree(p, c, w, now);
  }

  /** It commits the block exactly when its time is within the drift: no step compares it with the
      parent's. With a clock at or behind the head's time, the node's new head is a block that every
      chain holding its parent refuses. */
  lemma CommitsAnyway(p: Protocol, cfg: Settings, sys: System, k: nat, now: nat)
    requires Collisionless(p) && Configured(p, cfg) && SystemOk(p, cfg, sys)
    requires HasHead(sys.node.chain)
    requires k < |sys.issued| && sys.issued[k].header.parent == sys.node.chain.head
    ensures var w, c := sys.issued[k], sys.node.chain;
            var r := Grind(p, w, w.batch, w.header.txRoot);
            r.Some? ==>
              && (Step(p, cfg, sys, Solved(k, now)).node.chain.head == p.headerHash(r.value.0.header) <==>
                  w.header.timestamp <= now + MAX_BLOCK_FUTURE_DRIFT_MS)
              && (w.header.timestamp <= c.blocks[c.head].header.timestamp ==>
                    forall e, later :: Holds(e, c.head, c.blocks[c.head].header) ==> Judge(p, e, r.value.0, later).Err?)
  {
    hide Collisionless, Grind, Faithful, Digests, WellFormed, Replay;
    var w, c := sys.issued[k], sys.node.chain;
    assert WorkOk(p, cfg, c, w);
    GrindSound(p, w, w.batch, w.header.txRoot);
    GroundIsNew(p, cfg, c, sys.anchor, w);
    CommitStopsOnlyOnTime(p, cfg, c, w, now);
  }

  /** A chain that keeps the block of this hash, with this header. */
  ghost predicate Holds(e: ChainValue, h: Digest, header: Header) {
    e.blocks.Keys == e.snapshots.Keys && h in e.blocks && e.blocks[h].header == header
  }

  lemma ArrivalAdvances(p: Protocol, c: ChainValue, anchor: Digest, b: Block, now: nat)
    requires Collisionless(p) && Faithful(p, c, anchor)
    ensures Faithful(p, ApplyBlock(p, c, b, now), anchor)
    ensures Advances(c, ApplyBlock(p, c, b, now))
  {
    hide Collisionless, WellFormed, Replay, StructureError;
    ApplyKeeps(p, c, anchor, b, now);
  }

  /** What one step keeps: everything, and the head only moves up. */
  lemma StepKeeps(p: Protocol, cfg: Settings, sys: System, ev: Event)
    requires Collisionless(p) && Configured(p, cfg)
    requires SystemOk(p, cfg, sys)
    ensures SystemOk(p, cfg, Step(p, cfg, sys, ev))
    ensures Advances(sys.node.chain, Step(p, cfg, sys, ev).node.chain)
  {
    hide Collisionless, Configured, Faithful, WorkOk, PoolOk, Grind, Extend, ApplyBlock, Digests, RetainValid, Drain, Drained, Submit;
    var r := Step(p, cfg, sys, ev);
    var c := sys.node.chain;
    assert Faithful(p, r.node.chain, r.anchor) && Advances(c, r.node.chain) by {
      ChainStepKeeps(p, cfg, sys, ev);
    }
    assert PoolOk(p, r.node.pool) by {
      PoolStepKeeps(p, cfg, sys, ev);
    }
    assert p.headerHash(r.node.chain.blocks[r.node.chain.head].header) == r.node.chain.head by {
      HeadIndexed(p, r.node.chain, r.anchor);
    }
    forall k | 0 <= k < |r.issued|
      ensures WorkOk(p, cfg, r.node.chain, r.issued[k])
    {
      if k < |sys.issued| {
        assert r.issued[k] == sys.issued[k];
        WorkStays(p, cfg, c, r.node.chain, r.issued[k]);
      } else {
        PreparedOk(p, cfg, sys, ev.now);
      }
    }
  }

  lemma HeadIndexed(p: Protocol, c: ChainValue, anchor: Digest)
    requires Faithful(p, c, anchor)
    ensures HasHead(c) && p.headerHash(c.blocks[c.head].header) == c.head
  {
  }

  lemma ChainStepKeeps(p: Protocol, cfg: Settings, sys: System, ev: Event)
    requires Collisionless(p) && Configured(p, cfg)
    requires SystemOk(p, cfg, sys)
    ensures Faithful(p, Step(p, cfg, sys, ev).node.chain, Step(p, cfg, sys, ev).anchor)
    ensures Advances(sys.node.chain, Step(p, cfg, sys, ev).node.chain)
  {
    hide Collisionless, Configured, Faithful, PoolOk, Grind, Extend, ApplyBlock, Digests, RetainValid, Drain, Drained, Submit;
    var c := sys.node.chain;
    match ev
    case Submission(t) =>
    case Round(now) =>
    case Solved(k, now) =>
      if k < |sys.issued| {
        var w := sys.issued[k];
        if w.header.parent == c.head {
          CommitKeeps(p, cfg, c, sys.anchor, w);
        } else {
          GroundOnParent(p, w, w.batch, w.header.txRoot);
        }
      }
    case Arrival(b, now) =>
      ArrivalAdvances(p, c, sys.anchor, b, now);
    case Restore(b, objects, now) =>
      if RestoreAllowed(p, sys.node, b, objects, now) {
        RestoreKeeps(p, c, sys.anchor, b, objects, now);
      }
  }

  /** A ground block keeps the parent of its work. */
  lemma {:induction false} GroundOnParent(p: Protocol, w: Work, txs: seq<SignedTx>, root: Digest)
    ensures var r := Grind(p, w, txs, root);
            r.Some? ==> r.value.0.header.parent == w.header.parent
    decreases |txs|, if root == p.txRoot(Digests(p, txs)) then 0 else 1
  {
    hide RunDropping;
    var h := w.header.(txRoot := root, nonce := 0);
    var nonce := Solve(p, h, w.difficulty, 0);
    if nonce.Some? {
      var solved := h.(nonce := nonce.value);
      var run := RunDropping(p, txs, w.parentStore, MiningHash(p, solved), w.header.timestamp);
      var actual := p.txRoot(Digests(p, run.txs));
      if run.txs != [] && actual != root {
        GroundOnParent(p, w, run.txs, actual);
      }
    }
  }

  lemma RestoreKeeps(p: Protocol, c: ChainValue, anchor: Digest, b: Block, objects: seq<Object>, now: nat)
    requires Collisionless(p) && Faithful(p, c, anchor)
    requires HasHead(c)
    requires SnapshotError(p, HeadHeight(c), b, InsertAll(map[], objects), c.difficulty, now).None?
    ensures var d := Anchored(p, b, InsertAll(map[], objects), c.difficulty, c.depth);
            Faithful(p, d, p.headerHash(b.header)) && Advances(c, d)
  {
    hide Collisionless, WellFormed, Replay, Faithful, InsertAll;
    HeadIndexed(p, c, anchor);
    AnchoredFaithful(p, b, InsertAll(map[], objects), c.difficulty, c.depth);
    if p.headerHash(b.header) == c.head {
      HeaderHashInjective(p, b.header, c.blocks[c.head].header);
    }
  }

  lemma PoolStepKeeps(p: Protocol, cfg: Settings, sys: System, ev: Event)
    requires SystemOk(p, cfg, sys)
    ensures PoolOk(p, Step(p, cfg, sys, ev).node.pool)
  {
    hide Faithful, WorkOk, Grind, Extend, Digests;
    match ev
    case Submission(t) => SubmitKeeps(p, sys.node.pool, t, HeadStore(sys.node.chain));
    case Round(now) => DrainKeeps(p, sys.node.pool, cfg.batchSize);
    case Solved(k, now) =>
    case Arrival(b, now) =>
      RetainKeeps(p, sys.node.pool, HeadStore(ApplyBlock(p, sys.node.chain, b, now)));
    case Restore(b, objects, now) =>
  }

  lemma PreparedOk(p: Protocol, cfg: Settings, sys: System, now: nat)
    requires SystemOk(p, cfg, sys)
    ensures WorkOk(p, cfg, sys.node.chain, Prepared(p, cfg, sys.node, now))
  {
    hide Faithful, LinkedAt, Digests;
    HeadIndexed(p, sys.node.chain, sys.anchor);
    DrainKeeps(p, sys.node.pool, cfg.batchSize);
    assert FollowsHeight(p, sys.node.chain.head, HeadHeight(sys.node.chain) + 1);
  }

  // ----------------------------------------------------------------------- runs

  function Run(p: Protocol, cfg: Settings, sys: System, evs: seq<Event>): (r: System)
    requires HasHead(sys.node.chain)
    ensures HasHead(r.node.chain)
  {
    if evs == [] then sys
    else
      var before := Run(p, cfg, sys, evs[..|evs| - 1]);
      Step(p, cfg, before, evs[|evs| - 1])
  }

  /** In every state reachable by interleaving the node's steps, the snapshots are a faithful
      cache of the chain, the pool is in order and every work unit handed out is sound. */
  lemma {:induction false} ReachableOk(p: Protocol, cfg: Settings, sys: System, evs: seq<Event>)
    requires Collisionless(p) && Configured(p, cfg)
    requires SystemOk(p, cfg, sys)
    ensures SystemOk(p, cfg, Run(p, cfg, sys, evs))
  {
    hide Collisionless, Configured, SystemOk, Step;
    assert HasHead(sys.node.chain) by { OkHasHead(p, cfg, sys); }
    if evs != [] {
      ReachableOk(p, cfg, sys, evs[..|evs| - 1]);
      StepKeeps(p, cfg, Run(p, cfg, sys, evs[..|evs| - 1]), evs[|evs| - 1]);
    }
  }

  lemma OkHasHead(p: Protocol, cfg: Settings, sys: System)
    requires SystemOk(p, cfg, sys)
    ensures HasHead(sys.node.chain)
  {
  }

  /** The node starts at genesis with an empty pool. */
  lemma StartOk(p: Protocol, cfg: Settings, store: Store, difficulty: nat, depth: nat)
    requires Collisionless(p) && Keyed(store)
    ensures SystemOk(p, cfg, System(NodeValue(NewChain(p, store, difficulty, depth), EMPTY), [],
                                    p.headerHash(GENESIS.header)))
  {
    hide Collisionless, WellFormed, Replay;
    NewFaithful(p, store, difficulty, depth);
  }

  lemma {:induction false} HeadClimbs(p: Protocol, cfg: Settings, sys: System, evs: seq<Event>, i: nat)
    requires Collisionless(p) && Configured(p, cfg) && SystemOk(p, cfg, sys)
    requires i <= |evs|
    ensures HasHead(sys.node.chain)
    ensures var c, d := Run(p, cfg, sys, evs[..i]).node.chain, Run(p, cfg, sys, evs).node.chain;
            HeadHeight(c) <= HeadHeight(d) && (c.head != d.head ==> HeadHeight(c) < HeadHeight(d))
  {
    hide Collisionless, Configured, SystemOk, Step;
    OkHasHead(p, cfg, sys);
    if i < |evs| {
      var init := evs[..|evs| - 1];
      assert init[..i] == evs[..i];
      HeadClimbs(p, cfg, sys, init, i);
      ReachableOk(p, cfg, sys, init);
      StepKeeps(p, cfg, Run(p, cfg, sys, init), evs[|evs| - 1]);
    } else {
      assert evs[..i] == evs;
    }
  }

  /** No head comes back once it has been left. */
  lemma NoAba(p: Protocol, cfg: Settings, sys: System, evs: seq<Event>, i: nat, k: nat)
    requires Collisionless(p) && Configured(p, cfg) && SystemOk(p, cfg, sys)
    requires HasHead(sys.node.chain) && i <= k <= |evs|
    requires Run(p, cfg, sys, evs[..i]).node.chain.head == Run(p, cfg, sys, evs).node.chain.head
    ensures Run(p, cfg, sys, evs[..k]).node.chain.head == Run(p, cfg, sys, evs).node.chain.head
  {
    hide Collisionless, Configured, SystemOk, Run;
    var c, d, e := Run(p, cfg, sys, evs[..i]).node.chain, Run(p, cfg, sys, evs[..k]).node.chain,
                   Run(p, cfg, sys, evs).node.chain;
    assert evs[..k][..i] == evs[..i];
    HeadClimbs(p, cfg, sys, evs[..k], i);
    HeadClimbs(p, cfg, sys, evs, k);
    HeadHeader(p, cfg, sys, evs[..i]);
    HeadHeader(p, cfg, sys, evs);
    HeaderHashInjective(p, c.blocks[c.head].header, e.blocks[e.head].header);
  }

  lemma HeadHeader(p: Protocol, cfg: Settings, sys: System, evs: seq<Event>)
    requires Collisionless(p) && Configured(p, cfg) && SystemOk(p, cfg, sys)
    ensures HasHead(sys.node.chain)
    ensures var c := Run(p, cfg, sys, evs).node.chain;
            p.headerHash(c.blocks[c.head].header) == c.head
  {
    hide Collisionless, Configured, Faithful, Run, Step, WorkOk;
    ReachableOk(p, cfg, sys, evs);
    HeadIndexed(p, Run(p, cfg, sys, evs).node.chain, Run(p, cfg, sys, evs).anchor);
  }

  /** When a commit finds its parent at the head, the head has not moved since the round was
      prepared, the block is exactly one higher, and its store was computed from the head's
      snapshot. */
  lemma CommitIsFresh(p: Protocol, cfg: Settings, sys: System, evs: seq<Event>, i: nat, k: nat, prepared: nat)
    requires Collisionless(p) && Configured(p, cfg) && SystemOk(p, cfg, sys)
    requires HasHead(sys.node.chain)
    requires i < k <= |evs| && evs[i] == Round(prepared)
    requires RoundReady(cfg, Run(p, cfg, sys, evs[..i]).node)
    ensures var at := Run(p, cfg, sys, evs[..i]).node;
            var w := Prepared(p, cfg, at, prepared);
            var c := Run(p, cfg, sys, evs).node.chain;
            w.header.parent == c.head ==>
              && Run(p, cfg, sys, evs[..k]).node.chain.head == w.header.parent
              && w.header.height == HeadHeight(c) + 1
              && w.parentStore == HeadStore(c)
  {
    hide Collisionless, Configured, SystemOk, Run, Step, Faithful, WorkOk;
    var at := Run(p, cfg, sys, evs[..i]).node;
    var w := Prepared(p, cfg, at, prepared);
    var c := Run(p, cfg, sys, evs).node.chain;
    if w.header.parent == c.head {
      NoAba(p, cfg, sys, evs, i, k);
      IssuedStays(p, cfg, sys, evs, i, prepared);
      ReachableOk(p, cfg, sys, evs);
      IssuedOk(p, cfg, Run(p, cfg, sys, evs), w);
    }
  }

  lemma IssuedOk(p: Protocol, cfg: Settings, sys: System, w: Work)
    requires SystemOk(p, cfg, sys) && exists k :: 0 <= k < |sys.issued| && sys.issued[k] == w
    requires HasHead(sys.node.chain)
    requires w.header.parent == sys.node.chain.head
    ensures w.header.height == HeadHeight(sys.node.chain) + 1 && w.parentStore == HeadStore(sys.node.chain)
  {
  }

  lemma {:induction false} IssuedStays(p: Protocol, cfg: Settings, sys: System, evs: seq<Event>, i: nat, prepared: nat)
    requires HasHead(sys.node.chain)
    requires i < |evs| && evs[i] == Round(prepared)
    requires RoundReady(cfg, Run(p, cfg, sys, evs[..i]).node)
    ensures var w := Prepared(p, cfg, Run(p, cfg, sys, evs[..i]).node, prepared);
            exists k :: 0 <= k < |Run(p, cfg, sys, evs).issued| && Run(p, cfg, sys, evs).issued[k] == w
  {
    hide Prepared;
    var init := evs[..|evs| - 1];
    var w := Prepared(p, cfg, Run(p, cfg, sys, evs[..i]).node, prepared);
    if i < |evs| - 1 {
      assert init[..i] == evs[..i];
      IssuedStays(p, cfg, sys, init, i, prepared);
      var k :| 0 <= k < |Run(p, cfg, sys, init).issued| && Run(p, cfg, sys, init).issued[k] == w;
      assert Run(p, cfg, sys, evs).issued[k] == w;
    } else {
      assert Run(p, cfg, sys, evs).issued[|Run(p, cfg, sys, init).issued|] == w;
    }
  }
}
