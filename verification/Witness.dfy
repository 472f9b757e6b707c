/** Runs from genesis in which a node's clock makes its own block one that no rule would admit:
    the failing sides of the exact conditions do occur. */
module Witness {
  import opened MeowTypes
  import opened Ledger
  import opened Chain
  import opened LiveChain
  import opened Pool
  import opened Mining
  import opened Node

  /** A node at genesis that needs no proof of work. */
  function Fresh(p: Protocol, store: Store, depth: nat): (sys: System) {
    System(NodeValue(NewChain(p, store, 0, depth), EMPTY), [], p.headerHash(GENESIS.header))
  }

  /** One transaction comes in and a round is prepared when the clock reads `clock`. */
  function OneRound(t: SignedTx, clock: nat): (evs: seq<Event>) {
    [Submission(t), Round(clock)]
  }

  /** The work of that round, on the head of a chain. */
  function WorkOn(p: Protocol, cfg: Settings, c: ChainValue, t: SignedTx, clock: nat): (w: Work)
    requires HasHead(c)
  {
    var h := Header(HeadHeight(c) + 1, c.head, p.txRoot([p.txDigest(t.tx)]), None, ZERO_DIGEST, clock, 0);
    Work(h, [t], HeadStore(c), c.difficulty, cfg.sign, cfg.miner, cfg.rewardTo)
  }

  /** The pool takes the transaction, and the executor runs it on the head's store. */
  ghost predicate Ready(p: Protocol, cfg: Settings, c: ChainValue, t: SignedTx, clock: nat)
    requires HasHead(c)
  {
    && cfg.batchSize == 1 && c.difficulty == 0 && p.signedOk(t) && ValidAgainst(p, t.tx, HeadStore(c))
    && p.execute(t.tx, HeadStore(c), MiningHash(p, WorkOn(p, cfg, c, t, clock).header), clock).Some?
  }

  /** A node with nothing pending and nothing handed out. */
  ghost predicate Idle(sys: System) {
    HasHead(sys.node.chain) && sys.node.pool == EMPTY && sys.issued == []
  }

  lemma RoundIssued(p: Protocol, cfg: Settings, sys: System, t: SignedTx, clock: nat)
    requires Idle(sys) && Ready(p, cfg, sys.node.chain, t, clock)
    ensures var r := Run(p, cfg, sys, OneRound(t, clock));
            r.node.chain == sys.node.chain && r.issued == [WorkOn(p, cfg, sys.node.chain, t, clock)]
  {
    hide FirstRefError;
    var evs := OneRound(t, clock);
    assert evs[..1] == [Submission(t)] && evs[..1][..0] == [];
    var one := Run(p, cfg, sys, evs[..1]);
    assert Run(p, cfg, sys, evs[..1][..0]) == sys;
    assert one.node.pool.pending == [t];
    assert [t][..1] == [t] && Digests(p, [t]) == [p.txDigest(t.tx)];
    assert Prepared(p, cfg, one.node, clock) == WorkOn(p, cfg, sys.node.chain, t, clock);
  }

  /** Without a difficulty the first nonce will do, and the block is closed over the transaction. */
  lemma RoundGrinds(p: Protocol, cfg: Settings, c: ChainValue, t: SignedTx, clock: nat)
    requires HasHead(c) && Ready(p, cfg, c, t, clock)
    ensures var w := WorkOn(p, cfg, c, t, clock);
            Grind(p, w, w.batch, w.header.txRoot).Some?
  {
    hide Seal, Apply;
    var w, store := WorkOn(p, cfg, c, t, clock), HeadStore(c);
    var h := w.header.(txRoot := w.header.txRoot, nonce := 0);
    assert h == w.header && Solve(p, h, 0, 0) == Some(0);
    assert [t][..0] == [];
    var run := RunDropping(p, [t], store, MiningHash(p, h), clock);
    assert RunDropping(p, [], store, MiningHash(p, h), clock) == Batch(store, [], []);
    assert RunDropping(p, [t][..0], store, MiningHash(p, h), clock) == Batch(store, [], []);
    assert run.txs == [] + [t];
    assert Digests(p, [t]) == [p.txDigest(t.tx)];
  }

  lemma IssuedWork(p: Protocol, cfg: Settings, sys: System, k: nat)
    requires SystemOk(p, cfg, sys) && k < |sys.issued|
    ensures HasHead(sys.node.chain) && WorkOk(p, cfg, sys.node.chain, sys.issued[k])
  {
    hide WorkOk, Faithful;
  }

  lemma Issued(p: Protocol, cfg: Settings, sys: System, t: SignedTx, clock: nat)
    requires Collisionless(p) && Configured(p, cfg) && SystemOk(p, cfg, sys) && Idle(sys) && Ready(p, cfg, sys.node.chain, t, clock)
    ensures var r := Run(p, cfg, sys, OneRound(t, clock));
            && SystemOk(p, cfg, r) && HasHead(r.node.chain) && r.node.chain == sys.node.chain
            && r.issued == [WorkOn(p, cfg, sys.node.chain, t, clock)]
            && Grind(p, r.issued[0], r.issued[0].batch, r.issued[0].header.txRoot).Some?
  {
    hide Collisionless, Configured, SystemOk, Run, Grind, Ready;
    RoundIssued(p, cfg, sys, t, clock);
    RoundGrinds(p, cfg, sys.node.chain, t, clock);
    ReachableOk(p, cfg, sys, OneRound(t, clock));
  }

  lemma FreshOk(p: Protocol, cfg: Settings, store: Store, depth: nat)
    requires Collisionless(p) && Keyed(store)
    ensures SystemOk(p, cfg, Fresh(p, store, depth)) && Idle(Fresh(p, store, depth))
  {
    hide Collisionless, SystemOk;
    StartOk(p, cfg, store, 0, depth);
  }

  /** A reachable state in which the structural check inside a commit fails, once the clock has
      been set back by more than the drift. */
  lemma CommitStops(p: Protocol, cfg: Settings, store: Store, depth: nat, t: SignedTx, clock: nat, now: nat)
    requires Collisionless(p) && Configured(p, cfg) && Keyed(store)
    requires Ready(p, cfg, NewChain(p, store, 0, depth), t, clock)
    requires now + MAX_BLOCK_FUTURE_DRIFT_MS < clock
    ensures var sys := Run(p, cfg, Fresh(p, store, depth), OneRound(t, clock));
            && SystemOk(p, cfg, sys) && |sys.issued| == 1
            && var r := Grind(p, sys.issued[0], sys.issued[0].batch, sys.issued[0].header.txRoot);
               r.Some? && StructureError(p, r.value.0, 0, now).Some?
  {
    hide Collisionless, Configured, SystemOk, Run, Grind, Ready, StructureError;
    FreshOk(p, cfg, store, depth);
    Issued(p, cfg, Fresh(p, store, depth), t, clock);
    var sys := Run(p, cfg, Fresh(p, store, depth), OneRound(t, clock));
    IssuedWork(p, cfg, sys, 0);
    CommitStopsOnlyOnTime(p, cfg, sys.node.chain, sys.issued[0], now);
  }

  /** One round of an idle node whose clock has not passed the head's time, and its block: the node
      makes it its head, and every chain that holds the old head refuses it for ever. */
  lemma RoundRefused(p: Protocol, cfg: Settings, sys: System, t: SignedTx, clock: nat, now: nat)
    requires Collisionless(p) && Configured(p, cfg) && SystemOk(p, cfg, sys) && Idle(sys) && Ready(p, cfg, sys.node.chain, t, clock)
    requires clock <= sys.node.chain.blocks[sys.node.chain.head].header.timestamp && clock <= now + MAX_BLOCK_FUTURE_DRIFT_MS
    ensures var mid, c := Run(p, cfg, sys, OneRound(t, clock)), sys.node.chain;
            && |mid.issued| == 1
            && var r := Grind(p, mid.issued[0], mid.issued[0].batch, mid.issued[0].header.txRoot);
               && r.Some?
               && Step(p, cfg, mid, Solved(0, now)).node.chain.head == p.headerHash(r.value.0.header)
               && forall e, later :: Holds(e, c.head, c.blocks[c.head].header) ==> Judge(p, e, r.value.0, later).Err?
  {
    hide Collisionless, Configured, SystemOk, Run, Grind, Ready, Judge, Step, Holds;
    Issued(p, cfg, sys, t, clock);
    CommitsAnyway(p, cfg, Run(p, cfg, sys, OneRound(t, clock)), 0, now);
  }

  /** It does occur: a peer's block, within the drift but ahead of the local clock, has become the
      head of a node that then mines by its own clock. */
  lemma HeadRefused(
    p: Protocol, cfg: Settings, store: Store, depth: nat, b: Block, seen: nat, t: SignedTx, clock: nat, now: nat)
    requires Collisionless(p) && Configured(p, cfg) && Keyed(store)
    requires Judge(p, NewChain(p, store, 0, depth), b, seen).Ok?
    requires var c := ApplyBlock(p, NewChain(p, store, 0, depth), b, seen);
             HasHead(c) && Ready(p, cfg, c, t, clock)
    requires clock <= b.header.timestamp && clock <= now + MAX_BLOCK_FUTURE_DRIFT_MS
    ensures var mid := Run(p, cfg, Step(p, cfg, Fresh(p, store, depth), Arrival(b, seen)), OneRound(t, clock));
            && |mid.issued| == 1
            && var r := Grind(p, mid.issued[0], mid.issued[0].batch, mid.issued[0].header.txRoot);
               && r.Some?
               && Step(p, cfg, mid, Solved(0, now)).node.chain.head == p.headerHash(r.value.0.header)
               && forall e, later :: Holds(e, p.headerHash(b.header), b.header) ==> Judge(p, e, r.value.0, later).Err?
  {
    hide Collisionless, Configured, SystemOk, Run, Grind, Ready, Holds, Replay, WellFormed, StructureError;
    var start := Fresh(p, store, depth);
    var sys := Step(p, cfg, start, Arrival(b, seen));
    FreshOk(p, cfg, store, depth);
    StepKeeps(p, cfg, start, Arrival(b, seen));
    ArrivesIdle(p, cfg, store, depth, b, seen);
    RoundRefused(p, cfg, sys, t, clock, now);
  }

  lemma ArrivesIdle(p: Protocol, cfg: Settings, store: Store, depth: nat, b: Block, seen: nat)
    requires Judge(p, NewChain(p, store, 0, depth), b, seen).Ok?
    ensures var sys := Step(p, cfg, Fresh(p, store, depth), Arrival(b, seen));
            && Idle(sys) && sys.node.chain == ApplyBlock(p, NewChain(p, store, 0, depth), b, seen)
            && sys.node.chain.head == p.headerHash(b.header) && sys.node.chain.blocks[sys.node.chain.head] == b
  {
    hide Replay, WellFormed, StructureError, ValidAgainst;
  }
}
