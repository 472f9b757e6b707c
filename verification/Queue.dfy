/** First in, first out: what the miner hands out over whole runs of the node. */
module Queue {
  import opened MeowTypes
  import opened Ledger
  import opened Order
  import opened Chain
  import opened LiveChain
  import opened Pool
  import opened Mining
  import opened Node

  /** The batches handed out, one after another. */
  function Batches(ws: seq<Work>): (r: seq<SignedTx>) {
    if ws == [] then [] else Batches(ws[..|ws| - 1]) + ws[|ws| - 1].batch
  }

  /** Everything handed out so far, then what still waits. */
  function Line(sys: System): (r: seq<SignedTx>) {
    Batches(sys.issued) + sys.node.pool.pending
  }

  /** The transaction an event puts into the pool. */
  function Entering(p: Protocol, sys: System, ev: Event): (r: seq<SignedTx>)
    requires HasHead(sys.node.chain)
  {
    if ev.Submission? && SubmitError(p, sys.node.pool, ev.t, HeadStore(sys.node.chain)).None? then [ev.t] else []
  }

  function Entered(p: Protocol, cfg: Settings, sys: System, evs: seq<Event>): (r: seq<SignedTx>)
    requires HasHead(sys.node.chain)
  {
    if evs == [] then []
    else
      var init := evs[..|evs| - 1];
      Entered(p, cfg, sys, init) + Entering(p, Run(p, cfg, sys, init), evs[|evs| - 1])
  }

  /** The event replaces the head by a peer's block or snapshot, and so filters the pool. */
  predicate Disturbs(p: Protocol, sys: System, ev: Event)
    requires HasHead(sys.node.chain)
  {
    match ev
    case Arrival(b, now) => Judge(p, sys.node.chain, b, now).Ok? && b.header.height > HeadHeight(sys.node.chain)
    case Restore(b, objects, now) => RestoreAllowed(p, sys.node, b, objects, now)
    case _ => false
  }

  ghost predicate Calm(p: Protocol, cfg: Settings, sys: System, evs: seq<Event>)
    requires HasHead(sys.node.chain)
  {
    evs != [] ==>
      var init := evs[..|evs| - 1];
      Calm(p, cfg, sys, init) && !Disturbs(p, Run(p, cfg, sys, init), evs[|evs| - 1])
  }

  lemma BatchesSnoc(ws: seq<Work>, w: Work)
    ensures Batches(ws + [w]) == Batches(ws) + w.batch
  {
    assert (ws + [w])[..|ws|] == ws;
  }

  lemma RoundCalm(p: Protocol, cfg: Settings, sys: System, now: nat)
    requires HasHead(sys.node.chain)
    ensures Line(Step(p, cfg, sys, Round(now))) == Line(sys)
  {
    hide Batches, Digests, Held;
    var q, w := sys.node.pool.pending, Prepared(p, cfg, sys.node, now);
    if RoundReady(cfg, sys.node) {
      BatchesSnoc(sys.issued, w);
      assert q == w.batch + Drain(p, sys.node.pool, cfg.batchSize).pending;
    } else {
      assert sys.issued + [] == sys.issued;
    }
  }

  lemma StepCalm(p: Protocol, cfg: Settings, sys: System, ev: Event)
    requires HasHead(sys.node.chain) && !Disturbs(p, sys, ev)
    ensures Line(Step(p, cfg, sys, ev)) == Line(sys) + Entering(p, sys, ev)
  {
    hide Judge, ApplyBlock, RestoreAllowed, Grind, Extend, SubmitError, Batches, RetainValid, Prepared, Drain, Digests;
    if ev.Round? {
      RoundCalm(p, cfg, sys, ev.now);
    }
    assert Line(sys) + [] == Line(sys);
    assert ev.Submission? ==> Line(sys) + [ev.t] == Batches(sys.issued) + (sys.node.pool.pending + [ev.t]);
  }

  lemma StepOrdered(p: Protocol, cfg: Settings, sys: System, ev: Event)
    requires HasHead(sys.node.chain)
    ensures Subsequence(Line(Step(p, cfg, sys, ev)), Line(sys) + Entering(p, sys, ev))
  {
    hide Judge, ApplyBlock, RestoreAllowed, Subsequence, StillValid, Batches;
    if !Disturbs(p, sys, ev) {
      StepCalm(p, cfg, sys, ev);
      Whole(Line(sys) + Entering(p, sys, ev));
    } else {
      var q, after := sys.node.pool.pending, Step(p, cfg, sys, ev);
      assert Line(sys) + [] == Line(sys);
      Whole(Batches(sys.issued));
      if ev.Arrival? {
        RetainOrdered(p, q, HeadStore(after.node.chain));
      } else {
        Nothing(q);
      }
      Joined(Batches(sys.issued), Batches(sys.issued), after.node.pool.pending, q);
    }
  }

  /** While the head is not replaced from outside, the batches handed out and the queue are
      together the old line and the accepted submissions, in order. */
  lemma {:induction false} FirstInFirstOut(p: Protocol, cfg: Settings, sys: System, evs: seq<Event>)
    requires HasHead(sys.node.chain) && Calm(p, cfg, sys, evs)
    ensures Line(Run(p, cfg, sys, evs)) == Line(sys) + Entered(p, cfg, sys, evs)
  {
    hide Step, Line, Disturbs, Entering;
    if evs == [] {
      assert Line(sys) + [] == Line(sys);
    } else {
      var init, last := evs[..|evs| - 1], evs[|evs| - 1];
      FirstInFirstOut(p, cfg, sys, init);
      var before := Run(p, cfg, sys, init);
      StepCalm(p, cfg, before, last);
      assert Line(sys) + (Entered(p, cfg, sys, init) + Entering(p, before, last))
          == Line(sys) + Entered(p, cfg, sys, init) + Entering(p, before, last);
    }
  }

  /** Over every run it is that with some left out: nothing overtakes and nothing comes twice. */
  lemma {:induction false} NeverOvertakes(p: Protocol, cfg: Settings, sys: System, evs: seq<Event>)
    requires HasHead(sys.node.chain)
    ensures Subsequence(Line(Run(p, cfg, sys, evs)), Line(sys) + Entered(p, cfg, sys, evs))
  {
    hide Step, Line, Entering, Subsequence;
    if evs == [] {
      assert Line(sys) + [] == Line(sys);
      Whole(Line(sys));
    } else {
      var init, last := evs[..|evs| - 1], evs[|evs| - 1];
      NeverOvertakes(p, cfg, sys, init);
      var before := Run(p, cfg, sys, init);
      var had, more := Line(sys) + Entered(p, cfg, sys, init), Entering(p, before, last);
      StepOrdered(p, cfg, before, last);
      Whole(more);
      Joined(Line(before), had, more, more);
      Through(Line(Step(p, cfg, before, last)), Line(before) + more, had + more);
      assert had + more == Line(sys) + (Entered(p, cfg, sys, init) + more);
    }
  }
}
