/** Which transactions of a batch end up in a block: all but those the executor refuses when their
    turn comes. */
module Batches {
  import opened MeowTypes
  import opened Ledger
  import opened Chain
  import opened Mining
  import opened Order

  // -------------------------------------------------------------------- survivors

  /** Strictly increasing places below `n`. */
  ghost predicate Places(idx: seq<nat>, n: nat) {
    && (forall k | 0 <= k < |idx| :: idx[k] < n)
    && (forall j, k | 0 <= j < k < |idx| :: idx[j] < idx[k])
  }

  ghost function Pick<T>(xs: seq<T>, idx: seq<nat>): (r: seq<T>)
    requires Places(idx, |xs|)
    ensures |r| == |idx| && forall k | 0 <= k < |idx| :: r[k] == xs[idx[k]]
  {
    seq(|idx|, k requires 0 <= k < |idx| => xs[idx[k]])
  }

  /** The place falls strictly between the `k`-th chosen one and the one before it. */
  ghost predicate Between(idx: seq<nat>, k: nat, i: nat) {
    k <= |idx| && (k > 0 ==> idx[k - 1] < i) && (k < |idx| ==> i < idx[k])
  }

  /** The transaction would be refused after the given ones. */
  ghost predicate RefusedAfter(p: Protocol, before: seq<SignedTx>, t: SignedTx, s: Store, seed: Digest, time: nat) {
    var run := RunAll(p, before, s, seed, time);
    run.Some? && p.execute(t.tx, run.value.0, seed, time).None?
  }

  /** The chosen transactions execute one after another, and each of the others is refused after the
      chosen ones before it. */
  ghost predicate Survive(p: Protocol, txs: seq<SignedTx>, idx: seq<nat>, s: Store, seed: Digest, time: nat) {
    && Places(idx, |txs|)
    && RunAll(p, Pick(txs, idx), s, seed, time).Some?
    && forall i: nat, k: nat | i < |txs| && Between(idx, k, i) ::
         RefusedAfter(p, Pick(txs, idx)[..k], txs[i], s, seed, time)
  }

  lemma {:induction false} PlacesFit(idx: seq<nat>, n: nat)
    requires Places(idx, n)
    ensures |idx| <= n
    decreases |idx|
  {
    if idx != [] {
      var m := |idx| - 1;
      PlacesFit(idx[..m], idx[m]);
    }
  }

  lemma PickInit<T>(xs: seq<T>, idx: seq<nat>)
    requires xs != [] && Places(idx, |xs|)
    ensures idx != [] && idx[|idx| - 1] == |xs| - 1 ==>
              Places(idx[..|idx| - 1], |xs| - 1) && Pick(xs, idx)[..|idx| - 1] == Pick(xs[..|xs| - 1], idx[..|idx| - 1])
    ensures (idx == [] || idx[|idx| - 1] != |xs| - 1) ==>
              Places(idx, |xs| - 1) && Pick(xs, idx) == Pick(xs[..|xs| - 1], idx)
  {
  }

  /** The last transaction of the batch is among the chosen ones. */
  ghost predicate LastChosen(txs: seq<SignedTx>, idx: seq<nat>) {
    txs != [] && idx != [] && idx[|idx| - 1] == |txs| - 1
  }

  ghost function Earlier(txs: seq<SignedTx>, idx: seq<nat>): (r: seq<nat>) {
    if LastChosen(txs, idx) then idx[..|idx| - 1] else idx
  }

  lemma ChosenInit(p: Protocol, txs: seq<SignedTx>, idx: seq<nat>, s: Store, seed: Digest, time: nat)
    requires Survive(p, txs, idx, s, seed, time) && LastChosen(txs, idx)
    ensures Survive(p, txs[..|txs| - 1], idx[..|idx| - 1], s, seed, time)
  {
    hide RunAll, RefusedAfter;
    var n, m := |txs| - 1, |idx| - 1;
    var init := idx[..m];
    PickInit(txs, idx);
    RunsInit(p, Pick(txs, idx), s, seed, time);
    forall i: nat, k: nat | i < n && Between(init, k, i)
      ensures RefusedAfter(p, Pick(txs[..n], init)[..k], txs[..n][i], s, seed, time)
    {
      assert Between(idx, k, i);
      assert Pick(txs[..n], init)[..k] == Pick(txs, idx)[..k];
    }
  }

  lemma OtherInit(p: Protocol, txs: seq<SignedTx>, idx: seq<nat>, s: Store, seed: Digest, time: nat)
    requires txs != [] && Survive(p, txs, idx, s, seed, time) && !LastChosen(txs, idx)
    ensures Survive(p, txs[..|txs| - 1], idx, s, seed, time)
  {
    hide RunAll, RefusedAfter;
    var n := |txs| - 1;
    PickInit(txs, idx);
    forall i: nat, k: nat | i < n && Between(idx, k, i)
      ensures RefusedAfter(p, Pick(txs[..n], idx)[..k], txs[..n][i], s, seed, time)
    {
      assert txs[..n][i] == txs[i];
    }
  }

  /** Leaving the last transaction out of consideration leaves a choice for the others. */
  lemma SurviveInit(p: Protocol, txs: seq<SignedTx>, idx: seq<nat>, s: Store, seed: Digest, time: nat)
    requires txs != [] && Survive(p, txs, idx, s, seed, time)
    ensures Survive(p, txs[..|txs| - 1], Earlier(txs, idx), s, seed, time)
  {
    hide Survive;
    if LastChosen(txs, idx) {
      ChosenInit(p, txs, idx, s, seed, time);
    } else {
      OtherInit(p, txs, idx, s, seed, time);
    }
  }

  lemma RunsInit(p: Protocol, txs: seq<SignedTx>, s: Store, seed: Digest, time: nat)
    requires txs != [] && RunAll(p, txs, s, seed, time).Some?
    ensures RunAll(p, txs[..|txs| - 1], s, seed, time).Some?
    ensures p.execute(txs[|txs| - 1].tx, RunAll(p, txs[..|txs| - 1], s, seed, time).value.0, seed, time).Some?
  {
  }

  lemma DropStep(p: Protocol, txs: seq<SignedTx>, s: Store, seed: Digest, time: nat)
    requires txs != []
    ensures var n := |txs| - 1;
            var kept := RunDropping(p, txs[..n], s, seed, time).txs;
            && RunAll(p, kept, s, seed, time).Some?
            && RunDropping(p, txs, s, seed, time).txs
               == kept + if p.execute(txs[n].tx, RunAll(p, kept, s, seed, time).value.0, seed, time).Some? then [txs[n]] else []
  {
    hide RunAll, Apply;
    SurvivorsRun(p, txs[..|txs| - 1], s, seed, time);
  }

  lemma NoneSurvive(p: Protocol, txs: seq<SignedTx>, idx: seq<nat>, s: Store, seed: Digest, time: nat)
    requires txs == [] && Places(idx, |txs|)
    ensures RunDropping(p, txs, s, seed, time).txs == Pick(txs, idx)
  {
    PlacesFit(idx, 0);
  }

  /** Dropping what is refused leaves exactly the survivors. */
  lemma {:induction false} DropsOnlyRefused(p: Protocol, txs: seq<SignedTx>, idx: seq<nat>, s: Store, seed: Digest, time: nat)
    requires Survive(p, txs, idx, s, seed, time)
    ensures RunDropping(p, txs, s, seed, time).txs == Pick(txs, idx)
  {
    hide RunAll, Survive, RunDropping;
    SurvivePlaces(p, txs, idx, s, seed, time);
    if txs == [] {
      NoneSurvive(p, txs, idx, s, seed, time);
    } else {
      var n := |txs| - 1;
      SurviveInit(p, txs, idx, s, seed, time);
      DropsOnlyRefused(p, txs[..n], Earlier(txs, idx), s, seed, time);
      LastTurn(p, txs, idx, s, seed, time);
      PickInit(txs, idx);
      DropStep(p, txs, s, seed, time);
    }
  }

  lemma SurvivePlaces(p: Protocol, txs: seq<SignedTx>, idx: seq<nat>, s: Store, seed: Digest, time: nat)
    requires Survive(p, txs, idx, s, seed, time)
    ensures Places(idx, |txs|) && RunAll(p, Pick(txs, idx), s, seed, time).Some?
  {
  }

  /** The last transaction is chosen exactly when it executes after the other chosen ones. */
  lemma LastTurn(p: Protocol, txs: seq<SignedTx>, idx: seq<nat>, s: Store, seed: Digest, time: nat)
    requires txs != [] && Survive(p, txs, idx, s, seed, time)
    ensures var n := |txs| - 1;
            && Places(Earlier(txs, idx), n)
            && RunAll(p, Pick(txs[..n], Earlier(txs, idx)), s, seed, time).Some?
            && (p.execute(txs[n].tx, RunAll(p, Pick(txs[..n], Earlier(txs, idx)), s, seed, time).value.0, seed, time).Some?
                <==> LastChosen(txs, idx))
  {
    hide RunAll, Survive;
    PickInit(txs, idx) by { SurvivePlaces(p, txs, idx, s, seed, time); }
    SurvivePlaces(p, txs, idx, s, seed, time);
    if LastChosen(txs, idx) {
      RunsInit(p, Pick(txs, idx), s, seed, time);
    } else {
      LastRefused(p, txs, idx, s, seed, time);
    }
  }

  lemma LastRefused(p: Protocol, txs: seq<SignedTx>, idx: seq<nat>, s: Store, seed: Digest, time: nat)
    requires txs != [] && Survive(p, txs, idx, s, seed, time) && !LastChosen(txs, idx)
    ensures Places(idx, |txs|) && RefusedAfter(p, Pick(txs, idx), txs[|txs| - 1], s, seed, time)
  {
    hide RunAll, RefusedAfter;
    var n := |txs| - 1;
    assert Between(idx, |idx|, n);
    assert RefusedAfter(p, Pick(txs, idx)[..|idx|], txs[n], s, seed, time);
    assert Pick(txs, idx)[..|idx|] == Pick(txs, idx);
  }

  /** There are survivors of every batch. */
  lemma {:induction false} SurvivorsExist(p: Protocol, txs: seq<SignedTx>, s: Store, seed: Digest, time: nat)
    returns (idx: seq<nat>)
    ensures Survive(p, txs, idx, s, seed, time)
  {
    if txs == [] {
      idx := [];
      assert Pick(txs, idx) == [];
    } else {
      var n := |txs| - 1;
      var before := SurvivorsExist(p, txs[..n], s, seed, time);
      if p.execute(txs[n].tx, RunAll(p, Pick(txs[..n], before), s, seed, time).value.0, seed, time).Some? {
        idx := before + [n];
        ChosenSurvives(p, txs, before, s, seed, time);
      } else {
        idx := before;
        RefusedSurvives(p, txs, before, s, seed, time);
      }
    }
  }

  lemma ChosenSurvives(p: Protocol, txs: seq<SignedTx>, before: seq<nat>, s: Store, seed: Digest, time: nat)
    requires txs != [] && Survive(p, txs[..|txs| - 1], before, s, seed, time)
    requires p.execute(txs[|txs| - 1].tx, RunAll(p, Pick(txs[..|txs| - 1], before), s, seed, time).value.0, seed, time).Some?
    ensures Survive(p, txs, before + [|txs| - 1], s, seed, time)
  {
    hide RunAll, RefusedAfter;
    var n := |txs| - 1;
    var idx := before + [n];
    assert Pick(txs, idx) == Pick(txs[..n], before) + [txs[n]];
    RunsSnoc(p, Pick(txs[..n], before), txs[n], s, seed, time);
    forall i: nat, k: nat | i < |txs| && Between(idx, k, i)
      ensures RefusedAfter(p, Pick(txs, idx)[..k], txs[i], s, seed, time)
    {
      assert Between(before, k, i);
      assert txs[..n][i] == txs[i];
      assert Pick(txs, idx)[..k] == Pick(txs[..n], before)[..k];
    }
  }

  lemma RefusedSurvives(p: Protocol, txs: seq<SignedTx>, idx: seq<nat>, s: Store, seed: Digest, time: nat)
    requires txs != [] && Survive(p, txs[..|txs| - 1], idx, s, seed, time)
    requires p.execute(txs[|txs| - 1].tx, RunAll(p, Pick(txs[..|txs| - 1], idx), s, seed, time).value.0, seed, time).None?
    ensures Survive(p, txs, idx, s, seed, time)
  {
    hide RunAll;
    var n := |txs| - 1;
    assert Pick(txs, idx) == Pick(txs[..n], idx);
    forall i: nat, k: nat | i < |txs| && Between(idx, k, i)
      ensures RefusedAfter(p, Pick(txs, idx)[..k], txs[i], s, seed, time)
    {
      if i < n {
        assert txs[..n][i] == txs[i];
      } else {
        assert k == |idx|;
        assert Pick(txs, idx)[..k] == Pick(txs, idx);
      }
    }
  }

  lemma RunsSnoc(p: Protocol, txs: seq<SignedTx>, t: SignedTx, s: Store, seed: Digest, time: nat)
    requires RunAll(p, txs, s, seed, time).Some?
    ensures RunAll(p, txs + [t], s, seed, time).Some? <==> p.execute(t.tx, RunAll(p, txs, s, seed, time).value.0, seed, time).Some?
  {
    assert (txs + [t])[..|txs|] == txs;
  }

  /** Nothing is dropped from a batch exactly when all of it executes. */
  lemma {:induction false} NothingDropped(p: Protocol, txs: seq<SignedTx>, s: Store, seed: Digest, time: nat)
    ensures RunDropping(p, txs, s, seed, time).txs == txs <==> RunAll(p, txs, s, seed, time).Some?
  {
    SurvivorsRun(p, txs, s, seed, time);
    if txs != [] && RunAll(p, txs, s, seed, time).Some? {
      var init := txs[..|txs| - 1];
      NothingDropped(p, init, s, seed, time);
      SurvivorsRun(p, init, s, seed, time);
      assert init + [txs[|txs| - 1]] == txs;
    }
  }

  // --------------------------------------------------------------------- grinding

  /** The executor refused the transaction in some round of the work: on the parent store, after
      other transactions of the batch. */
  ghost predicate RefusedIn(p: Protocol, w: Work, t: SignedTx) {
    exists before, seed :: RefusedAfter(p, before, t, w.parentStore, seed, w.header.timestamp)
  }

  /** Whatever a round drops, it drops because the executor refused it. */
  lemma {:induction false} DroppedRefused(p: Protocol, txs: seq<SignedTx>, s: Store, seed: Digest, time: nat, t: SignedTx)
    requires t in txs && t !in RunDropping(p, txs, s, seed, time).txs
    ensures exists before :: RefusedAfter(p, before, t, s, seed, time)
  {
    hide RunAll, RunDropping;
    DropStep(p, txs, s, seed, time);
    var n := |txs| - 1;
    var kept := RunDropping(p, txs[..n], s, seed, time).txs;
    if t == txs[n] && p.execute(t.tx, RunAll(p, kept, s, seed, time).value.0, seed, time).None? {
      assert RefusedAfter(p, kept, t, s, seed, time);
    } else {
      DroppedRefused(p, txs[..n], s, seed, time, t);
    }
  }

  lemma {:induction false} DroppedInOrder(p: Protocol, txs: seq<SignedTx>, s: Store, seed: Digest, time: nat)
    ensures Subsequence(RunDropping(p, txs, s, seed, time).txs, txs)
  {
    hide RunAll, Apply, Subsequence;
    if txs == [] {
      Nothing(txs);
    } else {
      var init, last := txs[..|txs| - 1], [txs[|txs| - 1]];
      assert txs == init + last;
      DroppedInOrder(p, init, s, seed, time);
      var kept := RunDropping(p, init, s, seed, time).txs;
      Whole(last);
      Nothing(last);
      Joined(kept, init, last, last);
      Joined(kept, init, [], last);
      assert kept + [] == kept;
    }
  }

  /** The block a work unit yields holds transactions of its batch in their order, misses none but
      those the executor refused, and pays its gas to the account the miner chose. */
  ghost predicate Complete(p: Protocol, w: Work, txs: seq<SignedTx>, b: Block) {
    && Subsequence(b.txs, txs)
    && (forall t | t in txs && t !in b.txs :: RefusedIn(p, w, t))
    && b.reward == if TotalGas(b.results) == 0 then None
                   else Some(w.sign(MakeReward(w.miner, w.rewardTo, TotalGas(b.results), MiningHash(p, b.header))))
  }

  lemma {:induction false} GrindComplete(p: Protocol, w: Work, txs: seq<SignedTx>, root: Digest)
    ensures var r := Grind(p, w, txs, root);
            r.Some? ==> Complete(p, w, txs, r.value.0)
    decreases |txs|, if root == p.txRoot(Digests(p, txs)) then 0 else 1
  {
    hide Solve, RunDropping, Seal, Subsequence, RefusedIn;
    var h := w.header.(txRoot := root, nonce := 0);
    var nonce := Solve(p, h, w.difficulty, 0);
    if nonce.Some? {
      var solved := h.(nonce := nonce.value);
      var seed := MiningHash(p, solved);
      var run := RunDropping(p, txs, w.parentStore, seed, w.header.timestamp);
      DroppedInOrder(p, txs, w.parentStore, seed, w.header.timestamp);
      forall t | t in txs && t !in run.txs ensures RefusedIn(p, w, t) {
        DroppedRefused(p, txs, w.parentStore, seed, w.header.timestamp, t);
        var before :| RefusedAfter(p, before, t, w.parentStore, seed, w.header.timestamp);
        RefusedThen(p, w, t, before, seed);
      }
      var actual := p.txRoot(Digests(p, run.txs));
      if run.txs != [] {
        if actual == root {
          SealPays(p, w, solved, run);
        } else {
          GrindComplete(p, w, run.txs, actual);
          var r := Grind(p, w, run.txs, actual);
          if r.Some? {
            Through(r.value.0.txs, run.txs, txs);
          }
        }
      }
    }
  }

  lemma RefusedThen(p: Protocol, w: Work, t: SignedTx, before: seq<SignedTx>, seed: Digest)
    requires RefusedAfter(p, before, t, w.parentStore, seed, w.header.timestamp)
    ensures RefusedIn(p, w, t)
  {
  }

  lemma SealPays(p: Protocol, w: Work, h: Header, run: Batch)
    ensures var b := Seal(p, w, h, run).0;
            && b.txs == run.txs
            && b.reward == if TotalGas(b.results) == 0 then None
                           else Some(w.sign(MakeReward(w.miner, w.rewardTo, TotalGas(b.results), MiningHash(p, b.header))))
  {
  }

  /** A batch committed to by the header, all of which executes once the nonce is found, becomes a
      block of exactly that batch. */
  lemma WholeBatchMined(p: Protocol, w: Work, nonce: u64)
    requires w.batch != [] && w.header.txRoot == p.txRoot(Digests(p, w.batch))
    requires Solve(p, w.header.(nonce := 0), w.difficulty, 0) == Some(nonce)
    requires RunAll(p, w.batch, w.parentStore, MiningHash(p, w.header.(nonce := nonce)), w.header.timestamp).Some?
    ensures var r := Grind(p, w, w.batch, w.header.txRoot);
            && r.Some? && r.value.0.txs == w.batch && r.value.0.header.nonce == nonce
            && r.value.0.results
               == RunAll(p, w.batch, w.parentStore, MiningHash(p, w.header.(nonce := nonce)), w.header.timestamp).value.1
  {
    hide RunDropping, RunAll, Solve, TotalGas;
    var seed := MiningHash(p, w.header.(nonce := nonce));
    NothingDropped(p, w.batch, w.parentStore, seed, w.header.timestamp);
    SurvivorsRun(p, w.batch, w.parentStore, seed, w.header.timestamp);
    assert w.header.(nonce := 0) == w.header.(txRoot := w.header.txRoot, nonce := 0);
    assert w.header.(nonce := 0).(nonce := nonce) == w.header.(nonce := nonce);
  }

  /** Work comes to nothing only because no nonce solves some header of its height, or because
      every transaction was refused. */
  lemma {:induction false} GrindFails(p: Protocol, w: Work, txs: seq<SignedTx>, root: Digest)
    requires Grind(p, w, txs, root).None?
    ensures (exists root' :: Solve(p, w.header.(txRoot := root', nonce := 0), w.difficulty, 0).None?)
            || forall t | t in txs :: RefusedIn(p, w, t)
    decreases |txs|, if root == p.txRoot(Digests(p, txs)) then 0 else 1
  {
    hide Solve, RunDropping, Seal, RefusedIn;
    var h := w.header.(txRoot := root, nonce := 0);
    var nonce := Solve(p, h, w.difficulty, 0);
    if nonce.Some? {
      var seed := MiningHash(p, h.(nonce := nonce.value));
      var run := RunDropping(p, txs, w.parentStore, seed, w.header.timestamp);
      forall t | t in txs && t !in run.txs ensures RefusedIn(p, w, t) {
        DroppedRefused(p, txs, w.parentStore, seed, w.header.timestamp, t);
        var before :| RefusedAfter(p, before, t, w.parentStore, seed, w.header.timestamp);
        RefusedThen(p, w, t, before, seed);
      }
      if run.txs != [] {
        GrindFails(p, w, run.txs, p.txRoot(Digests(p, run.txs)));
      }
    }
  }
}
