/** Grinding a block: solve the nonce, execute, drop what fails, and grind again for the rest. */
module Mining {
  import opened MeowTypes
  import opened Ledger
  import opened Chain

  datatype Work = Work(
    header: Header,
    batch: seq<SignedTx>,
    parentStore: Store,
    difficulty: nat,
    sign: Tx -> SignedTx,
    miner: Address,
    rewardTo: Address)

  /** The key signs reward transactions validly and leaves them as they are. */
  ghost predicate SignsRewards(p: Protocol, w: Work) {
    forall amount: u64, mining: Digest {:trigger MakeReward(w.miner, w.rewardTo, amount, mining)} ::
      var t := MakeReward(w.miner, w.rewardTo, amount, mining);
      w.sign(t).tx == t && p.signedOk(w.sign(t))
  }

  /** The least nonce from `from` on whose mining hash meets the difficulty. */
  function Solve(p: Protocol, h: Header, difficulty: nat, from: u64): (n: Option<u64>)
    ensures n.Some? ==> from <= n.value && MeetsDifficulty(p, h.(nonce := n.value), difficulty)
    ensures n.Some? ==> forall k: u64 :: from <= k < n.value ==> !MeetsDifficulty(p, h.(nonce := k), difficulty)
    ensures n.None? ==> forall k: u64 :: from <= k ==> !MeetsDifficulty(p, h.(nonce := k), difficulty)
    decreases U64_MAX - from
  {
    if MeetsDifficulty(p, h.(nonce := from), difficulty) then Some(from)
    else if from == U64_MAX then None
    else Solve(p, h, difficulty, from + 1)
  }

  /** Close a block over a fully executed batch: the reward for its gas, then the roots. */
  function Seal(p: Protocol, w: Work, h: Header, run: Batch): (r: (Block, Store)) {
    var gas := TotalGas(run.results);
    if gas == 0 then
      var header := h.(rewardRoot := None, stateRoot := p.stateRoot(run.store));
      (Block(header, run.txs, run.results, None, None), run.store)
    else
      var reward := w.sign(MakeReward(w.miner, w.rewardTo, gas, MiningHash(p, h)));
      var result := p.executeReward(reward.tx, run.store);
      var store := Apply(run.store, result);
      var header := h.(rewardRoot := Some(p.txDigest(reward.tx)), stateRoot := p.stateRoot(store));
      (Block(header, run.txs, run.results, Some(reward), Some(result)), store)
  }

  /** Grind with the transactions `txs` under the transactions root `root`. */
  function Grind(p: Protocol, w: Work, txs: seq<SignedTx>, root: Digest): (r: Option<(Block, Store)>)
    decreases |txs|, if root == p.txRoot(Digests(p, txs)) then 0 else 1
  {
    var h := w.header.(txRoot := root, nonce := 0);
    var nonce := Solve(p, h, w.difficulty, 0);
    if nonce.None? then None
    else
      var solved := h.(nonce := nonce.value);
      var run := RunDropping(p, txs, w.parentStore, MiningHash(p, solved), w.header.timestamp);
      var actual := p.txRoot(Digests(p, run.txs));
      if run.txs == [] then None
      else if actual == root then Some(Seal(p, w, solved, run))
      else Grind(p, w, run.txs, actual)
  }

  /** Count the nonce up until the mining hash meets the difficulty or the nonces run out. */
  method GrindNonce(p: Protocol, h: Header, difficulty: nat) returns (solved: Option<Header>)
    ensures var n := Solve(p, h, difficulty, 0);
            solved == if n.None? then None else Some(h.(nonce := n.value))
  {
    var header := h.(nonce := 0);
    while !MeetsDifficulty(p, header, difficulty)
      invariant header == h.(nonce := header.nonce)
      invariant Solve(p, h, difficulty, 0) == Solve(p, h, difficulty, header.nonce)
      decreases U64_MAX - header.nonce
    {
      if header.nonce == U64_MAX { return None; }
      header := header.(nonce := header.nonce + 1);
    }
    return Some(header);
  }

  /** Execute a batch on a copy of the parent store, leaving out what the executor refuses. */
  method ExecuteBatch(p: Protocol, txs: seq<SignedTx>, parent: Store, seed: Digest, time: nat)
    returns (run: Batch)
    ensures run == RunDropping(p, txs, parent, seed, time)
  {
    hide Apply, Keyed;
    var store, executed, results := parent, [], [];
    for i := 0 to |txs|
      invariant RunDropping(p, txs[..i], parent, seed, time) == Batch(store, executed, results)
    {
      assert txs[..i + 1][..i] == txs[..i];
      var result := p.execute(txs[i].tx, store, seed, time);
      if result.Some? {
        store, executed, results := Apply(store, result.value), executed + [txs[i]], results + [result.value];
      }
    }
    assert txs[..|txs|] == txs;
    return Batch(store, executed, results);
  }

  /** The grinding loop. Each round either ends or goes on with fewer transactions, save a
      first round whose header did not commit to its batch. */
  method GrindWork(p: Protocol, w: Work) returns (r: Option<(Block, Store)>)
    ensures r == Grind(p, w, w.batch, w.header.txRoot)
  {
    hide Solve, RunDropping, Seal;
    var surviving := w.batch;
    var header := w.header;
    while true
      invariant header.(nonce := 0) == w.header.(txRoot := header.txRoot, nonce := 0)
      invariant Grind(p, w, w.batch, w.header.txRoot) == Grind(p, w, surviving, header.txRoot)
      decreases |surviving|, if header.txRoot == p.txRoot(Digests(p, surviving)) then 0 else 1
    {
      var solved := GrindNonce(p, header.(nonce := 0), w.difficulty);
      if solved.None? { return None; }
      header := solved.value;
      var run := ExecuteBatch(p, surviving, w.parentStore, MiningHash(p, header), header.timestamp);
      if run.txs == [] { return None; }
      var actual := p.txRoot(Digests(p, run.txs));
      if actual == header.txRoot {
        return Some(Seal(p, w, header, run));
      }
      header := header.(txRoot := actual);
      surviving := run.txs;
    }
  }

  // ------------------------------------------------------------------ soundness

  /** What a mined block is: well formed, closed over the work's parent, and such that a
      validator's replay on the parent store gives the store the miner computed. */
  ghost predicate Mined(p: Protocol, w: Work, b: Block, t: Store) {
    && b.header.height == w.header.height
    && b.header.parent == w.header.parent
    && b.header.timestamp == w.header.timestamp
    && (forall x :: x in b.txs ==> x in w.batch)
    && WellFormed(p, b, w.difficulty)
    && Replay(p, b, w.parentStore) == Ok(t)
  }

  /** Filling in the state and reward roots leaves the mining hash, and so the proof of work. */
  lemma RootsOutsideMiningHash(p: Protocol, h: Header, rewardRoot: Option<Digest>, stateRoot: Digest)
    ensures MiningHash(p, h.(rewardRoot := rewardRoot, stateRoot := stateRoot)) == MiningHash(p, h)
  {
  }

  lemma SealReplays(p: Protocol, w: Work, h: Header, txs: seq<SignedTx>, run: Batch)
    requires SignsRewards(p, w)
    requires run == RunDropping(p, txs, w.parentStore, MiningHash(p, h), h.timestamp)
    ensures var (b, t) := Seal(p, w, h, run);
            Replay(p, b, w.parentStore) == Ok(t)
  {
    hide RunDropping, RunAll, Apply;
    SurvivorsRun(p, txs, w.parentStore, MiningHash(p, h), h.timestamp);
    var gas := TotalGas(run.results);
    if gas != 0 {
      var t := MakeReward(w.miner, w.rewardTo, gas, MiningHash(p, h));
      assert w.sign(t).tx == t && p.signedOk(w.sign(t));
    }
  }

  lemma SealWellFormed(p: Protocol, w: Work, h: Header, run: Batch)
    requires SignsRewards(p, w)
    requires 0 < |run.txs| <= MAX_TRANSACTIONS_PER_BLOCK && |run.results| == |run.txs|
    requires NoDuplicates(Digests(p, run.txs))
    requires MeetsDifficulty(p, h, w.difficulty)
    requires h.txRoot == p.txRoot(Digests(p, run.txs))
    ensures WellFormed(p, Seal(p, w, h, run).0, w.difficulty)
  {
  }

  /** Every block that grinding gives is one its own validator accepts. */
  lemma {:induction false} GrindSound(p: Protocol, w: Work, txs: seq<SignedTx>, root: Digest)
    requires SignsRewards(p, w)
    requires |txs| <= MAX_TRANSACTIONS_PER_BLOCK && NoDuplicates(Digests(p, txs))
    requires forall x :: x in txs ==> x in w.batch
    ensures var r := Grind(p, w, txs, root);
            r.Some? ==> Mined(p, w, r.value.0, r.value.1)
    decreases |txs|, if root == p.txRoot(Digests(p, txs)) then 0 else 1
  {
    hide RunDropping, Replay, WellFormed, Seal, SignsRewards;
    var h := w.header.(txRoot := root, nonce := 0);
    var nonce := Solve(p, h, w.difficulty, 0);
    if nonce.Some? {
      var solved := h.(nonce := nonce.value);
      var run := RunDropping(p, txs, w.parentStore, MiningHash(p, solved), w.header.timestamp);
      SurvivorsDistinct(p, txs, w.parentStore, MiningHash(p, solved), w.header.timestamp);
      var actual := p.txRoot(Digests(p, run.txs));
      if run.txs != [] {
        if actual == root {
          SealReplays(p, w, solved, txs, run);
          SealWellFormed(p, w, solved, run);
          SealHeader(p, w, solved, run);
        } else {
          GrindSound(p, w, run.txs, actual);
        }
      }
    }
  }

  lemma SealHeader(p: Protocol, w: Work, h: Header, run: Batch)
    ensures var b := Seal(p, w, h, run).0;
            && b.header.height == h.height && b.header.parent == h.parent
            && b.header.timestamp == h.timestamp && b.txs == run.txs
  {
  }

  /** Miner and validator agree: a block ground from a batch of at most 256 distinct, signed
      transactions, on a parent the chain knows with the store the work was prepared from, is
      accepted with the very store the miner computed exactly when its time is after the parent's
      and within the drift. Nothing else can make a validator refuse it. */
  lemma MinerAndValidatorAgree(p: Protocol, c: ChainValue, w: Work, now: nat)
    requires HasHead(c) && SignsRewards(p, w)
    requires w.header.parent in c.blocks && w.parentStore == c.snapshots[w.header.parent]
    requires w.difficulty == c.difficulty
    requires w.header.height == c.blocks[w.header.parent].header.height + 1
    requires |w.batch| <= MAX_TRANSACTIONS_PER_BLOCK && NoDuplicates(Digests(p, w.batch))
    requires forall i :: 0 <= i < |w.batch| ==> p.signedOk(w.batch[i])
    ensures var r := Grind(p, w, w.batch, w.header.txRoot);
            var since := c.blocks[w.header.parent].header.timestamp;
            r.Some? && p.headerHash(r.value.0.header) !in c.blocks ==>
              && (Judge(p, c, r.value.0, now).Ok? <==> since < w.header.timestamp <= now + MAX_BLOCK_FUTURE_DRIFT_MS)
              && (Judge(p, c, r.value.0, now).Ok? ==> Judge(p, c, r.value.0, now) == Ok(r.value.1))
  {
    hide Grind, Replay, WellFormed, SignsRewards, Judge;
    GrindSound(p, w, w.batch, w.header.txRoot);
    var r := Grind(p, w, w.batch, w.header.txRoot);
    if r.Some? && p.headerHash(r.value.0.header) !in c.blocks {
      var b := r.value.0;
      forall i | 0 <= i < |b.txs|
        ensures p.signedOk(b.txs[i])
      {
        assert b.txs[i] in w.batch;
      }
      JudgeExact(p, c, b, now, r.value.1);
      var verdict := Judge(p, c, b, now);
      if verdict.Ok? { JudgeExact(p, c, b, now, verdict.value); }
    }
  }
}
