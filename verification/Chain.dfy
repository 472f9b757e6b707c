/** The chain state of a node: known blocks, one store snapshot per block, and the head, with its
    operations as functions on values. */
module Chain {
  import opened MeowTypes
  import opened Ledger

  const MAX_TRANSACTIONS_PER_BLOCK: nat := 256
  const MAX_BLOCK_FUTURE_DRIFT_MS: nat := 120_000

  datatype ChainError =
    | AlreadyKnown | UnknownParent | EmptyBlock | TooManyTransactions | DuplicateTransaction
    | TimestampTooFarInFuture | ResultsCountMismatch | InconsistentReward | PowCheckFailed
    | TransactionsRootMismatch | RewardRootMismatch | InvalidHeight | TimestampNotAdvancing
    | InvalidSignature | ExecutionFailed | ResultsMismatch | InvalidReward | StateRootMismatch
    | SnapshotNotAdvancing

  datatype Result<+T> = Ok(value: T) | Err(error: ChainError)

  datatype ChainValue = ChainValue(
    blocks: map<Digest, Block>, snapshots: map<Digest, Store>, head: Digest,
    difficulty: nat, depth: nat)

  // ------------------------------------------------------------ block rules

  function RewardRoot(p: Protocol, reward: Option<SignedTx>): (r: Option<Digest>) {
    if reward.None? then None else Some(p.txDigest(reward.value.tx))
  }

  /** What a block must satisfy on its own, clock aside. */
  ghost predicate WellFormed(p: Protocol, b: Block, difficulty: nat) {
    && 0 < |b.txs| <= MAX_TRANSACTIONS_PER_BLOCK
    && NoDuplicates(Digests(p, b.txs))
    && |b.results| == |b.txs|
    && b.reward.Some? == b.rewardResult.Some?
    && (b.header.height > 0 ==> MeetsDifficulty(p, b.header, difficulty))
    && b.header.txRoot == p.txRoot(Digests(p, b.txs))
    && b.header.rewardRoot == RewardRoot(p, b.reward)
  }

  predicate TimeAllows(b: Block, now: nat) {
    b.header.timestamp <= now + MAX_BLOCK_FUTURE_DRIFT_MS
  }

  /** The reward settles the block's gas: absent exactly when there is none, otherwise a
      signed mint of the whole amount whose replay gives the result in the block. */
  predicate RewardSettles(p: Protocol, b: Block, gas: u64, s: Store) {
    if gas == 0 then b.reward.None? && b.rewardResult.None?
    else
      && b.reward.Some? && b.rewardResult.Some?
      && p.signedOk(b.reward.value)
      && IsReward(b.reward.value.tx, gas, MiningHash(p, b.header))
      && p.executeReward(b.reward.value.tx, s) == b.rewardResult.value
  }

  function AfterReward(p: Protocol, b: Block, s: Store): (t: Store)
    ensures Keyed(s) ==> Keyed(t)
  {
    if b.rewardResult.None? then s else Apply(s, b.rewardResult.value)
  }

  /** Re-execute a block on its parent's store. */
  function Replay(p: Protocol, b: Block, s: Store): (r: Result<Store>)
    ensures r.Ok? && Keyed(s) ==> Keyed(r.value)
    ensures r.Ok? ==> p.stateRoot(r.value) == b.header.stateRoot
  {
    var run := RunAll(p, b.txs, s, MiningHash(p, b.header), b.header.timestamp);
    if run.None? then Err(ExecutionFailed)
    else if run.value.1 != b.results then Err(ResultsMismatch)
    else if !RewardSettles(p, b, TotalGas(b.results), run.value.0) then Err(InvalidReward)
    else
      var t := AfterReward(p, b, run.value.0);
      if p.stateRoot(t) != b.header.stateRoot then Err(StateRootMismatch) else Ok(t)
  }

  // -------------------------------------------------------------- operations

  function NewChain(p: Protocol, store: Store, difficulty: nat, depth: nat): (c: ChainValue) {
    var h := p.headerHash(GENESIS.header);
    ChainValue(map[h := GENESIS], map[h := store], h, difficulty, depth)
  }

  function Anchored(p: Protocol, b: Block, store: Store, difficulty: nat, depth: nat): (c: ChainValue) {
    var h := p.headerHash(b.header);
    ChainValue(map[h := b], map[h := store], h, difficulty, depth)
  }

  ghost predicate HasHead(c: ChainValue) {
    c.head in c.blocks && c.blocks.Keys == c.snapshots.Keys
  }

  function HeadHeight(c: ChainValue): (n: nat)
    requires c.head in c.blocks
  {
    c.blocks[c.head].header.height
  }

  /** The heights the pruning keeps. */
  predicate Kept(c: ChainValue, b: Block)
    requires c.head in c.blocks
  {
    HeadHeight(c) <= b.header.height + c.depth
  }

  function Prune(c: ChainValue): (d: ChainValue)
    requires HasHead(c)
    ensures HasHead(d)
  {
    c.(blocks := map h | h in c.blocks && Kept(c, c.blocks[h]) :: c.blocks[h],
       snapshots := map h | h in c.snapshots && Kept(c, c.blocks[h]) :: c.snapshots[h])
  }

  function Record(p: Protocol, c: ChainValue, b: Block, s: Store): (d: ChainValue)
    requires HasHead(c)
    ensures HasHead(d)
  {
    var h := p.headerHash(b.header);
    c.(blocks := c.blocks[h := b], snapshots := c.snapshots[h := s])
  }

  /** Take a block as the new head. */
  function Extend(p: Protocol, c: ChainValue, b: Block, s: Store): (d: ChainValue)
    requires HasHead(c)
    ensures HasHead(d)
  {
    Prune(Record(p, c, b, s).(head := p.headerHash(b.header)))
  }

  /** Accept a block that passed every check; only a longer chain moves the head. */
  function Accept(p: Protocol, c: ChainValue, b: Block, s: Store): (d: ChainValue)
    requires HasHead(c)
    ensures HasHead(d)
  {
    if b.header.height > HeadHeight(c) then Extend(p, c, b, s) else Record(p, c, b, s)
  }

  // ------------------------------------------------------------- block checks

  /** The structural check: the first rule a block breaks on its own. */
  function StructureError(p: Protocol, b: Block, difficulty: nat, now: nat): (e: Option<ChainError>)
    ensures e.None? <==> WellFormed(p, b, difficulty) && TimeAllows(b, now)
  {
    if b.txs == [] then Some(EmptyBlock)
    else if |b.txs| > MAX_TRANSACTIONS_PER_BLOCK then Some(TooManyTransactions)
    else if !NoDuplicates(Digests(p, b.txs)) then Some(DuplicateTransaction)
    else if !TimeAllows(b, now) then Some(TimestampTooFarInFuture)
    else if |b.results| != |b.txs| then Some(ResultsCountMismatch)
    else if b.reward.Some? != b.rewardResult.Some? then Some(InconsistentReward)
    else if b.header.height > 0 && !MeetsDifficulty(p, b.header, difficulty) then Some(PowCheckFailed)
    else if p.txRoot(Digests(p, b.txs)) != b.header.txRoot then Some(TransactionsRootMismatch)
    else if RewardRoot(p, b.reward) != b.header.rewardRoot then Some(RewardRootMismatch)
    else None
  }

  /** Every check on a peer's block in order: the store it leads to, or the first refusal. */
  function Judge(p: Protocol, c: ChainValue, b: Block, now: nat): (r: Result<Store>)
    requires c.blocks.Keys == c.snapshots.Keys
  {
    if p.headerHash(b.header) in c.blocks then Err(AlreadyKnown)
    else if b.header.parent !in c.blocks then Err(UnknownParent)
    else
      var structure := StructureError(p, b, c.difficulty, now);
      var parent := c.blocks[b.header.parent].header;
      if structure.Some? then Err(structure.value)
      else if b.header.height != parent.height + 1 then Err(InvalidHeight)
      else if b.header.timestamp <= parent.timestamp then Err(TimestampNotAdvancing)
      else if exists i | 0 <= i < |b.txs| :: !p.signedOk(b.txs[i]) then Err(InvalidSignature)
      else Replay(p, b, c.snapshots[b.header.parent])
  }

  /** Process a peer's block. */
  function ApplyBlock(p: Protocol, c: ChainValue, b: Block, now: nat): (d: ChainValue)
    requires HasHead(c)
    ensures HasHead(d) && d.difficulty == c.difficulty && d.depth == c.depth
  {
    var verdict := Judge(p, c, b, now);
    if verdict.Ok? then Accept(p, c, b, verdict.value) else c
  }

  // -------------------------------------------------------------- invariant

  /** The hash `h` is the hash of a header one below `height`. */
  ghost predicate FollowsHeight(p: Protocol, h: Digest, height: nat) {
    exists g: Header :: p.headerHash(g) == h && g.height + 1 == height
  }

  ghost predicate Indexed(p: Protocol, c: ChainValue) {
    && HasHead(c)
    && (forall h :: h in c.blocks ==> p.headerHash(c.blocks[h].header) == h)
    && (forall h :: h in c.snapshots ==> Keyed(c.snapshots[h]))
  }

  /** The head is the highest block, and nothing more than `depth` below it is kept. */
  ghost predicate HeadHighest(c: ChainValue)
    requires HasHead(c)
  {
    forall h :: h in c.blocks ==>
      c.blocks[h].header.height <= HeadHeight(c) && Kept(c, c.blocks[h])
  }

  /** A block whose parent is kept sits one above it, and its snapshot is what re-executing
      it on the parent's snapshot gives. */
  ghost predicate LinkedAt(p: Protocol, c: ChainValue, h: Digest)
    requires HasHead(c) && h in c.blocks
  {
    var parent := c.blocks[h].header.parent;
    parent in c.blocks ==>
      && c.blocks[h].header.height == c.blocks[parent].header.height + 1
      && Replay(p, c.blocks[h], c.snapshots[parent]) == Ok(c.snapshots[h])
  }

  ghost predicate Linked(p: Protocol, c: ChainValue)
    requires HasHead(c)
  {
    forall h {:trigger LinkedAt(p, c, h)} :: h in c.blocks ==> LinkedAt(p, c, h)
  }

  /** A block whose parent is gone is as low as any block kept. */
  ghost predicate LowIfRoot(c: ChainValue, x: Digest)
    requires x in c.blocks
  {
    c.blocks[x].header.parent !in c.blocks ==>
      forall y :: y in c.blocks ==> c.blocks[x].header.height <= c.blocks[y].header.height
  }

  ghost predicate RootsLowest(c: ChainValue) {
    forall x {:trigger LowIfRoot(c, x)} :: x in c.blocks ==> LowIfRoot(c, x)
  }

  /** Every block other than the anchor was checked against a parent one below it, and every
      block was hashed after the anchor. */
  ghost predicate DescendsAt(p: Protocol, c: ChainValue, anchor: Digest, h: Digest)
    requires h in c.blocks
  {
    && p.rank(anchor) <= p.rank(h)
    && (h != anchor ==> FollowsHeight(p, c.blocks[h].header.parent, c.blocks[h].header.height))
  }

  ghost predicate Descends(p: Protocol, c: ChainValue, anchor: Digest) {
    forall h {:trigger DescendsAt(p, c, anchor, h)} :: h in c.blocks ==> DescendsAt(p, c, anchor, h)
  }

  /** A block above genesis carries its proof of work, commits to its contents, and commits to
      the snapshot kept for it. */
  ghost predicate SealedAt(p: Protocol, c: ChainValue, h: Digest)
    requires HasHead(c) && h in c.blocks
  {
    c.blocks[h].header.height > 0 ==>
      WellFormed(p, c.blocks[h], c.difficulty) && p.stateRoot(c.snapshots[h]) == c.blocks[h].header.stateRoot
  }

  ghost predicate Sealed(p: Protocol, c: ChainValue)
    requires HasHead(c)
  {
    forall h {:trigger SealedAt(p, c, h)} :: h in c.blocks ==> SealedAt(p, c, h)
  }

  ghost predicate Faithful(p: Protocol, c: ChainValue, anchor: Digest) {
    && Indexed(p, c)
    && HeadHighest(c)
    && Linked(p, c)
    && RootsLowest(c)
    && Descends(p, c, anchor)
    && Sealed(p, c)
  }

  lemma NewFaithful(p: Protocol, store: Store, difficulty: nat, depth: nat)
    requires Collisionless(p) && Keyed(store)
    ensures Faithful(p, NewChain(p, store, difficulty, depth), p.headerHash(GENESIS.header))
  {
    hide Collisionless, WellFormed, Replay;
    RankAbove(p, GENESIS.header);
  }

  lemma AnchoredFaithful(p: Protocol, b: Block, store: Store, difficulty: nat, depth: nat)
    requires Collisionless(p) && Keyed(store)
    requires WellFormed(p, b, difficulty) && p.stateRoot(store) == b.header.stateRoot
    ensures Faithful(p, Anchored(p, b, store, difficulty, depth), p.headerHash(b.header))
  {
    hide Collisionless, WellFormed, Replay;
    RankAbove(p, b.header);
  }

  /** A block that is not known has no known children. */
  lemma NoOrphanChildren(p: Protocol, c: ChainValue, anchor: Digest, b: Block, h: Digest)
    requires Collisionless(p)
    requires Faithful(p, c, anchor)
    requires p.headerHash(b.header) !in c.blocks
    requires b.header.parent in c.blocks
    requires b.header.height == c.blocks[b.header.parent].header.height + 1
    requires h in c.blocks
    ensures c.blocks[h].header.parent != p.headerHash(b.header)
  {
    hide Collisionless, WellFormed, Replay;
    var x := c.blocks[h].header;
    RankAbove(p, b.header);
    RankAbove(p, x);
    assert LowIfRoot(c, h);
    assert DescendsAt(p, c, anchor, h) && DescendsAt(p, c, anchor, b.header.parent);
    if h != anchor {
      var g: Header :| p.headerHash(g) == x.parent && g.height + 1 == x.height;
      if p.headerHash(g) == p.headerHash(b.header) {
        HeaderHashInjective(p, g, b.header);
      }
    }
  }

  /** What makes a block fit on top of its parent in the chain, leading to the store `s`. */
  ghost predicate Fits(p: Protocol, c: ChainValue, b: Block, s: Store)
    requires HasHead(c)
  {
    && p.headerHash(b.header) !in c.blocks
    && b.header.parent in c.blocks
    && b.header.height == c.blocks[b.header.parent].header.height + 1
    && WellFormed(p, b, c.difficulty)
    && Replay(p, b, c.snapshots[b.header.parent]) == Ok(s)
  }

  /** The parts of the invariant that speak of one block. */
  ghost predicate SoundAt(p: Protocol, c: ChainValue, anchor: Digest, h: Digest)
    requires HasHead(c) && h in c.blocks
  {
    LinkedAt(p, c, h) && LowIfRoot(c, h) && DescendsAt(p, c, anchor, h) && SealedAt(p, c, h)
  }

  lemma SoundEverywhere(p: Protocol, c: ChainValue, anchor: Digest)
    requires HasHead(c) && forall h {:trigger SoundAt(p, c, anchor, h)} :: h in c.blocks ==> SoundAt(p, c, anchor, h)
    ensures Linked(p, c) && RootsLowest(c) && Descends(p, c, anchor) && Sealed(p, c)
  {
    hide LinkedAt, LowIfRoot, DescendsAt, SealedAt;
    forall h | h in c.blocks
      ensures LinkedAt(p, c, h) && LowIfRoot(c, h) && DescendsAt(p, c, anchor, h) && SealedAt(p, c, h)
    {
      assert SoundAt(p, c, anchor, h);
    }
  }

  lemma SoundThere(p: Protocol, c: ChainValue, anchor: Digest, h: Digest)
    requires HasHead(c) && Linked(p, c) && RootsLowest(c) && Descends(p, c, anchor) && Sealed(p, c) && h in c.blocks
    ensures SoundAt(p, c, anchor, h)
  {
    hide LinkedAt, LowIfRoot, DescendsAt, SealedAt;
  }

  /** The block recorded. */
  lemma RecordedSound(p: Protocol, c: ChainValue, anchor: Digest, b: Block, s: Store)
    requires Collisionless(p) && Faithful(p, c, anchor) && Fits(p, c, b, s)
    ensures SoundAt(p, Record(p, c, b, s), anchor, p.headerHash(b.header))
  {
    hide Collisionless, WellFormed, Replay;
    var parent := b.header.parent;
    RankAbove(p, b.header);
    ReplayKeyed(p, b, c.snapshots[parent]);
    assert DescendsAt(p, c, anchor, parent);
    assert FollowsHeight(p, parent, b.header.height) by {
      assert p.headerHash(c.blocks[parent].header) == parent;
    }
  }

  /** A block that was there. */
  lemma RecordSpares(p: Protocol, c: ChainValue, anchor: Digest, b: Block, s: Store, h: Digest)
    requires Collisionless(p) && Faithful(p, c, anchor) && Fits(p, c, b, s) && h in c.blocks
    ensures SoundAt(p, Record(p, c, b, s), anchor, h)
  {
    hide Collisionless, WellFormed, Replay, FollowsHeight;
    NoOrphanChildren(p, c, anchor, b, h);
    SoundThere(p, c, anchor, h);
    assert LowIfRoot(c, b.header.parent);
  }

  /** Recording a block that fits keeps everything but the head's rank and the pruning. */
  lemma RecordKeeps(p: Protocol, c: ChainValue, anchor: Digest, b: Block, s: Store)
    requires Collisionless(p)
    requires Faithful(p, c, anchor)
    requires Fits(p, c, b, s)
    ensures var d := Record(p, c, b, s);
            && Indexed(p, d) && Linked(p, d) && RootsLowest(d) && Descends(p, d, anchor)
            && Sealed(p, d)
  {
    hide Collisionless, WellFormed, Replay, SoundAt, Linked, RootsLowest, Descends, Sealed;
    var d := Record(p, c, b, s);
    ReplayKeyed(p, b, c.snapshots[b.header.parent]);
    RecordedSound(p, c, anchor, b, s);
    forall h | h in d.blocks ensures SoundAt(p, d, anchor, h) {
      if h in c.blocks { RecordSpares(p, c, anchor, b, s, h); }
    }
    SoundEverywhere(p, d, anchor);
  }

  lemma ReplayKeyed(p: Protocol, b: Block, s: Store)
    requires Keyed(s)
    ensures Replay(p, b, s).Ok? ==> Keyed(Replay(p, b, s).value)
    ensures Replay(p, b, s).Ok? ==> p.stateRoot(Replay(p, b, s).value) == b.header.stateRoot
  {
  }

  /** Pruning behind the highest block keeps the invariant. */
  lemma PruneKeeps(p: Protocol, c: ChainValue, anchor: Digest)
    requires Indexed(p, c) && Linked(p, c) && RootsLowest(c) && Descends(p, c, anchor) && Sealed(p, c)
    requires forall h :: h in c.blocks ==> c.blocks[h].header.height <= HeadHeight(c)
    ensures Faithful(p, Prune(c), anchor)
  {
    hide WellFormed, Replay;
    var d := Prune(c);
    forall h | h in d.blocks
      ensures LinkedAt(p, d, h) && LowIfRoot(d, h) && DescendsAt(p, d, anchor, h) && SealedAt(p, d, h)
    {
      assert LinkedAt(p, c, h) && LowIfRoot(c, h) && DescendsAt(p, c, anchor, h) && SealedAt(p, c, h);
    }
  }

  /** Taking a block that fits above the head as the new head keeps the invariant. */
  lemma ExtendKeeps(p: Protocol, c: ChainValue, anchor: Digest, b: Block, s: Store)
    requires Collisionless(p)
    requires Faithful(p, c, anchor)
    requires Fits(p, c, b, s)
    requires b.header.height > HeadHeight(c)
    ensures Faithful(p, Extend(p, c, b, s), anchor)
  {
    hide Collisionless, WellFormed, Replay, Linked, RootsLowest, Descends, Sealed;
    RecordKeeps(p, c, anchor, b, s);
    var r := Record(p, c, b, s);
    HeadAside(p, r, anchor, p.headerHash(b.header));
    PruneKeeps(p, r.(head := p.headerHash(b.header)), anchor);
  }

  lemma HeadAside(p: Protocol, c: ChainValue, anchor: Digest, head: Digest)
    requires HasHead(c) && Linked(p, c) && RootsLowest(c) && Descends(p, c, anchor) && Sealed(p, c) && head in c.blocks
    ensures var d := c.(head := head); Linked(p, d) && RootsLowest(d) && Descends(p, d, anchor) && Sealed(p, d)
  {
    hide WellFormed, Replay, FollowsHeight;
    var d := c.(head := head);
    forall h | h in d.blocks ensures SoundAt(p, d, anchor, h) { SoundThere(p, c, anchor, h); }
    SoundEverywhere(p, d, anchor);
  }

  /** A block passes every check against the chain, and leads to the store `s`. */
  ghost predicate Admissible(p: Protocol, c: ChainValue, b: Block, now: nat, s: Store)
    requires HasHead(c)
  {
    && Fits(p, c, b, s)
    && TimeAllows(b, now)
    && b.header.timestamp > c.blocks[b.header.parent].header.timestamp
    && (forall i :: 0 <= i < |b.txs| ==> p.signedOk(b.txs[i]))
  }

  lemma AcceptKeeps(p: Protocol, c: ChainValue, anchor: Digest, b: Block, s: Store)
    requires Collisionless(p)
    requires Faithful(p, c, anchor)
    requires Fits(p, c, b, s)
    ensures Faithful(p, Accept(p, c, b, s), anchor)
    ensures HeadHeight(Accept(p, c, b, s)) >= HeadHeight(c)
    ensures Accept(p, c, b, s).head != c.head ==> HeadHeight(Accept(p, c, b, s)) > HeadHeight(c)
  {
    hide Collisionless, WellFormed, Replay;
    if b.header.height > HeadHeight(c) {
      ExtendKeeps(p, c, anchor, b, s);
    } else {
      RecordKeeps(p, c, anchor, b, s);
    }
  }

  /** The checks pass exactly for admissible blocks, and find the store they lead to. */
  lemma JudgeExact(p: Protocol, c: ChainValue, b: Block, now: nat, s: Store)
    requires HasHead(c)
    ensures Judge(p, c, b, now) == Ok(s) <==> Admissible(p, c, b, now, s)
  {
    hide WellFormed, Replay;
  }

  /** Processing any block keeps the invariant, and the head only ever moves higher. */
  lemma ApplyKeeps(p: Protocol, c: ChainValue, anchor: Digest, b: Block, now: nat)
    requires Collisionless(p)
    requires Faithful(p, c, anchor)
    ensures Faithful(p, ApplyBlock(p, c, b, now), anchor)
    ensures ApplyBlock(p, c, b, now).head == c.head
         || HeadHeight(ApplyBlock(p, c, b, now)) > HeadHeight(c)
  {
    hide Collisionless, WellFormed, Replay, Faithful, Judge;
    assert HasHead(c) by { FaithfulHasHead(p, c, anchor); }
    var verdict := Judge(p, c, b, now);
    if verdict.Ok? {
      JudgeExact(p, c, b, now, verdict.value);
      AcceptKeeps(p, c, anchor, b, verdict.value);
    }
  }

  lemma FaithfulHasHead(p: Protocol, c: ChainValue, anchor: Digest)
    requires Faithful(p, c, anchor)
    ensures HasHead(c)
  {
  }

  // ------------------------------------------------------------------- forks

  /** Known blocks, each the parent of the next. */
  ghost predicate Path(c: ChainValue, path: seq<Digest>) {
    && |path| > 0
    && (forall i :: 0 <= i < |path| ==> path[i] in c.blocks)
    && (forall i :: 0 < i < |path| ==> c.blocks[path[i]].header.parent == path[i - 1])
  }

  function ReplayPath(p: Protocol, c: ChainValue, path: seq<Digest>, s: Store): (r: Result<Store>)
    requires forall i :: 0 <= i < |path| ==> path[i] in c.blocks
  {
    if path == [] then Ok(s)
    else
      var before := ReplayPath(p, c, path[..|path| - 1], s);
      if before.Err? then before else Replay(p, c.blocks[path[|path| - 1]], before.value)
  }

  /** A snapshot restore equals replay: from any kept ancestor, re-executing the blocks up to
      any kept block, on any branch, ends in the snapshot recorded for that block. */
  lemma {:induction false} SnapshotIsReplay(p: Protocol, c: ChainValue, anchor: Digest, path: seq<Digest>)
    requires Faithful(p, c, anchor)
    requires Path(c, path)
    ensures ReplayPath(p, c, path[1..], c.snapshots[path[0]]) == Ok(c.snapshots[path[|path| - 1]])
    ensures c.blocks[path[|path| - 1]].header.height == c.blocks[path[0]].header.height + |path| - 1
  {
    hide WellFormed, Replay;
    if |path| > 1 {
      var init := path[..|path| - 1];
      SnapshotIsReplay(p, c, anchor, init);
      assert init[1..] == path[1..][..|path[1..]| - 1];
      assert LinkedAt(p, c, path[|path| - 1]);
    }
  }
}
