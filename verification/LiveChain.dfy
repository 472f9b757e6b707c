/** The chain state as the node keeps it, updated in place. */
module LiveChain {
  import opened MeowTypes
  import opened Ledger
  import opened Chain

  /** The structural check, with the digests seen so far kept in a set. */
  method ValidateStructure(p: Protocol, b: Block, difficulty: nat, now: nat) returns (e: Option<ChainError>)
    ensures e == StructureError(p, b, difficulty, now)
  {
    if b.txs == [] { return Some(EmptyBlock); }
    if |b.txs| > MAX_TRANSACTIONS_PER_BLOCK { return Some(TooManyTransactions); }
    var seen: set<Digest> := {};
    for i := 0 to |b.txs|
      invariant forall d :: d in seen <==> d in Digests(p, b.txs)[..i]
      invariant NoDuplicates(Digests(p, b.txs)[..i])
    {
      var digest := p.txDigest(b.txs[i].tx);
      if digest in seen {
        assert exists j :: 0 <= j < i && Digests(p, b.txs)[j] == Digests(p, b.txs)[i];
        return Some(DuplicateTransaction);
      }
      seen := seen + {digest};
      assert Digests(p, b.txs)[..i + 1] == Digests(p, b.txs)[..i] + [digest];
    }
    assert Digests(p, b.txs)[..|b.txs|] == Digests(p, b.txs);
    if b.header.timestamp > now + MAX_BLOCK_FUTURE_DRIFT_MS { return Some(TimestampTooFarInFuture); }
    if |b.results| != |b.txs| { return Some(ResultsCountMismatch); }
    if b.reward.Some? != b.rewardResult.Some? { return Some(InconsistentReward); }
    if b.header.height > 0 && !MeetsDifficulty(p, b.header, difficulty) { return Some(PowCheckFailed); }
    if p.txRoot(Digests(p, b.txs)) != b.header.txRoot { return Some(TransactionsRootMismatch); }
    if RewardRoot(p, b.reward) != b.header.rewardRoot { return Some(RewardRootMismatch); }
    return None;
  }

  /** Re-execute the transactions and the reward of a block on a copy of the parent's store. */
  method ReExecute(p: Protocol, b: Block, parent: Store) returns (r: Result<Store>)
    ensures r == Replay(p, b, parent)
  {
    hide Apply, Keyed;
    var store, results := parent, [];
    var seed := MiningHash(p, b.header);
    for i := 0 to |b.txs|
      invariant RunAll(p, b.txs[..i], parent, seed, b.header.timestamp) == Some((store, results))
    {
      assert b.txs[..i + 1][..i] == b.txs[..i];
      var result := p.execute(b.txs[i].tx, store, seed, b.header.timestamp);
      if result.None? {
        assert RunAll(p, b.txs[..i + 1], parent, seed, b.header.timestamp).None?;
        RefusalStops(p, b.txs, parent, seed, b.header.timestamp, i + 1);
        return Err(ExecutionFailed);
      }
      store, results := Apply(store, result.value), results + [result.value];
    }
    assert b.txs[..|b.txs|] == b.txs;
    if results != b.results { return Err(ResultsMismatch); }
    if !RewardSettles(p, b, TotalGas(results), store) { return Err(InvalidReward); }
    if b.rewardResult.Some? { store := Apply(store, b.rewardResult.value); }
    if p.stateRoot(store) != b.header.stateRoot { return Err(StateRootMismatch); }
    return Ok(store);
  }

  /** A transaction the executor refuses stops every longer run. */
  lemma {:induction false} RefusalStops(p: Protocol, txs: seq<SignedTx>, s: Store, seed: Digest, time: nat, k: nat)
    requires k <= |txs| && RunAll(p, txs[..k], s, seed, time).None?
    ensures RunAll(p, txs, s, seed, time).None?
  {
    if k < |txs| {
      var init := txs[..|txs| - 1];
      assert init[..k] == txs[..k];
      RefusalStops(p, init, s, seed, time, k);
    } else {
      assert txs[..k] == txs;
    }
  }

  class ChainState {
    const p: Protocol
    const difficulty: nat
    const depth: nat
    var blocks: map<Digest, Block>
    var snapshots: map<Digest, Store>
    var head: Digest

    ghost function Value(): (c: ChainValue)
      reads this
    {
      ChainValue(blocks, snapshots, head, difficulty, depth)
    }

    constructor (p: Protocol, store: Store, difficulty: nat, depth: nat)
      ensures this.p == p && Value() == NewChain(p, store, difficulty, depth)
    {
      this.p, this.difficulty, this.depth := p, difficulty, depth;
      var hash := p.headerHash(GENESIS.header);
      blocks, snapshots, head := map[hash := GENESIS], map[hash := store], hash;
    }

    constructor Anchor(p: Protocol, b: Block, store: Store, difficulty: nat, depth: nat)
      ensures this.p == p && Value() == Anchored(p, b, store, difficulty, depth)
    {
      this.p, this.difficulty, this.depth := p, difficulty, depth;
      var hash := p.headerHash(b.header);
      blocks, snapshots, head := map[hash := b], map[hash := store], hash;
    }

    /** Anchor a chain at a peer's snapshot: it must be higher than the current head, sound on
        its own, and its objects must be the ones its header commits to. */
    static method FromSnapshot(
      p: Protocol, current: nat, b: Block, store: Store, difficulty: nat, depth: nat, now: nat)
      returns (r: Result<ChainState>)
      ensures r.Ok? <==> SnapshotError(p, current, b, store, difficulty, now).None?
      ensures r.Err? ==> Some(r.error) == SnapshotError(p, current, b, store, difficulty, now)
      ensures r.Ok? ==> fresh(r.value) && r.value.p == p
      ensures r.Ok? ==> r.value.Value() == Anchored(p, b, store, difficulty, depth)
    {
      if b.header.height <= current { return Err(SnapshotNotAdvancing); }
      var structure := ValidateStructure(p, b, difficulty, now);
      if structure.Some? { return Err(structure.value); }
      if p.stateRoot(store) != b.header.stateRoot { return Err(StateRootMismatch); }
      var chain := new ChainState.Anchor(p, b, store, difficulty, depth);
      return Ok(chain);
    }

    /** Record a mined block as the new head. The caller answers for its structure. */
    method Commit(b: Block, store: Store, now: nat)
      requires HasHead(Value())
      requires StructureError(p, b, difficulty, now).None?
      modifies this
      ensures Value() == Extend(p, old(Value()), b, store)
    {
      hide WellFormed, StructureError;
      var hash := p.headerHash(b.header);
      blocks, snapshots, head := blocks[hash := b], snapshots[hash := store], hash;
      PruneFinalized();
    }

    /** Drop the blocks and snapshots more than `depth` behind the head. */
    method PruneFinalized()
      requires HasHead(Value())
      modifies this
      ensures Value() == Prune(old(Value()))
    {
      hide Prune;
      var headHeight := blocks[head].header.height;
      if headHeight <= depth {
        PruneRemoves(Value(), {});
        return;
      }
      var cutoff := headHeight - depth;
      var stale := set h | h in blocks && blocks[h].header.height < cutoff;
      PruneRemoves(Value(), stale);
      ghost var all, gone := stale, {};
      while stale != {}
        invariant head == old(head) && gone + stale == all
        invariant blocks == old(blocks) - gone && snapshots == old(snapshots) - gone
        decreases |stale|
      {
        var hash :| hash in stale;
        RemoveOneMore(old(blocks), gone, hash);
        RemoveOneMore(old(snapshots), gone, hash);
        snapshots := snapshots - {hash};
        blocks := blocks - {hash};
        stale := stale - {hash};
        gone := gone + {hash};
      }
    }

    /** Process a peer's block: refused with the first broken rule and no change, or recorded,
        with the head moved to it exactly when it is higher. */
    method ReceiveBlock(b: Block, now: nat) returns (r: Result<bool>)
      requires HasHead(Value())
      modifies this
      ensures Value() == ApplyBlock(p, old(Value()), b, now)
      ensures var verdict := Judge(p, old(Value()), b, now);
              r == if verdict.Ok? then Ok(b.header.height > HeadHeight(old(Value()))) else Err(verdict.error)
    {
      var hash, parent := p.headerHash(b.header), b.header.parent;
      if hash in blocks { return Err(AlreadyKnown); }
      if parent !in blocks { return Err(UnknownParent); }
      var structure := ValidateStructure(p, b, difficulty, now);
      if structure.Some? { return Err(structure.value); }
      if b.header.height != blocks[parent].header.height + 1 { return Err(InvalidHeight); }
      if b.header.timestamp <= blocks[parent].header.timestamp { return Err(TimestampNotAdvancing); }
      for i := 0 to |b.txs|
        invariant forall k :: 0 <= k < i ==> p.signedOk(b.txs[k])
        invariant unchanged(this)
      {
        if !p.signedOk(b.txs[i]) { return Err(InvalidSignature); }
      }
      var store := ReExecute(p, b, snapshots[parent]);
      if store.Err? { return Err(store.error); }
      var switch := b.header.height > blocks[head].header.height;
      blocks, snapshots := blocks[hash := b], snapshots[hash := store.value];
      if switch {
        head := hash;
        PruneFinalized();
      }
      return Ok(switch);
    }

    /** The blocks kept from a height on, forks included, in no particular order. */
    method BlocksSince(height: nat) returns (bs: seq<Block>)
      ensures forall b :: b in bs <==> exists h :: h in blocks && blocks[h] == b && b.header.height >= height
    {
      bs := [];
      var left := blocks.Keys;
      while left != {}
        invariant left <= blocks.Keys
        invariant forall b :: b in bs <==> exists h :: h in blocks && h !in left && blocks[h] == b && b.header.height >= height
        decreases |left|
      {
        var h :| h in left;
        ghost var before, were := bs, left;
        left := left - {h};
        if blocks[h].header.height >= height {
          bs := bs + [blocks[h]];
        }
        forall b
          ensures b in bs <==> exists k :: k in blocks && k !in left && blocks[k] == b && b.header.height >= height
        {
          if b in before {
            var k :| k in blocks && k !in were && blocks[k] == b && b.header.height >= height;
            assert k !in left;
          } else if b in bs {
            assert h !in left && blocks[h] == b;
          }
        }
      }
    }

    /** The blocks from the head down through their parents, as far as they are kept. */
    method CanonicalChain(ghost anchor: Digest) returns (chain: seq<Digest>)
      requires Collisionless(p) && Faithful(p, Value(), anchor)
      ensures |chain| > 0 && chain[0] == head
      ensures forall i :: 0 <= i < |chain| ==> chain[i] in blocks
      ensures forall i :: 0 < i < |chain| ==> chain[i] == blocks[chain[i - 1]].header.parent
      ensures blocks[chain[|chain| - 1]].header.parent !in blocks
      ensures forall i :: 0 <= i < |chain| ==> blocks[chain[i]].header.height + i == blocks[head].header.height
    {
      hide Collisionless, Faithful, Replay, WellFormed;
      chain := [];
      var current := head;
      FaithfulHasHead(p, Value(), anchor);
      while current in blocks
        invariant forall i :: 0 <= i < |chain| ==> chain[i] in blocks
        invariant chain == [] ==> current == head
        invariant chain != [] ==> chain[0] == head && current == blocks[chain[|chain| - 1]].header.parent
        invariant forall i :: 0 < i < |chain| ==> chain[i] == blocks[chain[i - 1]].header.parent
        invariant forall i :: 0 <= i < |chain| ==> blocks[chain[i]].header.height + i == blocks[head].header.height
        decreases p.rank(current)
      {
        ParentBelow(p, Value(), anchor, current);
        if chain != [] { ParentBelow(p, Value(), anchor, chain[|chain| - 1]); }
        chain := chain + [current];
        current := blocks[current].header.parent;
      }
    }
  }

  /** Why a peer's snapshot is refused, if it is. */
  function SnapshotError(p: Protocol, current: nat, b: Block, store: Store, difficulty: nat, now: nat)
    : (e: Option<ChainError>)
    ensures e.None? ==> b.header.height > current && WellFormed(p, b, difficulty)
  {
    if b.header.height <= current then Some(SnapshotNotAdvancing)
    else
      var structure := StructureError(p, b, difficulty, now);
      if structure.Some? then structure
      else if p.stateRoot(store) != b.header.stateRoot then Some(StateRootMismatch)
      else None
  }

  lemma RemoveOneMore<K, V>(m: map<K, V>, gone: set<K>, k: K)
    ensures (m - gone) - {k} == m - (gone + {k})
  {
  }

  /** Pruning is the removal of exactly the blocks that are not kept. */
  lemma PruneRemoves(c: ChainValue, stale: set<Digest>)
    requires HasHead(c)
    requires forall h :: h in stale <==> h in c.blocks && !Kept(c, c.blocks[h])
    ensures Prune(c).blocks == c.blocks - stale && Prune(c).snapshots == c.snapshots - stale
    ensures Prune(c).head == c.head && Prune(c).difficulty == c.difficulty && Prune(c).depth == c.depth
  {
  }

  lemma ParentBelow(p: Protocol, c: ChainValue, anchor: Digest, h: Digest)
    requires Collisionless(p) && Faithful(p, c, anchor) && h in c.blocks
    ensures p.rank(c.blocks[h].header.parent) < p.rank(h)
    ensures c.blocks[h].header.parent in c.blocks ==>
              c.blocks[h].header.height == c.blocks[c.blocks[h].header.parent].header.height + 1
  {
    hide Collisionless, Replay, WellFormed;
    RankAbove(p, c.blocks[h].header);
    assert LinkedAt(p, c, h);
  }
}
