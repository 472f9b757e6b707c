/** The miner as the node keeps it, updated in place. */
module LiveNode {
  import opened MeowTypes
  import opened Ledger
  import opened Chain
  import opened LiveChain
  import opened Pool
  import opened Mining
  import opened Node

  class Miner {
    const p: Protocol
    const cfg: Settings
    var chain: ChainState
    var pool: Mempool

    ghost predicate Valid()
      reads this, chain, pool
    {
      chain.p == p && pool.p == p && HasHead(chain.Value())
    }

    ghost function Value(): (n: NodeValue)
      reads this, chain, pool
    {
      NodeValue(chain.Value(), pool.Value())
    }

    constructor (p: Protocol, cfg: Settings, genesis: Store, difficulty: nat, depth: nat)
      ensures Valid() && fresh(chain) && fresh(pool) && this.p == p && this.cfg == cfg
      ensures Value() == NodeValue(NewChain(p, genesis, difficulty, depth), EMPTY)
    {
      this.p, this.cfg := p, cfg;
      chain := new ChainState(p, genesis, difficulty, depth);
      pool := new Mempool(p);
    }

    method SubmitTransaction(t: SignedTx) returns (e: Option<PoolError>)
      requires Valid()
      modifies pool
      ensures Valid()
      ensures e == SubmitError(p, old(Value()).pool, t, HeadStore(old(Value()).chain))
      ensures Value() == SubmitStep(p, old(Value()), t)
    {
      e := pool.Enqueue(t, chain.snapshots[chain.head]);
    }

    /** Take over a peer's snapshot: the chain is anchored there and the pool is emptied. */
    method ReplaceFromSnapshot(b: Block, objects: seq<Object>, now: nat) returns (e: Option<ChainError>)
      requires Valid()
      modifies this
      ensures Valid()
      ensures e.None? <==> RestoreAllowed(p, old(Value()), b, objects, now)
      ensures Value() == RestoreStep(p, old(Value()), b, objects, now)
      ensures e.None? ==> fresh(chain) && fresh(pool)
    {
      var r := ChainState.FromSnapshot(p, chain.blocks[chain.head].header.height, b,
                                       InsertAll(map[], objects), chain.difficulty, chain.depth, now);
      if r.Err? { return Some(r.error); }
      chain := r.value;
      pool := new Mempool(p);
      return None;
    }

    /** Process a peer's block; on a reorganisation keep only the transactions the new head
        still allows. */
    method ReceiveBlock(b: Block, now: nat) returns (r: Result<bool>)
      requires Valid()
      modifies chain, pool
      ensures Valid()
      ensures Value() == ArrivalStep(p, old(Value()), b, now)
      ensures r.Ok? <==> Judge(p, old(Value()).chain, b, now).Ok?
    {
      hide ApplyBlock, Judge, RetainValid;
      r := chain.ReceiveBlock(b, now);
      if r == Ok(true) {
        pool.Retain(chain.snapshots[chain.head]);
      }
    }

    /** Hand out work on the current head once enough transactions are pending. */
    method PrepareRound(now: nat) returns (w: Option<Work>)
      requires Valid()
      modifies pool
      ensures Valid()
      ensures w == if RoundReady(cfg, old(Value())) then Some(Prepared(p, cfg, old(Value()), now)) else None
      ensures Value() == RoundStep(p, cfg, old(Value()))
    {
      if |pool.pending| < cfg.batchSize { return None; }
      var batch := pool.TakeBatch(cfg.batchSize);
      var height := chain.blocks[chain.head].header.height + 1;
      var header := Header(height, chain.head, p.txRoot(Digests(p, batch)), None, ZERO_DIGEST, now, 0);
      return Some(Work(header, batch, chain.snapshots[chain.head], chain.difficulty, cfg.sign, cfg.miner, cfg.rewardTo));
    }

    /** Commit a mined block if the head is still its parent, and discard it otherwise. */
    method CommitMined(b: Block, store: Store, now: nat) returns (committed: bool)
      requires Valid()
      requires b.header.parent == chain.head ==> StructureError(p, b, chain.difficulty, now).None?
      modifies chain
      ensures Valid()
      ensures committed == (b.header.parent == old(Value()).chain.head)
      ensures Value() == CommitStep(p, old(Value()), b, store)
    {
      hide StructureError;
      if b.header.parent != chain.head { return false; }
      chain.Commit(b, store, now);
      return true;
    }
  }
}
