/** Objects, transactions, blocks and the deterministic part of block processing that a
    miner and a validator share. */
module Ledger {
  import opened MeowTypes

  /** Digests are only compared, so a number stands for the 32 bytes. */
  datatype Digest = Digest(id: nat)

  const ZERO_DIGEST: Digest := Digest(0)
  const ZERO_ADDRESS: Address := 0

  // ---------------------------------------------------------------- objects

  /** What an object holds: a published module, or a struct instance of a declared type. */
  datatype Content =
    | ModuleCode(code: Module)
    | Instance(decl: Name, fields: seq<Field>)

  datatype Owner = Immutable | OwnedBy(addr: Address)

  datatype Object = Object(
    addr: Address, owner: Owner, tx: Digest, version: u64, content: Content)

  datatype ObjectRef = ObjectRef(addr: Address, version: u64, digest: Digest)

  /** The live objects, indexed by their address. */
  type Store = map<Address, Object>

  ghost predicate Keyed(s: Store) {
    forall a :: a in s ==> s[a].addr == a
  }

  // ----------------------------------------------------------- transactions

  datatype RawValue = RawBool(b: bool) | RawU64(n: u64) | RawAddress(a: Address) | RawStr(s: string)

  datatype Input = Raw(raw: RawValue) | ObjectArg(ref: ObjectRef)

  datatype TxKind =
    | MeowCall(mod: Address, fn: string, args: seq<Input>)
    | ModulePublish(code: Module)

  datatype Tx = Tx(sender: Address, gasCoin: ObjectRef, kind: TxKind)

  datatype SignedTx = SignedTx(tx: Tx, signature: nat)

  datatype ExecResult = ExecResult(
    error: Option<string>,
    tx: Digest,
    created: seq<Object>,
    changed: seq<Object>,
    destroyed: seq<Object>,
    gasUsed: u64)

  function InsertAll(s: Store, objs: seq<Object>): (r: Store)
    ensures forall a :: a in r <==> a in s || exists i :: 0 <= i < |objs| && objs[i].addr == a
    ensures Keyed(s) ==> Keyed(r)
  {
    if objs == [] then s
    else
      var rest := InsertAll(s, objs[..|objs| - 1]);
      rest[objs[|objs| - 1].addr := objs[|objs| - 1]]
  }

  function RemoveAll(s: Store, objs: seq<Object>): (r: Store)
    ensures forall a :: a in r <==> a in s && forall i :: 0 <= i < |objs| ==> objs[i].addr != a
    ensures forall a :: a in r ==> r[a] == s[a]
  {
    if objs == [] then s
    else RemoveAll(s, objs[..|objs| - 1]) - {objs[|objs| - 1].addr}
  }

  /** The store after an execution result: created and changed objects are written, destroyed
      ones are dropped. */
  function Apply(s: Store, r: ExecResult): (t: Store)
    ensures Keyed(s) ==> Keyed(t)
  {
    RemoveAll(InsertAll(InsertAll(s, r.created), r.changed), r.destroyed)
  }

  // ----------------------------------------------------------------- blocks

  datatype Header = Header(
    height: nat, parent: Digest, txRoot: Digest, rewardRoot: Option<Digest>,
    stateRoot: Digest, timestamp: nat, nonce: u64)

  /** The part of a header that is ground: the state root and the reward root are not known
      until the nonce is fixed. */
  datatype MiningHeader = MiningHeader(
    height: nat, parent: Digest, txRoot: Digest, timestamp: nat, nonce: u64)

  datatype Block = Block(
    header: Header,
    txs: seq<SignedTx>,
    results: seq<ExecResult>,
    reward: Option<SignedTx>,
    rewardResult: Option<ExecResult>)

  const GENESIS: Block :=
    Block(Header(0, ZERO_DIGEST, ZERO_DIGEST, None, ZERO_DIGEST, 0, 0), [], [], None, None)

  /** Everything the node takes from outside: hashing, signatures and the executor. `rank`
      is a measure that each header hash takes above the parent hash it covers. */
  datatype Protocol = Protocol(
    headerHash: Header -> Digest,
    miningHash: MiningHeader -> Digest,
    leadingZeros: Digest -> nat,
    txDigest: Tx -> Digest,
    objectDigest: Object -> Digest,
    txRoot: seq<Digest> -> Digest,
    stateRoot: Store -> Digest,
    rank: Digest -> nat,
    signedOk: SignedTx -> bool,
    execute: (Tx, Store, Digest, nat) -> Option<ExecResult>,
    executeReward: (Tx, Store) -> ExecResult)

  /** No two inputs share a hash, and no header covers its own hash through its parents. */
  ghost predicate Collisionless(p: Protocol) {
    && (forall a, b :: p.headerHash(a) == p.headerHash(b) ==> a == b)
    && (forall a, b :: p.miningHash(a) == p.miningHash(b) ==> a == b)
    && (forall a, b :: p.txDigest(a) == p.txDigest(b) ==> a == b)
    && (forall a, b :: p.objectDigest(a) == p.objectDigest(b) ==> a == b)
    && (forall a, b :: p.txRoot(a) == p.txRoot(b) ==> a == b)
    && (forall a, b :: Keyed(a) && Keyed(b) && p.stateRoot(a) == p.stateRoot(b) ==> a == b)
    && (forall h: Header {:trigger p.headerHash(h)} :: p.rank(h.parent) < p.rank(p.headerHash(h)))
  }

  lemma HeaderHashInjective(p: Protocol, a: Header, b: Header)
    requires Collisionless(p) && p.headerHash(a) == p.headerHash(b)
    ensures a == b
  {
  }

  lemma RankAbove(p: Protocol, h: Header)
    requires Collisionless(p)
    ensures p.rank(h.parent) < p.rank(p.headerHash(h))
  {
  }

  lemma StateRootInjective(p: Protocol, a: Store, b: Store)
    requires Collisionless(p) && Keyed(a) && Keyed(b) && p.stateRoot(a) == p.stateRoot(b)
    ensures a == b
  {
  }

  function Mining(h: Header): (m: MiningHeader) {
    MiningHeader(h.height, h.parent, h.txRoot, h.timestamp, h.nonce)
  }

  function MiningHash(p: Protocol, h: Header): (d: Digest) {
    p.miningHash(Mining(h))
  }

  predicate MeetsDifficulty(p: Protocol, h: Header, difficulty: nat) {
    p.leadingZeros(MiningHash(p, h)) >= difficulty
  }

  function Digests(p: Protocol, txs: seq<SignedTx>): (ds: seq<Digest>)
    ensures |ds| == |txs|
    ensures forall i :: 0 <= i < |txs| ==> ds[i] == p.txDigest(txs[i].tx)
  {
    seq(|txs|, i requires 0 <= i < |txs| => p.txDigest(txs[i].tx))
  }

  // -------------------------------------------------------------- execution

  /** Run every transaction in turn; the first one the executor refuses stops the block. */
  function RunAll(p: Protocol, txs: seq<SignedTx>, s: Store, seed: Digest, time: nat)
    : (r: Option<(Store, seq<ExecResult>)>)
    ensures r.Some? ==> |r.value.1| == |txs|
    ensures r.Some? && Keyed(s) ==> Keyed(r.value.0)
  {
    if txs == [] then Some((s, []))
    else
      var before := RunAll(p, txs[..|txs| - 1], s, seed, time);
      if before.None? then None
      else
        var result := p.execute(txs[|txs| - 1].tx, before.value.0, seed, time);
        if result.None? then None
        else Some((Apply(before.value.0, result.value), before.value.1 + [result.value]))
  }

  datatype Batch = Batch(store: Store, txs: seq<SignedTx>, results: seq<ExecResult>)

  /** Run every transaction in turn and leave out the ones the executor refuses. */
  function RunDropping(p: Protocol, txs: seq<SignedTx>, s: Store, seed: Digest, time: nat)
    : (r: Batch)
    ensures |r.txs| <= |txs| && |r.results| == |r.txs|
    ensures |r.txs| == |txs| ==> r.txs == txs
    ensures forall t :: t in r.txs ==> t in txs
  {
    if txs == [] then Batch(s, [], [])
    else
      var before := RunDropping(p, txs[..|txs| - 1], s, seed, time);
      var last := txs[|txs| - 1];
      var result := p.execute(last.tx, before.store, seed, time);
      if result.None? then before
      else Batch(Apply(before.store, result.value), before.txs + [last],
                 before.results + [result.value])
  }

  /** The transactions that survive run again, undropped, to the same store and results. */
  lemma {:induction false} SurvivorsRun(p: Protocol, txs: seq<SignedTx>, s: Store, seed: Digest, time: nat)
    ensures var r := RunDropping(p, txs, s, seed, time);
            RunAll(p, r.txs, s, seed, time) == Some((r.store, r.results))
  {
    if txs != [] {
      SurvivorsRun(p, txs[..|txs| - 1], s, seed, time);
      var before := RunDropping(p, txs[..|txs| - 1], s, seed, time);
      var r := RunDropping(p, txs, s, seed, time);
      if r != before {
        assert r.txs[..|r.txs| - 1] == before.txs;
      }
    }
  }

  /** Dropping keeps the order, so distinct transactions stay distinct. */
  lemma {:induction false} SurvivorsDistinct(
    p: Protocol, txs: seq<SignedTx>, s: Store, seed: Digest, time: nat)
    requires NoDuplicates(Digests(p, txs))
    ensures NoDuplicates(Digests(p, RunDropping(p, txs, s, seed, time).txs))
  {
    if txs != [] {
      var init := txs[..|txs| - 1];
      assert Digests(p, init) == Digests(p, txs)[..|txs| - 1];
      SurvivorsDistinct(p, init, s, seed, time);
      var before := RunDropping(p, init, s, seed, time);
      forall i | 0 <= i < |before.txs|
        ensures p.txDigest(before.txs[i].tx) != p.txDigest(txs[|txs| - 1].tx)
      {
        assert before.txs[i] in init;
      }
    }
  }

  predicate NoDuplicates<T(==)>(s: seq<T>) {
    forall i, j :: 0 <= i < j < |s| ==> s[i] != s[j]
  }

  /** Gas totals are sums of unsigned 64-bit numbers. */
  function TotalGas(results: seq<ExecResult>): (t: u64) {
    if results == [] then 0
    else (TotalGas(results[..|results| - 1]) + results[|results| - 1].gasUsed) % (U64_MAX + 1)
  }

  // ----------------------------------------------------------------- reward

  const OBJECT_MODULE: Address := 0x10
  const COIN_MODULE: Address := 0x20
  const MINT: string := "mint"

  function MakeReward(signer: Address, to: Address, amount: u64, mining: Digest): (t: Tx) {
    Tx(signer, ObjectRef(ZERO_ADDRESS, 0, mining), MeowCall(COIN_MODULE, MINT, [Raw(RawU64(amount)), Raw(RawAddress(to))]))
  }

  predicate IsReward(t: Tx, amount: u64, mining: Digest) {
    && t.kind.MeowCall?
    && t.gasCoin == ObjectRef(ZERO_ADDRESS, 0, mining)
    && t.kind.mod == COIN_MODULE
    && t.kind.fn == MINT
    && |t.kind.args| == 2
    && t.kind.args[0] == Raw(RawU64(amount))
    && t.kind.args[1].Raw? && t.kind.args[1].raw.RawAddress?
  }
}
