/** The pool of pending transactions: a queue and the set of digests in it. */
module Pool {
  import opened MeowTypes
  import opened Ledger
  import opened Order

  const MAX_MEMPOOL_SIZE: nat := 4096

  datatype PoolError =
    | InvalidTransaction | DuplicateTransaction | MempoolFull
    | ObjectNotFound | InvalidObjectVersion | InvalidObjectDigest

  datatype PoolValue = PoolValue(pending: seq<SignedTx>, seen: set<Digest>)

  // ---------------------------------------------------------------- references

  function RefError(p: Protocol, r: ObjectRef, s: Store): (e: Option<PoolError>)
    ensures e.None? <==> Current(p, r, s)
  {
    if r.addr !in s then Some(ObjectNotFound)
    else if s[r.addr].version != r.version then Some(InvalidObjectVersion)
    else if p.objectDigest(s[r.addr]) != r.digest then Some(InvalidObjectDigest)
    else None
  }

  /** The reference names a live object in the version and with the digest it has now. */
  ghost predicate Current(p: Protocol, r: ObjectRef, s: Store) {
    r.addr in s && s[r.addr].version == r.version && p.objectDigest(s[r.addr]) == r.digest
  }

  /** The references of a transaction: its gas coin, then its object arguments. */
  function Refs(t: Tx): (r: seq<ObjectRef>) {
    [t.gasCoin] + if t.kind.MeowCall? then ArgRefs(t.kind.args) else []
  }

  function ArgRefs(args: seq<Input>): (r: seq<ObjectRef>) {
    if args == [] then []
    else (if args[0].ObjectArg? then [args[0].ref] else []) + ArgRefs(args[1..])
  }

  function FirstRefError(p: Protocol, refs: seq<ObjectRef>, s: Store): (e: Option<PoolError>)
    ensures e.None? <==> forall i :: 0 <= i < |refs| ==> Current(p, refs[i], s)
  {
    if refs == [] then None
    else
      var first := RefError(p, refs[0], s);
      if first.Some? then first else FirstRefError(p, refs[1..], s)
  }

  /** Every reference of the transaction is current in the store. */
  predicate ValidAgainst(p: Protocol, t: Tx, s: Store) {
    FirstRefError(p, Refs(t), s).None?
  }

  /** References are checked in order, the gas coin first. */
  method ValidateAgainstStore(p: Protocol, t: Tx, s: Store) returns (e: Option<PoolError>)
    ensures e == FirstRefError(p, Refs(t), s)
  {
    e := RefError(p, t.gasCoin, s);
    if e.Some? { return; }
    assert Refs(t)[1..] == if t.kind.MeowCall? then ArgRefs(t.kind.args) else [];
    if t.kind.MeowCall? {
      var args := t.kind.args;
      for i := 0 to |args|
        invariant FirstRefError(p, Refs(t), s) == FirstRefError(p, ArgRefs(args[i..]), s)
      {
        assert args[i..][1..] == args[i + 1..];
        if args[i].ObjectArg? {
          assert ArgRefs(args[i..])[1..] == ArgRefs(args[i + 1..]);
          e := RefError(p, args[i].ref, s);
          if e.Some? { return; }
        } else {
          assert ArgRefs(args[i..]) == ArgRefs(args[i + 1..]);
        }
      }
    }
    return None;
  }

  // ------------------------------------------------------------------- the pool

  const EMPTY: PoolValue := PoolValue([], {})

  function Held(p: Protocol, txs: seq<SignedTx>): (ds: set<Digest>)
  {
    set i | 0 <= i < |txs| :: p.txDigest(txs[i].tx)
  }

  /** `seen` is exactly the digests of a bounded queue without duplicates, all signed. */
  ghost predicate PoolOk(p: Protocol, m: PoolValue) {
    && m.seen == Held(p, m.pending)
    && NoDuplicates(Digests(p, m.pending))
    && |m.pending| <= MAX_MEMPOOL_SIZE
    && (forall i :: 0 <= i < |m.pending| ==> p.signedOk(m.pending[i]))
  }

  function SubmitError(p: Protocol, m: PoolValue, t: SignedTx, s: Store): (e: Option<PoolError>)
    ensures e.None? <==> (p.signedOk(t) && p.txDigest(t.tx) !in m.seen
                          && |m.pending| < MAX_MEMPOOL_SIZE && ValidAgainst(p, t.tx, s))
  {
    if !p.signedOk(t) then Some(InvalidTransaction)
    else if p.txDigest(t.tx) in m.seen then Some(DuplicateTransaction)
    else if |m.pending| >= MAX_MEMPOOL_SIZE then Some(MempoolFull)
    else FirstRefError(p, Refs(t.tx), s)
  }

  function Submit(p: Protocol, m: PoolValue, t: SignedTx, s: Store): (r: PoolValue) {
    if SubmitError(p, m, t, s).Some? then m
    else PoolValue(m.pending + [t], m.seen + {p.txDigest(t.tx)})
  }

  /** The pending transactions still valid against a store, in order. */
  function StillValid(p: Protocol, txs: seq<SignedTx>, s: Store): (r: seq<SignedTx>)
    ensures forall t :: t in r <==> t in txs && ValidAgainst(p, t.tx, s)
    ensures |r| <= |txs|
  {
    if txs == [] then []
    else
      var init := StillValid(p, txs[..|txs| - 1], s);
      assert txs == txs[..|txs| - 1] + [txs[|txs| - 1]];
      if ValidAgainst(p, txs[|txs| - 1].tx, s) then init + [txs[|txs| - 1]] else init
  }

  function RetainValid(p: Protocol, m: PoolValue, s: Store): (r: PoolValue) {
    var kept := StillValid(p, m.pending, s);
    PoolValue(kept, Held(p, kept))
  }

  function DrainCount(m: PoolValue, limit: nat): (n: nat)
    ensures n <= |m.pending| && n <= limit
  {
    if limit < |m.pending| then limit else |m.pending|
  }

  function Drained(m: PoolValue, limit: nat): (batch: seq<SignedTx>) {
    m.pending[..DrainCount(m, limit)]
  }

  function Drain(p: Protocol, m: PoolValue, limit: nat): (r: PoolValue) {
    PoolValue(m.pending[DrainCount(m, limit)..], m.seen - Held(p, Drained(m, limit)))
  }

  // ------------------------------------------------------------------ invariant

  lemma SubmitKeeps(p: Protocol, m: PoolValue, t: SignedTx, s: Store)
    requires PoolOk(p, m)
    ensures PoolOk(p, Submit(p, m, t, s))
  {
    var r := Submit(p, m, t, s);
    if r != m {
      assert Digests(p, r.pending) == Digests(p, m.pending) + [p.txDigest(t.tx)];
      HeldSnoc(p, m.pending, t);
      forall i | 0 <= i < |m.pending|
        ensures Digests(p, m.pending)[i] != p.txDigest(t.tx)
      {
        assert p.txDigest(m.pending[i].tx) in Held(p, m.pending);
      }
    }
  }

  lemma HeldSnoc(p: Protocol, txs: seq<SignedTx>, t: SignedTx)
    ensures Held(p, txs + [t]) == Held(p, txs) + {p.txDigest(t.tx)}
  {
    forall d
      ensures d in Held(p, txs + [t]) <==> d in Held(p, txs) + {p.txDigest(t.tx)}
    {
      if d in Held(p, txs) {
        var i :| 0 <= i < |txs| && p.txDigest(txs[i].tx) == d;
        assert (txs + [t])[i] == txs[i];
      }
      if d == p.txDigest(t.tx) {
        assert (txs + [t])[|txs|] == t;
      }
    }
  }

  /** Keeping the valid entries keeps their order. */
  lemma {:induction false} RetainOrdered(p: Protocol, txs: seq<SignedTx>, s: Store)
    ensures Subsequence(StillValid(p, txs, s), txs)
  {
    hide Subsequence;
    if txs == [] {
      Nothing(txs);
    } else {
      var init, last := txs[..|txs| - 1], [txs[|txs| - 1]];
      assert txs == init + last;
      RetainOrdered(p, init, s);
      if ValidAgainst(p, last[0].tx, s) {
        Whole(last);
        Joined(StillValid(p, init, s), init, last, last);
      } else {
        Nothing(last);
        Joined(StillValid(p, init, s), init, [], last);
        assert StillValid(p, init, s) + [] == StillValid(p, init, s);
      }
    }
  }

  lemma RetainSnoc(p: Protocol, txs: seq<SignedTx>, t: SignedTx, s: Store)
    ensures StillValid(p, txs + [t], s) == StillValid(p, txs, s) + if ValidAgainst(p, t.tx, s) then [t] else []
  {
    hide ValidAgainst;
    assert (txs + [t])[..|txs|] == txs;
  }

  /** Keeping the valid entries is idempotent. */
  lemma {:induction false} RetainIdempotent(p: Protocol, txs: seq<SignedTx>, s: Store)
    ensures StillValid(p, StillValid(p, txs, s), s) == StillValid(p, txs, s)
    ensures (forall i :: 0 <= i < |txs| ==> ValidAgainst(p, txs[i].tx, s)) ==> StillValid(p, txs, s) == txs
  {
    if txs != [] {
      var init, last := txs[..|txs| - 1], txs[|txs| - 1];
      assert txs == init + [last];
      RetainIdempotent(p, init, s);
      RetainSnoc(p, init, last, s);
      RetainSnoc(p, StillValid(p, init, s), last, s);
    }
  }

  lemma {:induction false} StillValidDistinct(p: Protocol, txs: seq<SignedTx>, s: Store)
    requires NoDuplicates(Digests(p, txs))
    ensures NoDuplicates(Digests(p, StillValid(p, txs, s)))
  {
    if txs != [] {
      var init := txs[..|txs| - 1];
      assert Digests(p, init) == Digests(p, txs)[..|txs| - 1];
      StillValidDistinct(p, init, s);
      var kept := StillValid(p, init, s);
      forall i | 0 <= i < |kept|
        ensures p.txDigest(kept[i].tx) != p.txDigest(txs[|txs| - 1].tx)
      {
        assert kept[i] in init;
      }
    }
  }

  /** After a reorganisation the pool holds exactly the old entries the new head still allows, in
      their old order. */
  lemma RetainKeeps(p: Protocol, m: PoolValue, s: Store)
    requires PoolOk(p, m)
    ensures PoolOk(p, RetainValid(p, m, s))
    ensures forall t :: t in RetainValid(p, m, s).pending <==> t in m.pending && ValidAgainst(p, t.tx, s)
    ensures Subsequence(RetainValid(p, m, s).pending, m.pending)
  {
    hide Subsequence;
    RetainOrdered(p, m.pending, s);
    StillValidDistinct(p, m.pending, s);
    var kept := StillValid(p, m.pending, s);
    forall i | 0 <= i < |kept|
      ensures p.signedOk(kept[i])
    {
      assert kept[i] in m.pending;
    }
  }

  /** Splitting a queue without duplicates splits its digests. */
  lemma HeldSplit(p: Protocol, txs: seq<SignedTx>, n: nat)
    requires n <= |txs| && NoDuplicates(Digests(p, txs))
    ensures Held(p, txs) - Held(p, txs[..n]) == Held(p, txs[n..])
  {
    var batch, rest := txs[..n], txs[n..];
    forall d
      ensures d in Held(p, txs) - Held(p, batch) <==> d in Held(p, rest)
    {
      if d in Held(p, txs) && d !in Held(p, batch) {
        var i :| 0 <= i < |txs| && p.txDigest(txs[i].tx) == d;
        if i >= n { assert rest[i - n] == txs[i]; }
      }
      if d in Held(p, rest) {
        var i :| 0 <= i < |rest| && p.txDigest(rest[i].tx) == d;
        assert txs[n + i] == rest[i];
        forall j | 0 <= j < n
          ensures p.txDigest(batch[j].tx) != d
        {
          assert Digests(p, txs)[j] != Digests(p, txs)[n + i];
        }
      }
    }
  }

  /** A drained batch and what remains give back the queue, and the batch may be submitted
      again: none of its digests stays in `seen`. */
  lemma DrainKeeps(p: Protocol, m: PoolValue, limit: nat)
    requires PoolOk(p, m)
    ensures PoolOk(p, Drain(p, m, limit))
    ensures Drained(m, limit) + Drain(p, m, limit).pending == m.pending
    ensures NoDuplicates(Digests(p, Drained(m, limit)))
    ensures forall i :: 0 <= i < |Drained(m, limit)| ==> p.signedOk(Drained(m, limit)[i])
    ensures Held(p, Drained(m, limit)) !! Drain(p, m, limit).seen
  {
    hide Held;
    var n := DrainCount(m, limit);
    assert Digests(p, m.pending[..n]) == Digests(p, m.pending)[..n];
    assert Digests(p, m.pending[n..]) == Digests(p, m.pending)[n..];
    HeldSplit(p, m.pending, n);
  }

  // ------------------------------------------------------------------- in place

  class Mempool {
    const p: Protocol
    var pending: seq<SignedTx>
    var seen: set<Digest>

    ghost function Value(): (m: PoolValue)
      reads this
    {
      PoolValue(pending, seen)
    }

    constructor (p: Protocol)
      ensures this.p == p && Value() == EMPTY
    {
      this.p, pending, seen := p, [], {};
    }

    /** Queue a transaction, or refuse it and change nothing. */
    method Enqueue(t: SignedTx, s: Store) returns (e: Option<PoolError>)
      modifies this
      ensures e == SubmitError(p, old(Value()), t, s)
      ensures Value() == Submit(p, old(Value()), t, s)
    {
      if !p.signedOk(t) { return Some(InvalidTransaction); }
      var digest := p.txDigest(t.tx);
      if digest in seen { return Some(DuplicateTransaction); }
      if |pending| >= MAX_MEMPOOL_SIZE { return Some(MempoolFull); }
      e := ValidateAgainstStore(p, t.tx, s);
      if e.None? {
        seen := seen + {digest};
        pending := pending + [t];
      }
    }

    /** Drop the entries a new head store no longer allows. */
    method Retain(s: Store)
      modifies this
      ensures Value() == RetainValid(p, old(Value()), s)
    {
      var valid: seq<SignedTx>, validSeen: set<Digest> := [], {};
      for i := 0 to |pending|
        invariant unchanged(this)
        invariant valid == StillValid(p, pending[..i], s)
        invariant validSeen == Held(p, valid)
      {
        assert pending[..i + 1][..i] == pending[..i];
        var e := ValidateAgainstStore(p, pending[i].tx, s);
        if e.None? {
          HeldSnoc(p, valid, pending[i]);
          validSeen := validSeen + {p.txDigest(pending[i].tx)};
          valid := valid + [pending[i]];
        }
      }
      assert pending[..|pending|] == pending;
      pending, seen := valid, validSeen;
    }

    /** Take up to `limit` transactions from the front. */
    method TakeBatch(limit: nat) returns (batch: seq<SignedTx>)
      modifies this
      ensures batch == Drained(old(Value()), limit)
      ensures Value() == Drain(p, old(Value()), limit)
    {
      var count := if limit < |pending| then limit else |pending|;
      batch, pending := pending[..count], pending[count..];
      for i := 0 to |batch|
        invariant pending == old(pending)[count..]
        invariant seen == old(seen) - Held(p, batch[..i])
      {
        assert batch[..i + 1] == batch[..i] + [batch[i]];
        HeldSnoc(p, batch[..i], batch[i]);
        seen := seen - {p.txDigest(batch[i].tx)};
      }
      assert batch[..|batch|] == batch;
    }
  }
}
