/** What the compiled coin functions leave: which coin ends up where, worth how much, and whose. */
module CoinDelivery {
  import opened MeowTypes
  import opened Vm
  import Ast
  import opened Codegen
  import opened Ledger
  import opened Effects
  import opened Executor
  import opened Verify
  import opened Adapter
  import opened Coin
  import opened CoinCode
  import opened CoinSupply
  import Ownership

  /** A coin worth `n`, owned by `to`. */
  function CoinObject(a: Address, n: u64, to: Address, tx: Digest, version: u64): (o: Object) {
    Object(a, OwnedBy(to), tx, version, Instance(COIN_TYPE, [Field("balance", VU64(n))]))
  }

  lemma CoinStored(a: Address, n: u64, to: Address, tx: Digest, version: u64)
    ensures Convertible(CoinValue(a, n)) && IdOf(CoinValue(a, n)) == a
    ensures ToObject(CoinValue(a, n), OwnedBy(to), tx, version) == CoinObject(a, n, to, tx, version)
  {
    ValueOfCoin(a, n);
    var o := CoinObject(a, n, to, tx, version);
    assert NoIdField(o.content.fields) by { assert |"id"| != |"balance"|; }
    assert ToValue(o) == CoinValue(a, n) by {
      assert [Field(ID_FIELD, IdValue(a))] + [Field("balance", VU64(n))] == CoinValue(a, n).fields;
    }
    ObjectRoundTrip(o);
  }

  // ------------------------------------------------------- effects, one at a time

  lemma MoreMoved(ts: seq<Transfer>, t: Transfer, ids: seq<Address>, args: seq<Object>, tx: Digest)
    requires ArgsOk(args) && AllMove(ts, ids, args) && Moves(t, ids, args)
    ensures AllMove(ts + [t], ids, args)
    ensures IdOf(t.value) in ids ==>
              && CreatedBy(ts + [t], ids, args, tx) == CreatedBy(ts, ids, args, tx) + [ToObject(t.value, OwnedBy(t.to), tx, 1)]
              && ChangedBy(ts + [t], ids, args, tx) == ChangedBy(ts, ids, args, tx)
    ensures IdOf(t.value) !in ids ==>
              && CreatedBy(ts + [t], ids, args, tx) == CreatedBy(ts, ids, args, tx)
              && ChangedBy(ts + [t], ids, args, tx) == ChangedBy(ts, ids, args, tx)
                 + [ToObject(t.value, OwnedBy(t.to), tx, Bump(ArgAt(args, IdOf(t.value)).value))]
  {
    hide ObjectAddress, ArgAt;
    assert (ts + [t])[..|ts|] == ts && (ts + [t])[|ts|] == t;
    forall i | 0 <= i < |ts + [t]| ensures Moves((ts + [t])[i], ids, args) {
      if i < |ts| { assert (ts + [t])[i] == ts[i]; }
    }
  }

  lemma OneArg(c: Object)
    ensures ArgAt([c], c.addr) == Some(c)
  {
  }

  lemma NoMoves(ids: seq<Address>, args: seq<Object>, tx: Digest)
    requires ArgsOk(args)
    ensures AllMove([], ids, args) && CreatedBy([], ids, args, tx) == [] && ChangedBy([], ids, args, tx) == []
    ensures AllKnown([], ids, args) && DestroyedBy([], ids, args, tx) == []
  {
  }

  // ------------------------------------------------------------------ transfer

  lemma TransferContext(v: Value, to: Address)
    ensures ContextOf([Sent(v, to)]) == Context([], [Transfer(v, to)], [])
  {
    hide ContextOf, Sent;
    NoLog();
    SentLast([], v, to);
    assert [] + [Sent(v, to)] == [Sent(v, to)] && [] + [Transfer(v, to)] == [Transfer(v, to)];
  }

  /** `transfer`: the coin, as it was, belongs to the recipient. */
  lemma TransferDelivers(
    w: Ast.World, lim: GenLimits, vm: Machine, s: Session, c: Object, n: u64, to: Address, gas: Gas, tx: Digest)
    requires CoinMachine(w, lim, vm, s) && EntryError(vm, "transfer").None? && IsCoinOf(c, n)
    ensures Halting(vm, vm.main, gas)
    ensures var end := MachineEnd(vm, "transfer", [ToValue(c), VAddr(to)], gas);
            end.Finished? ==> Settle(end.ctx, [c], tx)
                              == Success(ObjectEffects([], [CoinObject(c.addr, n, to, tx, c.version + 1)], []), tx)
  {
    hide CoinMachine, EntryError, MachineEnd, Halting, Ends, CoinValue, ToValue, ContextOf, Settle;
    CoinWorth(c, n);
    CoinFunctions();
    CoinWorldOf(w, lim, vm, s);
    TransferEvaluates(w, s, c.addr, n, to);
    CoinCall(w, lim, vm, s, "transfer", TRANSFER_SOURCE, [CoinValue(c.addr, n), VAddr(to)], gas);
    TransferContext(CoinValue(c.addr, n), to);
    OneDelivered(c, n, to, tx);
  }

  lemma OneDelivered(c: Object, n: u64, to: Address, tx: Digest)
    requires IsCoinOf(c, n)
    ensures Settle(Context([], [Transfer(CoinValue(c.addr, n), to)], []), [c], tx)
            == Success(ObjectEffects([], [CoinObject(c.addr, n, to, tx, c.version + 1)], []), tx)
  {
    hide CoinValue, Convertible, IdOf, ArgAt, ToObject, CoinObject, CreatedBy, ChangedBy, DestroyedBy;
    var t := Transfer(CoinValue(c.addr, n), to);
    CoinStored(c.addr, n, to, tx, Bump(c));
    OneArg(c);
    NoMoves([], [c], tx);
    MoreMoved([], t, [], [c], tx);
    assert [] + [t] == [t];
    assert TransferIds([t])[0] == c.addr;
  }

  /** The run is the compiled `transfer`, and it ends. */
  ghost predicate RunsTransfer(end: CallEnd, c: Object, to: Address, gas: Gas, w: Ast.World, lim: GenLimits, vm: Machine, ses: Session) {
    && CoinMachine(w, lim, vm, ses) && EntryError(vm, "transfer").None? && Halting(vm, vm.main, gas)
    && c.content.Instance? && end == MachineEnd(vm, "transfer", [ToValue(c), VAddr(to)], gas) && end.Finished?
  }

  /** The result leaves the coin with its new owner, the gas coin less its gas, and the rest as it was. */
  ghost predicate Moved(s: Store, r: ExecResult, coin: Object, c: Object, n: u64, to: Address, tx: Digest) {
    && r.error.None?
    && c.version < U64_MAX && coin.content.Instance? && coin.version < U64_MAX
    && Apply(s, r) == s[c.addr := CoinObject(c.addr, n, to, tx, c.version + 1)][coin.addr := Spent(coin, r.gasUsed, tx)]
  }

  /** A transaction that runs the compiled `transfer` to its end: the coin belongs to the recipient, the
      gas coin has paid, and nothing else has changed. */
  lemma TransferArrives(
    p: Protocol, e: Executor.Env, t: Tx, s: Store, seed: Digest, time: nat, c: Object, n: u64, to: Address, gas: Gas,
    w: Ast.World, lim: GenLimits, vm: Machine, ses: Session)
    requires Execute(p, e, t, s, seed, time).Some? && t.kind.MeowCall? && e.callError(t, s).None?
    requires ObjectArgs(p, t.kind.args, t.sender, s) == Some([c]) && IsCoinOf(c, n)
    requires t.gasCoin.addr in s && Balance(s[t.gasCoin.addr]).Some?
    requires Charge(Gas(Balance(s[t.gasCoin.addr]).value, 0), BASE_TRANSACTION_GAS_COST) == (true, gas)
    requires RunsTransfer(e.run(t, s, [c], seed, time, gas), c, to, gas, w, lim, vm, ses)
    ensures Moved(s, Execute(p, e, t, s, seed, time).value, s[t.gasCoin.addr], c, n, to, p.txDigest(t))
  {
    hide CoinMachine, EntryError, MachineEnd, Halting, ToValue, Settle, ObjectArgs, Apply, Charge, CoinObject, IsCoinOf, Spent, Balance;
    var d := p.txDigest(t);
    CoinWorth(c, n);
    CoinFits(c, n);
    TransferDelivers(w, lim, vm, ses, c, n, to, gas, d);
    var r, coin := Execute(p, e, t, s, seed, time).value, s[t.gasCoin.addr];
    var o := CoinObject(c.addr, n, to, d, c.version + 1);
    assert r == Spend(Success(ObjectEffects([], [o], []), d), coin, r.gasUsed, d);
    CoinAt(c.addr, n, to, d, c.version + 1);
    TwoChanged(s, o, d, coin, r.gasUsed);
  }

  lemma CoinFits(c: Object, n: u64)
    requires IsCoinOf(c, n)
    ensures c.version < U64_MAX
  {
  }

  lemma CoinAt(a: Address, n: u64, to: Address, tx: Digest, version: u64)
    ensures CoinObject(a, n, to, tx, version).addr == a
  {
  }

  lemma TwoChanged(s: Store, o: Object, d: Digest, coin: Object, spent: u64)
    requires coin.content.Instance? && coin.version < U64_MAX
    ensures Apply(s, Spend(Success(ObjectEffects([], [o], []), d), coin, spent, d))
            == s[o.addr := o][coin.addr := Spent(coin, spent, d)]
  {
    hide InsertAll, RemoveAll, Spent;
    var q, paid := Spend(Success(ObjectEffects([], [o], []), d), coin, spent, d), Spent(coin, spent, d);
    assert q.changed == [o, paid] && q.created == [] && q.destroyed == [];
    Ownership.RemoveNone(s);
    InsertTwo(s, o, paid);
    Ownership.RemoveNone(s[o.addr := o][paid.addr := paid]);
  }

  lemma InsertTwo(s: Store, o: Object, q: Object)
    ensures InsertAll(s, [o, q]) == s[o.addr := o][q.addr := q]
  {
    Ownership.InsertOne(s, o);
    assert [o, q][..1] == [o];
  }

  // --------------------------------------------------------------------- split

  /** A new coin worth `amount` belongs to the recipient, and the old one, worth the rest, to the
      sender. */
  ghost predicate InTwo(end: CallEnd, c: Object, n: u64, id: Address, amount: u64, to: Address, sender: Address, tx: Digest)
    requires c.version < U64_MAX
  {
    && end.Finished? && amount <= n
    && Settle(end.ctx, [c], tx) == Success(ObjectEffects(
         [CoinObject(id, amount, to, tx, 1)], [CoinObject(c.addr, n - amount, sender, tx, c.version + 1)], []), tx)
  }

  /** `split_and_transfer` divides a coin so, or fails. */
  lemma SplitDelivers(
    w: Ast.World, lim: GenLimits, vm: Machine, s: Session, c: Object, n: u64, amount: u64, to: Address, gas: Gas, tx: Digest)
    requires CoinMachine(w, lim, vm, s) && EntryError(vm, "split_and_transfer").None? && IsCoinOf(c, n)
    ensures Halting(vm, vm.main, gas)
    ensures var end := MachineEnd(vm, "split_and_transfer", [ToValue(c), VU64(amount), VAddr(to)], gas);
            end.Finished? && NextId(s, [Checked(true)]) != c.addr ==>
              InTwo(end, c, n, NextId(s, [Checked(true)]), amount, to, s.sender, tx)
  {
    hide CoinMachine, EntryError, MachineEnd, Halting, Ends, CoinValue, ToValue, ContextOf, SplitLog, NextId, InTwo, Checked;
    CoinWorth(c, n);
    CoinFunctions();
    CoinWorldOf(w, lim, vm, s);
    SplitEvaluates(w, s, c.addr, n, amount, to);
    CoinCall(w, lim, vm, s, "split_and_transfer", SPLIT_SOURCE, [CoinValue(c.addr, n), VU64(amount), VAddr(to)], gas);
    if amount <= n && NextId(s, [Checked(true)]) != c.addr {
      SplitEnd(MachineEnd(vm, "split_and_transfer", [ToValue(c), VU64(amount), VAddr(to)], gas), s, c, n, amount, to, tx);
    }
  }

  lemma SplitEnd(end: CallEnd, s: Session, c: Object, n: u64, amount: u64, to: Address, tx: Digest)
    requires IsCoinOf(c, n) && amount <= n && NextId(s, [Checked(true)]) != c.addr
    ensures end.Finished? && end.ctx == ContextOf(SplitLog(s, c.addr, n, amount, to)) ==>
              InTwo(end, c, n, NextId(s, [Checked(true)]), amount, to, s.sender, tx)
  {
    hide CoinValue, ContextOf, SplitLog, NextId, Checked, Settle;
    SplitContext(s, c.addr, n, amount, to);
    TwoDelivered(NextId(s, [Checked(true)]), amount, to, c, n - amount, s.sender, tx);
  }

  lemma TwoDelivered(id: Address, amount: u64, to: Address, c: Object, rest: u64, back: Address, tx: Digest)
    requires c.owner.OwnedBy? && c.content.Instance? && c.version < U64_MAX && id != c.addr
    ensures Settle(Context([id], [Transfer(CoinValue(id, amount), to), Transfer(CoinValue(c.addr, rest), back)], []), [c], tx)
            == Success(ObjectEffects([CoinObject(id, amount, to, tx, 1)],
                                     [CoinObject(c.addr, rest, back, tx, c.version + 1)], []), tx)
  {
    hide CoinValue, Convertible, IdOf, ArgAt, ToObject, CoinObject, CreatedBy, ChangedBy, DestroyedBy;
    var t, u := Transfer(CoinValue(id, amount), to), Transfer(CoinValue(c.addr, rest), back);
    CoinStored(id, amount, to, tx, 1);
    CoinStored(c.addr, rest, back, tx, Bump(c));
    OneArg(c);
    NoMoves([id], [c], tx);
    MoreMoved([], t, [id], [c], tx);
    assert [] + [t] == [t] && [t] + [u] == [t, u];
    MoreMoved([t], u, [id], [c], tx);
    assert TransferIds([t, u])[0] == id && TransferIds([t, u])[1] == c.addr;
  }

  // ---------------------------------------------------------------------- mint

  /** `mint`: one new coin worth the amount belongs to the recipient. */
  lemma MintDelivers(w: Ast.World, lim: GenLimits, vm: Machine, s: Session, n: u64, to: Address, tx: Digest)
    requires CoinMachine(w, lim, vm, s) && EntryError(vm, MINT).None?
    ensures Halting(vm, vm.main, Gas(U64_MAX, 0))
    ensures var end := MachineEnd(vm, MINT, [VU64(n), VAddr(to)], Gas(U64_MAX, 0));
            && end.Finished?
            && Settle(end.ctx, [], tx) == Success(ObjectEffects([CoinObject(NextId(s, []), n, to, tx, 1)], [], []), tx)
  {
    hide CoinMachine, EntryError, MachineEnd, Halting, CoinValue, Settle, NextId;
    MintRuns(w, lim, vm, s, n, to);
    NewDelivered(NextId(s, []), n, to, tx);
  }

  lemma NewDelivered(id: Address, n: u64, to: Address, tx: Digest)
    ensures Settle(Context([id], [Transfer(CoinValue(id, n), to)], []), [], tx)
            == Success(ObjectEffects([CoinObject(id, n, to, tx, 1)], [], []), tx)
  {
    hide CoinValue, Convertible, IdOf, ToObject, CoinObject, CreatedBy, ChangedBy, DestroyedBy;
    var t := Transfer(CoinValue(id, n), to);
    CoinStored(id, n, to, tx, 1);
    NoMoves([id], [], tx);
    MoreMoved([], t, [id], [], tx);
    assert [] + [t] == [t];
    assert TransferIds([t])[0] == id;
  }
}
