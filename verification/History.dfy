/** What one executed transaction does to a store: where it creates, what it touches, and, for runs
    that fit, that it writes no address twice. */
module History {
  import opened MeowTypes
  import opened Vm
  import opened Ledger
  import opened Effects
  import opened Executor

  // --------------------------------------------------------- transaction arguments

  /** The addresses of the object arguments, in order. */
  function ArgAddrs(args: seq<Input>): (r: seq<Address>) {
    if args == [] then []
    else
      var init, last := ArgAddrs(args[..|args| - 1]), args[|args| - 1];
      if last.ObjectArg? then init + [last.ref.addr] else init
  }

  /** No object is passed twice, and the gas coin is not passed at all. */
  ghost predicate CallArgsOk(t: Tx) {
    t.kind.MeowCall? ==> Unique(ArgAddrs(t.kind.args)) && t.gasCoin.addr !in ArgAddrs(t.kind.args)
  }

  method GasCoinUnused(args: seq<Input>, coin: Address) returns (ok: bool)
    ensures ok <==> coin !in ArgAddrs(args)
  {
    for i := 0 to |args|
      invariant coin !in ArgAddrs(args[..i])
    {
      assert args[..i + 1][..i] == args[..i];
      if args[i].ObjectArg? && args[i].ref.addr == coin {
        ArgAddrsGrow(args, i + 1, coin);
        return false;
      }
    }
    assert args[..|args|] == args;
    return true;
  }

  lemma UniqueNothing()
    ensures Unique([])
  {
  }

  method NoAliases(args: seq<Input>) returns (ok: bool)
    ensures ok <==> Unique(ArgAddrs(args))
  {
    hide Unique;
    var seen: set<Address> := {};
    UniqueNothing();
    for i := 0 to |args|
      invariant Unique(ArgAddrs(args[..i]))
      invariant forall a :: a in seen <==> a in ArgAddrs(args[..i])
    {
      assert args[..i + 1][..i] == args[..i];
      if args[i].ObjectArg? {
        UniqueSnoc(ArgAddrs(args[..i]), args[i].ref.addr);
        if args[i].ref.addr in seen {
          AliasStays(args, i + 1);
          return false;
        }
        seen := seen + {args[i].ref.addr};
      }
    }
    assert args[..|args|] == args;
    return true;
  }

  /** The two argument checks a transaction passes before it is accepted. */
  method ValidateCallArguments(t: Tx) returns (ok: bool)
    ensures ok <==> CallArgsOk(t)
  {
    if !t.kind.MeowCall? { return true; }
    ok := GasCoinUnused(t.kind.args, t.gasCoin.addr);
    if ok {
      ok := NoAliases(t.kind.args);
    }
  }

  lemma {:induction false} ArgAddrsGrow(args: seq<Input>, k: nat, a: Address)
    requires k <= |args| && a in ArgAddrs(args[..k])
    ensures a in ArgAddrs(args)
  {
    if k < |args| {
      assert args[..|args| - 1][..k] == args[..k];
      ArgAddrsGrow(args[..|args| - 1], k, a);
    } else {
      assert args[..k] == args;
    }
  }

  lemma {:induction false} AliasStays(args: seq<Input>, k: nat)
    requires k <= |args| && !Unique(ArgAddrs(args[..k]))
    ensures !Unique(ArgAddrs(args))
  {
    hide Unique;
    if k < |args| {
      var init := args[..|args| - 1];
      assert init[..k] == args[..k];
      AliasStays(init, k);
      if args[|args| - 1].ObjectArg? {
        UniqueSnoc(ArgAddrs(init), args[|args| - 1].ref.addr);
      }
    } else {
      assert args[..k] == args;
    }
  }

  /** The objects a call takes are the store's, the sender's, and at the addresses passed. */
  lemma {:induction false} ObjectArgsAre(p: Protocol, args: seq<Input>, sender: Address, s: Store)
    requires Keyed(s)
    ensures var r := ObjectArgs(p, args, sender, s);
            r.Some? ==>
              && Addrs(r.value) == ArgAddrs(args)
              && (forall i :: 0 <= i < |r.value| ==>
                    && r.value[i].addr in s && s[r.value[i].addr] == r.value[i]
                    && r.value[i].owner == OwnedBy(sender) && r.value[i].content.Instance?
                    && r.value[i].version < U64_MAX)
  {
    if args != [] {
      var init := args[..|args| - 1];
      ObjectArgsAre(p, init, sender, s);
      var before, r := ObjectArgs(p, init, sender, s), ObjectArgs(p, args, sender, s);
      if r.Some? && args[|args| - 1].ObjectArg? {
        AddrsSnoc(before.value, s[args[|args| - 1].ref.addr]);
      }
    }
  }

  // --------------------------------------------------------------- the environment

  function FreshIds(e: Env, d: Digest, n: nat): (r: seq<Address>)
    ensures |r| == n
    ensures forall i :: 0 <= i < n ==> r[i] == e.derive(d, i)
  {
    if n == 0 then [] else FreshIds(e, d, n - 1) + [e.derive(d, n - 1)]
  }

  /** Derived addresses are distinct, and never the zero address. */
  ghost predicate DerivesFresh(e: Env) {
    && (forall d, k, d', k' :: e.derive(d, k) == e.derive(d', k') ==> d == d' && k == k')
    && (forall d, k :: e.derive(d, k) != ZERO_ADDRESS)
  }

  /** What every run keeps, whatever code it executes: gas only goes up, within the limit, and
      fresh ids are drawn from the transaction's own digest in order. */
  ghost predicate EndOk(p: Protocol, e: Env, t: Tx, gas: Gas, end: CallEnd) {
    && end.gas.limit == gas.limit && gas.spent <= end.gas.spent
    && (end.Finished? ==> end.ctx.freshIds == FreshIds(e, p.txDigest(t), |end.ctx.freshIds|))
  }

  ghost predicate Honest(p: Protocol, e: Env) {
    && (forall t, s, objs, seed, time, gas {:trigger e.run(t, s, objs, seed, time, gas)} ::
          EndOk(p, e, t, gas, e.run(t, s, objs, seed, time, gas)))
    && (forall t, s, gas {:trigger e.runSystem(t, s, gas)} ::
          EndOk(p, e, t, gas, e.runSystem(t, s, gas)))
  }

  /** No address derived from this digest is live. */
  ghost predicate NoneLive(e: Env, d: Digest, s: Store) {
    forall k {:trigger e.derive(d, k)} :: e.derive(d, k) !in s
  }

  // ------------------------------------------------------------ published modules

  /** The module passes the checks for publication on this store. */
  ghost predicate AcceptedAt(e: Env, m: Module, s: Store) {
    exists t: Tx :: t.kind == ModulePublish(m) && e.publishError(t, s).None?
  }

  /** Everything immutable in `u` is still there in `s`. */
  ghost predicate Persists(u: Store, s: Store) {
    forall a :: a in u && !u[a].owner.OwnedBy? ==> a in s && s[a] == u[a]
  }

  ghost predicate AcceptedBefore(e: Env, m: Module, s: Store) {
    exists u :: Persists(u, s) && AcceptedAt(e, m, u)
  }

  /** Every module is a genesis module, or was accepted when it was published, by a store whose
      immutable objects are all still there. */
  ghost predicate Published(e: Env, g: Store, s: Store) {
    forall a :: a in s && s[a].content.ModuleCode? ==> (a in g && g[a] == s[a]) || AcceptedBefore(e, s[a].content.code, s)
  }

  // ------------------------------------------------------------------ one execution

  /** What an execution result does to a store: it creates at addresses derived from its own
      digest, and changes or destroys owned objects that are live. */
  ghost predicate Touches(e: Env, d: Digest, s: Store, r: ExecResult) {
    && (forall a :: a in Addrs(r.created) ==> DerivedFrom(e, d, a))
    && (forall o :: o in r.created ==> Enters(e, s, o))
    && (forall o :: o in r.changed ==> Renews(s, o))
    && (forall o :: o in r.destroyed ==> o.addr in s && s[o.addr].owner.OwnedBy?)
  }

  ghost predicate DerivedFrom(e: Env, d: Digest, a: Address) {
    exists k :: e.derive(d, k) == a
  }

  /** A module enters a store only when accepted, and for good. */
  ghost predicate Enters(e: Env, s: Store, o: Object) {
    o.content.ModuleCode? ==> o.owner.Immutable? && AcceptedAt(e, o.content.code, s)
  }

  ghost predicate Renews(s: Store, o: Object) {
    && o.addr in s && s[o.addr].owner.OwnedBy? && o.owner.OwnedBy? && o.version == s[o.addr].version + 1
    && o.content.Instance?
  }

  /** The objects are the store's own. */
  ghost predicate Live(objs: seq<Object>, s: Store) {
    forall i :: 0 <= i < |objs| ==> objs[i].addr in s && s[objs[i].addr] == objs[i]
  }

  lemma SucceedsLive(s: Store, objs: seq<Object>, o: Object, d: Digest)
    requires ArgsOk(objs) && Succeeds(o, objs, d) && Live(objs, s)
    ensures o.addr in s && s[o.addr].owner.OwnedBy? && o.version == s[o.addr].version + 1
    ensures o.addr in Addrs(objs)
    ensures o.owner.OwnedBy? && o.content.Instance? ==> Renews(s, o)
  {
    ArgFound(objs, o.addr);
    var k :| 0 <= k < |objs| && objs[k] == ArgAt(objs, o.addr).value;
  }

  /** Whatever a finished run did, its settled result creates only its own fresh addresses and
      touches only its arguments. */
  lemma SettleTouches(p: Protocol, e: Env, t: Tx, s: Store, objs: seq<Object>, gas: Gas, end: CallEnd)
    requires end.Finished? && EndOk(p, e, t, gas, end) && ArgsOk(objs) && Live(objs, s)
    ensures var r := Settle(end.ctx, objs, p.txDigest(t));
            && Touches(e, p.txDigest(t), s, r)
            && (forall a :: a in Addrs(r.changed) + Addrs(r.destroyed) ==> a in Addrs(objs))
  {
    hide Consumed, FreshIds, Succeeds, Renews, ArgsOk, Live, CreatedBy, ChangedBy, DestroyedBy, AllMove, AllKnown, Addrs, DerivedFrom;
    var ctx, d := end.ctx, p.txDigest(t);
    var r := Settle(ctx, objs, d);
    if Resolvable(ctx, objs) && Consumed(ctx, objs) {
      CreatedAre(ctx.transfers, ctx.freshIds, objs, d);
      ChangedAre(ctx.transfers, ctx.freshIds, objs, d);
      DestroyedAre(ctx.destroyed, ctx.freshIds, objs, d);
      FreshDerived(e, d, ctx.freshIds, r.created);
      forall o | o in r.changed ensures Renews(s, o) && o.addr in Addrs(objs) {
        SucceedsLive(s, objs, o, d);
      }
      forall o | o in r.destroyed ensures o.addr in s && s[o.addr].owner.OwnedBy? && o.addr in Addrs(objs) {
        assert Retires(o, objs, d);
        SucceedsLive(s, objs, o, d);
      }
      AddrsWithin(r.changed, Addrs(objs));
      AddrsWithin(r.destroyed, Addrs(objs));
    }
  }

  lemma FreshDerived(e: Env, d: Digest, ids: seq<Address>, os: seq<Object>)
    requires ids == FreshIds(e, d, |ids|) && forall o :: o in os ==> o.addr in ids
    ensures forall a :: a in Addrs(os) ==> DerivedFrom(e, d, a)
  {
    AddrsWithin(os, ids);
    forall a | a in Addrs(os) ensures DerivedFrom(e, d, a) {
      var k :| 0 <= k < |ids| && ids[k] == a;
      assert e.derive(d, k) == a;
    }
  }

  lemma AddrsWithin(os: seq<Object>, xs: seq<Address>)
    requires forall o :: o in os ==> o.addr in xs
    ensures forall a :: a in Addrs(os) ==> a in xs
  {
    forall a | a in Addrs(os) ensures a in xs {
      var i :| 0 <= i < |os| && Addrs(os)[i] == a;
      assert os[i] in os;
    }
  }

  lemma NothingTouches(e: Env, d: Digest, s: Store, message: string)
    ensures Touches(e, d, s, Failure(message, d))
    ensures Addrs(Failure(message, d).changed) + Addrs(Failure(message, d).destroyed) == []
  {
  }

  lemma SpendTouches(e: Env, d: Digest, s: Store, r: ExecResult, coin: Object, spent: u64)
    requires Touches(e, d, s, r)
    requires coin.addr in s && s[coin.addr] == coin && coin.owner.OwnedBy? && coin.content.Instance? && coin.version < U64_MAX
    ensures Touches(e, d, s, Spend(r, coin, spent, d))
    ensures coin.addr in Addrs(Spend(r, coin, spent, d).changed)
  {
    hide DerivedFrom, Enters, Addrs;
    var q := Spend(r, coin, spent, d);
    AddrsSnoc(r.changed, Spent(coin, spent, d));
    assert Addrs(q.changed)[|r.changed|] == coin.addr;
    forall o | o in q.changed ensures Renews(s, o) {
      assert o in r.changed || o == Spent(coin, spent, d);
    }
  }

  lemma CallTouches(p: Protocol, e: Env, t: Tx, s: Store, seed: Digest, time: nat, gas: Gas)
    requires Honest(p, e) && t.kind.MeowCall? && Keyed(s)
    ensures var r := ExecuteCall(p, e, t, s, seed, time, gas).0;
            && Touches(e, p.txDigest(t), s, r)
            && (forall a :: a in Addrs(r.changed) + Addrs(r.destroyed) ==> a in ArgAddrs(t.kind.args))
    ensures ExecuteCall(p, e, t, s, seed, time, gas).1.limit == gas.limit
  {
    hide Touches, Addrs, ObjectArgs, Settle, Keyed;
    var d := p.txDigest(t);
    ObjectArgsAre(p, t.kind.args, t.sender, s);
    var objs := ObjectArgs(p, t.kind.args, t.sender, s);
    if e.callError(t, s).Some? {
      NothingTouches(e, d, s, e.callError(t, s).value);
    } else if objs.None? {
      NothingTouches(e, d, s, "argument");
    } else {
      var end := e.run(t, s, objs.value, seed, time, gas);
      assert EndOk(p, e, t, gas, end);
      if end.Stopped? {
        NothingTouches(e, d, s, end.message);
      } else {
        SettleTouches(p, e, t, s, objs.value, gas, end);
      }
    }
  }

  lemma PublishTouches(p: Protocol, e: Env, t: Tx, s: Store, gas: Gas)
    requires t.kind.ModulePublish?
    ensures var r := ExecutePublish(p, e, t, s, gas).0;
            Touches(e, p.txDigest(t), s, r) && Addrs(r.changed) + Addrs(r.destroyed) == []
    ensures ExecutePublish(p, e, t, s, gas).1.limit == gas.limit
  {
    var d := p.txDigest(t);
    assert DerivedFrom(e, d, e.derive(d, 0));
    if e.publishError(t, s).None? { assert AcceptedAt(e, t.kind.code, s); }
  }

  /** A transaction that executes finds its gas coin live in exactly the version it names, and
      leaves it one version later; it creates only its own fresh addresses, and touches only owned
      objects that are live. Nothing is asked of the code it runs. */
  lemma ExecuteTouches(p: Protocol, e: Env, t: Tx, s: Store, seed: Digest, time: nat)
    requires Honest(p, e) && Keyed(s)
    requires Execute(p, e, t, s, seed, time).Some?
    ensures var r := Execute(p, e, t, s, seed, time).value;
            && Touches(e, p.txDigest(t), s, r)
            && t.gasCoin.addr in s && s[t.gasCoin.addr].version == t.gasCoin.version
            && t.gasCoin.addr in Addrs(r.changed)
  {
    hide Honest, Touches, Addrs, ExecuteCall, ExecutePublish, Spend;
    var d := p.txDigest(t);
    var coin := GasCoin(p, t, s).value;
    var (paid, gas) := Charge(Gas(Balance(coin).value, 0), BASE_TRANSACTION_GAS_COST);
    if !paid {
      NothingTouches(e, d, s, "out of gas");
      SpendTouches(e, d, s, Failure("out of gas", d), coin, gas.spent);
    } else if t.kind.MeowCall? {
      CallTouches(p, e, t, s, seed, time, gas);
      var (r, left) := ExecuteCall(p, e, t, s, seed, time, gas);
      SpendTouches(e, d, s, r, coin, left.spent);
    } else {
      PublishTouches(p, e, t, s, gas);
      var (r, left) := ExecutePublish(p, e, t, s, gas);
      SpendTouches(e, d, s, r, coin, left.spent);
    }
  }

  lemma RewardTouches(p: Protocol, e: Env, t: Tx, s: Store)
    requires Honest(p, e)
    ensures Touches(e, p.txDigest(t), s, ExecuteReward(p, e, t, s))
  {
    hide Touches, Settle;
    var d := p.txDigest(t);
    if e.callError(t, s).Some? {
      NothingTouches(e, d, s, e.callError(t, s).value);
    } else {
      var end := e.runSystem(t, s, Gas(U64_MAX, 0));
      assert EndOk(p, e, t, Gas(U64_MAX, 0), end);
      if end.Stopped? {
        NothingTouches(e, d, s, end.message);
      } else {
        SettleTouches(p, e, t, s, [], Gas(U64_MAX, 0), end);
      }
    }
  }

  // ------------------------------------------------------------------ accounted runs

  /** A property of stored objects that publishing and paying gas keep. */
  ghost predicate Lasting(good: Object -> bool) {
    && (forall o: Object :: o.content.ModuleCode? ==> good(o))
    && (forall coin: Object, spent, tx {:trigger Spent(coin, spent, tx)} ::
          coin.content.Instance? && coin.version < U64_MAX && good(coin) ==> good(Spent(coin, spent, tx)))
  }

  ghost predicate AllGood(good: Object -> bool, s: Store) {
    forall a :: a in s ==> good(s[a])
  }

  ghost predicate GoodTransfers(good: Object -> bool, ts: seq<Transfer>) {
    forall i, owner, tx, version :: 0 <= i < |ts| && Convertible(ts[i].value) ==>
      good(ToObject(ts[i].value, owner, tx, version))
  }

  /** A run that passes the check for left-over objects has used its ids linearly, and what it
      transferred is good. */
  ghost predicate EndFits(good: Object -> bool, objs: seq<Object>, end: CallEnd) {
    end.Finished? && ArgsOk(objs) && Unique(end.ctx.freshIds + Addrs(objs)) && Consumed(end.ctx, objs) ==>
      IdsLinear(end.ctx, objs) && GoodTransfers(good, end.ctx.transfers)
  }

  /** What can be said of every store of a chain: its modules were published, its objects are good. */
  ghost predicate Sound(e: Env, g: Store, good: Object -> bool, s: Store) {
    Keyed(s) && Published(e, g, s) && AllGood(good, s)
  }

  /** Runs on such stores fit: calls on the objects they name, and rewards. */
  ghost predicate Accountable(p: Protocol, e: Env, g: Store, good: Object -> bool) {
    && (forall t: Tx, s, objs, seed, time, gas {:trigger e.run(t, s, objs, seed, time, gas)} ::
          t.kind.MeowCall? && Sound(e, g, good, s) && e.callError(t, s).None? &&
          ObjectArgs(p, t.kind.args, t.sender, s) == Some(objs) ==>
            EndFits(good, objs, e.run(t, s, objs, seed, time, gas)))
    && (forall t: Tx, s, gas {:trigger e.runSystem(t, s, gas)} ::
          Rewards(t) && Sound(e, g, good, s) && e.callError(t, s).None? ==> EndFits(good, [], e.runSystem(t, s, gas)))
  }

  ghost predicate Rewards(t: Tx) {
    exists amount, mining :: IsReward(t, amount, mining)
  }

  /** No address is written twice. */
  ghost predicate Distinct(r: ExecResult) {
    Unique(Addrs(r.created)) && Unique(Addrs(r.changed) + Addrs(r.destroyed))
  }

  /** Nor is anything written that is not good. */
  ghost predicate Tidy(good: Object -> bool, r: ExecResult) {
    Distinct(r) && forall o :: o in r.created || o in r.changed ==> good(o)
  }

  lemma {:induction false} FreshUnique(e: Env, d: Digest, n: nat)
    requires DerivesFresh(e)
    ensures Unique(FreshIds(e, d, n))
  {
    if n > 0 {
      FreshUnique(e, d, n - 1);
      UniqueSnoc(FreshIds(e, d, n - 1), e.derive(d, n - 1));
    }
  }

  /** Fresh ids are unique and none of them is an argument. */
  lemma FreshApart(e: Env, d: Digest, n: nat, objs: seq<Object>, s: Store)
    requires DerivesFresh(e) && NoneLive(e, d, s)
    requires Unique(Addrs(objs)) && Live(objs, s)
    ensures Unique(FreshIds(e, d, n) + Addrs(objs))
  {
    hide DerivesFresh, Unique, FreshIds, Addrs;
    FreshUnique(e, d, n);
    UniqueConcat(FreshIds(e, d, n), Addrs(objs));
    forall a | a in FreshIds(e, d, n)
      ensures a !in Addrs(objs)
    {
      var k :| 0 <= k < n && FreshIds(e, d, n)[k] == a;
      assert e.derive(d, k) !in s;
    }
  }

  lemma {:induction false} GoodWritten(good: Object -> bool, ts: seq<Transfer>, ids: seq<Address>, args: seq<Object>, tx: Digest)
    requires ArgsOk(args) && AllMove(ts, ids, args) && GoodTransfers(good, ts)
    ensures forall o :: o in CreatedBy(ts, ids, args, tx) || o in ChangedBy(ts, ids, args, tx) ==> good(o)
  {
    hide ArgAt, ObjectAddress, ToObject;
    if ts != [] {
      var init, t := ts[..|ts| - 1], ts[|ts| - 1];
      assert Moves(t, ids, args);
      forall i, owner, tx, version | 0 <= i < |init| && Convertible(init[i].value)
        ensures good(ToObject(init[i].value, owner, tx, version))
      {
        assert init[i] == ts[i];
      }
      GoodWritten(good, init, ids, args, tx);
    }
  }

  /** A settled run that fits writes no address twice; its arguments are exactly what it changes or
      destroys. */
  lemma SettleTidy(p: Protocol, e: Env, t: Tx, s: Store, objs: seq<Object>, gas: Gas, end: CallEnd, good: Object -> bool)
    requires DerivesFresh(e) && NoneLive(e, p.txDigest(t), s)
    requires end.Finished? && EndOk(p, e, t, gas, end) && EndFits(good, objs, end)
    requires Unique(Addrs(objs)) && ArgsOk(objs) && Live(objs, s)
    ensures Tidy(good, Settle(end.ctx, objs, p.txDigest(t)))
  {
    hide DerivesFresh, NoneLive, Unique, Consumed, IdsLinear, ArgsOk, Live, FreshIds, Addrs, CreatedBy, ChangedBy,
      DestroyedBy, AllMove, AllKnown, GoodTransfers;
    var d := p.txDigest(t);
    var r := Settle(end.ctx, objs, d);
    FreshApart(e, d, |end.ctx.freshIds|, objs, s);
    if Resolvable(end.ctx, objs) && Consumed(end.ctx, objs) {
      EffectsPartition(end.ctx, objs, d);
      GoodWritten(good, end.ctx.transfers, end.ctx.freshIds, objs, d);
      UniqueConcat(Addrs(r.created) + Addrs(r.changed), Addrs(r.destroyed));
      UniqueConcat(Addrs(r.created), Addrs(r.changed));
      UniqueConcat(Addrs(r.changed), Addrs(r.destroyed));
    } else {
      NothingTidy(good, "object not accounted for", d);
    }
  }

  lemma NothingTidy(good: Object -> bool, message: string, d: Digest)
    ensures Tidy(good, Failure(message, d))
  {
  }

  /** Taking the gas from a coin that is not an argument keeps the result tidy. */
  lemma SpendTidy(good: Object -> bool, r: ExecResult, coin: Object, spent: u64, d: Digest)
    requires Tidy(good, r) && Lasting(good) && good(coin)
    requires coin.content.Instance? && coin.version < U64_MAX
    requires coin.addr !in Addrs(r.changed) + Addrs(r.destroyed)
    ensures Tidy(good, Spend(r, coin, spent, d))
  {
    hide Unique, Addrs, Spent;
    var q := Spend(r, coin, spent, d);
    AddrsSnoc(r.changed, Spent(coin, spent, d));
    UniqueConcat(Addrs(r.changed), Addrs(r.destroyed));
    UniqueSnoc(Addrs(r.changed), coin.addr);
    UniqueConcat(Addrs(q.changed), Addrs(q.destroyed));
    forall o | o in q.changed ensures good(o) {
      assert o in r.changed || o == Spent(coin, spent, d);
    }
  }

  lemma CallTidy(p: Protocol, e: Env, g: Store, good: Object -> bool, t: Tx, s: Store, seed: Digest, time: nat, gas: Gas)
    requires Honest(p, e) && Accountable(p, e, g, good) && Sound(e, g, good, s)
    requires DerivesFresh(e) && NoneLive(e, p.txDigest(t), s)
    requires t.kind.MeowCall? && CallArgsOk(t)
    ensures Tidy(good, ExecuteCall(p, e, t, s, seed, time, gas).0)
  {
    hide DerivesFresh, NoneLive, Tidy, Unique, Addrs, ObjectArgs, Settle, Published, AllGood, EndFits;
    var d := p.txDigest(t);
    ObjectArgsAre(p, t.kind.args, t.sender, s);
    var objs := ObjectArgs(p, t.kind.args, t.sender, s);
    if e.callError(t, s).Some? {
      NothingTidy(good, e.callError(t, s).value, d);
    } else if objs.None? {
      NothingTidy(good, "argument", d);
    } else {
      var end := e.run(t, s, objs.value, seed, time, gas);
      assert EndOk(p, e, t, gas, end) && EndFits(good, objs.value, end);
      if end.Stopped? {
        NothingTidy(good, end.message, d);
      } else {
        SettleTidy(p, e, t, s, objs.value, gas, end, good);
      }
    }
  }

  lemma PublishTidy(p: Protocol, e: Env, good: Object -> bool, t: Tx, s: Store, gas: Gas)
    requires t.kind.ModulePublish? && Lasting(good)
    ensures Tidy(good, ExecutePublish(p, e, t, s, gas).0)
  {
    hide Unique, Tidy, Lasting;
    var d := p.txDigest(t);
    var r := ExecutePublish(p, e, t, s, gas).0;
    if r.error.Some? {
      NothingTidy(good, r.error.value, d);
    } else {
      OneTidy(good, Object(e.derive(d, 0), Immutable, d, 1, ModuleCode(t.kind.code)), d);
    }
  }

  lemma OneTidy(good: Object -> bool, o: Object, d: Digest)
    requires Lasting(good) && o.content.ModuleCode?
    ensures Tidy(good, Success(ObjectEffects([o], [], []), d))
  {
    assert [o][..0] == [];
  }

  lemma GasCoinApart(t: Tx)
    requires t.kind.MeowCall? && CallArgsOk(t)
    ensures t.gasCoin.addr !in ArgAddrs(t.kind.args)
  {
  }

  /** On a store of a chain, an executed transaction writes no address twice, and only good objects. */
  lemma ExecuteTidy(p: Protocol, e: Env, g: Store, good: Object -> bool, t: Tx, s: Store, seed: Digest, time: nat)
    requires Honest(p, e) && Accountable(p, e, g, good) && Lasting(good) && Sound(e, g, good, s)
    requires DerivesFresh(e) && NoneLive(e, p.txDigest(t), s) && CallArgsOk(t)
    requires Execute(p, e, t, s, seed, time).Some?
    ensures Tidy(good, Execute(p, e, t, s, seed, time).value)
  {
    hide DerivesFresh, Honest, Accountable, Lasting, NoneLive, Tidy, Unique, Addrs, CallArgsOk, ExecuteCall, ExecutePublish, Spend,
      Published;
    var d := p.txDigest(t);
    var coin := GasCoin(p, t, s).value;
    var (paid, gas) := Charge(Gas(Balance(coin).value, 0), BASE_TRANSACTION_GAS_COST);
    if !paid {
      NothingTidy(good, "out of gas", d);
      NothingTouches(e, d, s, "out of gas");
      SpendTidy(good, Failure("out of gas", d), coin, gas.spent, d);
    } else if t.kind.MeowCall? {
      CallTidy(p, e, g, good, t, s, seed, time, gas);
      CallTouches(p, e, t, s, seed, time, gas);
      var (r, left) := ExecuteCall(p, e, t, s, seed, time, gas);
      GasCoinApart(t);
      SpendTidy(good, r, coin, left.spent, d);
    } else {
      PublishTidy(p, e, good, t, s, gas);
      PublishTouches(p, e, t, s, gas);
      var (r, left) := ExecutePublish(p, e, t, s, gas);
      SpendTidy(good, r, coin, left.spent, d);
    }
  }

  lemma RewardTidy(p: Protocol, e: Env, g: Store, good: Object -> bool, t: Tx, s: Store)
    requires Honest(p, e) && Accountable(p, e, g, good) && Sound(e, g, good, s)
    requires DerivesFresh(e) && NoneLive(e, p.txDigest(t), s) && Rewards(t)
    ensures Tidy(good, ExecuteReward(p, e, t, s))
  {
    hide DerivesFresh, NoneLive, Tidy, Settle, Sound, Rewards;
    var d := p.txDigest(t);
    if e.callError(t, s).Some? {
      NothingTidy(good, e.callError(t, s).value, d);
    } else {
      var end := e.runSystem(t, s, Gas(U64_MAX, 0));
      assert EndOk(p, e, t, Gas(U64_MAX, 0), end) && EndFits(good, [], end);
      if end.Stopped? {
        NothingTidy(good, end.message, d);
      } else {
        SettleTidy(p, e, t, s, [], Gas(U64_MAX, 0), end, good);
      }
    }
  }

  // ------------------------------------------------------------- applying a result

  /** The store's assertions: created objects are new, changed and destroyed ones are there. */
  ghost predicate AssertsHold(s: Store, r: ExecResult) {
    && Unique(Addrs(r.created)) && (forall a :: a in Addrs(r.created) ==> a !in s)
    && (forall a :: a in Addrs(r.changed) ==> a in s || a in Addrs(r.created))
    && Unique(Addrs(r.destroyed)) && (forall a :: a in Addrs(r.destroyed) ==> a in s || a in Addrs(r.created))
  }

  /** The store as the node keeps it, updated by one result at a time. */
  class ObjectStore {
    var objects: Store

    method InsertCreated(objs: seq<Object>)
      requires Unique(Addrs(objs)) && forall a :: a in Addrs(objs) ==> a !in objects
      modifies this
      ensures objects == InsertAll(old(objects), objs)
    {
      hide Unique;
      for i := 0 to |objs|
        invariant objects == InsertAll(old(objects), objs[..i])
      {
        assert objs[..i + 1][..i] == objs[..i];
        assert Addrs(objs)[i] !in old(objects);
        assert objs[i].addr !in objects by { FirstTime(old(objects), objs, i); }
        objects := objects[objs[i].addr := objs[i]];
      }
      assert objs[..|objs|] == objs;
    }

    method OverwriteChanged(objs: seq<Object>)
      requires forall a :: a in Addrs(objs) ==> a in objects
      modifies this
      ensures objects == InsertAll(old(objects), objs)
    {
      for i := 0 to |objs|
        invariant objects == InsertAll(old(objects), objs[..i])
      {
        assert objs[..i + 1][..i] == objs[..i];
        assert Addrs(objs)[i] in old(objects);
        assert objs[i].addr in objects;
        objects := objects[objs[i].addr := objs[i]];
      }
      assert objs[..|objs|] == objs;
    }

    method RemoveDestroyed(objs: seq<Object>)
      requires Unique(Addrs(objs)) && forall a :: a in Addrs(objs) ==> a in objects
      modifies this
      ensures objects == RemoveAll(old(objects), objs)
    {
      hide Unique;
      for i := 0 to |objs|
        invariant objects == RemoveAll(old(objects), objs[..i])
      {
        assert objs[..i + 1][..i] == objs[..i];
        assert Addrs(objs)[i] in old(objects);
        assert objs[i].addr in objects by { StillThere(old(objects), objs, i); }
        objects := objects - {objs[i].addr};
      }
      assert objs[..|objs|] == objs;
    }

    /** Apply a result. Each of the source's assertions is one here. */
    method ApplyExecutionResult(r: ExecResult)
      requires AssertsHold(objects, r)
      modifies this
      ensures objects == Apply(old(objects), r)
    {
      hide Unique, InsertAll, RemoveAll, Addrs;
      InsertCreated(r.created);
      forall a | a in Addrs(r.changed) || a in Addrs(r.destroyed)
        ensures a in objects
      {
        Present(old(objects), r.created, a);
      }
      ghost var s1 := objects;
      OverwriteChanged(r.changed);
      forall a | a in Addrs(r.destroyed)
        ensures a in objects
      {
        Present(s1, r.changed, a);
      }
      RemoveDestroyed(r.destroyed);
    }
  }

  lemma Present(s: Store, objs: seq<Object>, a: Address)
    requires a in s || a in Addrs(objs)
    ensures a in InsertAll(s, objs)
  {
    if a in Addrs(objs) {
      var i :| 0 <= i < |objs| && Addrs(objs)[i] == a;
      assert objs[i].addr == a;
    }
  }

  lemma FirstTime(s: Store, objs: seq<Object>, i: nat)
    requires Unique(Addrs(objs)) && i < |objs| && objs[i].addr !in s
    ensures objs[i].addr !in InsertAll(s, objs[..i])
  {
    forall k | 0 <= k < i
      ensures objs[..i][k].addr != objs[i].addr
    {
      UniqueAt(Addrs(objs), k, i);
    }
  }

  lemma StillThere(s: Store, objs: seq<Object>, i: nat)
    requires Unique(Addrs(objs)) && i < |objs| && objs[i].addr in s
    ensures objs[i].addr in RemoveAll(s, objs[..i])
  {
    forall k | 0 <= k < i
      ensures objs[..i][k].addr != objs[i].addr
    {
      UniqueAt(Addrs(objs), k, i);
    }
  }
}
