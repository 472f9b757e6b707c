/** What a finished call did to objects: from the context its native functions filled to the
    created, changed and destroyed lists. */
module Effects {
  import opened MeowTypes
  import opened Ledger

  datatype Transfer = Transfer(value: Value, to: Address)

  /** The side effects recorded during one call. */
  datatype Context = Context(freshIds: seq<Address>, transfers: seq<Transfer>, destroyed: seq<Address>)

  const ID_TYPE: Name := Qualified(OBJECT_MODULE, "Id")
  const ID_FIELD: string := "id"

  // ---------------------------------------------------------------- conversion

  function IdValue(a: Address): (v: Value) {
    VStruct(ID_TYPE, [Field("inner", VAddr(a))])
  }

  /** The address inside an object id. The encoding of a value names neither its type nor its
      fields, so an address and a struct around one address read the same. */
  function IdAddress(v: Value): (a: Option<Address>) {
    if v.VAddr? then Some(v.a)
    else if v.VStruct? && |v.fields| == 1 && v.fields[0].value.VAddr? then Some(v.fields[0].value.a)
    else None
  }

  /** The place of the first field of that name, or the length if there is none. */
  function Place(fields: seq<Field>, name: string): (i: nat)
    ensures i <= |fields|
    ensures i < |fields| ==> fields[i].name == name
    ensures forall k :: 0 <= k < i ==> fields[k].name != name
  {
    if fields == [] || fields[0].name == name then 0 else 1 + Place(fields[1..], name)
  }

  function FirstField(fields: seq<Field>, name: string): (v: Option<Value>) {
    var i := Place(fields, name);
    if i == |fields| then None else Some(fields[i].value)
  }

  /** The address of an object value, from its `id` field. */
  function ObjectAddress(v: Value): (a: Option<Address>) {
    if !v.VStruct? || FirstField(v.fields, ID_FIELD).None? then None
    else IdAddress(FirstField(v.fields, ID_FIELD).value)
  }

  /** The address of a value known to be an object. */
  function IdOf(v: Value): (a: Address) {
    if ObjectAddress(v).Some? then ObjectAddress(v).value else ZERO_ADDRESS
  }

  function WithoutId(fields: seq<Field>): (r: seq<Field>)
    ensures forall f :: f in r ==> f.name != ID_FIELD
  {
    if fields == [] then []
    else (if fields[0].name == ID_FIELD then [] else [fields[0]]) + WithoutId(fields[1..])
  }

  predicate Convertible(v: Value) {
    ObjectAddress(v).Some? && v.tn.Qualified?
  }

  /** An object value as an object: the id becomes the address and leaves the content. */
  function ToObject(v: Value, owner: Owner, tx: Digest, version: u64): (o: Object)
    requires Convertible(v)
  {
    Object(ObjectAddress(v).value, owner, tx, version, Instance(v.tn, WithoutId(v.fields)))
  }

  /** An object as a value: the id goes back in front. */
  function ToValue(o: Object): (v: Value)
    requires o.content.Instance?
  {
    VStruct(o.content.decl, [Field(ID_FIELD, IdValue(o.addr))] + o.content.fields)
  }

  predicate NoIdField(fields: seq<Field>) {
    forall i :: 0 <= i < |fields| ==> fields[i].name != ID_FIELD
  }

  lemma {:induction false} WithoutIdSame(fields: seq<Field>)
    requires NoIdField(fields)
    ensures WithoutId(fields) == fields
  {
    if fields != [] {
      WithoutIdSame(fields[1..]);
    }
  }

  /** Loading an object into the machine and storing it back gives the same object. */
  lemma ObjectRoundTrip(o: Object)
    requires o.content.Instance? && o.content.decl.Qualified? && NoIdField(o.content.fields)
    ensures Convertible(ToValue(o))
    ensures ToObject(ToValue(o), o.owner, o.tx, o.version) == o
  {
    WithoutIdSame(o.content.fields);
    var fields := ToValue(o).fields;
    assert fields[1..] == o.content.fields;
    assert WithoutId(fields) == WithoutId(fields[1..]);
  }

  // ------------------------------------------------------------------- effects

  function Bump(o: Object): (v: u64)
    requires o.version < U64_MAX
    ensures v == o.version + 1
  {
    o.version + 1
  }

  /** The argument object at an address. */
  function ArgAt(args: seq<Object>, a: Address): (o: Option<Object>)
    ensures o.Some? ==> o.value in args && o.value.addr == a
    ensures o.None? <==> forall i :: 0 <= i < |args| ==> args[i].addr != a
  {
    if args == [] then None
    else if args[|args| - 1].addr == a then Some(args[|args| - 1])
    else ArgAt(args[..|args| - 1], a)
  }

  predicate ArgsOk(args: seq<Object>) {
    forall i :: 0 <= i < |args| ==>
      args[i].owner.OwnedBy? && args[i].content.Instance? && args[i].version < U64_MAX
  }

  /** A transferred value is an object with a fresh id or one of the arguments. */
  predicate Moves(t: Transfer, ids: seq<Address>, args: seq<Object>) {
    Convertible(t.value) && (IdOf(t.value) in ids || ArgAt(args, IdOf(t.value)).Some?)
  }

  predicate AllMove(ts: seq<Transfer>, ids: seq<Address>, args: seq<Object>) {
    forall i :: 0 <= i < |ts| ==> Moves(ts[i], ids, args)
  }

  predicate AllKnown(ds: seq<Address>, ids: seq<Address>, args: seq<Object>) {
    forall i :: 0 <= i < |ds| ==> ds[i] in ids || ArgAt(args, ds[i]).Some?
  }

  /** None of the lookups that must not fail fails. */
  predicate Resolvable(ctx: Context, args: seq<Object>) {
    && ArgsOk(args)
    && AllMove(ctx.transfers, ctx.freshIds, args)
    && AllKnown(ctx.destroyed, ctx.freshIds, args)
  }

  function TransferIds(ts: seq<Transfer>): (ids: seq<Address>)
    ensures |ids| == |ts|
    ensures forall i :: 0 <= i < |ts| ==> ids[i] == IdOf(ts[i].value)
  {
    if ts == [] then [] else TransferIds(ts[..|ts| - 1]) + [IdOf(ts[|ts| - 1].value)]
  }

  /** Every fresh id and every argument was transferred or destroyed. */
  predicate Consumed(ctx: Context, args: seq<Object>) {
    && (forall i :: 0 <= i < |ctx.freshIds| ==>
          ctx.freshIds[i] in TransferIds(ctx.transfers) || ctx.freshIds[i] in ctx.destroyed)
    && (forall i :: 0 <= i < |args| ==>
          args[i].addr in TransferIds(ctx.transfers) || args[i].addr in ctx.destroyed)
  }

  /** The transferred objects with fresh ids, at version one. */
  function CreatedBy(ts: seq<Transfer>, ids: seq<Address>, args: seq<Object>, tx: Digest): (r: seq<Object>)
    requires AllMove(ts, ids, args)
  {
    if ts == [] then []
    else
      var t := ts[|ts| - 1];
      assert Moves(t, ids, args);
      CreatedBy(ts[..|ts| - 1], ids, args, tx) +
      if IdOf(t.value) in ids then [ToObject(t.value, OwnedBy(t.to), tx, 1)] else []
  }

  /** The transferred argument objects, one version later. */
  function ChangedBy(ts: seq<Transfer>, ids: seq<Address>, args: seq<Object>, tx: Digest): (r: seq<Object>)
    requires ArgsOk(args) && AllMove(ts, ids, args)
  {
    if ts == [] then []
    else
      var t := ts[|ts| - 1];
      assert Moves(t, ids, args);
      ChangedBy(ts[..|ts| - 1], ids, args, tx) +
      if IdOf(t.value) in ids then []
      else [ToObject(t.value, OwnedBy(t.to), tx, Bump(ArgAt(args, IdOf(t.value)).value))]
  }

  /** The destroyed argument objects, one version later. */
  function DestroyedBy(ds: seq<Address>, ids: seq<Address>, args: seq<Object>, tx: Digest): (r: seq<Object>)
    requires ArgsOk(args) && AllKnown(ds, ids, args)
  {
    if ds == [] then []
    else
      var a := ds[|ds| - 1];
      assert a in ids || ArgAt(args, a).Some?;
      DestroyedBy(ds[..|ds| - 1], ids, args, tx) +
      if a in ids then []
      else
        var o := ArgAt(args, a).value;
        [Object(o.addr, o.owner, tx, Bump(o), o.content)]
  }

  datatype ObjectEffects = ObjectEffects(created: seq<Object>, changed: seq<Object>, destroyed: seq<Object>)

  method AccountsForAll(ctx: Context, args: seq<Object>) returns (ok: bool)
    requires Resolvable(ctx, args)
    ensures ok <==> Consumed(ctx, args)
  {
    var transferred := TransferIds(ctx.transfers);
    for i := 0 to |ctx.freshIds|
      invariant forall k :: 0 <= k < i ==> ctx.freshIds[k] in transferred || ctx.freshIds[k] in ctx.destroyed
    {
      if ctx.freshIds[i] !in transferred && ctx.freshIds[i] !in ctx.destroyed { return false; }
    }
    for i := 0 to |args|
      invariant forall k :: 0 <= k < i ==> args[k].addr in transferred || args[k].addr in ctx.destroyed
    {
      if args[i].addr !in transferred && args[i].addr !in ctx.destroyed { return false; }
    }
    return true;
  }

  function EffectsOf(ctx: Context, args: seq<Object>, tx: Digest): (e: ObjectEffects)
    requires Resolvable(ctx, args)
  {
    ObjectEffects(
      CreatedBy(ctx.transfers, ctx.freshIds, args, tx),
      ChangedBy(ctx.transfers, ctx.freshIds, args, tx),
      DestroyedBy(ctx.destroyed, ctx.freshIds, args, tx))
  }

  /** Collect the effects of a call, or nothing when an object was not accounted for. */
  method CollectObjectEffects(ctx: Context, args: seq<Object>, tx: Digest) returns (r: Option<ObjectEffects>)
    requires Resolvable(ctx, args)
    ensures r.Some? <==> Consumed(ctx, args)
    ensures r.Some? ==> r.value == EffectsOf(ctx, args, tx)
  {
    hide Consumed, ObjectAddress, ToObject, ArgAt;
    var accounted := AccountsForAll(ctx, args);
    if !accounted { return None; }
    var created, changed, destroyed := [], [], [];
    for i := 0 to |ctx.transfers|
      invariant created == CreatedBy(ctx.transfers[..i], ctx.freshIds, args, tx)
      invariant changed == ChangedBy(ctx.transfers[..i], ctx.freshIds, args, tx)
    {
      assert ctx.transfers[..i + 1][..i] == ctx.transfers[..i];
      var t := ctx.transfers[i];
      assert Moves(t, ctx.freshIds, args);
      if IdOf(t.value) in ctx.freshIds {
        created := created + [ToObject(t.value, OwnedBy(t.to), tx, 1)];
      } else {
        changed := changed + [ToObject(t.value, OwnedBy(t.to), tx, Bump(ArgAt(args, IdOf(t.value)).value))];
      }
    }
    for i := 0 to |ctx.destroyed|
      invariant destroyed == DestroyedBy(ctx.destroyed[..i], ctx.freshIds, args, tx)
    {
      assert ctx.destroyed[..i + 1][..i] == ctx.destroyed[..i];
      if ctx.destroyed[i] !in ctx.freshIds {
        var o := ArgAt(args, ctx.destroyed[i]).value;
        destroyed := destroyed + [Object(o.addr, o.owner, tx, Bump(o), o.content)];
      }
    }
    assert ctx.transfers[..|ctx.transfers|] == ctx.transfers && ctx.destroyed[..|ctx.destroyed|] == ctx.destroyed;
    return Some(ObjectEffects(created, changed, destroyed));
  }

  // ----------------------------------------------------------------- partition

  /** No element occurs twice. */
  ghost predicate Unique(s: seq<Address>) {
    s == [] || (s[|s| - 1] !in s[..|s| - 1] && Unique(s[..|s| - 1]))
  }

  lemma UniqueSnoc(s: seq<Address>, a: Address)
    ensures Unique(s + [a]) <==> Unique(s) && a !in s
  {
    assert (s + [a])[..|s|] == s;
  }

  lemma {:induction false} UniqueConcat(xs: seq<Address>, ys: seq<Address>)
    ensures Unique(xs + ys) <==> Unique(xs) && Unique(ys) && forall a :: a in xs ==> a !in ys
  {
    if ys == [] {
      assert xs + ys == xs;
    } else {
      var init := ys[..|ys| - 1];
      assert xs + ys == (xs + init) + [ys[|ys| - 1]];
      assert ys == init + [ys[|ys| - 1]];
      UniqueConcat(xs, init);
      UniqueSnoc(xs + init, ys[|ys| - 1]);
      UniqueSnoc(init, ys[|ys| - 1]);
    }
  }

  function Addrs(os: seq<Object>): (r: seq<Address>)
    ensures |r| == |os|
    ensures forall i :: 0 <= i < |os| ==> r[i] == os[i].addr
  {
    if os == [] then [] else Addrs(os[..|os| - 1]) + [os[|os| - 1].addr]
  }

  lemma AddrsSnoc(xs: seq<Object>, o: Object)
    ensures Addrs(xs + [o]) == Addrs(xs) + [o.addr]
  {
    assert (xs + [o])[..|xs|] == xs;
  }

  /** Appending one more object with a new address keeps addresses exact and unique. */
  ghost predicate Exactly(r: seq<Object>, want: iset<Address>) {
    Unique(Addrs(r)) && forall a :: a in Addrs(r) <==> a in want
  }

  lemma ExactlySnoc(r: seq<Object>, o: Object, want: iset<Address>)
    requires Exactly(r, want) && o.addr !in want
    ensures Exactly(r + [o], want + iset{o.addr})
  {
    AddrsSnoc(r, o);
    UniqueSnoc(Addrs(r), o.addr);
  }

  /** The object is the next version of one of the arguments. */
  ghost predicate Succeeds(o: Object, args: seq<Object>, tx: Digest) {
    o.tx == tx && ArgAt(args, o.addr).Some? && o.version == ArgAt(args, o.addr).value.version + 1
  }

  /** The destroyed object is the argument as it was, one version later. */
  ghost predicate Retires(o: Object, args: seq<Object>, tx: Digest) {
    && Succeeds(o, args, tx)
    && o.owner == ArgAt(args, o.addr).value.owner && o.content == ArgAt(args, o.addr).value.content
  }

  ghost function Ids(ids: seq<Address>, from: seq<Address>, wanted: bool): (r: iset<Address>) {
    iset a | a in from && (a in ids <==> wanted)
  }

  lemma IdsSnoc(ids: seq<Address>, from: seq<Address>, a: Address, wanted: bool)
    ensures (a in ids <==> wanted) ==> Ids(ids, from + [a], wanted) == Ids(ids, from, wanted) + iset{a}
    ensures !(a in ids <==> wanted) ==> Ids(ids, from + [a], wanted) == Ids(ids, from, wanted)
  {
  }

  lemma ExactlyNothing(ids: seq<Address>, wanted: bool)
    ensures Exactly([], Ids(ids, [], wanted))
  {
  }

  /** The created objects have fresh ids and start at version one. */
  lemma {:induction false} CreatedAre(ts: seq<Transfer>, ids: seq<Address>, args: seq<Object>, tx: Digest)
    requires AllMove(ts, ids, args)
    ensures forall o :: o in CreatedBy(ts, ids, args, tx) ==>
              o.addr in ids && o.version == 1 && o.tx == tx && o.owner.OwnedBy? && o.content.Instance?
  {
    hide ObjectAddress, ArgAt;
    if ts != [] {
      assert Moves(ts[|ts| - 1], ids, args);
      CreatedAre(ts[..|ts| - 1], ids, args, tx);
    }
  }

  /** The changed objects are arguments, one version later. */
  lemma {:induction false} ChangedAre(ts: seq<Transfer>, ids: seq<Address>, args: seq<Object>, tx: Digest)
    requires ArgsOk(args) && AllMove(ts, ids, args)
    ensures forall o :: o in ChangedBy(ts, ids, args, tx) ==>
              Succeeds(o, args, tx) && o.owner.OwnedBy? && o.content.Instance?
  {
    hide ObjectAddress, ArgAt;
    if ts != [] {
      assert Moves(ts[|ts| - 1], ids, args);
      ChangedAre(ts[..|ts| - 1], ids, args, tx);
    }
  }

  /** The destroyed objects are arguments as they were, one version later. */
  lemma {:induction false} DestroyedAre(ds: seq<Address>, ids: seq<Address>, args: seq<Object>, tx: Digest)
    requires ArgsOk(args) && AllKnown(ds, ids, args)
    ensures forall o :: o in DestroyedBy(ds, ids, args, tx) ==> Retires(o, args, tx)
  {
    hide ArgAt;
    if ds != [] {
      DestroyedAre(ds[..|ds| - 1], ids, args, tx);
    }
  }

  /** The created objects are the transferred fresh ids, once each. */
  lemma {:induction false} CreatedExactly(ts: seq<Transfer>, ids: seq<Address>, args: seq<Object>, tx: Digest)
    requires AllMove(ts, ids, args)
    requires Unique(TransferIds(ts))
    ensures Exactly(CreatedBy(ts, ids, args, tx), Ids(ids, TransferIds(ts), true))
  {
    hide ObjectAddress, ArgAt, Exactly;
    if ts == [] {
      ExactlyNothing(ids, true);
    } else {
      var init, t := ts[..|ts| - 1], ts[|ts| - 1];
      assert Moves(t, ids, args);
      UniqueSnoc(TransferIds(init), IdOf(t.value));
      CreatedExactly(init, ids, args, tx);
      IdsSnoc(ids, TransferIds(init), IdOf(t.value), true);
      if IdOf(t.value) in ids {
        ExactlySnoc(CreatedBy(init, ids, args, tx), ToObject(t.value, OwnedBy(t.to), tx, 1),
                    Ids(ids, TransferIds(init), true));
      } else {
        assert CreatedBy(ts, ids, args, tx) == CreatedBy(init, ids, args, tx);
      }
    }
  }

  /** The changed objects are the other transferred ids, once each. */
  lemma {:induction false} ChangedExactly(ts: seq<Transfer>, ids: seq<Address>, args: seq<Object>, tx: Digest)
    requires ArgsOk(args) && AllMove(ts, ids, args)
    requires Unique(TransferIds(ts))
    ensures Exactly(ChangedBy(ts, ids, args, tx), Ids(ids, TransferIds(ts), false))
  {
    hide ObjectAddress, ArgAt, Exactly;
    if ts == [] {
      ExactlyNothing(ids, false);
    } else {
      var init, t := ts[..|ts| - 1], ts[|ts| - 1];
      assert Moves(t, ids, args);
      UniqueSnoc(TransferIds(init), IdOf(t.value));
      ChangedExactly(init, ids, args, tx);
      IdsSnoc(ids, TransferIds(init), IdOf(t.value), false);
      if IdOf(t.value) !in ids {
        ExactlySnoc(ChangedBy(init, ids, args, tx),
                    ToObject(t.value, OwnedBy(t.to), tx, Bump(ArgAt(args, IdOf(t.value)).value)),
                    Ids(ids, TransferIds(init), false));
      } else {
        assert ChangedBy(ts, ids, args, tx) == ChangedBy(init, ids, args, tx);
      }
    }
  }

  /** The destroyed objects are the destroyed ids that are not fresh, once each. */
  lemma {:induction false} DestroyedExactly(ds: seq<Address>, ids: seq<Address>, args: seq<Object>, tx: Digest)
    requires ArgsOk(args) && AllKnown(ds, ids, args)
    requires Unique(ds)
    ensures Exactly(DestroyedBy(ds, ids, args, tx), Ids(ids, ds, false))
  {
    hide ArgAt, Exactly;
    if ds == [] {
      ExactlyNothing(ids, false);
    } else {
      var init, a := ds[..|ds| - 1], ds[|ds| - 1];
      assert ds == init + [a];
      DestroyedExactly(init, ids, args, tx);
      IdsSnoc(ids, init, a, false);
      if a !in ids {
        var o := ArgAt(args, a).value;
        ExactlySnoc(DestroyedBy(init, ids, args, tx), Object(o.addr, o.owner, tx, Bump(o), o.content),
                    Ids(ids, init, false));
      } else {
        assert DestroyedBy(ds, ids, args, tx) == DestroyedBy(init, ids, args, tx);
      }
    }
  }

  /** Ids are used linearly: no fresh id is an argument, no id is transferred or destroyed
      twice, and every one that is was fresh or an argument. */
  ghost predicate IdsLinear(ctx: Context, args: seq<Object>) {
    && ArgsOk(args)
    && Unique(ctx.freshIds + Addrs(args))
    && (forall i :: 0 <= i < |ctx.transfers| ==> Convertible(ctx.transfers[i].value))
    && Unique(TransferIds(ctx.transfers) + ctx.destroyed)
    && (forall a :: a in TransferIds(ctx.transfers) + ctx.destroyed ==> a in ctx.freshIds + Addrs(args))
  }

  ghost function Elements(xs: seq<Address>): (r: set<Address>) {
    set a | a in xs
  }

  /** A sequence has at most as many elements as places, and as many only if none occurs twice. */
  lemma {:induction false} ElementCount(xs: seq<Address>)
    ensures |Elements(xs)| <= |xs|
    ensures |Elements(xs)| == |xs| <==> Unique(xs)
  {
    if xs == [] {
      assert Elements(xs) == {};
    } else {
      var init, a := xs[..|xs| - 1], xs[|xs| - 1];
      ElementCount(init);
      assert xs == init + [a];
      assert Elements(xs) == Elements(init) + {a};
      if a in init { assert Elements(xs) == Elements(init); }
    }
  }

  /** No more places than distinct elements to cover: each is covered once, and nothing else is. */
  lemma Pigeonhole(used: seq<Address>, had: seq<Address>)
    requires Unique(had) && |used| <= |had| && forall a :: a in had ==> a in used
    ensures Unique(used) && forall a :: a in used ==> a in had
  {
    hide Unique;
    ElementCount(used);
    ElementCount(had);
    assert Elements(had) <= Elements(used);
    Covers(Elements(had), Elements(used));
    forall a | a in used ensures a in had {
      assert a in Elements(used);
    }
  }

  lemma Covers(a: set<Address>, b: set<Address>)
    requires a <= b && |b| <= |a|
    ensures a == b
  {
    assert |b - a| == |b| - |a|;
  }

  /** A call that used no more ids than it had, and left none of those unaccounted for, used its
      ids linearly, whatever it wrote into them. */
  lemma LinearByAccount(ctx: Context, args: seq<Object>)
    requires ArgsOk(args) && Unique(ctx.freshIds + Addrs(args)) && Consumed(ctx, args)
    requires forall i :: 0 <= i < |ctx.transfers| ==> Convertible(ctx.transfers[i].value)
    requires |ctx.transfers| + |ctx.destroyed| <= |ctx.freshIds| + |args|
    ensures IdsLinear(ctx, args)
  {
    hide Unique, Convertible, TransferIds, Consumed, Addrs;
    var used, had := TransferIds(ctx.transfers) + ctx.destroyed, ctx.freshIds + Addrs(args);
    forall a | a in had ensures a in used {
      ConsumedUses(ctx, args, a);
    }
    Pigeonhole(used, had);
  }

  lemma ConsumedUses(ctx: Context, args: seq<Object>, a: Address)
    requires Consumed(ctx, args) && a in ctx.freshIds + Addrs(args)
    ensures a in TransferIds(ctx.transfers) + ctx.destroyed
  {
    hide TransferIds;
    if a in ctx.freshIds {
      var i :| 0 <= i < |ctx.freshIds| && ctx.freshIds[i] == a;
    } else {
      var i :| 0 <= i < |args| && Addrs(args)[i] == a;
      assert args[i].addr == a;
    }
  }

  lemma ArgFound(args: seq<Object>, a: Address)
    ensures a in Addrs(args) <==> ArgAt(args, a).Some?
  {
    if ArgAt(args, a).Some? {
      var i :| 0 <= i < |args| && args[i] == ArgAt(args, a).value;
      assert Addrs(args)[i] == a;
    }
  }

  /** Linear ids make every lookup succeed. */
  lemma LinearResolves(ctx: Context, args: seq<Object>)
    requires IdsLinear(ctx, args)
    ensures Resolvable(ctx, args)
  {
    hide ObjectAddress, ArgAt;
    forall i | 0 <= i < |ctx.transfers|
      ensures Moves(ctx.transfers[i], ctx.freshIds, args)
    {
      assert TransferIds(ctx.transfers)[i] in TransferIds(ctx.transfers) + ctx.destroyed;
      ArgFound(args, IdOf(ctx.transfers[i].value));
    }
    forall i | 0 <= i < |ctx.destroyed|
      ensures ctx.destroyed[i] in ctx.freshIds || ArgAt(args, ctx.destroyed[i]).Some?
    {
      assert ctx.destroyed[i] in TransferIds(ctx.transfers) + ctx.destroyed;
      ArgFound(args, ctx.destroyed[i]);
    }
  }

  /** The three lists partition the objects of a call: a fresh id is created exactly when it
      was transferred, every argument is changed or destroyed, and nothing occurs twice. */
  ghost predicate Partition(e: ObjectEffects, ctx: Context, args: seq<Object>, tx: Digest) {
    && Unique(Addrs(e.created) + Addrs(e.changed) + Addrs(e.destroyed))
    && (forall a :: a in Addrs(e.created) <==> a in ctx.freshIds && a in TransferIds(ctx.transfers))
    && (forall a :: a in Addrs(e.changed) + Addrs(e.destroyed) <==> a in Addrs(args))
    && (forall o :: o in e.created ==> o.version == 1 && o.tx == tx && o.owner.OwnedBy?)
    && (forall o :: o in e.changed ==> Succeeds(o, args, tx) && o.owner.OwnedBy?)
    && (forall o :: o in e.destroyed ==> Retires(o, args, tx))
  }

  lemma EffectsPartition(ctx: Context, args: seq<Object>, tx: Digest)
    requires IdsLinear(ctx, args) && Consumed(ctx, args)
    ensures Resolvable(ctx, args)
    ensures Partition(EffectsOf(ctx, args, tx), ctx, args, tx)
  {
    hide ObjectAddress, ArgAt, CreatedBy, ChangedBy, DestroyedBy, Unique, Succeeds, Retires;
    LinearResolves(ctx, args);
    var ids := TransferIds(ctx.transfers);
    UniqueConcat(ids, ctx.destroyed);
    UniqueConcat(ctx.freshIds, Addrs(args));
    CreatedExactly(ctx.transfers, ctx.freshIds, args, tx);
    ChangedExactly(ctx.transfers, ctx.freshIds, args, tx);
    DestroyedExactly(ctx.destroyed, ctx.freshIds, args, tx);
    CreatedAre(ctx.transfers, ctx.freshIds, args, tx);
    ChangedAre(ctx.transfers, ctx.freshIds, args, tx);
    DestroyedAre(ctx.destroyed, ctx.freshIds, args, tx);
    var e := EffectsOf(ctx, args, tx);
    UniqueConcat(Addrs(e.created), Addrs(e.changed));
    UniqueConcat(Addrs(e.created) + Addrs(e.changed), Addrs(e.destroyed));
    forall a
      ensures a in Addrs(e.changed) + Addrs(e.destroyed) <==> a in Addrs(args)
    {
      ArgsCovered(ctx, args, a);
    }
  }

  /** Which list an id of a call ends up in. */
  lemma EffectAddrs(ctx: Context, args: seq<Object>, tx: Digest, a: Address)
    requires IdsLinear(ctx, args) && Resolvable(ctx, args)
    ensures var e := EffectsOf(ctx, args, tx);
            && (a in Addrs(e.created) <==> a in ctx.freshIds && a in TransferIds(ctx.transfers))
            && (a in Addrs(e.changed) <==> a !in ctx.freshIds && a in TransferIds(ctx.transfers))
            && (a in Addrs(e.destroyed) <==> a !in ctx.freshIds && a in ctx.destroyed)
  {
    hide ObjectAddress, ArgAt, CreatedBy, ChangedBy, DestroyedBy, Unique;
    UniqueConcat(TransferIds(ctx.transfers), ctx.destroyed);
    CreatedExactly(ctx.transfers, ctx.freshIds, args, tx);
    ChangedExactly(ctx.transfers, ctx.freshIds, args, tx);
    DestroyedExactly(ctx.destroyed, ctx.freshIds, args, tx);
  }

  lemma ArgsCovered(ctx: Context, args: seq<Object>, a: Address)
    requires IdsLinear(ctx, args) && Consumed(ctx, args)
    ensures a in Ids(ctx.freshIds, TransferIds(ctx.transfers), false) + Ids(ctx.freshIds, ctx.destroyed, false)
            <==> a in Addrs(args)
  {
    hide ObjectAddress;
    UniqueConcat(ctx.freshIds, Addrs(args));
    if a in TransferIds(ctx.transfers) || a in ctx.destroyed {
      assert a in TransferIds(ctx.transfers) + ctx.destroyed;
    }
    if a in Addrs(args) {
      var i :| 0 <= i < |args| && Addrs(args)[i] == a;
      assert args[i].addr == a;
    }
  }

  // ------------------------------------------------------------------ deliveries

  /** The object is what the transfer asked for: the value's content without its id, at the
      value's address, owned by the recipient. */
  ghost predicate Delivers(o: Object, t: Transfer, ids: seq<Address>, args: seq<Object>, tx: Digest) {
    && Moves(t, ids, args)
    && o.addr == IdOf(t.value) && o.owner == OwnedBy(t.to) && o.tx == tx
    && o.content == Instance(t.value.tn, WithoutId(t.value.fields))
    && o.version == if IdOf(t.value) in ids then 1 else ArgAt(args, IdOf(t.value)).value.version + 1
  }

  /** Every created or changed object was delivered by a transfer. */
  lemma {:induction false} DeliveredBy(ts: seq<Transfer>, ids: seq<Address>, args: seq<Object>, tx: Digest, o: Object)
    returns (i: nat)
    requires ArgsOk(args) && AllMove(ts, ids, args)
    requires o in CreatedBy(ts, ids, args, tx) || o in ChangedBy(ts, ids, args, tx)
    ensures i < |ts| && Delivers(o, ts[i], ids, args, tx)
    ensures o in CreatedBy(ts, ids, args, tx) <==> IdOf(ts[i].value) in ids
  {
    hide ObjectAddress, ArgAt;
    var k := |ts| - 1;
    var init := ts[..k];
    assert Moves(ts[k], ids, args);
    CreatedAre(ts, ids, args, tx);
    if o in CreatedBy(init, ids, args, tx) || o in ChangedBy(init, ids, args, tx) {
      i := DeliveredBy(init, ids, args, tx, o);
    } else {
      i := k;
    }
  }

  /** Every transfer delivers: a fresh id is created, an argument is changed. */
  lemma {:induction false} DeliveryOf(ts: seq<Transfer>, ids: seq<Address>, args: seq<Object>, tx: Digest, i: nat)
    returns (o: Object)
    requires ArgsOk(args) && AllMove(ts, ids, args) && i < |ts|
    ensures Delivers(o, ts[i], ids, args, tx)
    ensures if IdOf(ts[i].value) in ids then o in CreatedBy(ts, ids, args, tx) else o in ChangedBy(ts, ids, args, tx)
  {
    hide ObjectAddress, ArgAt;
    var k := |ts| - 1;
    assert Moves(ts[k], ids, args);
    if i < k {
      assert ts[..k][i] == ts[i];
      o := DeliveryOf(ts[..k], ids, args, tx, i);
    } else if IdOf(ts[k].value) in ids {
      o := ToObject(ts[k].value, OwnedBy(ts[k].to), tx, 1);
    } else {
      o := ToObject(ts[k].value, OwnedBy(ts[k].to), tx, Bump(ArgAt(args, IdOf(ts[k].value)).value));
    }
  }

  lemma {:induction false} UniqueAt(s: seq<Address>, i: nat, j: nat)
    requires Unique(s) && i < |s| && j < |s|
    ensures s[i] == s[j] ==> i == j
  {
    var k := |s| - 1;
    if i < k && j < k {
      UniqueAt(s[..k], i, j);
    }
  }

  /** Each transferred object reaches its recipient: whatever the effects write at its address is
      its delivery, and it is written, as a creation exactly when its id is fresh. */
  lemma EffectsDeliver(ctx: Context, args: seq<Object>, tx: Digest, i: nat)
    requires IdsLinear(ctx, args) && i < |ctx.transfers|
    ensures Resolvable(ctx, args)
    ensures var e, t := EffectsOf(ctx, args, tx), ctx.transfers[i];
            && (IdOf(t.value) in ctx.freshIds ==> exists o | o in e.created :: Delivers(o, t, ctx.freshIds, args, tx))
            && (IdOf(t.value) !in ctx.freshIds ==> exists o | o in e.changed :: Delivers(o, t, ctx.freshIds, args, tx))
            && (forall o | (o in e.created || o in e.changed) && o.addr == IdOf(t.value) ::
                  Delivers(o, t, ctx.freshIds, args, tx))
  {
    hide ObjectAddress, ArgAt, CreatedBy, ChangedBy, DestroyedBy, Unique, Delivers, Moves;
    LinearResolves(ctx, args);
    var e, t := EffectsOf(ctx, args, tx), ctx.transfers[i];
    var made := DeliveryOf(ctx.transfers, ctx.freshIds, args, tx, i);
    UniqueConcat(TransferIds(ctx.transfers), ctx.destroyed);
    forall o | (o in e.created || o in e.changed) && o.addr == IdOf(t.value)
      ensures Delivers(o, t, ctx.freshIds, args, tx)
    {
      var j := DeliveredBy(ctx.transfers, ctx.freshIds, args, tx, o);
      DeliveredAt(o, ctx.transfers[j], ctx.freshIds, args, tx);
      assert TransferIds(ctx.transfers)[j] == TransferIds(ctx.transfers)[i];
      UniqueAt(TransferIds(ctx.transfers), j, i);
    }
  }

  lemma DeliveredAt(o: Object, t: Transfer, ids: seq<Address>, args: seq<Object>, tx: Digest)
    requires Delivers(o, t, ids, args, tx)
    ensures o.addr == IdOf(t.value) && o.owner == OwnedBy(t.to)
  {
  }
}
