/** The native functions of the chain, and why a run of verified code on them uses object ids
    linearly: the executor's assumptions about the virtual machine, proved from conservation. */
module Adapter {
  import opened MeowTypes
  import opened Vm
  import opened Typing
  import Verifier
  import opened Structural
  import opened Soundness
  import opened Conservation
  import opened Verify
  import opened Logs
  import opened NativeCalls
  import opened Ledger
  import opened Effects
  import opened Executor
  import opened History

  function FreshName(): (n: string) { "meow_vm_fresh_id" }
  function TransferName(): (n: string) { "meow_vm_transfer" }
  function DestroyName(): (n: string) { "meow_vm_destroy" }
  function SenderName(): (n: string) { "meow_vm_sender" }
  function RandName(): (n: string) { "meow_vm_rand" }
  function TimeName(): (n: string) { "meow_vm_timestamp" }
  function AbortName(): (n: string) { "meow_vm_abort" }

  /** No two natives share a name. */
  lemma NamesDistinct()
    ensures FreshName() !in {TransferName(), DestroyName(), SenderName(), RandName(), TimeName(), AbortName()}
    ensures TransferName() !in {DestroyName(), SenderName(), RandName(), TimeName(), AbortName()}
    ensures DestroyName() !in {SenderName(), RandName(), TimeName(), AbortName()}
    ensures SenderName() !in {RandName(), TimeName(), AbortName()}
    ensures RandName() !in {TimeName(), AbortName()}
    ensures TimeName() != AbortName()
    ensures AbortName() == ABORT_SIG.name
  {
    assert |FreshName()| == 16 && |TransferName()| == 16 && |DestroyName()| == 15 && |SenderName()| == 14;
    assert |RandName()| == 12 && |TimeName()| == 17 && |AbortName()| == 13;
    assert FreshName()[8] != TransferName()[8];
  }

  /** What the natives of one transaction know. */
  datatype Session = Session(
    sender: Address, tx: Digest, derive: (Digest, nat) -> Address, random: nat -> u64, time: u64)

  function Named(log: seq<NativeEvent>, name: string): (n: nat) {
    if log == [] then 0
    else Named(log[..|log| - 1], name) + if log[|log| - 1].name == name then 1 else 0
  }

  const ID: Type := Struct(ID_TYPE)

  function FreshSig(): (g: NativeSig) { NativeSig(FreshName(), [], Some(ID)) }
  function TransferSig(): (g: NativeSig) { NativeSig(TransferName(), [LocalStruct, Concrete(Addr)], None) }
  function DestroySig(): (g: NativeSig) { NativeSig(DestroyName(), [Concrete(ID)], None) }
  function SenderSig(): (g: NativeSig) { NativeSig(SenderName(), [], Some(Addr)) }
  function RandSig(): (g: NativeSig) { NativeSig(RandName(), [], Some(U64)) }
  function TimeSig(): (g: NativeSig) { NativeSig(TimeName(), [], Some(U64)) }

  function Sigs(): (r: seq<NativeSig>) {
    [FreshSig(), TransferSig(), DestroySig(), SenderSig(), RandSig(), TimeSig()]
  }

  function Fresh(s: Session, log: seq<NativeEvent>): (r: NativeResult) {
    NReturn(Some(IdValue(s.derive(s.tx, Named(log, FreshName())))))
  }

  function Transferred(args: seq<Value>): (r: NativeResult) {
    if |args| == 2 && args[1].VAddr? && ObjectAddress(args[0]).Some? then NReturn(None)
    else NError("meow_vm_transfer")
  }

  function Destroyed(args: seq<Value>): (r: NativeResult) {
    if |args| == 1 && IdAddress(args[0]).Some? then NReturn(None) else NError("meow_vm_destroy")
  }

  function Aborted(args: seq<Value>): (r: NativeResult) {
    if |args| == 3 && args[0].VBool? && args[1].VU64? && args[2].VStr? then
      if args[0].b then NReturn(None) else NAbort(args[1].n, args[2].s)
    else NError("meow_vm_abort")
  }

  function FreshNative(s: Session): (e: NativeEntry) {
    NativeEntry(FreshSig(), 10, (log: seq<NativeEvent>, args: seq<Value>) => Fresh(s, log))
  }

  function TransferNative(): (e: NativeEntry) {
    NativeEntry(TransferSig(), 20, (log: seq<NativeEvent>, args: seq<Value>) => Transferred(args))
  }

  function DestroyNative(): (e: NativeEntry) {
    NativeEntry(DestroySig(), 10, (log: seq<NativeEvent>, args: seq<Value>) => Destroyed(args))
  }

  function SenderNative(s: Session): (e: NativeEntry) {
    NativeEntry(SenderSig(), 1, (log: seq<NativeEvent>, args: seq<Value>) => NReturn(Some(VAddr(s.sender))))
  }

  function RandNative(s: Session): (e: NativeEntry) {
    NativeEntry(RandSig(), 10,
      (log: seq<NativeEvent>, args: seq<Value>) => NReturn(Some(VU64(s.random(Named(log, RandName()))))))
  }

  function TimeNative(s: Session): (e: NativeEntry) {
    NativeEntry(TimeSig(), 1, (log: seq<NativeEvent>, args: seq<Value>) => NReturn(Some(VU64(s.time))))
  }

  function AbortNative(): (e: NativeEntry) {
    NativeEntry(ABORT_SIG, 0, (log: seq<NativeEvent>, args: seq<Value>) => Aborted(args))
  }

  function Natives(s: Session): (r: map<string, NativeEntry>) {
    map[FreshName() := FreshNative(s), TransferName() := TransferNative(), DestroyName() := DestroyNative(),
        SenderName() := SenderNative(s), RandName() := RandNative(s), TimeName() := TimeNative(s),
        AbortName() := AbortNative()]
  }

  /** A name in the table, and what it stands for. */
  ghost predicate Registered(s: Session, n: string, entry: NativeEntry) {
    || (n == FreshName() && entry == FreshNative(s))
    || (n == TransferName() && entry == TransferNative())
    || (n == DestroyName() && entry == DestroyNative())
    || (n == SenderName() && entry == SenderNative(s))
    || (n == RandName() && entry == RandNative(s))
    || (n == TimeName() && entry == TimeNative(s))
    || (n == AbortName() && entry == AbortNative())
  }

  lemma NativeLookup(s: Session, n: string)
    ensures n in Natives(s) ==> Registered(s, n, Natives(s)[n])
    ensures n in {FreshName(), TransferName(), DestroyName(), SenderName(), RandName(), TimeName(), AbortName()}
            ==> n in Natives(s)
  {
    hide FreshName, TransferName, DestroyName, SenderName, RandName, TimeName, AbortName,
      FreshNative, TransferNative, DestroyNative, SenderNative, RandNative, TimeNative, AbortNative;
    NamesDistinct();
  }

  /** The id struct is loaded as the object module defines it. */
  ghost predicate IdDefined(vm: Machine) {
    var def := DefAt(vm, OBJECT_MODULE, "Id");
    def.Some? && def.value.fields == [FieldDef("inner", Addr)]
  }

  lemma AddressTyped(vm: Machine, v: Value)
    requires HasType(vm, v, Addr)
    ensures v.VAddr?
  {
  }

  /** A value of the id type is an id around an address, and conversely. */
  lemma IdTyped(vm: Machine, v: Value)
    requires IdDefined(vm)
    ensures HasType(vm, v, ID) <==> exists a :: v == IdValue(a)
  {
    if HasType(vm, v, ID) {
      var def := DefAt(vm, OBJECT_MODULE, "Id").value;
      assert |v.fields| == 1 && v.fields[0].name == "inner";
      assert HasType(vm, v.fields[0].value, Qualify(OBJECT_MODULE, def.fields[0].ty));
      AddressTyped(vm, v.fields[0].value);
      assert v.fields == [Field("inner", VAddr(v.fields[0].value.a))];
      assert v == IdValue(v.fields[0].value.a);
    }
  }

  /** The chain's natives are the ones the verifier is told about, and return what they declare. */
  lemma NativesAsDeclared(vm: Machine, s: Session)
    requires vm.natives == Natives(s) && IdDefined(vm)
    ensures NativesTyped(vm, AllNatives(Sigs()))
  {
    hide HasType, IdDefined, Natives, NativeHonest, GlobalParams, Registered;
    forall n | FindNative(AllNatives(Sigs()), n).Some?
      ensures n in vm.natives && vm.natives[n].sig == FindNative(AllNatives(Sigs()), n).value
      ensures GlobalParams(vm.natives[n].sig) && NativeHonest(vm, vm.natives[n])
    {
      SigRegistered(s, n);
      EntryHonest(vm, s, n, vm.natives[n]);
    }
  }

  lemma SigRegistered(s: Session, n: string)
    requires FindNative(AllNatives(Sigs()), n).Some?
    ensures n in Natives(s) && Natives(s)[n].sig == FindNative(AllNatives(Sigs()), n).value
    ensures Registered(s, n, Natives(s)[n])
  {
    hide FreshName, TransferName, DestroyName, SenderName, RandName, TimeName, AbortName, Natives;
    NamesDistinct();
    SigsListed(n);
    NativeLookup(s, n);
  }

  lemma SigsListed(n: string)
    requires FindNative(AllNatives(Sigs()), n).Some?
    ensures var g := FindNative(AllNatives(Sigs()), n).value;
            || (n == AbortName() && g == ABORT_SIG)
            || (n == FreshName() && g == FreshSig())
            || (n == TransferName() && g == TransferSig())
            || (n == DestroyName() && g == DestroySig())
            || (n == SenderName() && g == SenderSig())
            || (n == RandName() && g == RandSig())
            || (n == TimeName() && g == TimeSig())
  {
    hide FreshName, TransferName, DestroyName, SenderName, RandName, TimeName, AbortName;
    NamesDistinct();
    var g := FindNative(AllNatives(Sigs()), n).value;
    assert g in AllNatives(Sigs()) && g.name == n;
  }

  lemma EntryHonest(vm: Machine, s: Session, n: string, entry: NativeEntry)
    requires IdDefined(vm) && Registered(s, n, entry)
    ensures GlobalParams(entry.sig) && NativeHonest(vm, entry)
  {
    hide FreshName, TransferName, DestroyName, SenderName, RandName, TimeName, AbortName, IdDefined, Named;
    assert GlobalParams(entry.sig);
    forall log, args
      ensures var r := entry.func(log, args);
              r.NReturn? ==> forall a: Address :: ReturnFits(vm, a, entry.sig.ret, r.value)
    {
      if entry == FreshNative(s) {
        IdTyped(vm, IdValue(s.derive(s.tx, Named(log, FreshName()))));
      }
    }
  }

  // ---------------------------------------------------------------- the context

  function FreshOf(log: seq<NativeEvent>): (r: seq<Address>) {
    if log == [] then []
    else
      var init, ev := FreshOf(log[..|log| - 1]), log[|log| - 1];
      if ev.name == FreshName() && ev.result.Some? && IdAddress(ev.result.value).Some?
      then init + [IdAddress(ev.result.value).value] else init
  }

  function TransfersOf(log: seq<NativeEvent>): (r: seq<Transfer>) {
    if log == [] then []
    else
      var init, ev := TransfersOf(log[..|log| - 1]), log[|log| - 1];
      if ev.name == TransferName() && |ev.args| == 2 && ev.args[1].VAddr?
      then init + [Transfer(ev.args[0], ev.args[1].a)] else init
  }

  function DestroyedOf(log: seq<NativeEvent>): (r: seq<Address>) {
    if log == [] then []
    else
      var init, ev := DestroyedOf(log[..|log| - 1]), log[|log| - 1];
      if ev.name == DestroyName() && |ev.args| == 1 && IdAddress(ev.args[0]).Some?
      then init + [IdAddress(ev.args[0]).value] else init
  }

  /** What the native calls of a run leave in the execution context. */
  function ContextOf(log: seq<NativeEvent>): (ctx: Context) {
    Context(FreshOf(log), TransfersOf(log), DestroyedOf(log))
  }

  // -------------------------------------------------------------------- counting

  /** Counting one address, or all of them. */
  predicate Meant(who: Option<Address>, a: Address) {
    who.None? || who.value == a
  }

  function Count(who: Option<Address>, xs: seq<Address>): (n: nat) {
    if xs == [] then 0 else Count(who, xs[..|xs| - 1]) + if Meant(who, xs[|xs| - 1]) then 1 else 0
  }

  /** The ids counted: one id, or all values of the id type. */
  function IdToken(who: Option<Address>): (x: Token) {
    Token(ID_TYPE, if who.None? then None else Some(IdValue(who.value)))
  }

  lemma {:induction false} CountAll(xs: seq<Address>)
    ensures Count(None, xs) == |xs|
  {
    if xs != [] { CountAll(xs[..|xs| - 1]); }
  }

  lemma CountSnoc(who: Option<Address>, xs: seq<Address>, b: Address)
    ensures Count(who, xs + [b]) == Count(who, xs) + if Meant(who, b) then 1 else 0
  {
    assert (xs + [b])[..|xs|] == xs;
  }

  lemma {:induction false} CountConcat(who: Option<Address>, xs: seq<Address>, ys: seq<Address>)
    ensures Count(who, xs + ys) == Count(who, xs) + Count(who, ys)
  {
    if ys == [] {
      assert xs + ys == xs;
    } else {
      assert (xs + ys)[..|xs + ys| - 1] == xs + ys[..|ys| - 1];
      CountConcat(who, xs, ys[..|ys| - 1]);
    }
  }

  lemma {:induction false} CountMember(a: Address, xs: seq<Address>)
    ensures a in xs <==> Count(Some(a), xs) > 0
  {
    if xs != [] {
      assert xs == xs[..|xs| - 1] + [xs[|xs| - 1]];
      CountMember(a, xs[..|xs| - 1]);
    }
  }

  // ------------------------------------------------------------- tokens in the log

  /** An object value: a struct of a loaded type whose `id` field is an object id. */
  ghost predicate ObjectShaped(v: Value) {
    && v.VStruct? && v.tn.Qualified? && v.tn != ID_TYPE
    && FirstField(v.fields, ID_FIELD).Some?
    && exists a :: FirstField(v.fields, ID_FIELD).value == IdValue(a)
  }

  /** Every transferred value is an object, as the chain's own bytecode rules demand. */
  ghost predicate TransfersObjects(log: seq<NativeEvent>) {
    forall i :: 0 <= i < |log| && log[i].name == TransferName() ==> |log[i].args| > 0 && ObjectShaped(log[i].args[0])
  }

  lemma {:induction false} FieldCounts(x: Token, fields: seq<Field>, i: nat)
    requires i < |fields|
    ensures FieldTokens(x, fields) >= Tokens(x, fields[i].value)
  {
    if i > 0 { FieldCounts(x, fields[1..], i - 1); }
  }

  /** An object value holds its own id. */
  lemma ObjectHoldsId(v: Value, who: Option<Address>)
    requires ObjectShaped(v)
    ensures ObjectAddress(v).Some?
    ensures Meant(who, IdOf(v)) ==> Tokens(IdToken(who), v) >= 1
  {
    var i := Place(v.fields, ID_FIELD);
    FieldCounts(IdToken(who), v.fields, i);
  }

  /** What one native call shows, by name. */
  lemma EventShows(vm: Machine, s: Session, log: seq<NativeEvent>, i: nat)
    requires vm.natives == Natives(s) && i < |log| && EventFits(vm, log, i)
    ensures EventTrue(vm, log, i)
    ensures log[i].name == TransferName() ==> |log[i].args| == 2 && log[i].args[1].VAddr?
    ensures log[i].name == DestroyName() ==>
      |log[i].args| == 1 && IdAddress(log[i].args[0]).Some? && HasType(vm, log[i].args[0], ID)
    ensures log[i].name != FreshName() && log[i].result.Some? ==> log[i].result.value.VAddr? || log[i].result.value.VU64?
  {
    hide FreshName, TransferName, DestroyName, SenderName, RandName, TimeName, AbortName, Named, ObjectAddress,
      IdAddress, HasType, Natives;
    NamesDistinct();
    NativeLookup(s, log[i].name);
    var entry := vm.natives[log[i].name];
    assert NReturn(log[i].result) == entry.func(log[..i], log[i].args);
    if log[i].name == DestroyName() {
      assert NativeArgFits(vm, entry.sig.params[0], log[i].args[0]);
    }
  }

  /** The fresh ids, whatever code asked for them. */
  lemma FreshShows(vm: Machine, s: Session, log: seq<NativeEvent>, i: nat)
    requires vm.natives == Natives(s) && i < |log| && EventTrue(vm, log, i)
    ensures log[i].name == FreshName() ==> log[i].result == Some(IdValue(s.derive(s.tx, Named(log[..i], FreshName()))))
  {
    hide FreshName, TransferName, DestroyName, SenderName, RandName, TimeName, AbortName, Named, Natives;
    NamesDistinct();
    NativeLookup(s, log[i].name);
  }

  /** What the other natives report: the sender, the time, the random numbers in order of asking; and an
      assertion that let the run go on was true. */
  lemma ReportsShow(vm: Machine, s: Session, log: seq<NativeEvent>, i: nat)
    requires vm.natives == Natives(s) && i < |log| && EventTrue(vm, log, i)
    ensures log[i].name == SenderName() ==> log[i].result == Some(VAddr(s.sender))
    ensures log[i].name == TimeName() ==> log[i].result == Some(VU64(s.time))
    ensures log[i].name == RandName() ==> log[i].result == Some(VU64(s.random(Named(log[..i], RandName()))))
    ensures log[i].name == AbortName() ==> log[i].result.None? && |log[i].args| == 3 && log[i].args[0] == VBool(true)
  {
    hide FreshName, TransferName, DestroyName, SenderName, RandName, TimeName, AbortName, Named, Natives;
    NamesDistinct();
    NativeLookup(s, log[i].name);
  }

  lemma DestroyGives(vm: Machine, v: Value, who: Option<Address>)
    requires IdDefined(vm) && HasType(vm, v, ID) && IdAddress(v).Some?
    ensures SumTokens(IdToken(who), [v]) == if Meant(who, IdAddress(v).value) then 1 else 0
  {
    hide HasType, IdDefined;
    IdTyped(vm, v);
    SumOne(IdToken(who), v);
  }

  lemma TransferGives(args: seq<Value>, who: Option<Address>)
    requires |args| == 2 && ObjectShaped(args[0])
    ensures SumTokens(IdToken(who), args) >= if Meant(who, IdOf(args[0])) then 1 else 0
  {
    hide ObjectShaped;
    ObjectHoldsId(args[0], who);
  }

  /** What natives were handed covers every id transferred or destroyed. */
  lemma {:induction false} GivenCovers(vm: Machine, s: Session, log: seq<NativeEvent>, who: Option<Address>)
    requires vm.natives == Natives(s) && IdDefined(vm) && LogFits(vm, log) && TransfersObjects(log)
    ensures Given(IdToken(who), log) >= Count(who, TransferIds(TransfersOf(log))) + Count(who, DestroyedOf(log))
    ensures forall i :: 0 <= i < |TransfersOf(log)| ==> ObjectShaped(TransfersOf(log)[i].value)
  {
    hide FreshName, TransferName, DestroyName, IdDefined, Natives, EventFits, SumTokens, ObjectShaped, IdOf, IdAddress, HasType;
    if log != [] {
      var init, ev := log[..|log| - 1], log[|log| - 1];
      LogPrefix(vm, log);
      GivenCovers(vm, s, init, who);
      assert EventFits(vm, log, |log| - 1);
      EventShows(vm, s, log, |log| - 1);
      NamesDistinct();
      if ev.name == TransferName() {
        var t := Transfer(ev.args[0], ev.args[1].a);
        TransferGives(ev.args, who);
        TransferIdsSnoc(TransfersOf(init), t);
        CountSnoc(who, TransferIds(TransfersOf(init)), IdOf(t.value));
      } else if ev.name == DestroyName() {
        DestroyGives(vm, ev.args[0], who);
        assert ev.args == [ev.args[0]];
        CountSnoc(who, DestroyedOf(init), IdAddress(ev.args[0]).value);
      }
    }
  }

  lemma TransferIdsSnoc(ts: seq<Transfer>, t: Transfer)
    ensures TransferIds(ts + [t]) == TransferIds(ts) + [IdOf(t.value)]
  {
    assert (ts + [t])[..|ts|] == ts;
  }

  lemma LogPrefix(vm: Machine, log: seq<NativeEvent>)
    requires log != [] && LogFits(vm, log)
    ensures LogFits(vm, log[..|log| - 1])
  {
    hide NativeArgsFit;
    var init := log[..|log| - 1];
    forall i: nat | i < |init|
      ensures EventFits(vm, init, i)
    {
      assert EventFits(vm, log, i);
      assert init[..i] == log[..i];
    }
  }

  /** Fresh ids are drawn from the transaction in order. */
  lemma {:induction false} FreshInOrder(vm: Machine, s: Session, e: Env, log: seq<NativeEvent>)
    requires vm.natives == Natives(s) && Recorded(vm, log)
    requires e.derive == s.derive
    ensures FreshOf(log) == FreshIds(e, s.tx, Named(log, FreshName()))
  {
    hide FreshName, Natives, EventTrue;
    if log != [] {
      RecordedInit(vm, log);
      FreshInOrder(vm, s, e, log[..|log| - 1]);
      assert EventTrue(vm, log, |log| - 1);
      FreshShows(vm, s, log, |log| - 1);
    }
  }

  /** What natives returned is exactly the fresh ids. */
  lemma {:induction false} ReceivedIs(vm: Machine, s: Session, log: seq<NativeEvent>, who: Option<Address>)
    requires vm.natives == Natives(s) && LogFits(vm, log)
    ensures Received(IdToken(who), log) == Count(who, FreshOf(log))
  {
    hide FreshName, TransferName, DestroyName, Natives, EventFits, HasType, Named, Tokens;
    if log != [] {
      var init, ev := log[..|log| - 1], log[|log| - 1];
      LogPrefix(vm, log);
      ReceivedIs(vm, s, init, who);
      assert EventFits(vm, log, |log| - 1);
      EventShows(vm, s, log, |log| - 1);
      FreshShows(vm, s, log, |log| - 1);
      if ev.name == FreshName() {
        var b := s.derive(s.tx, Named(init, FreshName()));
        IdTokens(who, b);
        CountSnoc(who, FreshOf(init), b);
      } else if ev.result.Some? {
        PlainTokens(who, ev.result.value);
      }
    }
  }

  lemma IdTokens(who: Option<Address>, b: Address)
    ensures Tokens(IdToken(who), IdValue(b)) == (if Meant(who, b) then 1 else 0)
    ensures IdAddress(IdValue(b)) == Some(b)
  {
  }

  lemma PlainTokens(who: Option<Address>, v: Value)
    requires v.VAddr? || v.VU64?
    ensures Tokens(IdToken(who), v) == 0
  {
  }

  // ------------------------------------------------------------------- arguments

  function RawToValue(r: RawValue): (v: Value) {
    match r
    case RawBool(b) => VBool(b)
    case RawU64(n) => VU64(n)
    case RawAddress(a) => VAddr(a)
    case RawStr(s) => VStr(s)
  }

  /** The machine's arguments: raw values as they are, objects with their ids in front. */
  function LoadArgs(args: seq<Input>, s: Store): (r: seq<Value>)
    requires forall i :: 0 <= i < |args| && args[i].ObjectArg? ==>
      args[i].ref.addr in s && s[args[i].ref.addr].content.Instance?
  {
    if args == [] then []
    else
      var last := args[|args| - 1];
      LoadArgs(args[..|args| - 1], s) +
      [if last.Raw? then RawToValue(last.raw) else ToValue(s[last.ref.addr])]
  }

  /** Each argument is loaded in its place. */
  lemma {:induction false} LoadedInOrder(args: seq<Input>, s: Store, i: nat)
    requires forall i :: 0 <= i < |args| && args[i].ObjectArg? ==>
      args[i].ref.addr in s && s[args[i].ref.addr].content.Instance?
    requires i < |args|
    ensures |LoadArgs(args, s)| == |args|
    ensures args[i].Raw? ==> LoadArgs(args, s)[i] == RawToValue(args[i].raw)
    ensures args[i].ObjectArg? ==> LoadArgs(args, s)[i] == ToValue(s[args[i].ref.addr])
  {
    var k := |args| - 1;
    if k == 0 {
      assert args[..k] == [];
    } else {
      LoadedInOrder(args[..k], s, if i < k then i else 0);
    }
  }

  /** No ids among the contents of an object, and the object is not itself an id. */
  ghost predicate PlainContent(o: Object) {
    o.content.Instance? && o.content.decl != ID_TYPE && FieldTokens(IdToken(None), o.content.fields) == 0
  }

  /** The ids in the arguments are those of the objects passed. */
  lemma {:induction false} LoadedIds(args: seq<Input>, s: Store, who: Option<Address>)
    requires Keyed(s)
    requires forall i :: 0 <= i < |args| && args[i].ObjectArg? ==>
      args[i].ref.addr in s && s[args[i].ref.addr].content.Instance? && PlainContent(s[args[i].ref.addr])
    ensures SumTokens(IdToken(who), LoadArgs(args, s)) == Count(who, ArgAddrs(args))
  {
    if args != [] {
      var init, last := args[..|args| - 1], args[|args| - 1];
      LoadedIds(init, s, who);
      if last.ObjectArg? {
        var o := s[last.ref.addr];
        SumPush(IdToken(who), LoadArgs(init, s), ToValue(o));
        ObjectTokens(o, who);
        CountSnoc(who, ArgAddrs(init), o.addr);
      } else {
        SumPush(IdToken(who), LoadArgs(init, s), RawToValue(last.raw));
      }
    }
  }

  /** There are no more copies of one id than ids. */
  lemma {:induction false} KindCovers(who: Option<Address>, v: Value)
    ensures Tokens(IdToken(who), v) <= Tokens(IdToken(None), v)
    decreases v
  {
    match v
    case VStruct(_, fields) => FieldsCover(who, fields);
    case VTuple(vs) => SumCovers(who, vs);
    case _ =>
  }

  lemma {:induction false} FieldsCover(who: Option<Address>, fields: seq<Field>)
    ensures FieldTokens(IdToken(who), fields) <= FieldTokens(IdToken(None), fields)
    decreases fields
  {
    if fields != [] {
      KindCovers(who, fields[0].value);
      FieldsCover(who, fields[1..]);
    }
  }

  lemma {:induction false} SumCovers(who: Option<Address>, vs: seq<Value>)
    ensures SumTokens(IdToken(who), vs) <= SumTokens(IdToken(None), vs)
    decreases vs
  {
    if vs != [] {
      KindCovers(who, vs[0]);
      SumCovers(who, vs[1..]);
    }
  }

  lemma ObjectTokens(o: Object, who: Option<Address>)
    requires PlainContent(o)
    ensures Tokens(IdToken(who), ToValue(o)) == if Meant(who, o.addr) then 1 else 0
  {
    var fields := ToValue(o).fields;
    assert fields[1..] == o.content.fields;
    FieldsCover(who, o.content.fields);
    assert FieldTokens(IdToken(who), fields) == Tokens(IdToken(who), IdValue(o.addr)) + FieldTokens(IdToken(who), fields[1..]);
  }

  // -------------------------------------------------------------------- the link

  /** Everything the machine of a call needs: verified modules, the chain's natives, an object
      module that defines the id struct and has no code. */
  ghost predicate ChainMachine(vm: Machine, s: Session, cfg: Limits) {
    && MachineVerified(vm, Sigs(), cfg)
    && vm.natives == Natives(s) && IdDefined(vm)
    && (OBJECT_MODULE in vm.deps ==> vm.deps[OBJECT_MODULE].functions == [])
    && (OBJECT_MODULE == vm.addr ==> vm.main.functions == [])
  }

  /** No loaded code writes into an id. */
  ghost predicate NoIdWrites(vm: Machine) {
    Spares(vm, AllNatives(Sigs()), ID_TYPE)
  }

  /** The objects among the inputs, as the store holds them. */
  ghost predicate Takes(args: seq<Input>, s: Store, objs: seq<Object>) {
    && Keyed(s) && Addrs(objs) == ArgAddrs(args)
    && (forall i :: 0 <= i < |args| && args[i].ObjectArg? ==>
          args[i].ref.addr in s && s[args[i].ref.addr].content.Instance? && PlainContent(s[args[i].ref.addr]))
  }

  /** Ids are conserved: with the result as many come out as came in, and if no code writes into
      ids, each comes out as often as it came in. */
  lemma IdsConserved(vm: Machine, s: Session, cfg: Limits, name: string, args: seq<Input>, store: Store,
                     objs: seq<Object>, gas: Gas, who: Option<Address>)
    requires ChainMachine(vm, s, cfg) && EntryError(vm, name).None? && Takes(args, store, objs)
    requires AllTyped(vm, vm.addr, LoadArgs(args, store), Verifier.ParamTypes(GetFunction(vm.main, name).value.params))
    requires who.Some? ==> NoIdWrites(vm)
    ensures Halting(vm, vm.main, gas)
    ensures var o := TopCall(vm, name, LoadArgs(args, store), gas);
            o.Returned? && TransfersObjects(o.log) ==>
              && Count(who, FreshOf(o.log) + Addrs(objs))
                 == OptTokens(IdToken(who), o.value) + Given(IdToken(who), o.log)
              && Given(IdToken(who), o.log) >= Count(who, TransferIds(TransfersOf(o.log)) + DestroyedOf(o.log))
              && (forall i :: 0 <= i < |TransfersOf(o.log)| ==> ObjectShaped(TransfersOf(o.log)[i].value))
  {
    hide MachineVerified, CallInner, AllTyped, IdDefined, Natives, LogFits, EntryError, TransfersObjects, Tokens,
      SumTokens, Given, Received, FreshOf, TransfersOf, DestroyedOf, ObjectShaped, Addrs, LoadArgs, Halting;
    var vals := LoadArgs(args, store);
    LinearConservation(IdToken(who), vm, Sigs(), cfg, name, vals, gas);
    NativesSeeTypedArguments(vm, Sigs(), cfg, name, vals, gas);
    var o := TopCall(vm, name, vals, gas);
    LoadedIds(args, store, who);
    ReceivedIs(vm, s, o.log, who);
    CountConcat(who, FreshOf(o.log), Addrs(objs));
    if TransfersObjects(o.log) {
      GivenCovers(vm, s, o.log, who);
      CountConcat(who, TransferIds(TransfersOf(o.log)), DestroyedOf(o.log));
    }
  }

  /** The run of the machine as the executor sees it. */
  function MachineEnd(vm: Machine, name: string, vals: seq<Value>, gas: Gas): (end: CallEnd)
    requires Halting(vm, vm.main, gas)
  {
    match TopCall(vm, name, vals, gas)
    case Returned(_, left, log) => Finished(ContextOf(log), left)
    case Failed(_, left, log) => Stopped("error", left)
  }

  lemma {:induction false} ShapedConvert(ts: seq<Transfer>)
    requires forall i :: 0 <= i < |ts| ==> ObjectShaped(ts[i].value)
    ensures forall i :: 0 <= i < |ts| ==> Convertible(ts[i].value)
  {
    hide ObjectShaped, ObjectAddress;
    forall i | 0 <= i < |ts|
      ensures Convertible(ts[i].value)
    {
      ShapedQualified(ts[i].value);
      ObjectHoldsId(ts[i].value, None);
    }
  }

  lemma ShapedQualified(v: Value)
    requires ObjectShaped(v)
    ensures v.VStruct? && v.tn.Qualified?
  {
  }

  /** Counts that are equal leave no id unaccounted for. */
  lemma ConsumedByCount(ctx: Context, objs: seq<Object>)
    requires forall a :: Count(Some(a), TransferIds(ctx.transfers) + ctx.destroyed) >= Count(Some(a), ctx.freshIds + Addrs(objs))
    ensures Consumed(ctx, objs)
  {
    hide TransferIds;
    var used, had := TransferIds(ctx.transfers) + ctx.destroyed, ctx.freshIds + Addrs(objs);
    forall a | a in had
      ensures a in TransferIds(ctx.transfers) || a in ctx.destroyed
    {
      CountMember(a, used);
      CountMember(a, had);
    }
    forall i | 0 <= i < |objs|
      ensures objs[i].addr in TransferIds(ctx.transfers) || objs[i].addr in ctx.destroyed
    {
      assert Addrs(objs)[i] in had;
    }
    forall i | 0 <= i < |ctx.freshIds|
      ensures ctx.freshIds[i] in TransferIds(ctx.transfers) || ctx.freshIds[i] in ctx.destroyed
    {
      assert ctx.freshIds[i] in had;
    }
  }

  lemma NativesOwnNames(vm: Machine, s: Session)
    requires vm.natives == Natives(s)
    ensures OwnNames(vm)
  {
    hide FreshName, TransferName, DestroyName, SenderName, RandName, TimeName, AbortName, Natives;
    NamesDistinct();
    forall n | n in vm.natives ensures vm.natives[n].sig.name == n {
      NativeLookup(s, n);
    }
  }

  /** In every run of any code that halts, the natives report the session they were given. */
  lemma AnyRunReports(vm: Machine, s: Session, name: string, vals: seq<Value>, gas: Gas, i: nat)
    requires vm.natives == Natives(s) && Halting(vm, vm.main, gas)
    requires i < |TopCall(vm, name, vals, gas).log|
    ensures var log := TopCall(vm, name, vals, gas).log;
            && (log[i].name == SenderName() ==> log[i].result == Some(VAddr(s.sender)))
            && (log[i].name == TimeName() ==> log[i].result == Some(VU64(s.time)))
            && (log[i].name == RandName() ==> log[i].result == Some(VU64(s.random(Named(log[..i], RandName())))))
            && (log[i].name == AbortName() ==> |log[i].args| == 3 && log[i].args[0] == VBool(true))
  {
    hide Natives, CallInner, Halting, OwnNames, EntryError, EventTrue, FreshName, TransferName, DestroyName, SenderName,
      RandName, TimeName, AbortName, Named;
    NativesOwnNames(vm, s);
    NothingRecorded(vm);
    if EntryError(vm, name).None? {
      CallRecords(vm, vm.addr, vm.main, name, vals, gas, [], 0);
    }
    assert EventTrue(vm, TopCall(vm, name, vals, gas).log, i);
    ReportsShow(vm, s, TopCall(vm, name, vals, gas).log, i);
  }

  /** The machine keeps its contract with the executor on any code that halts, verified or not: gas
      stays within the limit, and fresh ids are drawn from the call's own digest in order. */
  lemma AnyRunIsHonest(
    p: Protocol, e: Env, t: Tx, vm: Machine, s: Session, name: string, vals: seq<Value>, gas: Gas)
    requires vm.natives == Natives(s) && s.tx == p.txDigest(t) && s.derive == e.derive
    requires Halting(vm, vm.main, gas)
    ensures EndOk(p, e, t, gas, MachineEnd(vm, name, vals, gas))
  {
    hide Natives, CallInner, Halting, Recorded, OwnNames, FreshOf, TransfersOf, DestroyedOf, FreshIds, EntryError;
    GasKept(vm, name, vals, gas);
    NativesOwnNames(vm, s);
    NothingRecorded(vm);
    if EntryError(vm, name).None? {
      CallRecords(vm, vm.addr, vm.main, name, vals, gas, [], 0);
    }
    FreshInOrder(vm, s, e, TopCall(vm, name, vals, gas).log);
  }

  lemma NothingRecorded(vm: Machine)
    ensures Recorded(vm, [])
  {
  }

  /** On verified modules a run that accounts for every object has used its ids linearly, although
      its code may have written into them: it handed out no more ids than it had. */
  lemma AccountedIsLinear(
    vm: Machine, s: Session, cfg: Limits, name: string, args: seq<Input>, store: Store, objs: seq<Object>, gas: Gas)
    requires ChainMachine(vm, s, cfg) && EntryError(vm, name).None? && Takes(args, store, objs)
    requires AllTyped(vm, vm.addr, LoadArgs(args, store), Verifier.ParamTypes(GetFunction(vm.main, name).value.params))
    ensures Halting(vm, vm.main, gas)
    ensures var o := TopCall(vm, name, LoadArgs(args, store), gas);
            o.Returned? && TransfersObjects(o.log) ==>
              var ctx := ContextOf(o.log);
              && |ctx.transfers| + |ctx.destroyed| <= |ctx.freshIds| + |objs|
              && (ArgsOk(objs) && Unique(ctx.freshIds + Addrs(objs)) && Consumed(ctx, objs) ==> IdsLinear(ctx, objs))
  {
    hide ChainMachine, CallInner, AllTyped, EntryError, TransfersObjects, Given, FreshOf, TransfersOf, DestroyedOf, ObjectShaped,
      Addrs, LoadArgs, Halting, Unique, IdsLinear, ArgsOk, OptTokens, Convertible, Count, Consumed, TransferIds;
    IdsConserved(vm, s, cfg, name, args, store, objs, gas, None);
    var o := TopCall(vm, name, LoadArgs(args, store), gas);
    if o.Returned? && TransfersObjects(o.log) {
      var ctx := ContextOf(o.log);
      CountAll(ctx.freshIds + Addrs(objs));
      CountAll(TransferIds(ctx.transfers) + ctx.destroyed);
      ShapedConvert(ctx.transfers);
      if ArgsOk(objs) && Unique(ctx.freshIds + Addrs(objs)) && Consumed(ctx, objs) {
        LinearByAccount(ctx, objs);
      }
    }
  }

  lemma GasKept(vm: Machine, name: string, vals: seq<Value>, gas: Gas)
    requires Halting(vm, vm.main, gas)
    ensures TopCall(vm, name, vals, gas).gas.limit == gas.limit
    ensures gas.spent <= TopCall(vm, name, vals, gas).gas.spent
  {
  }

  // ------------------------------------------------------------- nothing is left over

  /** The transferred object holds its own id and no other. */
  ghost predicate OneId(v: Value) {
    ObjectShaped(v) && forall who :: Tokens(IdToken(who), v) == if Meant(who, IdOf(v)) then 1 else 0
  }

  ghost predicate TransfersOneId(log: seq<NativeEvent>) {
    forall i :: 0 <= i < |log| && log[i].name == TransferName() ==> |log[i].args| > 0 && OneId(log[i].args[0])
  }

  /** The other natives take no ids. */
  lemma OthersTakeNothing(vm: Machine, s: Session, log: seq<NativeEvent>, i: nat, who: Option<Address>)
    requires vm.natives == Natives(s) && i < |log| && EventFits(vm, log, i)
    requires log[i].name != TransferName() && log[i].name != DestroyName()
    ensures SumTokens(IdToken(who), log[i].args) == 0
  {
    hide FreshName, TransferName, DestroyName, SenderName, RandName, TimeName, AbortName, Named, ObjectAddress,
      IdAddress, Natives;
    NamesDistinct();
    NativeLookup(s, log[i].name);
    var args := log[i].args;
    if log[i].name == AbortName() {
      assert NativeArgFits(vm, ABORT_SIG.params[0], args[0]) && NativeArgFits(vm, ABORT_SIG.params[1], args[1])
          && NativeArgFits(vm, ABORT_SIG.params[2], args[2]);
      assert args == [args[0]] + ([args[1]] + [args[2]]);
      SumConcat(IdToken(who), [args[0]], [args[1]] + [args[2]]);
      SumConcat(IdToken(who), [args[1]], [args[2]]);
      SumOne(IdToken(who), args[0]);
      SumOne(IdToken(who), args[1]);
      SumOne(IdToken(who), args[2]);
    }
  }

  lemma TransferGivesOne(args: seq<Value>, who: Option<Address>)
    requires |args| == 2 && OneId(args[0]) && args[1].VAddr?
    ensures SumTokens(IdToken(who), args) == if Meant(who, IdOf(args[0])) then 1 else 0
  {
    hide ObjectShaped, IdOf;
    assert args == [args[0]] + [args[1]];
    SumConcat(IdToken(who), [args[0]], [args[1]]);
    SumOne(IdToken(who), args[0]);
    SumOne(IdToken(who), args[1]);
    PlainTokens(who, args[1]);
  }

  /** When objects hold one id each, natives are handed exactly the ids transferred or destroyed. */
  lemma {:induction false} GivenExactly(vm: Machine, s: Session, log: seq<NativeEvent>, who: Option<Address>)
    requires vm.natives == Natives(s) && IdDefined(vm) && LogFits(vm, log) && TransfersOneId(log)
    ensures Given(IdToken(who), log) == Count(who, TransferIds(TransfersOf(log))) + Count(who, DestroyedOf(log))
  {
    hide FreshName, TransferName, DestroyName, IdDefined, Natives, EventFits, SumTokens, OneId, IdOf, IdAddress, HasType;
    if log != [] {
      var init, ev := log[..|log| - 1], log[|log| - 1];
      LogPrefix(vm, log);
      GivenExactly(vm, s, init, who);
      assert EventFits(vm, log, |log| - 1);
      EventShows(vm, s, log, |log| - 1);
      NamesDistinct();
      if ev.name == TransferName() {
        var t := Transfer(ev.args[0], ev.args[1].a);
        TransferGivesOne(ev.args, who);
        TransferIdsSnoc(TransfersOf(init), t);
        CountSnoc(who, TransferIds(TransfersOf(init)), IdOf(t.value));
      } else if ev.name == DestroyName() {
        DestroyGives(vm, ev.args[0], who);
        assert ev.args == [ev.args[0]];
        CountSnoc(who, DestroyedOf(init), IdAddress(ev.args[0]).value);
      } else {
        OthersTakeNothing(vm, s, log, |log| - 1, who);
      }
    }
  }

  /** The check for objects left over never fires: a call of verified code that returns no
      struct has transferred or destroyed every object it took or made. */
  lemma NothingLeftOver(
    vm: Machine, s: Session, cfg: Limits, name: string, args: seq<Input>, store: Store, objs: seq<Object>, gas: Gas)
    requires ChainMachine(vm, s, cfg) && EntryError(vm, name).None? && Takes(args, store, objs)
    requires AllTyped(vm, vm.addr, LoadArgs(args, store), Verifier.ParamTypes(GetFunction(vm.main, name).value.params))
    requires NoIdWrites(vm)
    ensures Halting(vm, vm.main, gas)
    ensures var o := TopCall(vm, name, LoadArgs(args, store), gas);
            o.Returned? && TransfersOneId(o.log) && (o.value.Some? ==> !IsLinearValue(o.value.value)) ==>
              Consumed(ContextOf(o.log), objs)
  {
    hide MachineVerified, CallInner, AllTyped, IdDefined, Natives, LogFits, EntryError, TransfersObjects, Tokens,
      Given, FreshOf, TransfersOf, DestroyedOf, ObjectShaped, Addrs, LoadArgs, Halting, Consumed, Count, TransferIds, OneId;
    var vals := LoadArgs(args, store);
    IdsConserved(vm, s, cfg, name, args, store, objs, gas, None);
    var o := TopCall(vm, name, vals, gas);
    if o.Returned? && TransfersOneId(o.log) && (o.value.Some? ==> !IsLinearValue(o.value.value)) {
      OneIdShaped(o.log);
      NativesSeeTypedArguments(vm, Sigs(), cfg, name, vals, gas);
      var ctx := ContextOf(o.log);
      forall a
        ensures Count(Some(a), TransferIds(ctx.transfers) + ctx.destroyed) >= Count(Some(a), ctx.freshIds + Addrs(objs))
      {
        IdsConserved(vm, s, cfg, name, args, store, objs, gas, Some(a));
        GivenExactly(vm, s, o.log, Some(a));
        CountConcat(Some(a), TransferIds(ctx.transfers), ctx.destroyed);
        if o.value.Some? { NoTokens(IdToken(Some(a)), o.value.value); }
      }
      ConsumedByCount(ctx, objs);
    }
  }

  lemma OneIdShaped(log: seq<NativeEvent>)
    requires TransfersOneId(log)
    ensures TransfersObjects(log)
  {
    hide ObjectShaped, TransferName;
  }
}
