/** Object layouts and transfers: from rules on struct definitions and on the types at a transfer
    to what a run hands over, without any assumption about the run. */
module Layouts {
  import opened MeowTypes
  import opened Vm
  import opened Typing
  import Verifier
  import opened Structural
  import opened Soundness
  import opened Safety
  import opened Conservation
  import opened Verify
  import opened Logs
  import opened NativeCalls
  import opened Ledger
  import opened Effects
  import opened Executor
  import opened History
  import opened Adapter

  // ----------------------------------------------------------------- the rules

  /** A struct is an object if its first field is `id`, an object id. */
  predicate IsObject(def: StructDef) {
    |def.fields| > 0 && def.fields[0] == FieldDef(ID_FIELD, ID)
  }

  predicate NamesObject(t: Type, m: Module, deps: map<Address, Module>) {
    match t
    case Struct(Local(n)) => exists i | 0 <= i < |m.structs| :: m.structs[i].name == n && IsObject(m.structs[i])
    case Struct(Qualified(a, n)) => a in deps && GetStruct(deps[a], n).Some? && IsObject(GetStruct(deps[a], n).value)
    case _ => false
  }

  /** An id only in first place, and no object inside another struct. */
  predicate FieldAllowed(def: StructDef, i: nat, m: Module, deps: map<Address, Module>)
    requires i < |def.fields|
  {
    (def.fields[i].ty == ID ==> i == 0) && !NamesObject(def.fields[i].ty, m, deps)
  }

  predicate StructAllowed(def: StructDef, m: Module, deps: map<Address, Module>) {
    forall i | 0 <= i < |def.fields| :: FieldAllowed(def, i, m, deps)
  }

  predicate LayoutRules(m: Module, deps: map<Address, Module>) {
    forall i | 0 <= i < |m.structs| :: StructAllowed(m.structs[i], m, deps)
  }

  datatype LayoutError = IdFieldNotFirst(def: string, field: string) | ObjectAsFieldType(def: string, field: string)

  /** Nothing is reported exactly when both rules hold of every struct. */
  method CheckObjectLayouts(m: Module, deps: map<Address, Module>) returns (errors: seq<LayoutError>)
    ensures errors == [] <==> LayoutRules(m, deps)
  {
    hide NamesObject;
    errors := [];
    for i := 0 to |m.structs|
      invariant errors == [] <==> forall k | 0 <= k < i :: StructAllowed(m.structs[k], m, deps)
    {
      var def := m.structs[i];
      var found: seq<LayoutError> := [];
      for j := 0 to |def.fields|
        invariant found == [] <==> forall k | 0 <= k < j :: FieldAllowed(def, k, m, deps)
      {
        if def.fields[j].ty == ID && j != 0 { found := found + [IdFieldNotFirst(def.name, def.fields[j].name)]; }
        if NamesObject(def.fields[j].ty, m, deps) { found := found + [ObjectAsFieldType(def.name, def.fields[j].name)]; }
        assert FieldAllowed(def, j, m, deps) <==> !(def.fields[j].ty == ID && j != 0) && !NamesObject(def.fields[j].ty, m, deps);
      }
      errors := errors + found;
    }
  }

  /** The rules leave a struct either an object or without an id exactly when an id in first place
      is called `id`, which they do not ask for. */
  lemma Unambiguous(def: StructDef, m: Module, deps: map<Address, Module>)
    requires StructAllowed(def, m, deps)
    ensures (IsObject(def) || forall i | 0 <= i < |def.fields| :: def.fields[i].ty != ID) <==>
            (|def.fields| > 0 && def.fields[0].ty == ID ==> def.fields[0].name == ID_FIELD)
  {
    hide NamesObject;
    forall i | 0 <= i < |def.fields| && def.fields[i].ty == ID ensures i == 0 {
      assert FieldAllowed(def, i, m, deps);
    }
  }

  const KEY := StructDef("K", [FieldDef("key", ID)], true)
  const BOX := StructDef("B", [FieldDef("id", ID), FieldDef("k", Struct(Local("K")))], true)
  const BOXES := Module("m", [OBJECT_MODULE], [KEY, BOX], [])

  function BoxOf(a: Address, b: Address): (v: Value) {
    VStruct(Qualified(1, "B"), [Field("id", IdValue(a)), Field("k", VStruct(Qualified(1, "K"), [Field("key", IdValue(b))]))])
  }

  /** So the rules let an object type hold a second id, inside a struct whose id has another name,
      and such a value has two ids in the census. This is about the layout rules alone. */
  lemma SecondIdAllowed(deps: map<Address, Module>)
    requires !NamesObject(ID, BOXES, deps)
    ensures LayoutRules(BOXES, deps) && IsObject(BOX)
    ensures Tokens(IdToken(None), BoxOf(5, 6)) == 2
  {
    assert ID != Struct(Local("K")) && !IsObject(KEY);
    forall i | 0 <= i < |BOXES.structs| ensures StructAllowed(BOXES.structs[i], BOXES, deps) {
      assert i == 0 || i == 1;
    }
    var inner := VStruct(Qualified(1, "K"), [Field("key", IdValue(6))]);
    BoxTokens(inner);
    KeyTokens();
  }

  lemma KeyTokens()
    ensures Tokens(IdToken(None), VStruct(Qualified(1, "K"), [Field("key", IdValue(6))])) == 1
  {
    IdTokens(None, 6);
    assert [Field("key", IdValue(6))][1..] == [];
  }

  lemma BoxTokens(inner: Value)
    ensures Tokens(IdToken(None), VStruct(Qualified(1, "B"), [Field("id", IdValue(5)), Field("k", inner)])) ==
            1 + Tokens(IdToken(None), inner)
  {
    IdTokens(None, 5);
    var last := [Field("k", inner)];
    var fields := [Field("id", IdValue(5))] + last;
    assert fields == [Field("id", IdValue(5)), Field("k", inner)];
    assert fields[1..] == last && last[1..] == [];
    assert FieldTokens(IdToken(None), last) == Tokens(IdToken(None), inner);
  }

  // ------------------------------------------------------ what the rules give

  /** A loaded module that keeps the rules, names its ids `id`, and whose field types are loaded. */
  ghost predicate LaidOut(vm: Machine, addr: Address, m: Module) {
    && LayoutRules(m, vm.deps) && FieldsShape(m)
    && (forall s, i | s in m.structs && 0 <= i < |s.fields| :: FieldLoaded(vm, addr, m, s, i))
  }

  predicate FieldLoaded(vm: Machine, addr: Address, m: Module, s: StructDef, i: nat)
    requires i < |s.fields|
  {
    var t := s.fields[i].ty;
    && (t == ID && i == 0 ==> s.fields[i].name == ID_FIELD)
    && (t.Struct? && t.tn.Local? ==> addr != OBJECT_MODULE && GetStruct(m, t.tn.name).Some?)
    && (t.Struct? && t.tn.Qualified? ==> t.tn.addr in vm.deps && GetStruct(vm.deps[t.tn.addr], t.tn.name).Some?)
  }

  ghost predicate AllLaidOut(vm: Machine) {
    forall addr, m {:trigger LaidOut(vm, addr, m)} :: Loaded(vm, addr, m) ==> LaidOut(vm, addr, m)
  }

  /** A type no value of which holds an id. */
  predicate Idless(vm: Machine, t: Type) {
    IsPrimitive(t) ||
    (t.Struct? && t.tn.Qualified? && t != ID &&
     DefAt(vm, t.tn.addr, t.tn.name).Some? && !IsObject(DefAt(vm, t.tn.addr, t.tn.name).value))
  }

  /** Every field but the id of an object is of such a type. */
  lemma FieldIdless(vm: Machine, addr: Address, n: string, i: nat)
    requires AllLaidOut(vm) && DefAt(vm, addr, n).Some? && i < |DefAt(vm, addr, n).value.fields|
    requires i == 0 ==> !IsObject(DefAt(vm, addr, n).value)
    ensures Idless(vm, Qualify(addr, DefAt(vm, addr, n).value.fields[i].ty))
  {
    var m := if addr in vm.deps then vm.deps[addr] else vm.main;
    var def := DefAt(vm, addr, n).value;
    assert Loaded(vm, addr, m) && LaidOut(vm, addr, m) && GetStruct(m, n) == Some(def);
    assert FieldLoaded(vm, addr, m, def, i);
    var k :| 0 <= k < |m.structs| && m.structs[k] == def;
    assert StructAllowed(m.structs[k], m, vm.deps) && FieldAllowed(def, i, m, vm.deps);
    var t := def.fields[i].ty;
    assert ValidFieldType(t) by { assert def.fields[i] in def.fields; }
    if t.Struct? && t.tn.Local? {
      var inner := GetStruct(m, t.tn.name).value;
      var j :| 0 <= j < |m.structs| && m.structs[j] == inner;
      assert !IsObject(m.structs[j]);
      assert DefAt(vm, addr, t.tn.name) == Some(inner);
    }
  }

  lemma {:induction false} NoFieldTokens(x: Token, fields: seq<Field>)
    requires forall i | 0 <= i < |fields| :: Tokens(x, fields[i].value) == 0
    ensures FieldTokens(x, fields) == 0
  {
    if fields != [] { NoFieldTokens(x, fields[1..]); }
  }

  lemma {:induction false} IdlessHoldsNone(vm: Machine, v: Value, t: Type, who: Option<Address>)
    requires AllLaidOut(vm) && HasType(vm, v, t) && Idless(vm, t)
    ensures Tokens(IdToken(who), v) == 0
    decreases v
  {
    hide AllLaidOut;
    if v.VStruct? {
      var def := DefAt(vm, v.tn.addr, v.tn.name).value;
      forall i | 0 <= i < |v.fields| ensures Tokens(IdToken(who), v.fields[i].value) == 0 {
        FieldIdless(vm, v.tn.addr, v.tn.name, i);
        IdlessHoldsNone(vm, v.fields[i].value, Qualify(v.tn.addr, def.fields[i].ty), who);
      }
      NoFieldTokens(IdToken(who), v.fields);
    }
  }

  /** A value of an object type holds its own id and no other. */
  lemma ObjectOneId(vm: Machine, v: Value, addr: Address, n: string)
    requires AllLaidOut(vm) && IdDefined(vm) && HasType(vm, v, Struct(Qualified(addr, n)))
    requires DefAt(vm, addr, n).Some? && IsObject(DefAt(vm, addr, n).value)
    ensures OneId(v)
  {
    hide AllLaidOut;
    var def := DefAt(vm, addr, n).value;
    var first := v.fields[0].value;
    assert HasType(vm, first, Qualify(addr, def.fields[0].ty)) && def.fields[0].ty == ID;
    IdTyped(vm, first);
    var b :| first == IdValue(b);
    assert def.fields != [FieldDef("inner", Addr)];
    ObjectIdFirst(v, b);
    forall who ensures Tokens(IdToken(who), v) == if Meant(who, b) then 1 else 0 {
      IdTokens(who, b);
      RestIdless(vm, v, addr, n, who);
    }
  }

  lemma RestIdless(vm: Machine, v: Value, addr: Address, n: string, who: Option<Address>)
    requires AllLaidOut(vm) && HasType(vm, v, Struct(Qualified(addr, n))) && DefAt(vm, addr, n).Some?
    requires v.VStruct? && |v.fields| > 0
    ensures FieldTokens(IdToken(who), v.fields[1..]) == 0
  {
    hide AllLaidOut, Idless, Tokens;
    var def, rest := DefAt(vm, addr, n).value, v.fields[1..];
    forall i | 0 <= i < |rest| ensures Tokens(IdToken(who), rest[i].value) == 0 {
      FieldIdless(vm, addr, n, i + 1);
      assert HasType(vm, v.fields[i + 1].value, Qualify(addr, def.fields[i + 1].ty));
      IdlessHoldsNone(vm, rest[i].value, Qualify(addr, def.fields[i + 1].ty), who);
    }
    NoFieldTokens(IdToken(who), rest);
  }

  lemma ObjectIdFirst(v: Value, b: Address)
    requires v.VStruct? && v.tn.Qualified? && v.tn != ID_TYPE && |v.fields| > 0
    requires v.fields[0] == Field(ID_FIELD, IdValue(b))
    ensures ObjectShaped(v) && IdOf(v) == b
  {
    IdTokens(None, b);
    assert FirstField(v.fields, ID_FIELD) == Some(IdValue(b));
  }

  // --------------------------------------------------------------- transfers

  /** At a transfer, the struct on the stack is an object of the module. */
  predicate TransferAllowed(m: Module, i: Instr, st: Verifier.State) {
    i == Call(Local(TransferName())) && |st.stack| >= 2 ==>
      var t := st.stack[|st.stack| - 2];
      t.Struct? && t.tn.Local? ==> GetStruct(m, t.tn.name).Some? && IsObject(GetStruct(m, t.tn.name).value)
  }

  predicate FunctionTransfers(vm: Machine, m: Module, sigs: seq<NativeSig>, fn: Function) {
    var states := Verifier.CheckFunction(Verifier.Context(m, vm.deps, sigs), fn).states;
    |states| == |fn.code| ==>
      forall pc | 0 <= pc < |fn.code| && states[pc].reachable :: TransferAllowed(m, fn.code[pc], states[pc])
  }

  /** Every reachable transfer of the loaded code is of an object. */
  ghost predicate TransfersAllowed(vm: Machine, sigs: seq<NativeSig>) {
    forall addr, m, fn {:trigger Loaded(vm, addr, m), fn in m.functions} ::
      Loaded(vm, addr, m) && fn in m.functions ==> FunctionTransfers(vm, m, sigs, fn)
  }

  ghost predicate Lawful(ev: NativeEvent) {
    ev.name == TransferName() ==> |ev.args| > 0 && OneId(ev.args[0])
  }

  /** A machine whose modules are verified and keep the object rules. */
  ghost predicate LawfulMachine(vm: Machine, s: Session, cfg: Limits) {
    ChainMachine(vm, s, cfg) && AllLaidOut(vm) && TransfersAllowed(vm, AllNatives(Sigs()))
  }

  /** What the pass knows of the struct that a transfer takes. */
  lemma TransferTyped(vm: Machine, sigs: seq<NativeSig>, maxTuple: nat, addr: Address, m: Module, fn: Function, f: FrameState)
    requires MachineOk(vm, sigs, maxTuple) && Loaded(vm, addr, m) && fn in m.functions && At(vm, sigs, addr, m, fn, f)
    requires fn.code[f.pc] == Call(Local(TransferName())) && GetFunction(m, TransferName()).None?
    requires TransfersAllowed(vm, sigs)
    requires TransferName() in vm.natives && vm.natives[TransferName()].sig == TransferSig()
    ensures |f.stack| >= 2
    ensures var v := f.stack[|f.stack| - 2];
            exists n :: HasType(vm, v, Struct(Qualified(addr, n))) && GetStruct(m, n).Some? && IsObject(GetStruct(m, n).value)
  {
    hide Verifier.Step, Verifier.StepCall, HasType, MachineOk, Verifier.CheckFunction, IsObject, TransferName;
    AtInstruction(vm, sigs, maxTuple, addr, m, fn, f);
    var ctx := Verifier.Context(m, vm.deps, sigs);
    var st := Verifier.CheckFunction(ctx, fn).states[f.pc];
    CallStep(ctx, fn.ret, f.pc, Local(TransferName()), st);
    TransferAccepted(vm, addr, ctx, maxTuple, f.pc, f, st);
    assert FunctionTransfers(vm, m, sigs, fn) && TransferAllowed(m, fn.code[f.pc], st);
    var t := st.stack[|st.stack| - 2];
    assert HasType(vm, f.stack[|f.stack| - 2], Qualify(addr, t));
  }

  lemma TransferAccepted(vm: Machine, addr: Address, ctx: Verifier.Context, maxTuple: nat, pc: nat, f: FrameState,
                         st: Verifier.State)
    requires MachineOk(vm, ctx.natives, maxTuple) && Related(vm, addr, f, st)
    requires GetFunction(ctx.m, TransferName()).None?
    requires TransferName() in vm.natives && vm.natives[TransferName()].sig == TransferSig()
    requires Verifier.StepCall(ctx, pc, Local(TransferName()), st).errs == []
    ensures |st.stack| >= 2 && |f.stack| == |st.stack|
    ensures st.stack[|st.stack| - 2].Struct? && st.stack[|st.stack| - 2].tn.Local?
  {
    hide HasType, TransferName, ModuleOk;
    NativeAccepted(vm, addr, ctx, pc, TransferName(), f, st);
    var k := |st.stack| - 2;
    var sig := FindNative(ctx.natives, TransferName()).value;
    assert sig == TransferSig();
    assert Verifier.NativeArgErrors(pc, sig.params, st.stack[k..], 0) == [];
    assert Verifier.NativeParamMatches(sig.params[0], st.stack[k..][0]);
  }

  lemma MoveLawful(vm: Machine, s: Session, cfg: Limits, addr: Address, m: Module, fn: Function, f: FrameState, gas: Gas,
                   log: seq<NativeEvent>)
    requires LawfulMachine(vm, s, cfg) && Loaded(vm, addr, m) && fn in m.functions
    requires At(vm, AllNatives(Sigs()), addr, m, fn, f)
    ensures f.pc < |fn.code|
    ensures var log' := MoveLog(Fetch(vm, addr, m, fn.code, f, gas, log), log);
            log' == log || (|log'| == |log| + 1 && log'[..|log|] == log && Lawful(log'[|log|]))
  {
    hide At;
    hide MachineVerified, Exec, Related, Verifier.CheckFunction, AllLaidOut, TransfersAllowed, IdDefined, Natives, OneId,
      TransferName;
    AtCode(vm, AllNatives(Sigs()), addr, m, fn, f);
    var i := fn.code[f.pc];
    if i.Call? && ResolveCall(vm, addr, m, i.callee).ToNative? {
      NativeTurn(vm, s, cfg, addr, m, fn, f, gas, log);
    }
  }

  lemma NativeTurn(vm: Machine, s: Session, cfg: Limits, addr: Address, m: Module, fn: Function, f: FrameState, gas: Gas,
                   log: seq<NativeEvent>)
    requires LawfulMachine(vm, s, cfg) && Loaded(vm, addr, m) && fn in m.functions
    requires At(vm, AllNatives(Sigs()), addr, m, fn, f)
    requires fn.code[f.pc].Call? && ResolveCall(vm, addr, m, fn.code[f.pc].callee).ToNative?
    ensures var log' := MoveLog(Fetch(vm, addr, m, fn.code, f, gas, log), log);
            log' == log || (|log'| == |log| + 1 && log'[..|log|] == log && Lawful(log'[|log|]))
  {
    hide MachineVerified, Exec, Related, Verifier.CheckFunction, AllLaidOut, TransfersAllowed, IdDefined, Natives, OneId,
      TransferName, MachineOk, TransferSig, LawfulMachine;
    AtCode(vm, AllNatives(Sigs()), addr, m, fn, f);
    var entry := ResolveCall(vm, addr, m, fn.code[f.pc].callee).entry;
    if entry.sig.name == TransferName() && |f.stack| >= |entry.sig.params| {
      TransferHandsOver(vm, s, cfg, addr, m, fn, f);
    }
  }

  /** The first argument of a transfer is an object. */
  lemma TransferHandsOver(vm: Machine, s: Session, cfg: Limits, addr: Address, m: Module, fn: Function, f: FrameState)
    requires LawfulMachine(vm, s, cfg) && Loaded(vm, addr, m) && fn in m.functions
    requires At(vm, AllNatives(Sigs()), addr, m, fn, f)
    requires fn.code[f.pc].Call? && ResolveCall(vm, addr, m, fn.code[f.pc].callee).ToNative?
    requires ResolveCall(vm, addr, m, fn.code[f.pc].callee).entry.sig.name == TransferName()
    ensures var entry := ResolveCall(vm, addr, m, fn.code[f.pc].callee).entry;
            |entry.sig.params| == 2 && |f.stack| >= 2 && OneId(f.stack[|f.stack| - 2])
  {
    hide At;
    hide MachineVerified, Related, Verifier.CheckFunction, AllLaidOut, TransfersAllowed, IdDefined, Natives, OneId,
      TransferName, MachineOk, HasType, IsObject;
    AtCode(vm, AllNatives(Sigs()), addr, m, fn, f);
    var sigs := AllNatives(Sigs());
    VerifiedMachine(vm, Sigs(), cfg);
    TransferEntry(vm, s);
    CalleeNamed(vm, s, addr, m, fn.code[f.pc].callee);
    TransferTyped(vm, sigs, cfg.maxTupleElements, addr, m, fn, f);
    var v := f.stack[|f.stack| - 2];
    var n :| HasType(vm, v, Struct(Qualified(addr, n))) && GetStruct(m, n).Some? && IsObject(GetStruct(m, n).value);
    assert DefAt(vm, addr, n) == GetStruct(m, n);
    ObjectOneId(vm, v, addr, n);
  }

  lemma TransferEntry(vm: Machine, s: Session)
    requires vm.natives == Natives(s)
    ensures TransferName() in vm.natives && vm.natives[TransferName()].sig == TransferSig() && |TransferSig().params| == 2
  {
    hide FreshName, TransferName, DestroyName, SenderName, RandName, TimeName, AbortName, Natives;
    NamesDistinct();
    NativeLookup(s, TransferName());
  }

  /** Only the name `meow_vm_transfer` leads to the native of that name. */
  lemma CalleeNamed(vm: Machine, s: Session, addr: Address, m: Module, callee: Name)
    requires vm.natives == Natives(s) && ResolveCall(vm, addr, m, callee).ToNative?
    requires ResolveCall(vm, addr, m, callee).entry.sig.name == TransferName()
    ensures callee == Local(TransferName()) && GetFunction(m, TransferName()).None?
  {
    hide FreshName, TransferName, DestroyName, SenderName, RandName, TimeName, AbortName, Natives;
    NamesDistinct();
    NativeLookup(s, callee.name);
  }

  ghost predicate AllLawful(log: seq<NativeEvent>) {
    forall i :: 0 <= i < |log| ==> Lawful(log[i])
  }

  /** In a machine that keeps the rules, whatever is transferred, at any depth, is an object with
      its own id and no other. */
  lemma TransfersAreObjects(vm: Machine, s: Session, cfg: Limits, name: string, args: seq<Value>, gas: Gas)
    requires LawfulMachine(vm, s, cfg) && EntryError(vm, name).None?
    requires AllTyped(vm, vm.addr, args, Verifier.ParamTypes(GetFunction(vm.main, name).value.params))
    ensures Halting(vm, vm.main, gas)
    ensures TransfersOneId(TopCall(vm, name, args, gas).log) && TransfersObjects(TopCall(vm, name, args, gas).log)
  {
    hide MachineVerified, TopCall, AllTyped, Fetch, At, EntryError, Lawful, AllLaidOut, TransfersAllowed, IdDefined, Natives;
    var sigs := AllNatives(Sigs());
    forall addr, m, fn, f, gas, log | Loaded(vm, addr, m) && fn in m.functions && At(vm, sigs, addr, m, fn, f) && AllLawful(log)
      ensures f.pc < |fn.code| && AllLawful(MoveLog(Fetch(vm, addr, m, fn.code, f, gas, log), log))
    {
      MoveLawful(vm, s, cfg, addr, m, fn, f, gas, log);
      LawfulMore(log, MoveLog(Fetch(vm, addr, m, fn.code, f, gas, log), log));
    }
    LogsKeep(vm, Sigs(), cfg, log => AllLawful(log), name, args, gas);
    LawfulOneId(TopCall(vm, name, args, gas).log);
    OneIdShaped(TopCall(vm, name, args, gas).log);
  }

  lemma LawfulMore(log: seq<NativeEvent>, log': seq<NativeEvent>)
    requires AllLawful(log)
    requires log' == log || (|log'| == |log| + 1 && log'[..|log|] == log && Lawful(log'[|log|]))
    ensures AllLawful(log')
  {
    hide Lawful;
    forall i | 0 <= i < |log'| ensures Lawful(log'[i]) {
      if i < |log| && log' != log { assert log'[i] == log'[..|log|][i]; }
    }
  }

  lemma LawfulOneId(log: seq<NativeEvent>)
    requires AllLawful(log)
    ensures TransfersOneId(log)
  {
    hide OneId, TransferName;
  }

  // ----------------------------------------------------------------- plain objects

  /** No id among the contents of an object, and the object is not itself an id. */
  predicate Plain(o: Object) {
    o.content.Instance? ==> o.content.decl != ID_TYPE && FieldTokens(IdToken(None), o.content.fields) == 0
  }

  /** Paying gas and publishing keep objects plain. */
  lemma PlainLasts()
    ensures Lasting(Plain)
  {
    hide FieldTokens;
    forall coin: Object, spent, tx | coin.content.Instance? && coin.version < U64_MAX && Plain(coin)
      ensures Plain(Spent(coin, spent, tx))
    {
      DeductKeepsTokens(coin.content.fields, spent);
    }
  }

  lemma DeductKeepsTokens(fields: seq<Field>, spent: u64)
    ensures Deduct(fields, spent).Some? ==>
              FieldTokens(IdToken(None), Deduct(fields, spent).value) == FieldTokens(IdToken(None), fields)
  {
    var i := Place(fields, BALANCE);
    if i < |fields| && fields[i].value.VU64? {
      var w := VU64(Minus(fields[i].value.n, spent));
      FieldUpdate(IdToken(None), fields, i, w);
      assert fields[i].(value := w) == Field(BALANCE, w);
    }
  }

  /** Taking the id field out of a list of fields takes its ids out. */
  lemma {:induction false} WithoutIdTokens(x: Token, fields: seq<Field>)
    ensures FieldTokens(x, WithoutId(fields)) <= FieldTokens(x, fields)
    ensures FirstField(fields, ID_FIELD).Some? ==>
              FieldTokens(x, WithoutId(fields)) + Tokens(x, FirstField(fields, ID_FIELD).value) <= FieldTokens(x, fields)
  {
    hide Tokens;
    if fields != [] {
      var f, rest := fields[0], fields[1..];
      WithoutIdTokens(x, rest);
      if f.name == ID_FIELD {
        assert [] + WithoutId(rest) == WithoutId(rest);
      } else {
        assert ([f] + WithoutId(rest))[1..] == WithoutId(rest);
      }
    }
  }

  /** An object with one id, once stored, is plain. */
  lemma OneIdPlain(v: Value, owner: Owner, tx: Digest, version: u64)
    requires OneId(v) && Convertible(v)
    ensures Plain(ToObject(v, owner, tx, version))
  {
    hide Tokens, FieldTokens;
    assert Tokens(IdToken(None), v) == 1;
    StructTokens(v);
    WithoutIdTokens(IdToken(None), v.fields);
    var a :| FirstField(v.fields, ID_FIELD).value == IdValue(a);
    IdTokens(None, a);
  }

  lemma StructTokens(v: Value)
    requires v.VStruct? && v.tn != ID_TYPE
    ensures Tokens(IdToken(None), v) == FieldTokens(IdToken(None), v.fields)
  {
  }

  lemma {:induction false} TransfersPlain(log: seq<NativeEvent>)
    requires TransfersOneId(log)
    ensures forall i :: 0 <= i < |TransfersOf(log)| ==> OneId(TransfersOf(log)[i].value)
  {
    hide OneId, TransferName;
    if log != [] {
      var init := log[..|log| - 1];
      forall i | 0 <= i < |init| && init[i].name == TransferName() ensures |init[i].args| > 0 && OneId(init[i].args[0]) {
        assert init[i] == log[i];
      }
      TransfersPlain(init);
    }
  }

  /** A call of a machine that keeps the rules fits: once every object is accounted for, ids were
      used linearly and every object transferred is plain. If no code writes into ids, a call that
      returns nothing linear does account for every object. */
  lemma LawfulFits(
    vm: Machine, s: Session, cfg: Limits, name: string, args: seq<Input>, store: Store, objs: seq<Object>, gas: Gas)
    requires LawfulMachine(vm, s, cfg) && EntryError(vm, name).None? && Takes(args, store, objs)
    requires AllTyped(vm, vm.addr, LoadArgs(args, store), Verifier.ParamTypes(GetFunction(vm.main, name).value.params))
    ensures Halting(vm, vm.main, gas)
    ensures EndFits(Plain, objs, MachineEnd(vm, name, LoadArgs(args, store), gas))
    ensures var o := TopCall(vm, name, LoadArgs(args, store), gas);
            NoIdWrites(vm) && o.Returned? && (o.value.Some? ==> !IsLinearValue(o.value.value)) ==>
              Consumed(ContextOf(o.log), objs)
  {
    hide ChainMachine, AllLaidOut, TransfersAllowed, EntryError, AllTyped, Halting, TopCall, NoIdWrites, IdsLinear, ArgsOk, Unique,
      TransfersOneId, TransfersObjects, Consumed, FreshOf, TransfersOf, DestroyedOf, LoadArgs, Plain, OneId;
    TransfersAreObjects(vm, s, cfg, name, LoadArgs(args, store), gas);
    AccountedIsLinear(vm, s, cfg, name, args, store, objs, gas);
    var o := TopCall(vm, name, LoadArgs(args, store), gas);
    TransfersPlain(o.log);
    forall i, owner, tx, version | 0 <= i < |TransfersOf(o.log)| && Convertible(TransfersOf(o.log)[i].value)
      ensures Plain(ToObject(TransfersOf(o.log)[i].value, owner, tx, version))
    {
      OneIdPlain(TransfersOf(o.log)[i].value, owner, tx, version);
    }
    if NoIdWrites(vm) { NothingLeftOver(vm, s, cfg, name, args, store, objs, gas); }
  }
}
