/** A write that both phases accept and that replaces an id of another module, and exactly which
    field writes leave such values alone. */
module Forgery {
  import opened MeowTypes
  import opened Vm
  import opened Verifier
  import opened Typing
  import opened Structural
  import opened Soundness
  import opened Conservation
  import opened Verify
  import opened Boundaries

  const ID := StructDef("Id", [FieldDef("inner", Addr)], true)

  /** A module with a struct and no code, like the one that defines object ids. */
  const OBJECTS := Module("o", [], [ID], [])

  const HOLDER := StructDef("S", [FieldDef("id", Struct(Qualified(2, "Id")))], true)

  /** `fn f(s: S) -> S`, whose body writes an address into the id that `s` holds. */
  const FORGES :=
    Function("f", true, [Param("s", Struct(Local("S")))], Some(Struct(Local("S"))), 1,
             [PushAddress(7), StoreField(0, ["id", "inner"]), Load(0), Return])

  const FORGER := Module("m", [2], [HOLDER], [FORGES])

  const DEPS: map<Address, Module> := map[2 := OBJECTS]

  function Unavailable(log: seq<NativeEvent>, args: seq<Value>): (r: NativeResult) {
    NError("unavailable")
  }

  function ForgingMachine(): (vm: Machine) {
    Machine(1, FORGER, DEPS, map["meow_vm_abort" := NativeEntry(ABORT_SIG, 0, Unavailable)], Config(256, 64, false))
  }

  function IdOf(a: Address): (v: Value)
    ensures v.VStruct?
  {
    VStruct(Qualified(2, "Id"), [Field("inner", VAddr(a))])
  }

  function HolderOf(a: Address): (v: Value) {
    VStruct(Qualified(1, "S"), [Field("id", IdOf(a))])
  }

  lemma ForgerStructs()
    ensures GetStruct(FORGER, "S") == Some(HOLDER) && GetStruct(OBJECTS, "Id") == Some(ID)
    ensures ValidIdentifier("m", LIMITS) && ValidIdentifier("o", LIMITS) && ValidIdentifier("f", LIMITS)
    ensures ValidIdentifier("S", LIMITS) && ValidIdentifier("Id", LIMITS)
    ensures ValidIdentifier("id", LIMITS) && ValidIdentifier("inner", LIMITS)
  {
  }

  lemma ForgerShape()
    ensures WellShaped(FORGER, DEPS, LIMITS) && WellShaped(OBJECTS, DEPS, LIMITS)
  {
    hide ValidIdentifier, GetStruct;
    ForgerStructs();
    var fn := FORGES;
    forall pc | 0 <= pc < |fn.code| ensures InstrShape(FORGER, DEPS, 16, fn, pc) {
      assert pc == 0 || pc == 1 || pc == 2 || pc == 3;
    }
    assert FieldOk(HOLDER.fields[0], FORGER, DEPS, LIMITS) && FieldOk(ID.fields[0], OBJECTS, DEPS, LIMITS);
    SimpleShape(FORGER, DEPS);
    SimpleShape(OBJECTS, DEPS);
  }

  /** What the pass knows before each instruction of the forging function. */
  function ForgingStates(): (r: seq<State>) {
    var S := Struct(Local("S"));
    [State([], [Live(S)], true), State([Addr], [Live(S)], true), State([], [Live(S)], true), State([S], [Dead], true)]
  }

  lemma ForgingPushes(ctx: Context)
    ensures Step(ctx, FORGES.ret, 0, PushAddress(7), ForgingStates()[0]) == Straight(ForgingStates()[1], [])
  {
    assert [] + [Addr] == [Addr];
  }

  lemma Unresolved(m: Module)
    requires m == FORGER
    ensures ResolveFieldPathType(Struct(Local("S")), ["id", "inner"], m) == None
  {
    ForgerStructs();
    var S := Struct(Local("S"));
    assert ResolveFieldType(S, "id", m) == Some(Struct(Qualified(2, "Id")));
    assert ["id", "inner"][1..] == ["inner"];
  }

  lemma ForgingWrites(ctx: Context)
    requires ctx.m == FORGER
    ensures Step(ctx, FORGES.ret, 1, StoreField(0, ["id", "inner"]), ForgingStates()[1]) == Straight(ForgingStates()[2], [])
  {
    hide ResolveFieldPathType;
    Unresolved(ctx.m);
    assert [Addr][..0] == [];
  }

  lemma ForgingLoads(ctx: Context)
    ensures Step(ctx, FORGES.ret, 2, Load(0), ForgingStates()[2]) == Straight(ForgingStates()[3], [])
  {
    var S := Struct(Local("S"));
    assert [Live(S)][0 := Dead] == [Dead] && [] + [S] == [S];
  }

  lemma ForgingReturns(ctx: Context)
    ensures Step(ctx, FORGES.ret, 3, Return, ForgingStates()[3]) == Straight(ForgingStates()[3].(reachable := false), [])
  {
    assert LeakedSlots([Dead], 0) == [];
  }

  lemma ForgingPass(ctx: Context)
    requires ctx.m == FORGER
    ensures CheckFunction(ctx, FORGES).errs == [] && CheckFunction(ctx, FORGES).states == ForgingStates()
  {
    hide Step;
    var fn, ss := FORGES, ForgingStates();
    assert InitialState(fn).locals == ss[0].locals;
    ForgingPushes(ctx);
    ForgingWrites(ctx);
    ForgingLoads(ctx);
    ForgingReturns(ctx);
    var none: Pending := map[];
    assert none - {0} == none && none - {1} == none && none - {2} == none && none - {3} == none;
    var end := ss[3].(reachable := false);
    assert Pass(ctx, fn, 4, end, none) == Report([], []);
    assert Pass(ctx, fn, 3, ss[3], none) == Report([], [ss[3]]);
    assert Pass(ctx, fn, 2, ss[2], none) == Report([], [ss[2], ss[3]]);
    assert Pass(ctx, fn, 1, ss[1], none) == Report([], [ss[1], ss[2], ss[3]]);
  }

  lemma ForgedPath(vm: Machine)
    requires vm == ForgingMachine()
    ensures DefAt(vm, 1, "S") == Some(HOLDER) && DefAt(vm, 2, "Id") == Some(ID)
    ensures TruePathType(vm, Struct(Qualified(1, "S")), ["id", "inner"]) == Some(Addr)
  {
    hide GetStruct;
    ForgerStructs();
    assert ["id", "inner"][1..] == ["inner"] && ["inner"][1..] == [];
    assert TruePathType(vm, Struct(Qualified(2, "Id")), ["inner"]) == Some(Addr);
  }

  lemma ForgingKnown(vm: Machine, pc: nat)
    requires vm == ForgingMachine() && pc < 4
    ensures FieldsKnown(vm, 1, FORGER, FORGES.code[pc], ForgingStates()[pc])
  {
    hide TruePathType;
    ForgedPath(vm);
  }

  lemma ForgingSettled()
    ensures FieldsSettled(ForgingMachine(), 1, FORGER, []) && FieldsSettled(ForgingMachine(), 2, OBJECTS, [])
  {
    hide CheckFunction, FieldsKnown;
    var vm := ForgingMachine();
    ForgingPass(Context(FORGER, vm.deps, AllNatives([])));
    assert FieldNames(HOLDER) == ["id"] && FieldNames(ID) == ["inner"];
    forall pc | 0 <= pc < 4 ensures FieldsKnown(vm, 1, FORGER, FORGES.code[pc], ForgingStates()[pc]) {
      ForgingKnown(vm, pc);
    }
  }

  lemma ForgingVerified()
    ensures MachineVerified(ForgingMachine(), [], LIMITS)
  {
    hide WellShaped, FieldsSettled, CheckFunction;
    var vm := ForgingMachine();
    ForgerShape();
    ForgingPass(Context(FORGER, vm.deps, AllNatives([])));
    ForgingSettled();
    assert AllNatives([]) == [ABORT_SIG];
  }

  /** The machine's frame before each instruction. */
  function ForgingFrames(): (r: seq<FrameState>) {
    [FrameState([Some(HolderOf(5))], [], 0), FrameState([Some(HolderOf(5))], [VAddr(7)], 1),
     FrameState([Some(HolderOf(7))], [], 2), FrameState([None], [HolderOf(7)], 3)]
  }

  lemma ForgingMoves(vm: Machine)
    requires vm == ForgingMachine()
    ensures var fs := ForgingFrames();
      && Fetch(vm, 1, FORGER, FORGES.code, fs[0], Gas(1000, 0), []) == Go(fs[1], Gas(1000, 1), [])
      && Fetch(vm, 1, FORGER, FORGES.code, fs[2], Gas(1000, 6), []) == Go(fs[3], Gas(1000, 7), [])
  {
    LoadMovesAt(HolderOf(7));
    assert [] + [VAddr(7)] == [VAddr(7)];
  }

  lemma ForgingStores(vm: Machine)
    requires vm == ForgingMachine()
    ensures var fs := ForgingFrames();
            Fetch(vm, 1, FORGER, FORGES.code, fs[1], Gas(1000, 1), []) == Go(fs[2], Gas(1000, 6), [])
  {
    hide ExecStoreField, HolderOf;
    Forges();
  }

  lemma ForgingStops(vm: Machine)
    requires vm == ForgingMachine()
    ensures Fetch(vm, 1, FORGER, FORGES.code, ForgingFrames()[3], Gas(1000, 7), []) ==
            Stop(Returned(Some(HolderOf(7)), Gas(1000, 9), []))
  {
    hide HolderOf;
  }

  lemma ForgingRun()
    requires Halting(ForgingMachine(), FORGER, Gas(1000, 0))
    ensures TopCall(ForgingMachine(), "f", [HolderOf(5)], Gas(1000, 0)) == Returned(Some(HolderOf(7)), Gas(1000, 9), [])
  {
    var vm, fn, fs := ForgingMachine(), FORGES, ForgingFrames();
    assert GetFunction(FORGER, "f") == Some(fn);
    assert NewFrame([HolderOf(5)], 1) == fs[0];
    ForgingMoves(vm);
    ForgingStores(vm);
    ForgingStops(vm);
    hide Fetch, HolderOf, GetFunction;
    var end := Returned(Some(HolderOf(7)), Gas(1000, 9), []);
    assert Run(vm, 1, FORGER, fn.code, fs[3], Gas(1000, 7), [], 0) == end;
    assert Run(vm, 1, FORGER, fn.code, fs[2], Gas(1000, 6), [], 0) == end;
    assert Run(vm, 1, FORGER, fn.code, fs[1], Gas(1000, 1), [], 0) == end;
    assert Run(vm, 1, FORGER, fn.code, fs[0], Gas(1000, 0), [], 0) == end;
  }

  lemma Forges()
    ensures ExecStoreField(0, ["id", "inner"], FrameState([Some(HolderOf(5))], [VAddr(7)], 2)) ==
            Ok(FrameState([Some(HolderOf(7))], [], 2))
  {
    var path := ["id", "inner"];
    assert path[1..] == ["inner"];
    assert WriteFieldPath(IdOf(5), ["inner"], VAddr(7)) == Ok(IdOf(7)) by {
      assert [Field("inner", VAddr(5))][0 := Field("inner", VAddr(7))] == [Field("inner", VAddr(7))];
    }
    assert WriteFieldPath(HolderOf(5), path, VAddr(7)) == Ok(HolderOf(7)) by {
      assert [Field("id", IdOf(5))][0 := Field("id", IdOf(7))] == [Field("id", IdOf(7))];
    }
    assert [Some(HolderOf(5))][0 := Some(HolderOf(7))] == [Some(HolderOf(7))];
    assert [VAddr(7)][..0] == [];
  }

  lemma LoadMovesAt(s: Value)
    requires IsLinearValue(s)
    ensures ExecLoad(0, FrameState([Some(s)], [], 3)) == Ok(FrameState([None], [s], 3))
  {
    assert [Some(s)][0 := None] == [None];
    assert [] + [s] == [s];
  }

  /** Both phases accept a write into another module's struct, and no type goes wrong: the call
      returns a value of its type. But the id it was given is gone and another one is there. */
  lemma AcceptedForgery()
    ensures var vm := ForgingMachine();
      && MachineVerified(vm, [], LIMITS) && NoCode(vm, TokenOf(IdOf(5))) && EntryError(vm, "f").None?
      && AllTyped(vm, 1, [HolderOf(5)], ParamTypes(FORGES.params))
      && Halting(vm, FORGER, Gas(1000, 0))
      && TopCall(vm, "f", [HolderOf(5)], Gas(1000, 0)) == Returned(Some(HolderOf(7)), Gas(1000, 9), [])
      && SumTokens(TokenOf(IdOf(5)), [HolderOf(5)]) == 1 && OptTokens(TokenOf(IdOf(5)), Some(HolderOf(7))) == 0
      && !Spares(vm, AllNatives([]), IdOf(5).tn)
  {
    hide MachineVerified, NoCode, EntryError, Halting, TopCall, Spares, HasType, HolderOf, SumTokens, OptTokens;
    var vm := ForgingMachine();
    ForgingVerified();
    VerifiedHalts(vm, [], LIMITS, Gas(1000, 0));
    ForgingRun();
    ForgedTypes(vm);
    ForgedCensus();
    ForgerNotSparing();
    ForgerEntry(vm);
  }

  lemma ForgerEntry(vm: Machine)
    requires vm == ForgingMachine()
    ensures NoCode(vm, TokenOf(IdOf(5))) && EntryError(vm, "f").None?
  {
    assert GetFunction(FORGER, "f") == Some(FORGES);
    assert |"f"| != |"meow_vm_abort"|;
    assert vm.deps.Keys == {2};
  }

  lemma ForgedTypes(vm: Machine)
    requires vm == ForgingMachine()
    ensures HasType(vm, HolderOf(5), Struct(Qualified(1, "S")))
  {
    hide DefAt;
    ForgedPath(vm);
    assert HasType(vm, IdOf(5), Struct(Qualified(2, "Id")));
  }

  lemma ForgedCensus()
    ensures SumTokens(TokenOf(IdOf(5)), [HolderOf(5)]) == 1 && OptTokens(TokenOf(IdOf(5)), Some(HolderOf(7))) == 0
  {
    assert [Field("id", IdOf(5))][1..] == [] && [Field("id", IdOf(7))][1..] == [];
    assert FieldTokens(TokenOf(IdOf(5)), []) == 0;
    SumOne(TokenOf(IdOf(5)), HolderOf(5));
    assert Tokens(TokenOf(IdOf(5)), IdOf(7)) == 0 by { assert IdOf(7).fields[0].value != IdOf(5).fields[0].value; }
  }

  lemma ForgerNotSparing()
    ensures !Spares(ForgingMachine(), AllNatives([]), IdOf(5).tn)
  {
    hide CheckFunction, DefAt;
    var vm := ForgingMachine();
    var ctx := Context(FORGER, vm.deps, AllNatives([]));
    ForgedPath(vm);
    ForgingPass(ctx);
    assert ["id", "inner"][1..] == ["inner"];
    assert !PathAvoids(vm, Struct(Qualified(1, "S")), ["id", "inner"], Qualified(2, "Id"));
    assert !Untouched(vm, 1, FORGES.code[1], ForgingStates()[1], Qualified(2, "Id"));
    assert !FunctionSpares(vm, 1, ctx, FORGES, Qualified(2, "Id"));
  }

  //
  // Exactly which writes conserve
  //

  /** Writing what is already there changes nothing, and only that does. */
  lemma {:induction false} WriteSame(v: Value, path: seq<string>, w: Value)
    requires WriteFieldPath(v, path, w).Ok?
    ensures WriteFieldPath(v, path, w).value == v <==> ReadFieldPath(v, path) == Ok(w)
    decreases |path|
  {
    var i := FieldIndex(v.fields, path[0]).value;
    var r := WriteFieldPath(v, path, w).value;
    assert r.fields[i].value == v.fields[i].value ==> r.fields == v.fields;
    if |path| == 1 {
      assert path[1..] == [];
    } else {
      WriteSame(v.fields[i].value, path[1..], w);
    }
  }

  /** The first value of the type `tn` on the path. */
  function Met(vm: Machine, v: Value, t: Type, path: seq<string>, tn: Name): (r: Option<Value>)
    requires HasType(vm, v, t)
    decreases |path|
  {
    if path == [] || !v.VStruct? then None
    else if v.tn == tn then Some(v)
    else
      var i := FieldIndex(v.fields, path[0]);
      if i.None? || DefAt(vm, v.tn.addr, v.tn.name).None? then None
      else Met(vm, v.fields[i.value].value, Qualify(v.tn.addr, DefAt(vm, v.tn.addr, v.tn.name).value.fields[i.value].ty),
               path[1..], tn)
  }

  /** One step down the path. */
  lemma MetBelow(vm: Machine, v: Value, t: Type, path: seq<string>, tn: Name) returns (i: nat, ft: Type)
    requires HasType(vm, v, t) && TruePathType(vm, t, path).Some? && path != [] && t != Struct(tn)
    ensures v.VStruct? && v.tn != tn && FieldIndex(v.fields, path[0]) == Some(i)
    ensures HasType(vm, v.fields[i].value, ft) && TruePathType(vm, ft, path[1..]) == TruePathType(vm, t, path)
    ensures PathAvoids(vm, t, path, tn) <==> PathAvoids(vm, ft, path[1..], tn)
    ensures Met(vm, v, t, path, tn) == Met(vm, v.fields[i].value, ft, path[1..], tn)
  {
    var def := DefAt(vm, t.tn.addr, t.tn.name).value;
    FieldAgrees(v.fields, def.fields, path[0]);
    i := FieldIndex(v.fields, path[0]).value;
    ft := Qualify(t.tn.addr, def.fields[i].ty);
  }

  /** What a write does to a struct, from what it does to the field. */
  lemma WriteBelow(x: Token, v: Value, path: seq<string>, w: Value, i: nat)
    requires v.VStruct? && v.tn != x.tn && |path| > 1 && FieldIndex(v.fields, path[0]) == Some(i)
    requires WriteFieldPath(v, path, w).Ok?
    ensures var inner := WriteFieldPath(v.fields[i].value, path[1..], w);
            && inner.Ok?
            && Tokens(x, WriteFieldPath(v, path, w).value) + Tokens(x, v.fields[i].value) == Tokens(x, v) + Tokens(x, inner.value)
            && (inner.value == v.fields[i].value ==> WriteFieldPath(v, path, w).value == v)
  {
    var inner := WriteFieldPath(v.fields[i].value, path[1..], w).value;
    FieldUpdate(x, v.fields, i, inner);
    if inner == v.fields[i].value {
      assert v.fields[i := v.fields[i].(value := inner)] == v.fields;
    }
  }

  /** A write through a value of type `tn` replaces the first one it meets. */
  lemma {:induction false} WriteReplaces(vm: Machine, v: Value, t: Type, path: seq<string>, w: Value, tn: Name)
    requires HasType(vm, v, t) && TruePathType(vm, t, path).Some? && !PathAvoids(vm, t, path, tn)
    requires WriteFieldPath(v, path, w).Ok?
    ensures Met(vm, v, t, path, tn).Some? && Met(vm, v, t, path, tn).value.VStruct?
    ensures var x := TokenOf(Met(vm, v, t, path, tn).value);
            && x.tn == tn
            && (WriteFieldPath(v, path, w).value != v ==>
                  Tokens(x, WriteFieldPath(v, path, w).value) + 1 == Tokens(x, v))
    decreases |path|
  {
    if t != Struct(tn) {
      var i, ft := MetBelow(vm, v, t, path, tn);
      assert |path| > 1 by { OnePastNothing(vm, ft, path, tn); }
      var was := v.fields[i].value;
      assert WriteFieldPath(was, path[1..], w).Ok?;
      WriteReplaces(vm, was, ft, path[1..], w, tn);
      var x := TokenOf(Met(vm, was, ft, path[1..], tn).value);
      WriteBelow(x, v, path, w, i);
    }
  }

  lemma OnePastNothing(vm: Machine, t: Type, path: seq<string>, tn: Name)
    requires path != [] && !PathAvoids(vm, t, path[1..], tn)
    ensures |path| > 1
  {
  }

  /** What such a write reads and leaves: it succeeds, and changes the slot unless it writes what
      is already there. */
  lemma WriteHappens(vm: Machine, addr: Address, ctx: Context, pc: nat, slot: nat, path: seq<string>, f: FrameState, st: State)
    requires Related(vm, addr, f, st) && slot < |st.locals| && path != []
    requires StepStoreField(ctx, pc, slot, path, st).errs == []
    requires FieldsKnown(vm, addr, ctx.m, StoreField(slot, path), st)
    ensures st.stack != [] && f.stack != [] && slot < |f.locals| && f.locals[slot].Some? && st.locals[slot].Live?
    ensures ExecStoreField(slot, path, f).Ok?
    ensures var w, root := f.stack[|f.stack| - 1], f.locals[slot].value;
            var t := Qualify(addr, st.locals[slot].ty);
            && HasType(vm, root, t) && TruePathType(vm, t, path).Some? && !IsLinearValue(w)
            && WriteFieldPath(root, path, w).Ok?
            && (WriteFieldPath(root, path, w).value == root <==> ReadFieldPath(root, path) == Ok(w))
  {
    hide StepStoreField, HasType, TruePathType;
    WriteAccepted(ctx, pc, slot, path, st);
    assert SlotHolds(vm, addr, f.locals[slot], st.locals[slot]);
    var top, w := st.stack[|st.stack| - 1], f.stack[|f.stack| - 1];
    assert HasType(vm, w, Qualify(addr, top));
    QualifyLinear(addr, top);
    LiveLinearity(vm, addr, w, top);
    WriteTyped(vm, f.locals[slot].value, Qualify(addr, st.locals[slot].ty), path, w);
    WriteSame(f.locals[slot].value, path, w);
  }

  /** An accepted write that lands keeps every token of the type `tn` exactly when it goes through
      no value of that type, or writes what is already there. */
  lemma StoreConservesExactly(vm: Machine, addr: Address, ctx: Context, pc: nat, slot: nat, path: seq<string>,
                              f: FrameState, st: State, tn: Name)
    requires Related(vm, addr, f, st) && slot < |st.locals| && path != []
    requires StepStoreField(ctx, pc, slot, path, st).errs == []
    requires FieldsKnown(vm, addr, ctx.m, StoreField(slot, path), st)
    ensures f.stack != [] && f.locals[slot].Some?
    ensures (forall x: Token :: x.tn == tn ==> Conserves(x, f, ExecStoreField(slot, path, f))) <==>
            (Untouched(vm, addr, StoreField(slot, path), st, tn) ||
             ReadFieldPath(f.locals[slot].value, path) == Ok(f.stack[|f.stack| - 1]))
  {
    hide StepStoreField, HasType, TruePathType, PathAvoids, Tokens, WriteFieldPath, ReadFieldPath, ExecStoreField;
    hide Related, FieldsKnown;
    WriteHappens(vm, addr, ctx, pc, slot, path, f, st);
    var w, root := f.stack[|f.stack| - 1], f.locals[slot].value;
    var t := Qualify(addr, st.locals[slot].ty);
    var after := WriteFieldPath(root, path, w).value;
    forall x: Token | x.tn == tn
      ensures FrameTokens(x, ExecStoreField(slot, path, f).value) + Tokens(x, root) == FrameTokens(x, f) + Tokens(x, after)
      ensures Untouched(vm, addr, StoreField(slot, path), st, tn) ==> Conserves(x, f, ExecStoreField(slot, path, f))
    {
      NoTokens(x, w);
      WriteShifts(x, slot, path, f);
      if Untouched(vm, addr, StoreField(slot, path), st, tn) { KeepStoreField(x, vm, addr, ctx, pc, slot, path, f, st); }
    }
    if !PathAvoids(vm, t, path, tn) && after != root {
      WriteReplaces(vm, root, t, path, w, tn);
      var x := TokenOf(Met(vm, root, t, path, tn).value);
      assert !Conserves(x, f, ExecStoreField(slot, path, f));
    }
  }
}
