/** Where the verifier's guarantee stops: bytecode that both phases accept and that still goes
    wrong, and the exact conditions under which the instructions concerned behave. */
module Boundaries {
  import opened MeowTypes
  import opened Vm
  import opened Verifier
  import opened Typing
  import opened Structural
  import opened Graphs
  import opened Soundness
  import opened Verify

  const LIMITS := Limits(128, 128, 256, 32, 16, 16, 255, 65536, 64, [])

  /** One function, called `f`, and nothing else. */
  function Lone(structs: seq<StructDef>, fn: Function): (r: Module) {
    Module("m", [], structs, [fn])
  }

  function MachineOf(m: Module): (r: Machine) {
    Machine(1, m, map[], map[], Config(256, 64, false))
  }

  /** The field's type is not one of the module's own structs. */
  predicate LeavesModule(f: FieldDef) {
    f.ty.Struct? ==> f.ty.tn.Qualified?
  }

  lemma NoStructCycle(m: Module)
    requires forall s, f | s in m.structs && f in s.fields :: LeavesModule(f)
    ensures !Cyclic(StructGraph(m))
  {
    var g := StructGraph(m);
    forall n | n in g ensures g[n] == [] {
      var d := GetStruct(m, n);
      if d.Some? {
        NoLocalFields(d.value.fields);
      }
    }
    OrderedAcyclic(g, StructNames(m));
  }

  lemma {:induction false} NoLocalFields(fields: seq<FieldDef>)
    requires forall f | f in fields :: LeavesModule(f)
    ensures LocalFieldTypes(fields) == []
  {
    if fields != [] {
      assert LeavesModule(fields[0]);
      NoLocalFields(fields[1..]);
    }
  }

  //
  // An unresolved field path
  //

  /** `fn f(x: u64) -> address`, whose body reads a field of the number. */
  const READS_FIELD_OF_NUMBER :=
    Function("f", true, [Param("x", U64)], Some(Addr), 1, [LoadField(0, ["y"]), Return])

  lemma PathPassRun(ctx: Context)
    requires ctx.m == Lone([], READS_FIELD_OF_NUMBER)
    ensures CheckFunction(ctx, READS_FIELD_OF_NUMBER).errs == []
  {
    var fn := READS_FIELD_OF_NUMBER;
    var s0 := InitialState(fn);
    assert s0.locals == [Live(U64)];
    var s1 := Pushed(s0, Addr);
    assert Step(ctx, fn.ret, 0, fn.code[0], s0) == Straight(s1, []) by {
      assert ResolveFieldPathType(U64, ["y"], ctx.m) == None;
    }
    var s2 := s1.(reachable := false);
    assert Step(ctx, fn.ret, 1, fn.code[1], s1) == Straight(s2, []) by {
      assert LeakedSlots(s1.locals, 0) == [];
    }
    var none: Pending := map[];
    assert none - {0} == none && none - {1} == none;
    assert Pass(ctx, fn, 2, s2, none).errs == [];
    assert Pass(ctx, fn, 1, s1, none).errs == [];
  }

  lemma SimpleShape(m: Module, deps: map<Address, Module>)
    requires ValidIdentifier(m.name, LIMITS) && |m.imports| <= 1 && |m.functions| <= 1 && |m.structs| <= 1
    requires forall s | s in m.structs :: StructOk(s, m, deps, LIMITS)
    requires forall s, f | s in m.structs && f in s.fields :: LeavesModule(f)
    requires forall fn | fn in m.functions :: FunctionShape(fn, m, deps, LIMITS)
    ensures WellShaped(m, deps, LIMITS)
  {
    NoStructCycle(m);
    forall i | 0 <= i < |m.structs| ensures StructOk(m.structs[i], m, deps, LIMITS) {
      assert m.structs[i] in m.structs;
    }
  }

  lemma PathShape(m: Module)
    requires m == Lone([], READS_FIELD_OF_NUMBER)
    ensures WellShaped(m, map[], LIMITS)
  {
    var fn := READS_FIELD_OF_NUMBER;
    forall pc | 0 <= pc < |fn.code| ensures InstrShape(m, map[], 16, fn, pc) {
      assert pc == 0 || pc == 1;
    }
    assert ValidIdentifier("m", LIMITS);
    SimpleShape(m, map[]);
  }

  lemma PathRun(m: Module)
    requires m == Lone([], READS_FIELD_OF_NUMBER)
    ensures TopCall(MachineOf(m), "f", [VU64(0)], Gas(1000, 0)) == Failed(TypeError, Gas(1000, 2), [])
  {
    var fn := READS_FIELD_OF_NUMBER;
    var vm := MachineOf(m);
    var f := NewFrame([VU64(0)], 1);
    assert GetFunction(m, "f") == Some(fn);
    assert Exec(vm, 1, m, fn.code[0], f.(pc := 1)) == Err(TypeError) by {
      assert f.locals[0] == Some(VU64(0));
    }
    assert Fetch(vm, 1, m, fn.code, f, Gas(1000, 0), []) == Stop(Failed(TypeError, Gas(1000, 2), []));
  }

  /** Both phases accept reading a field of a number: the pass takes it for an address. The
      machine stops with a type error. */
  lemma AcceptedTypeConfusion()
    ensures var m := Lone([], READS_FIELD_OF_NUMBER);
      && Verified(m, map[], [], LIMITS)
      && AllTyped(MachineOf(m), 1, [VU64(0)], ParamTypes(READS_FIELD_OF_NUMBER.params))
      && TopCall(MachineOf(m), "f", [VU64(0)], Gas(1000, 0)) == Failed(TypeError, Gas(1000, 2), [])
  {
    hide Pass, WellShaped, CallInner;
    var m := Lone([], READS_FIELD_OF_NUMBER);
    PathShape(m);
    PathPassRun(Context(m, map[], AllNatives([])));
    PathRun(m);
  }

  /** From a described frame, an accepted read leads to a described frame exactly when the type
      the pass pushes is the path's true type. The structs along the path must be loaded. */
  lemma LoadFieldExactly(vm: Machine, addr: Address, ctx: Context, pc: nat, slot: nat, path: seq<string>, f: FrameState, st: State)
    requires Related(vm, addr, f, st) && f.pc == pc + 1 && slot < |st.locals| && path != []
    requires st.locals[slot].Live? && PathLoaded(vm, Qualify(addr, st.locals[slot].ty), path)
    requires StepLoadField(ctx, pc, slot, path, st).errs == []
    ensures Lands(vm, addr, ExecLoadField(slot, path, f), pc, StepLoadField(ctx, pc, slot, path, st)) <==>
            FieldsKnown(vm, addr, ctx.m, LoadField(slot, path), st)
  {
    hide PathLoaded, TruePathType, HasType, ReadFieldPath;
    assert SlotHolds(vm, addr, f.locals[slot], st.locals[slot]);
    var flow := StepLoadField(ctx, pc, slot, path, st);
    var r := ExecLoadField(slot, path, f);
    var t := Qualify(addr, st.locals[slot].ty);
    if TruePathType(vm, t, path).None? {
      ReadMissing(vm, f.locals[slot].value, t, path);
    } else if FieldsKnown(vm, addr, ctx.m, LoadField(slot, path), st) {
      SoundLoadField(vm, addr, ctx, pc, slot, path, f, st);
    } else {
      ReadTypedExactly(vm, f.locals[slot].value, t, path, Qualify(addr, FieldPathTypeOr(st.locals[slot].ty, path, ctx.m)));
      var n := |f.stack|;
      assert !HasType(vm, r.value.stack[n], Qualify(addr, flow.next.stack[n]));
    }
  }

  /** An accepted consuming read lands exactly when the module's struct has the field. */
  lemma GetFieldExactly(vm: Machine, addr: Address, ctx: Context, pc: nat, field: string, f: FrameState, st: State)
    requires Loaded(vm, addr, ctx.m) && Related(vm, addr, f, st) && f.pc == pc + 1
    requires StepGetField(ctx, pc, field, st).errs == []
    requires st.stack != [] ==> TypeRefOk(st.stack[|st.stack| - 1], ctx.m, ctx.deps)
    ensures Lands(vm, addr, ExecGetField(field, f), pc, StepGetField(ctx, pc, field, st)) <==>
            FieldsKnown(vm, addr, ctx.m, GetField(field), st)
  {
    if FieldsKnown(vm, addr, ctx.m, GetField(field), st) {
      SoundGetField(vm, addr, ctx, pc, field, f, st);
    } else {
      var t, v := st.stack[|st.stack| - 1], f.stack[|f.stack| - 1];
      assert HasType(vm, v, Qualify(addr, t));
      var def := GetStruct(ctx.m, t.tn.name).value;
      assert DefAt(vm, addr, t.tn.name) == Some(def);
      FieldAgrees(v.fields, def.fields, field);
    }
  }

  /** An accepted write lands exactly when the path really holds the type written, and nothing
      linear. */
  lemma StoreFieldExactly(vm: Machine, addr: Address, ctx: Context, pc: nat, slot: nat, path: seq<string>, f: FrameState, st: State)
    requires Related(vm, addr, f, st) && f.pc == pc + 1 && slot < |st.locals| && path != []
    requires StepStoreField(ctx, pc, slot, path, st).errs == []
    requires st.locals[slot].Live? ==> PathLoaded(vm, Qualify(addr, st.locals[slot].ty), path)
    ensures Lands(vm, addr, ExecStoreField(slot, path, f), pc, StepStoreField(ctx, pc, slot, path, st)) <==>
            FieldsKnown(vm, addr, ctx.m, StoreField(slot, path), st)
  {
    hide PathLoaded, TruePathType, HasType, WriteFieldPath, StepStoreField;
    WriteAccepted(ctx, pc, slot, path, st);
    assert SlotHolds(vm, addr, f.locals[slot], st.locals[slot]);
    var top, x := st.stack[|st.stack| - 1], f.stack[|f.stack| - 1];
    assert HasType(vm, x, Qualify(addr, top));
    var t := Qualify(addr, st.locals[slot].ty);
    QualifyLinear(addr, top);
    WriteTypedExactly(vm, f.locals[slot].value, t, path, x, Qualify(addr, top));
    var r := ExecStoreField(slot, path, f);
    if FieldsKnown(vm, addr, ctx.m, StoreField(slot, path), st) {
      SoundStoreField(vm, addr, ctx, pc, slot, path, f, st);
    } else if r.Ok? {
      assert r.value.locals[slot] == Some(WriteFieldPath(f.locals[slot].value, path, x).value);
      assert !SlotHolds(vm, addr, r.value.locals[slot], st.locals[slot]);
    }
  }

  //
  // A repeated field name
  //

  const TWICE := StructDef("S", [FieldDef("a", U64), FieldDef("a", U64)], true)

  /** `fn f(s: S) -> u64`, whose body takes `s` apart. */
  const UNPACKS_TWICE :=
    Function("f", true, [Param("s", Struct(Local("S")))], Some(U64), 1,
             [Load(0), UnpackStruct(Local("S"), ["a", "a"]), Return])

  lemma TwiceLoads(ctx: Context)
    ensures var S := Struct(Local("S"));
      Step(ctx, Some(U64), 0, Load(0), State([], [Live(S)], true)) == Straight(State([S], [Dead], true), [])
  {
    assert [Live(Struct(Local("S")))][0 := Dead] == [Dead];
  }

  lemma TwiceUnpacks(ctx: Context)
    requires ctx.m == Lone([TWICE], UNPACKS_TWICE)
    ensures Step(ctx, Some(U64), 1, UnpackStruct(Local("S"), ["a", "a"]), State([Struct(Local("S"))], [Dead], true))
            == Straight(State([U64, U64], [Dead], true), [])
  {
    assert GetStruct(ctx.m, "S") == Some(TWICE);
    assert Reversed(FieldTypes(TWICE)) == [U64, U64];
    var s1 := State([Struct(Local("S"))], [Dead], true);
    assert Popped(s1).stack == [];
    assert [] + [U64, U64] == [U64, U64];
    assert StepUnpackStruct(ctx, 1, Local("S"), ["a", "a"], s1).next.stack == [U64, U64];
  }

  lemma TwiceReturns(ctx: Context)
    ensures Step(ctx, Some(U64), 2, Return, State([U64, U64], [Dead], true)) == Straight(State([U64, U64], [Dead], false), [])
  {
    var s2 := State([U64, U64], [Dead], true);
    assert LeakedSlots(s2.locals, 0) == [];
    assert CheckReturn(Some(U64), s2) == [];
  }

  lemma TwicePassRun(ctx: Context)
    requires ctx.m == Lone([TWICE], UNPACKS_TWICE)
    ensures CheckFunction(ctx, UNPACKS_TWICE).errs == []
  {
    hide Step;
    var fn := UNPACKS_TWICE;
    var S := Struct(Local("S"));
    var s0 := InitialState(fn);
    assert s0.locals == [Live(S)];
    var (s1, s2) := (State([S], [Dead], true), State([U64, U64], [Dead], true));
    TwiceLoads(ctx);
    TwiceUnpacks(ctx);
    TwiceReturns(ctx);
    var none: Pending := map[];
    assert none - {0} == none && none - {1} == none && none - {2} == none;
    assert Pass(ctx, fn, 3, s2.(reachable := false), none).errs == [];
    assert Pass(ctx, fn, 2, s2, none).errs == [];
    assert Pass(ctx, fn, 1, s1, none).errs == [];
  }

  lemma TwiceShape(m: Module)
    requires m == Lone([TWICE], UNPACKS_TWICE)
    ensures WellShaped(m, map[], LIMITS)
  {
    var fn := UNPACKS_TWICE;
    assert GetStruct(m, "S") == Some(TWICE);
    assert FieldNames(TWICE) == ["a", "a"];
    forall pc | 0 <= pc < |fn.code| ensures InstrShape(m, map[], 16, fn, pc) {
      assert pc == 0 || pc == 1 || pc == 2;
    }
    assert ValidIdentifier("m", LIMITS);
    SimpleShape(m, map[]);
  }

  function Twice(): (r: Value) {
    VStruct(Qualified(1, "S"), [Field("a", VU64(0)), Field("a", VU64(0))])
  }

  lemma LoadMoves(s: Value)
    requires IsLinearValue(s)
    ensures ExecLoad(0, FrameState([Some(s)], [], 1)) == Ok(FrameState([None], [s], 1))
  {
    assert [Some(s)][0 := None] == [None];
    assert [] + [s] == [s];
  }

  lemma UnpackFails()
    ensures ExecUnpackStruct(["a", "a"], FrameState([None], [Twice()], 2)) == Err(UndefinedField)
  {
    var names := ["a", "a"];
    UnpackExactly(Twice().fields, names);
    assert names[0] == names[1];
    TakeOnlyFails(FieldMap(Twice().fields), names);
  }

  lemma TwiceRun(m: Module)
    requires m == Lone([TWICE], UNPACKS_TWICE)
    ensures TopCall(MachineOf(m), "f", [Twice()], Gas(1000, 0)) == Failed(UndefinedField, Gas(1000, 3), [])
  {
    hide ExecLoad, ExecUnpackStruct, FieldMap, TakeFields;
    var fn := UNPACKS_TWICE;
    var vm := MachineOf(m);
    var s := Twice();
    var f := NewFrame([s], 1);
    assert GetFunction(m, "f") == Some(fn);
    assert f == FrameState([Some(s)], [], 0);
    var f1 := FrameState([None], [s], 1);
    LoadMoves(s);
    assert Fetch(vm, 1, m, fn.code, f, Gas(1000, 0), []) == Go(f1, Gas(1000, 1), []);
    UnpackFails();
    assert Fetch(vm, 1, m, fn.code, f1, Gas(1000, 1), []) == Stop(Failed(UndefinedField, Gas(1000, 3), []));
    assert Run(vm, 1, m, fn.code, f1, Gas(1000, 1), [], 0) == Failed(UndefinedField, Gas(1000, 3), []);
    assert Run(vm, 1, m, fn.code, f, Gas(1000, 0), [], 0) == Failed(UndefinedField, Gas(1000, 3), []);
  }

  /** Both phases accept a struct with two fields of one name; taking it apart then fails on a
      field that is missing. */
  lemma AcceptedMissingField()
    ensures var m := Lone([TWICE], UNPACKS_TWICE);
      && Verified(m, map[], [], LIMITS)
      && AllTyped(MachineOf(m), 1, [Twice()], ParamTypes(UNPACKS_TWICE.params))
      && TopCall(MachineOf(m), "f", [Twice()], Gas(1000, 0)) == Failed(UndefinedField, Gas(1000, 3), [])
  {
    hide Pass, WellShaped, CallInner;
    var m := Lone([TWICE], UNPACKS_TWICE);
    TwiceShape(m);
    TwicePassRun(Context(m, map[], AllNatives([])));
    assert DefAt(MachineOf(m), 1, "S") == Some(TWICE);
    assert HasType(MachineOf(m), Twice(), Struct(Qualified(1, "S")));
    TwiceRun(m);
  }

  lemma {:induction false} TakeOnlyFails(m: map<string, Value>, names: seq<string>)
    ensures TakeFields(m, names).Err? ==> TakeFields(m, names).error == UndefinedField
  {
    if names != [] && names[|names| - 1] in m {
      TakeOnlyFails(m - {names[|names| - 1]}, names[..|names| - 1]);
    }
  }

  /** From a described frame, an accepted unpack leads to a described frame exactly when the
      struct repeats no field name. */
  lemma UnpackStructExactly(vm: Machine, addr: Address, ctx: Context, pc: nat, tn: Name, names: seq<string>, f: FrameState, st: State)
    requires Loaded(vm, addr, ctx.m) && OwnStruct(ctx.m, tn, names)
    requires Related(vm, addr, f, st) && f.pc == pc + 1
    requires StepUnpackStruct(ctx, pc, tn, names, st).errs == []
    ensures Lands(vm, addr, ExecUnpackStruct(names, f), pc, StepUnpackStruct(ctx, pc, tn, names, st)) <==> Distinct(names)
  {
    if Distinct(names) {
      SoundUnpackStruct(vm, addr, ctx, pc, tn, names, f, st);
    } else {
      var v := f.stack[|f.stack| - 1];
      assert HasType(vm, v, Qualify(addr, Struct(tn)));
      assert DefAt(vm, addr, tn.name) == GetStruct(ctx.m, tn.name);
      UnpackExactly(v.fields, names);
      TakeOnlyFails(FieldMap(v.fields), names);
    }
  }
}
