/** Accepted bytecode cannot go wrong: the abstract pass simulates the machine. */
module Soundness {
  import opened MeowTypes
  import opened Vm
  import opened Verifier
  import opened Certificate
  import opened Typing
  import opened Structural

  /** The errors a verified program may still end in. */
  predicate Benign(e: VmError) {
    e.OutOfGas? || e.CallStackOverflow? || e.ArithmeticOverflow? || e.DivisionByZero? || e.Aborted? || e.NativeError?
  }

  /** A live slot holds a value of its type; a dead one holds nothing linear. */
  predicate SlotHolds(vm: Machine, addr: Address, o: Option<Value>, s: Slot) {
    match s
    case Live(t) => o.Some? && HasType(vm, o.value, Qualify(addr, t))
    case Dead => o.Some? ==> !IsLinearValue(o.value)
  }

  /** The frame is one the abstract state describes. */
  predicate Related(vm: Machine, addr: Address, f: FrameState, st: State) {
    && st.reachable
    && AllTyped(vm, addr, f.stack, st.stack)
    && |f.locals| == |st.locals|
    && forall i | 0 <= i < |f.locals| :: SlotHolds(vm, addr, f.locals[i], st.locals[i])
  }

  lemma RelatedBelow(vm: Machine, addr: Address, f: FrameState, s: State, t: State)
    requires Related(vm, addr, f, s) && Below(s, t)
    ensures Related(vm, addr, f, t)
  {
    forall i | 0 <= i < |f.locals| ensures SlotHolds(vm, addr, f.locals[i], t.locals[i]) {
      assert SlotHolds(vm, addr, f.locals[i], s.locals[i]) && SlotBelow(s.locals[i], t.locals[i]);
      if s.locals[i].Live? {
        LiveLinearity(vm, addr, f.locals[i].value, s.locals[i].ty);
      }
    }
  }

  lemma LiveLinearity(vm: Machine, addr: Address, v: Value, t: Type)
    requires HasType(vm, v, Qualify(addr, t))
    ensures IsLinearValue(v) == IsLinear(t)
  {
    TypedLinear(vm, v, Qualify(addr, t));
    QualifyLinear(addr, t);
  }

  lemma AllTypedConcat(vm: Machine, addr: Address, vs: seq<Value>, ts: seq<Type>, ws: seq<Value>, us: seq<Type>)
    requires AllTyped(vm, addr, vs, ts) && AllTyped(vm, addr, ws, us)
    ensures AllTyped(vm, addr, vs + ws, ts + us)
  {
  }

  /** Replacing everything above position `k` of the stack by well-typed values. */
  lemma RelatedStack(vm: Machine, addr: Address, f: FrameState, st: State, k: nat, vs: seq<Value>, ts: seq<Type>)
    requires Related(vm, addr, f, st) && k <= |st.stack| && AllTyped(vm, addr, vs, ts)
    ensures Related(vm, addr, f.(stack := f.stack[..k] + vs), st.(stack := st.stack[..k] + ts))
  {
    assert AllTyped(vm, addr, f.stack[..k], st.stack[..k]);
    AllTypedConcat(vm, addr, f.stack[..k], st.stack[..k], vs, ts);
  }

  /** A step ends in a tolerable error, or in a frame described by the state the pass sends to
      wherever the step went. */
  predicate Lands(vm: Machine, addr: Address, r: Res<FrameState>, pc: nat, flow: Flow) {
    match r
    case Err(e) => Benign(e)
    case Ok(g) =>
      || (g.pc == pc + 1 && Related(vm, addr, g, flow.next))
      || (flow.jump == Some(g.pc) && Related(vm, addr, g, flow.jumped))
  }

  /** Popping the last of the expected types. */
  lemma PopTypedLast(ts: seq<Type>, st: State, pc: nat)
    requires ts != [] && PopTyped(ts, st, pc).1 == []
    ensures |st.stack| > 0 && st.stack[|st.stack| - 1] == ts[|ts| - 1]
    ensures PopTyped(ts[..|ts| - 1], Popped(st), pc).1 == []
    ensures PopTyped(ts, st, pc).0 == PopTyped(ts[..|ts| - 1], Popped(st), pc).0
  {
  }

  lemma Regained<T>(s: seq<T>, ts: seq<T>, k: nat)
    requires ts != [] && k + |ts| == |s| && s[|s| - 1] == ts[|ts| - 1]
    requires s[..|s| - 1][k..] == ts[..|ts| - 1]
    ensures s[k..] == ts && s[..|s| - 1][..k] == s[..k]
  {
    assert s[k..] == s[..|s| - 1][k..] + [s[|s| - 1]];
  }

  lemma {:induction false} PopTypedExact(ts: seq<Type>, st: State, pc: nat)
    requires PopTyped(ts, st, pc).1 == []
    ensures var k := |st.stack| - |ts|;
      k >= 0 && st.stack[k..] == ts && PopTyped(ts, st, pc).0 == st.(stack := st.stack[..k])
  {
    if ts == [] {
      assert st.stack[..|st.stack|] == st.stack;
    } else {
      PopTypedLast(ts, st, pc);
      PopTypedExact(ts[..|ts| - 1], Popped(st), pc);
      Regained(st.stack, ts, |st.stack| - |ts|);
    }
  }

  //
  // One lemma per kind of instruction
  //

  lemma SoundLoad(vm: Machine, addr: Address, pc: nat, slot: nat, f: FrameState, st: State)
    requires Related(vm, addr, f, st) && f.pc == pc + 1 && slot < |st.locals|
    requires StepLoad(pc, slot, st).errs == []
    ensures Lands(vm, addr, ExecLoad(slot, f), pc, StepLoad(pc, slot, st))
  {
    assert SlotHolds(vm, addr, f.locals[slot], st.locals[slot]);
    LiveLinearity(vm, addr, f.locals[slot].value, st.locals[slot].ty);
  }

  lemma SoundStore(vm: Machine, addr: Address, pc: nat, slot: nat, f: FrameState, st: State)
    requires Related(vm, addr, f, st) && f.pc == pc + 1 && slot < |st.locals|
    requires StepStore(pc, slot, st).errs == []
    ensures Lands(vm, addr, ExecStore(slot, f), pc, StepStore(pc, slot, st))
  {
    assert SlotHolds(vm, addr, f.locals[slot], st.locals[slot]);
    if st.locals[slot].Live? {
      LiveLinearity(vm, addr, f.locals[slot].value, st.locals[slot].ty);
    }
  }

  /** The side condition on field instructions: reads get their true type, writes store what the
      path really holds, and consuming reads resolve in the module's own struct table. */
  predicate FieldsKnown(vm: Machine, addr: Address, m: Module, i: Instr, st: State) {
    match i
    case LoadField(slot, path) =>
      slot < |st.locals| && st.locals[slot].Live? ==>
        var t := st.locals[slot].ty;
        TruePathType(vm, Qualify(addr, t), path) == Some(Qualify(addr, FieldPathTypeOr(t, path, m)))
    case StoreField(slot, path) =>
      slot < |st.locals| && st.locals[slot].Live? && st.stack != [] ==>
        var top := st.stack[|st.stack| - 1];
        TruePathType(vm, Qualify(addr, st.locals[slot].ty), path) == Some(Qualify(addr, top)) && !IsLinear(top)
    case GetField(field) =>
      st.stack != [] ==> ResolveFieldType(st.stack[|st.stack| - 1], field, m).Some?
    case _ => true
  }

  lemma SoundLoadField(vm: Machine, addr: Address, ctx: Context, pc: nat, slot: nat, path: seq<string>, f: FrameState, st: State)
    requires Related(vm, addr, f, st) && f.pc == pc + 1 && slot < |st.locals| && path != []
    requires FieldsKnown(vm, addr, ctx.m, LoadField(slot, path), st)
    requires StepLoadField(ctx, pc, slot, path, st).errs == []
    ensures Lands(vm, addr, ExecLoadField(slot, path, f), pc, StepLoadField(ctx, pc, slot, path, st))
  {
    assert SlotHolds(vm, addr, f.locals[slot], st.locals[slot]);
    var t := st.locals[slot].ty;
    ReadTyped(vm, f.locals[slot].value, Qualify(addr, t), path);
    assert f.stack[..|f.stack|] == f.stack && st.stack[..|st.stack|] == st.stack;
    RelatedStack(vm, addr, f, st, |st.stack|, [ReadFieldPath(f.locals[slot].value, path).value],
                 [FieldPathTypeOr(t, path, ctx.m)]);
  }

  /** A resolved field type is a struct or a primitive. */
  lemma {:induction false} ResolvedField(m: Module, t: Type, path: seq<string>)
    requires FieldsShape(m) && path != []
    requires ResolveFieldPathType(t, path, m).Some?
    ensures ValidFieldType(ResolveFieldPathType(t, path, m).value)
    decreases |path|
  {
    var ft := ResolveFieldType(t, path[0], m).value;
    if |path| == 1 {
      assert path[1..] == [];
    } else {
      ResolvedField(m, ft, path[1..]);
    }
  }

  /** Popping the stack and replacing the contents of a live slot by a value of the same type. */
  lemma RelatedUpdate(vm: Machine, addr: Address, f: FrameState, st: State, slot: nat, v: Value)
    requires Related(vm, addr, f, st) && st.stack != [] && slot < |st.locals|
    requires st.locals[slot].Live? && HasType(vm, v, Qualify(addr, st.locals[slot].ty))
    ensures Related(vm, addr, f.(stack := f.stack[..|f.stack| - 1], locals := f.locals[slot := Some(v)]), Popped(st))
  {
  }

  /** An accepted write that the pass resolves in the module's own struct table meets the side
      condition. */
  lemma ResolvedWriteKnown(vm: Machine, addr: Address, ctx: Context, pc: nat, slot: nat, path: seq<string>, st: State)
    requires Loaded(vm, addr, ctx.m) && FieldsShape(ctx.m) && slot < |st.locals| && path != []
    requires StepStoreField(ctx, pc, slot, path, st).errs == [] && st.locals[slot].Live?
    requires ResolveFieldPathType(st.locals[slot].ty, path, ctx.m).Some?
    ensures FieldsKnown(vm, addr, ctx.m, StoreField(slot, path), st)
  {
    ResolvedIsTrue(vm, addr, ctx.m, st.locals[slot].ty, path);
    ResolvedField(ctx.m, st.locals[slot].ty, path);
  }

  lemma SoundStoreField(vm: Machine, addr: Address, ctx: Context, pc: nat, slot: nat, path: seq<string>, f: FrameState, st: State)
    requires Related(vm, addr, f, st) && f.pc == pc + 1 && slot < |st.locals| && path != []
    requires FieldsKnown(vm, addr, ctx.m, StoreField(slot, path), st)
    requires StepStoreField(ctx, pc, slot, path, st).errs == []
    ensures Lands(vm, addr, ExecStoreField(slot, path, f), pc, StepStoreField(ctx, pc, slot, path, st))
  {
    hide HasType, WriteFieldPath, StepStoreField;
    WriteAccepted(ctx, pc, slot, path, st);
    assert SlotHolds(vm, addr, f.locals[slot], st.locals[slot]);
    var top := st.stack[|st.stack| - 1];
    var x := f.stack[|f.stack| - 1];
    assert HasType(vm, x, Qualify(addr, top));
    QualifyLinear(addr, top);
    WriteTyped(vm, f.locals[slot].value, Qualify(addr, st.locals[slot].ty), path, x);
    RelatedUpdate(vm, addr, f, st, slot, WriteFieldPath(f.locals[slot].value, path, x).value);
  }

  /** The pass over a field write, read backwards from its being accepted. */
  lemma WriteAccepted(ctx: Context, pc: nat, slot: nat, path: seq<string>, st: State)
    requires slot < |st.locals| && path != [] && StepStoreField(ctx, pc, slot, path, st).errs == []
    ensures st.stack != [] && st.locals[slot].Live? && !CrossModule(st.locals[slot].ty)
    ensures StepStoreField(ctx, pc, slot, path, st) == Straight(Popped(st), [])
  {
  }

  function OperandType(i: Instr): (r: Type) {
    if i.And? || i.Or? then Bool else U64
  }

  function ResultType(i: Instr): (r: Type) {
    if i.Add? || i.Sub? || i.Mul? || i.Div? || i.Mod? then U64 else Bool
  }

  predicate OperandsFit(vm: Machine, i: Instr, l: Value, r: Value) {
    if i.Eq? || i.Ne? then !IsLinearValue(l) && !IsLinearValue(r)
    else HasType(vm, l, OperandType(i)) && HasType(vm, r, OperandType(i))
  }

  lemma OperatorTyped(vm: Machine, i: Instr, l: Value, r: Value)
    requires IsBinary(i)
    requires OperandsFit(vm, i, l, r)
    ensures ExecBinary(i, l, r).Err? ==> Benign(ExecBinary(i, l, r).error)
    ensures ExecBinary(i, l, r).Ok? ==> HasType(vm, ExecBinary(i, l, r).value, ResultType(i))
  {
  }

  /** Replacing the two topmost values by one. */
  lemma RelatedOperator(vm: Machine, addr: Address, f: FrameState, st: State, v: Value, t: Type)
    requires Related(vm, addr, f, st) && |st.stack| >= 2 && HasType(vm, v, Qualify(addr, t))
    ensures Related(vm, addr, f.(stack := f.stack[..|f.stack| - 2] + [v]), Pushed(PoppedN(st, 2), t))
  {
    RelatedStack(vm, addr, f, st, |st.stack| - 2, [v], [t]);
  }

  /** The pass over an operator, read backwards from its being accepted. */
  lemma OperatorAccepted(ctx: Context, ret: Option<Type>, pc: nat, i: Instr, st: State)
    requires IsBinary(i) && Step(ctx, ret, pc, i, st).errs == []
    ensures |st.stack| >= 2
    ensures Step(ctx, ret, pc, i, st) == Straight(Pushed(PoppedN(st, 2), ResultType(i)), [])
    ensures var k := |st.stack| - 2;
      if i.Eq? || i.Ne? then !IsLinear(st.stack[k]) && !IsLinear(st.stack[k + 1])
      else st.stack[k] == st.stack[k + 1] == OperandType(i)
  {
    if i.Eq? || i.Ne? {
      assert Step(ctx, ret, pc, i, st) == StepEq(pc, st);
    } else {
      var want := OperandType(i);
      assert Step(ctx, ret, pc, i, st) == Binary(want, ResultType(i), pc, st);
      PopTypedExact([want, want], st, pc);
      var k := |st.stack| - 2;
      assert st.stack[k] == st.stack[k..][0] && st.stack[k + 1] == st.stack[k..][1];
    }
  }

  lemma SoundBinary(vm: Machine, addr: Address, ctx: Context, ret: Option<Type>, pc: nat, i: Instr, f: FrameState, st: State)
    requires Related(vm, addr, f, st) && f.pc == pc + 1
    requires IsBinary(i)
    requires Step(ctx, ret, pc, i, st).errs == []
    ensures Lands(vm, addr, ExecOperator(i, f), pc, Step(ctx, ret, pc, i, st))
  {
    OperatorAccepted(ctx, ret, pc, i, st);
    var k := |st.stack| - 2;
    OperandsTyped(vm, addr, i, f.stack[k], st.stack[k], f.stack[k + 1], st.stack[k + 1]);
    SoundOperator(vm, addr, pc, i, f, st, Straight(Pushed(PoppedN(st, 2), ResultType(i)), []));
  }

  lemma OperandsTyped(vm: Machine, addr: Address, i: Instr, l: Value, lt: Type, r: Value, rt: Type)
    requires HasType(vm, l, Qualify(addr, lt)) && HasType(vm, r, Qualify(addr, rt))
    requires if i.Eq? || i.Ne? then !IsLinear(lt) && !IsLinear(rt) else lt == rt == OperandType(i)
    ensures OperandsFit(vm, i, l, r)
  {
    LiveLinearity(vm, addr, l, lt);
    LiveLinearity(vm, addr, r, rt);
  }

  lemma SoundOperator(vm: Machine, addr: Address, pc: nat, i: Instr, f: FrameState, st: State, flow: Flow)
    requires Related(vm, addr, f, st) && f.pc == pc + 1
    requires IsBinary(i) && |st.stack| >= 2
    requires flow == Straight(Pushed(PoppedN(st, 2), ResultType(i)), [])
    requires OperandsFit(vm, i, f.stack[|f.stack| - 2], f.stack[|f.stack| - 1])
    ensures Lands(vm, addr, ExecOperator(i, f), pc, flow)
  {
    var k := |f.stack| - 2;
    OperatorTyped(vm, i, f.stack[k], f.stack[k + 1]);
    var r := ExecBinary(i, f.stack[k], f.stack[k + 1]);
    if r.Ok? {
      RelatedOperator(vm, addr, f, st, r.value, ResultType(i));
    }
  }

  lemma SoundNot(vm: Machine, addr: Address, ctx: Context, ret: Option<Type>, pc: nat, m: Module, f: FrameState, st: State)
    requires Related(vm, addr, f, st) && f.pc == pc + 1
    requires Step(ctx, ret, pc, Not, st).errs == []
    ensures Lands(vm, addr, Exec(vm, addr, m, Not, f), pc, Step(ctx, ret, pc, Not, st))
  {
    PopTypedExact([Bool], st, pc);
    var k := |st.stack| - 1;
    assert st.stack[k] == st.stack[k..][0];
    assert HasType(vm, f.stack[k], Bool);
  }

  lemma SoundBranch(vm: Machine, addr: Address, pc: nat, when: bool, offset: int, f: FrameState, st: State)
    requires Related(vm, addr, f, st) && f.pc == pc + 1 && offset > 0
    requires StepBranch(pc, offset, st).errs == []
    ensures Lands(vm, addr, ExecBranch(when, offset, f), pc, StepBranch(pc, offset, st))
  {
    PopTypedExact([Bool], st, pc);
    var k := |st.stack| - 1;
    assert st.stack[k] == st.stack[k..][0];
    assert HasType(vm, f.stack[k], Bool);
  }

  lemma SoundNewStruct(vm: Machine, addr: Address, ctx: Context, pc: nat, tn: Name, names: seq<string>, f: FrameState, st: State)
    requires Loaded(vm, addr, ctx.m) && OwnStruct(ctx.m, tn, names)
    requires Related(vm, addr, f, st) && f.pc == pc + 1
    requires StepNewStruct(ctx, pc, tn, names, st).errs == []
    ensures Lands(vm, addr, ExecNewStruct(vm, addr, ctx.m, tn, names, f), pc, StepNewStruct(ctx, pc, tn, names, st))
  {
    var def := GetStruct(ctx.m, tn.name).value;
    PopTypedExact(FieldTypes(def), st, pc);
    var k := |st.stack| - |names|;
    var q := Qualified(addr, tn.name);
    var v := VStruct(q, MakeFields(names, f.stack[k..]));
    assert DefAt(vm, addr, tn.name) == Some(def);
    forall i | 0 <= i < |names|
      ensures v.fields[i].name == def.fields[i].name && HasType(vm, v.fields[i].value, Qualify(addr, def.fields[i].ty))
    {
      assert FieldTypes(def)[i] == st.stack[k..][i] == st.stack[k + i];
      assert v.fields[i].value == f.stack[k + i];
    }
    assert HasType(vm, v, Struct(q));
    RelatedStack(vm, addr, f, st, k, [v], [Struct(tn)]);
  }

  /** The pass over a consuming field read, read backwards from its being accepted. */
  lemma GetFieldAccepted(ctx: Context, pc: nat, field: string, st: State)
    requires StepGetField(ctx, pc, field, st).errs == []
    requires st.stack != [] ==> ResolveFieldType(st.stack[|st.stack| - 1], field, ctx.m).Some?
    ensures st.stack != []
    ensures var (k, t) := (|st.stack| - 1, st.stack[|st.stack| - 1]);
      && t.Struct? && t.tn.Local? && GetStruct(ctx.m, t.tn.name).Some?
      && !HasStructField(GetStruct(ctx.m, t.tn.name).value)
      && StepGetField(ctx, pc, field, st) ==
           Straight(st.(stack := st.stack[..k] + [ResolveFieldType(t, field, ctx.m).value]), [])
  {
  }

  lemma GetFieldTyped(vm: Machine, addr: Address, m: Module, v: Value, t: Type, field: string)
    requires Loaded(vm, addr, m)
    requires t.Struct? && t.tn.Local? && HasType(vm, v, Qualify(addr, t))
    requires ResolveFieldType(t, field, m).Some?
    ensures v.VStruct? && FieldIndex(v.fields, field).Some?
    ensures HasType(vm, v.fields[FieldIndex(v.fields, field).value].value, Qualify(addr, ResolveFieldType(t, field, m).value))
  {
    var def := GetStruct(m, t.tn.name).value;
    assert DefAt(vm, addr, t.tn.name) == Some(def);
    FieldAgrees(v.fields, def.fields, field);
  }

  lemma SoundGetField(vm: Machine, addr: Address, ctx: Context, pc: nat, field: string, f: FrameState, st: State)
    requires Loaded(vm, addr, ctx.m)
    requires Related(vm, addr, f, st) && f.pc == pc + 1
    requires FieldsKnown(vm, addr, ctx.m, GetField(field), st)
    requires StepGetField(ctx, pc, field, st).errs == []
    ensures Lands(vm, addr, ExecGetField(field, f), pc, StepGetField(ctx, pc, field, st))
  {
    GetFieldAccepted(ctx, pc, field, st);
    var k := |st.stack| - 1;
    var t := st.stack[k];
    var v := f.stack[k];
    GetFieldTyped(vm, addr, ctx.m, v, t, field);
    RelatedStack(vm, addr, f, st, k, [v.fields[FieldIndex(v.fields, field).value].value], [ResolveFieldType(t, field, ctx.m).value]);
  }

  lemma UnpackStructAccepted(ctx: Context, pc: nat, tn: Name, names: seq<string>, st: State)
    requires OwnStruct(ctx.m, tn, names) && StepUnpackStruct(ctx, pc, tn, names, st).errs == []
    ensures |st.stack| > 0 && st.stack[|st.stack| - 1] == Struct(tn)
    ensures StepUnpackStruct(ctx, pc, tn, names, st) ==
            Straight(st.(stack := st.stack[..|st.stack| - 1] +
                                  Reversed(FieldTypes(GetStruct(ctx.m, tn.name).value))), [])
  {
    hide Reversed, FieldTypes;
  }

  lemma SoundUnpackStruct(vm: Machine, addr: Address, ctx: Context, pc: nat, tn: Name, names: seq<string>, f: FrameState, st: State)
    requires Loaded(vm, addr, ctx.m) && OwnStruct(ctx.m, tn, names) && Distinct(names)
    requires Related(vm, addr, f, st) && f.pc == pc + 1
    requires StepUnpackStruct(ctx, pc, tn, names, st).errs == []
    ensures Lands(vm, addr, ExecUnpackStruct(names, f), pc, StepUnpackStruct(ctx, pc, tn, names, st))
  {
    UnpackStructAccepted(ctx, pc, tn, names, st);
    var k := |st.stack| - 1;
    var v := f.stack[k];
    var def := GetStruct(ctx.m, tn.name).value;
    assert HasType(vm, v, Qualify(addr, st.stack[k]));
    OwnLocal(ctx.m, tn, names);
    UnpackTyped(vm, addr, ctx.m, v, tn, names);
    RelatedStack(vm, addr, f, st, k, Reverse(Values(v.fields)), Reversed(FieldTypes(def)));
  }

  lemma OwnLocal(m: Module, tn: Name, names: seq<string>)
    requires OwnStruct(m, tn, names)
    ensures tn.Local? && GetStruct(m, tn.name).Some?
  {
  }

  /** The values an unpack pushes have the field types, in reverse. */
  lemma UnpackTyped(vm: Machine, addr: Address, m: Module, v: Value, tn: Name, names: seq<string>)
    requires Loaded(vm, addr, m) && OwnStruct(m, tn, names) && Distinct(names)
    requires HasType(vm, v, Struct(Qualified(addr, tn.name)))
    ensures v.VStruct? && TakeFields(FieldMap(v.fields), names) == Ok(Reverse(Values(v.fields)))
    ensures AllTyped(vm, addr, Reverse(Values(v.fields)), Reversed(FieldTypes(GetStruct(m, tn.name).value)))
  {
    var def := GetStruct(m, tn.name).value;
    assert DefAt(vm, addr, tn.name) == Some(def);
    UnpackExactly(v.fields, names);
    FieldsTyped(vm, addr, v.fields, def);
  }

  lemma FieldsTyped(vm: Machine, addr: Address, fields: seq<Field>, def: StructDef)
    requires |fields| == |def.fields|
    requires forall j :: 0 <= j < |fields| ==> HasType(vm, fields[j].value, Qualify(addr, def.fields[j].ty))
    ensures AllTyped(vm, addr, Reverse(Values(fields)), Reversed(FieldTypes(def)))
  {
    hide HasType, Qualify;
    var vs := Reverse(Values(fields));
    var ts := Reversed(FieldTypes(def));
    forall i | 0 <= i < |vs| ensures HasType(vm, vs[i], Qualify(addr, ts[i])) {
      var j := |vs| - 1 - i;
      assert vs[i] == fields[j].value && ts[i] == def.fields[j].ty;
    }
  }

  lemma SoundMakeTuple(vm: Machine, addr: Address, pc: nat, n: nat, f: FrameState, st: State)
    requires Related(vm, addr, f, st) && f.pc == pc + 1
    requires StepMakeTuple(pc, n, st).errs == []
    ensures Lands(vm, addr, ExecMakeTuple(n, f), pc, StepMakeTuple(pc, n, st))
  {
    var k := |st.stack| - n;
    var ts := st.stack[k..];
    forall i | 0 <= i < n ensures HasType(vm, f.stack[k..][i], QualifyAll(addr, ts)[i]) {
      assert f.stack[k..][i] == f.stack[k + i] && ts[i] == st.stack[k + i];
    }
    assert HasType(vm, VTuple(f.stack[k..]), Qualify(addr, Tuple(ts)));
    RelatedStack(vm, addr, f, st, k, [VTuple(f.stack[k..])], [Tuple(ts)]);
  }

  lemma SoundUnpackTuple(vm: Machine, addr: Address, pc: nat, n: nat, f: FrameState, st: State)
    requires Related(vm, addr, f, st) && f.pc == pc + 1
    requires StepUnpackTuple(pc, n, st).errs == []
    ensures Lands(vm, addr, ExecUnpackTuple(n, f), pc, StepUnpackTuple(pc, n, st))
  {
    var k := |st.stack| - 1;
    var v := f.stack[k];
    var t := st.stack[k];
    assert HasType(vm, v, Qualify(addr, t));
    ElementsTyped(vm, addr, v, t);
    hide HasType, AllTyped, Reverse, Reversed;
    RelatedStack(vm, addr, f, st, k, Reverse(v.elems), Reversed(t.elems));
  }

  lemma ElementsTyped(vm: Machine, addr: Address, v: Value, t: Type)
    requires t.Tuple? && HasType(vm, v, Qualify(addr, t))
    ensures v.VTuple? && |v.elems| == |t.elems|
    ensures AllTyped(vm, addr, Reverse(v.elems), Reversed(t.elems))
  {
    forall i | 0 <= i < |v.elems| ensures HasType(vm, v.elems[i], Qualify(addr, t.elems[i])) {
      assert QualifyAll(addr, t.elems)[i] == Qualify(addr, t.elems[i]);
    }
    ReversedTyped(vm, addr, v.elems, t.elems);
  }

  lemma ReversedTyped(vm: Machine, addr: Address, vs: seq<Value>, ts: seq<Type>)
    requires |vs| == |ts| && forall i | 0 <= i < |vs| :: HasType(vm, vs[i], Qualify(addr, ts[i]))
    ensures AllTyped(vm, addr, Reverse(vs), Reversed(ts))
  {
    hide HasType, Qualify;
    forall i | 0 <= i < |vs| ensures HasType(vm, Reverse(vs)[i], Qualify(addr, Reversed(ts)[i])) {
      assert Reverse(vs)[i] == vs[|vs| - 1 - i] && Reversed(ts)[i] == ts[|vs| - 1 - i];
    }
  }

  predicate DistinctFieldNames(m: Module) {
    forall s | s in m.structs :: Distinct(FieldNames(s))
  }

  /** Every instruction but `Call` and `Return`. */
  lemma StepSound(vm: Machine, addr: Address, ctx: Context, maxTuple: nat, fn: Function, pc: nat, f: FrameState, st: State)
    requires Loaded(vm, addr, ctx.m) && FieldsShape(ctx.m) && DistinctFieldNames(ctx.m)
    requires pc < |fn.code| && !fn.code[pc].Call? && !fn.code[pc].Return?
    requires InstrShape(ctx.m, ctx.deps, maxTuple, fn, pc) && |st.locals| == fn.localCount
    requires FieldsKnown(vm, addr, ctx.m, fn.code[pc], st)
    requires Related(vm, addr, f, st) && f.pc == pc + 1
    requires Step(ctx, fn.ret, pc, fn.code[pc], st).errs == []
    ensures Lands(vm, addr, Exec(vm, addr, ctx.m, fn.code[pc], f), pc, Step(ctx, fn.ret, pc, fn.code[pc], st))
  {
    var i := fn.code[pc];
    if IsBinary(i) {
      SoundBinary(vm, addr, ctx, fn.ret, pc, i, f, st);
    } else {
      StepSoundRest(vm, addr, ctx, maxTuple, fn, pc, f, st);
    }
  }

  lemma StepSoundRest(vm: Machine, addr: Address, ctx: Context, maxTuple: nat, fn: Function, pc: nat, f: FrameState, st: State)
    requires Loaded(vm, addr, ctx.m) && FieldsShape(ctx.m) && DistinctFieldNames(ctx.m)
    requires pc < |fn.code| && !fn.code[pc].Call? && !fn.code[pc].Return? && !IsBinary(fn.code[pc])
    requires InstrShape(ctx.m, ctx.deps, maxTuple, fn, pc) && |st.locals| == fn.localCount
    requires FieldsKnown(vm, addr, ctx.m, fn.code[pc], st)
    requires Related(vm, addr, f, st) && f.pc == pc + 1
    requires Step(ctx, fn.ret, pc, fn.code[pc], st).errs == []
    ensures Lands(vm, addr, Exec(vm, addr, ctx.m, fn.code[pc], f), pc, Step(ctx, fn.ret, pc, fn.code[pc], st))
  {
    match fn.code[pc]
    case Load(slot) => SoundLoad(vm, addr, pc, slot, f, st);
    case Store(slot) => SoundStore(vm, addr, pc, slot, f, st);
    case LoadField(slot, path) => SoundLoadField(vm, addr, ctx, pc, slot, path, f, st);
    case StoreField(slot, path) => SoundStoreField(vm, addr, ctx, pc, slot, path, f, st);
    case Not => SoundNot(vm, addr, ctx, fn.ret, pc, ctx.m, f, st);
    case NewStruct(tn, names) => SoundNewStruct(vm, addr, ctx, pc, tn, names, f, st);
    case GetField(field) => SoundGetField(vm, addr, ctx, pc, field, f, st);
    case UnpackStruct(tn, names) => SoundUnpackStruct(vm, addr, ctx, pc, tn, names, f, st);
    case JumpIf(offset) => SoundBranch(vm, addr, pc, true, offset, f, st);
    case JumpIfNot(offset) => SoundBranch(vm, addr, pc, false, offset, f, st);
    case MakeTuple(n) => SoundMakeTuple(vm, addr, pc, n, f, st);
    case UnpackTuple(n) => SoundUnpackTuple(vm, addr, pc, n, f, st);
    case Pop => SoundStack(vm, addr, ctx, fn.ret, pc, fn.code[pc], f, st);
    case Dup => SoundStack(vm, addr, ctx, fn.ret, pc, fn.code[pc], f, st);
    case PushBool(_) => SoundStack(vm, addr, ctx, fn.ret, pc, fn.code[pc], f, st);
    case PushU64(_) => SoundStack(vm, addr, ctx, fn.ret, pc, fn.code[pc], f, st);
    case PushAddress(_) => SoundStack(vm, addr, ctx, fn.ret, pc, fn.code[pc], f, st);
    case PushStr(_) => SoundStack(vm, addr, ctx, fn.ret, pc, fn.code[pc], f, st);
    case Jump(offset) => assert JumpTarget(f.pc, offset) == Ok(pc + offset);
    case _ => assert false;
  }

  predicate IsStackOp(i: Instr) {
    i.Pop? || i.Dup? || i.PushBool? || i.PushU64? || i.PushAddress? || i.PushStr?
  }

  lemma SoundPush(vm: Machine, addr: Address, pc: nat, f: FrameState, st: State, v: Value, t: Type)
    requires Related(vm, addr, f, st) && f.pc == pc + 1 && HasType(vm, v, Qualify(addr, t))
    ensures Lands(vm, addr, Ok(Push(f, v)), pc, Straight(Pushed(st, t), []))
  {
    hide HasType;
    assert f.stack[..|f.stack|] == f.stack && st.stack[..|st.stack|] == st.stack;
    RelatedStack(vm, addr, f, st, |st.stack|, [v], [t]);
  }

  predicate IsConstant(i: Instr) {
    i.PushBool? || i.PushU64? || i.PushAddress? || i.PushStr?
  }

  /** A constant, and the type the pass gives it. */
  function ConstantOf(i: Instr): (r: (Value, Type))
    requires IsConstant(i)
  {
    match i
    case PushBool(b) => (VBool(b), Bool)
    case PushU64(n) => (VU64(n), U64)
    case PushAddress(a) => (VAddr(a), Addr)
    case PushStr(s) => (VStr(s), Str)
  }

  lemma ConstantTyped(vm: Machine, addr: Address, i: Instr)
    requires IsConstant(i)
    ensures HasType(vm, ConstantOf(i).0, Qualify(addr, ConstantOf(i).1))
    ensures !IsLinearValue(ConstantOf(i).0)
  {
  }

  lemma ConstantRuns(vm: Machine, addr: Address, m: Module, i: Instr, f: FrameState)
    requires IsConstant(i)
    ensures Exec(vm, addr, m, i, f) == Ok(Push(f, ConstantOf(i).0))
  {
  }

  lemma ConstantPasses(ctx: Context, ret: Option<Type>, pc: nat, i: Instr, st: State)
    requires IsConstant(i)
    ensures Step(ctx, ret, pc, i, st) == Straight(Pushed(st, ConstantOf(i).1), [])
  {
  }

  /** `Pop` and `Dup` find a value that is not linear. */
  lemma TopPasses(ctx: Context, ret: Option<Type>, pc: nat, i: Instr, st: State)
    requires (i.Pop? || i.Dup?) && Step(ctx, ret, pc, i, st).errs == []
    ensures st.stack != [] && !IsLinear(st.stack[|st.stack| - 1])
    ensures i.Pop? ==> Step(ctx, ret, pc, i, st) == Straight(Popped(st), [])
    ensures i.Dup? ==> Step(ctx, ret, pc, i, st) == Straight(Pushed(st, st.stack[|st.stack| - 1]), [])
  {
  }

  lemma TopRuns(vm: Machine, addr: Address, m: Module, i: Instr, f: FrameState)
    requires (i.Pop? || i.Dup?) && f.stack != []
    ensures i.Pop? ==> Exec(vm, addr, m, i, f) == Ok(f.(stack := f.stack[..|f.stack| - 1]))
    ensures i.Dup? ==> Exec(vm, addr, m, i, f) == Ok(Push(f, f.stack[|f.stack| - 1]))
  {
  }

  lemma SoundPop(vm: Machine, addr: Address, pc: nat, f: FrameState, st: State)
    requires Related(vm, addr, f, st) && f.pc == pc + 1 && st.stack != []
    ensures f.stack != []
    ensures Lands(vm, addr, Ok(f.(stack := f.stack[..|f.stack| - 1])), pc, Straight(Popped(st), []))
  {
    hide HasType;
    var n := |st.stack|;
    RelatedStack(vm, addr, f, st, n - 1, [], []);
    assert f.stack[..n - 1] + [] == f.stack[..n - 1] && st.stack[..n - 1] + [] == st.stack[..n - 1];
  }

  lemma SoundStack(vm: Machine, addr: Address, ctx: Context, ret: Option<Type>, pc: nat, i: Instr, f: FrameState, st: State)
    requires IsStackOp(i) && Related(vm, addr, f, st) && f.pc == pc + 1
    requires Step(ctx, ret, pc, i, st).errs == []
    ensures Lands(vm, addr, Exec(vm, addr, ctx.m, i, f), pc, Step(ctx, ret, pc, i, st))
  {
    hide Step, Exec, HasType, Lands;
    if IsConstant(i) {
      ConstantTyped(vm, addr, i);
      ConstantRuns(vm, addr, ctx.m, i, f);
      ConstantPasses(ctx, ret, pc, i, st);
      SoundPush(vm, addr, pc, f, st, ConstantOf(i).0, ConstantOf(i).1);
    } else {
      TopPasses(ctx, ret, pc, i, st);
      TopRuns(vm, addr, ctx.m, i, f);
      SoundPop(vm, addr, pc, f, st);
      if i.Dup? {
        SoundPush(vm, addr, pc, f, st, f.stack[|f.stack| - 1], st.stack[|st.stack| - 1]);
      }
    }
  }

  //
  // Calls and runs
  //

  /** What the pass knows about a native argument. */
  predicate NativeArgFits(vm: Machine, p: NativeParam, v: Value) {
    match p
    case Concrete(t) => HasType(vm, v, t)
    case AnyStruct => v.VStruct?
    case LocalStruct => v.VStruct?
  }

  predicate NativeArgsFit(vm: Machine, params: seq<NativeParam>, args: seq<Value>) {
    |params| == |args| && forall i | 0 <= i < |args| :: NativeArgFits(vm, params[i], args[i])
  }

  predicate ReturnFits(vm: Machine, addr: Address, ret: Option<Type>, v: Option<Value>) {
    match ret
    case Some(t) => v.Some? && HasType(vm, v.value, Qualify(addr, t))
    case None => v.None? || v.value.VVoid?
  }

  /** A native's concrete parameter types name no module-local struct. */
  ghost predicate GlobalParams(sig: NativeSig) {
    forall p, a: Address | p in sig.params && p.Concrete? :: Qualify(a, p.ty) == p.ty
  }

  /** The natives the verifier was told about are the ones the machine has, and a native
      called with arguments that fit returns what it declares. */
  ghost predicate NativesTyped(vm: Machine, sigs: seq<NativeSig>) {
    forall n | FindNative(sigs, n).Some? ::
      && n in vm.natives && vm.natives[n].sig == FindNative(sigs, n).value
      && GlobalParams(vm.natives[n].sig)
      && NativeHonest(vm, vm.natives[n])
  }

  ghost predicate NativeHonest(vm: Machine, entry: NativeEntry) {
    forall log, args | NativeArgsFit(vm, entry.sig.params, args) ::
      var r := entry.func(log, args);
      r.NReturn? ==> forall a: Address :: ReturnFits(vm, a, entry.sig.ret, r.value)
  }

  /** A function that both phases accept, and whose field instructions meet the side condition. */
  predicate FunctionOk(vm: Machine, addr: Address, ctx: Context, maxTuple: nat, fn: Function) {
    var states := CheckFunction(ctx, fn).states;
    && CodeShape(ctx.m, ctx.deps, maxTuple, fn)
    && Certified(ctx, fn, states)
    && forall pc | 0 <= pc < |fn.code| && states[pc].reachable :: FieldsKnown(vm, addr, ctx.m, fn.code[pc], states[pc])
  }

  predicate ModuleOk(vm: Machine, addr: Address, m: Module, sigs: seq<NativeSig>, maxTuple: nat) {
    && FieldsShape(m) && DistinctFieldNames(m)
    && forall fn | fn in m.functions :: FunctionOk(vm, addr, Context(m, vm.deps, sigs), maxTuple, fn)
  }

  ghost predicate MachineOk(vm: Machine, sigs: seq<NativeSig>, maxTuple: nat) {
    && NativesTyped(vm, sigs)
    && (vm.addr in vm.deps ==> vm.deps[vm.addr] == vm.main)
    && ModuleOk(vm, vm.addr, vm.main, sigs, maxTuple)
    && forall a | a in vm.deps :: ModuleOk(vm, a, vm.deps[a], sigs, maxTuple)
  }

  lemma LoadedOk(vm: Machine, sigs: seq<NativeSig>, maxTuple: nat, addr: Address, m: Module, fn: Function)
    requires MachineOk(vm, sigs, maxTuple) && Loaded(vm, addr, m) && fn in m.functions
    ensures FieldsShape(m) && DistinctFieldNames(m) && FunctionOk(vm, addr, Context(m, vm.deps, sigs), maxTuple, fn)
  {
    assert ModuleOk(vm, addr, m, sigs, maxTuple);
  }

  lemma ShapeForward(m: Module, deps: map<Address, Module>, maxTuple: nat, fn: Function)
    requires CodeShape(m, deps, maxTuple, fn)
    ensures Forward(fn.code)
  {
    forall i | i in fn.code ensures (i.Jump? || i.JumpIf? || i.JumpIfNot?) ==> i.offset > 0 {
      var pc :| 0 <= pc < |fn.code| && fn.code[pc] == i;
      assert InstrShape(m, deps, maxTuple, fn, pc);
    }
  }

  /** Verified code halts under every gas limit, the unlimited meter included. */
  lemma MachineHalts(vm: Machine, sigs: seq<NativeSig>, maxTuple: nat, addr: Address, m: Module, gas: Gas)
    requires MachineOk(vm, sigs, maxTuple) && Loaded(vm, addr, m)
    ensures Halting(vm, m, gas) && ForwardModule(m)
  {
    forall a, m', fn | Loaded(vm, a, m') && fn in m'.functions ensures Forward(fn.code) {
      LoadedOk(vm, sigs, maxTuple, a, m', fn);
      ShapeForward(m', vm.deps, maxTuple, fn);
    }
    forall a | a in vm.deps ensures ForwardModule(vm.deps[a]) {
      assert Loaded(vm, a, vm.deps[a]);
    }
  }
}
