/** Linear values are neither copied nor dropped: a census of one struct value, or of all values
    of a struct type, taken before and after each step of verified code. */
module Conservation {
  import opened MeowTypes
  import opened Vm
  import opened Verifier
  import opened Typing
  import opened Structural
  import opened Soundness
  import opened Safety

  //
  // The census
  //

  /** What is counted: the values of a struct type, or only those equal to one value. */
  datatype Token = Token(tn: Name, only: Option<Value>)

  function TokenOf(v: Value): (x: Token)
    requires v.VStruct?
  {
    Token(v.tn, Some(v))
  }

  predicate Counted(x: Token, v: Value) {
    x.only.None? || x.only.value == v
  }

  /** `x` is of a type defined by another module than the one at `addr`. */
  predicate Foreign(x: Token, addr: Address) {
    x.tn.Qualified? && x.tn.addr != addr
  }

  /** How often `x` occurs in `v`, not looking inside values of its type. */
  function Tokens(x: Token, v: Value): (r: nat)
    decreases v
  {
    match v
    case VStruct(tn, fields) => if tn == x.tn then (if Counted(x, v) then 1 else 0) else FieldTokens(x, fields)
    case VTuple(vs) => SumTokens(x, vs)
    case _ => 0
  }

  function FieldTokens(x: Token, fields: seq<Field>): (r: nat)
    decreases fields
  {
    if fields == [] then 0 else Tokens(x, fields[0].value) + FieldTokens(x, fields[1..])
  }

  function SumTokens(x: Token, vs: seq<Value>): (r: nat)
    decreases vs
  {
    if vs == [] then 0 else Tokens(x, vs[0]) + SumTokens(x, vs[1..])
  }

  function OptTokens(x: Token, o: Option<Value>): (r: nat) {
    if o.Some? then Tokens(x, o.value) else 0
  }

  function SlotTokens(x: Token, locals: seq<Option<Value>>): (r: nat) {
    if locals == [] then 0 else OptTokens(x, locals[0]) + SlotTokens(x, locals[1..])
  }

  function FrameTokens(x: Token, f: FrameState): (r: nat) {
    SumTokens(x, f.stack) + SlotTokens(x, f.locals)
  }

  lemma {:induction false} SumConcat(x: Token, a: seq<Value>, b: seq<Value>)
    ensures SumTokens(x, a + b) == SumTokens(x, a) + SumTokens(x, b)
  {
    if a == [] {
      assert a + b == b;
    } else {
      SumConcat(x, a[1..], b);
      assert (a + b)[1..] == a[1..] + b;
    }
  }

  lemma SumOne(x: Token, v: Value)
    ensures SumTokens(x, [v]) == Tokens(x, v)
  {
    assert [v][1..] == [];
    assert SumTokens(x, []) == 0;
  }

  lemma SumSplit(x: Token, s: seq<Value>, k: nat)
    requires k <= |s|
    ensures SumTokens(x, s) == SumTokens(x, s[..k]) + SumTokens(x, s[k..])
  {
    assert s == s[..k] + s[k..];
    SumConcat(x, s[..k], s[k..]);
  }

  lemma SumPush(x: Token, s: seq<Value>, v: Value)
    ensures SumTokens(x, s + [v]) == SumTokens(x, s) + Tokens(x, v)
  {
    SumConcat(x, s, [v]);
    SumOne(x, v);
  }

  lemma {:induction false} SumReverse(x: Token, s: seq<Value>)
    ensures SumTokens(x, Reverse(s)) == SumTokens(x, s)
  {
    if s != [] {
      var k := |s| - 1;
      SumReverse(x, s[..k]);
      assert Reverse(s) == [s[k]] + Reverse(s[..k]);
      SumConcat(x, [s[k]], Reverse(s[..k]));
      SumSplit(x, s, k);
      assert s[k..] == [s[k]];
    }
  }

  lemma {:induction false} FieldsAsValues(x: Token, fields: seq<Field>)
    ensures FieldTokens(x, fields) == SumTokens(x, Values(fields))
  {
    if fields != [] {
      FieldsAsValues(x, fields[1..]);
      assert Values(fields)[1..] == Values(fields[1..]);
    }
  }

  lemma {:induction false} SlotUpdate(x: Token, locals: seq<Option<Value>>, i: nat, o: Option<Value>)
    requires i < |locals|
    ensures SlotTokens(x, locals[i := o]) + OptTokens(x, locals[i]) == SlotTokens(x, locals) + OptTokens(x, o)
  {
    if i == 0 {
      assert locals[i := o][1..] == locals[1..];
    } else {
      SlotUpdate(x, locals[1..], i - 1, o);
      assert locals[i := o][1..] == locals[1..][i - 1 := o];
    }
  }

  lemma {:induction false} FieldUpdate(x: Token, fields: seq<Field>, i: nat, w: Value)
    requires i < |fields|
    ensures FieldTokens(x, fields[i := fields[i].(value := w)]) + Tokens(x, fields[i].value) ==
            FieldTokens(x, fields) + Tokens(x, w)
  {
    var fields' := fields[i := fields[i].(value := w)];
    if i == 0 {
      assert fields'[1..] == fields[1..];
    } else {
      FieldUpdate(x, fields[1..], i - 1, w);
      assert fields'[1..] == fields[1..][i - 1 := fields[1..][i - 1].(value := w)];
    }
  }

  /** Only linear values hold tokens. */
  lemma {:induction false} NoTokens(x: Token, v: Value)
    requires !IsLinearValue(v)
    ensures Tokens(x, v) == 0
    decreases v
  {
    if v.VTuple? {
      NoTokensAll(x, v.elems);
    }
  }

  lemma {:induction false} NoTokensAll(x: Token, vs: seq<Value>)
    requires forall i | 0 <= i < |vs| :: !IsLinearValue(vs[i])
    ensures SumTokens(x, vs) == 0
    decreases vs
  {
    if vs != [] {
      assert !IsLinearValue(vs[0]);
      NoTokens(x, vs[0]);
      NoTokensAll(x, vs[1..]);
    }
  }

  lemma {:induction false} NoSlotTokens(x: Token, locals: seq<Option<Value>>)
    requires forall i | 0 <= i < |locals| :: locals[i].Some? ==> !IsLinearValue(locals[i].value)
    ensures SlotTokens(x, locals) == 0
  {
    if locals != [] {
      if locals[0].Some? {
        NoTokens(x, locals[0].value);
      }
      NoSlotTokens(x, locals[1..]);
    }
  }

  lemma TypedNoTokens(x: Token, vm: Machine, addr: Address, v: Value, t: Type)
    requires HasType(vm, v, Qualify(addr, t)) && !IsLinear(t)
    ensures Tokens(x, v) == 0
  {
    LiveLinearity(vm, addr, v, t);
    NoTokens(x, v);
  }

  //
  // One lemma per kind of instruction
  //

  /** The step, if it succeeds, leaves the census as it was. */
  predicate Conserves(x: Token, f: FrameState, r: Res<FrameState>) {
    r.Ok? ==> FrameTokens(x, r.value) == FrameTokens(x, f)
  }

  /** Everything above position `k` of the stack is replaced by values with the same tokens. */
  lemma SwapTop(x: Token, f: FrameState, k: nat, vs: seq<Value>)
    requires k <= |f.stack| && SumTokens(x, vs) == SumTokens(x, f.stack[k..])
    ensures FrameTokens(x, f.(stack := f.stack[..k] + vs)) == FrameTokens(x, f)
  {
    SumSplit(x, f.stack, k);
    SumConcat(x, f.stack[..k], vs);
  }

  lemma KeepLoad(x: Token, vm: Machine, addr: Address, pc: nat, slot: nat, f: FrameState, st: State)
    requires Related(vm, addr, f, st) && slot < |st.locals|
    requires StepLoad(pc, slot, st).errs == []
    ensures Conserves(x, f, ExecLoad(slot, f))
  {
    assert SlotHolds(vm, addr, f.locals[slot], st.locals[slot]);
    var v := f.locals[slot].value;
    SumPush(x, f.stack, v);
    if IsLinearValue(v) {
      SlotUpdate(x, f.locals, slot, None);
    } else {
      NoTokens(x, v);
    }
  }

  lemma KeepStore(x: Token, vm: Machine, addr: Address, pc: nat, slot: nat, f: FrameState, st: State)
    requires Related(vm, addr, f, st) && slot < |st.locals|
    requires StepStore(pc, slot, st).errs == []
    ensures Conserves(x, f, ExecStore(slot, f))
  {
    var k := |f.stack| - 1;
    SumSplit(x, f.stack, k);
    assert f.stack[k..] == [f.stack[k]];
    SumOne(x, f.stack[k]);
    SlotUpdate(x, f.locals, slot, Some(f.stack[k]));
    if f.locals[slot].Some? && !IsLinearValue(f.locals[slot].value) {
      NoTokens(x, f.locals[slot].value);
    }
  }

  lemma KeepLoadField(x: Token, vm: Machine, addr: Address, ctx: Context, pc: nat, slot: nat, path: seq<string>, f: FrameState, st: State)
    requires FieldsShape(ctx.m)
    requires Related(vm, addr, f, st) && slot < |st.locals| && path != []
    requires FieldsKnown(vm, addr, ctx.m, LoadField(slot, path), st)
    requires StepLoadField(ctx, pc, slot, path, st).errs == []
    ensures Conserves(x, f, ExecLoadField(slot, path, f))
  {
    assert SlotHolds(vm, addr, f.locals[slot], st.locals[slot]);
    var t := st.locals[slot].ty;
    ReadTyped(vm, f.locals[slot].value, Qualify(addr, t), path);
    if ResolveFieldPathType(t, path, ctx.m).Some? {
      ResolvedField(ctx.m, t, path);
    }
    var v := ReadFieldPath(f.locals[slot].value, path).value;
    TypedNoTokens(x, vm, addr, v, FieldPathTypeOr(t, path, ctx.m));
    SumPush(x, f.stack, v);
  }

  /** The path goes through no value of the type `tn`. */
  predicate PathAvoids(vm: Machine, t: Type, path: seq<string>, tn: Name)
    decreases |path|
  {
    path != [] ==>
      && t != Struct(tn)
      && (t.Struct? && t.tn.Qualified? && DefAt(vm, t.tn.addr, t.tn.name).Some? ==>
            var ft := FieldTypeIn(DefAt(vm, t.tn.addr, t.tn.name).value.fields, path[0]);
            ft.Some? ==> PathAvoids(vm, Qualify(t.tn.addr, ft.value), path[1..], tn))
  }

  /** The instruction writes nothing inside a value of the type `tn`. */
  predicate Untouched(vm: Machine, addr: Address, i: Instr, st: State, tn: Name) {
    i.StoreField? && i.slot < |st.locals| && st.locals[i.slot].Live? ==>
      PathAvoids(vm, Qualify(addr, st.locals[i.slot].ty), i.path, tn)
  }

  /** The instruction writes nothing inside a value that is counted for what it holds. */
  predicate Spared(x: Token, vm: Machine, addr: Address, i: Instr, st: State) {
    x.only.Some? ==> Untouched(vm, addr, i, st, x.tn)
  }

  /** A path the pass resolves in the module's own struct table avoids every foreign type. */
  lemma {:induction false} ResolvedAvoids(vm: Machine, addr: Address, m: Module, t: Type, path: seq<string>, tn: Name)
    requires Loaded(vm, addr, m) && ResolveFieldPathType(t, path, m).Some?
    requires tn.Qualified? && tn.addr != addr
    ensures PathAvoids(vm, Qualify(addr, t), path, tn)
    decreases |path|
  {
    if path != [] {
      ResolvedAvoids(vm, addr, m, ResolveFieldType(t, path[0], m).value, path[1..], tn);
    }
  }

  /** A write of something without tokens changes no token if its path avoids their type, and
      never how many values of a type there are. */
  lemma {:induction false} WriteKeeps(x: Token, vm: Machine, v: Value, t: Type, path: seq<string>, w: Value)
    requires HasType(vm, v, t) && TruePathType(vm, t, path).Some? && (x.only.Some? ==> PathAvoids(vm, t, path, x.tn))
    requires WriteFieldPath(v, path, w).Ok? && Tokens(x, w) == 0
    ensures Tokens(x, WriteFieldPath(v, path, w).value) == Tokens(x, v)
    decreases |path|
  {
    hide Tokens, FieldTokens;
    var i := FieldIndex(v.fields, path[0]).value;
    var def := DefAt(vm, t.tn.addr, t.tn.name).value;
    FieldAgrees(v.fields, def.fields, path[0]);
    var was := v.fields[i].value;
    if |path| == 1 {
      NoTokens(x, was);
      FieldSwapped(x, v, i, w);
    } else {
      if v.tn != x.tn { WriteKeeps(x, vm, was, Qualify(t.tn.addr, def.fields[i].ty), path[1..], w); }
      FieldSwapped(x, v, i, WriteFieldPath(was, path[1..], w).value);
    }
  }

  /** A field given a value with the same tokens, or any field of a value counted for its type. */
  lemma FieldSwapped(x: Token, v: Value, i: nat, w: Value)
    requires v.VStruct? && i < |v.fields|
    requires if v.tn == x.tn then x.only.None? else Tokens(x, v.fields[i].value) == Tokens(x, w)
    ensures Tokens(x, v.(fields := v.fields[i := v.fields[i].(value := w)])) == Tokens(x, v)
  {
    FieldUpdate(x, v.fields, i, w);
  }

  /** The census of a frame after a field write, from that of the slot written. */
  lemma WriteShifts(x: Token, slot: nat, path: seq<string>, f: FrameState)
    requires ExecStoreField(slot, path, f).Ok?
    ensures slot < |f.locals| && f.locals[slot].Some? && |f.stack| > 0
    ensures var w, root := f.stack[|f.stack| - 1], f.locals[slot].value;
            var r := WriteFieldPath(root, path, w);
            && r.Ok?
            && FrameTokens(x, ExecStoreField(slot, path, f).value) + Tokens(x, w) + Tokens(x, root)
               == FrameTokens(x, f) + Tokens(x, r.value)
  {
    hide WriteFieldPath, Tokens;
    var k := |f.stack| - 1;
    SumSplit(x, f.stack, k);
    assert f.stack[k..] == [f.stack[k]];
    SumOne(x, f.stack[k]);
    SlotUpdate(x, f.locals, slot, Some(WriteFieldPath(f.locals[slot].value, path, f.stack[k]).value));
  }

  lemma KeepStoreField(x: Token, vm: Machine, addr: Address, ctx: Context, pc: nat, slot: nat, path: seq<string>, f: FrameState, st: State)
    requires Related(vm, addr, f, st) && slot < |st.locals| && path != []
    requires FieldsKnown(vm, addr, ctx.m, StoreField(slot, path), st)
    requires Spared(x, vm, addr, StoreField(slot, path), st)
    requires StepStoreField(ctx, pc, slot, path, st).errs == []
    ensures Conserves(x, f, ExecStoreField(slot, path, f))
  {
    hide HasType, WriteFieldPath, Tokens, StepStoreField, PathAvoids, TruePathType;
    WriteAccepted(ctx, pc, slot, path, st);
    if ExecStoreField(slot, path, f).Ok? {
      assert SlotHolds(vm, addr, f.locals[slot], st.locals[slot]);
      var k := |f.stack| - 1;
      assert HasType(vm, f.stack[k], Qualify(addr, st.stack[k]));
      TypedNoTokens(x, vm, addr, f.stack[k], st.stack[k]);
      WriteShifts(x, slot, path, f);
      WriteKeeps(x, vm, f.locals[slot].value, Qualify(addr, st.locals[slot].ty), path, f.stack[k]);
    }
  }

  lemma KeepOperator(x: Token, vm: Machine, i: Instr, f: FrameState)
    requires IsBinary(i) && |f.stack| >= 2
    requires OperandsFit(vm, i, f.stack[|f.stack| - 2], f.stack[|f.stack| - 1])
    ensures Conserves(x, f, ExecOperator(i, f))
  {
    var k := |f.stack| - 2;
    OperatorTyped(vm, i, f.stack[k], f.stack[k + 1]);
    NoTokens(x, f.stack[k]);
    NoTokens(x, f.stack[k + 1]);
    var r := ExecBinary(i, f.stack[k], f.stack[k + 1]);
    if r.Ok? {
      assert !IsLinearValue(r.value);
      NoTokensAll(x, [r.value]);
      NoTokensAll(x, f.stack[k..]);
      SwapTop(x, f, k, [r.value]);
    }
  }

  lemma KeepNewStruct(x: Token, vm: Machine, addr: Address, m: Module, tn: Name, names: seq<string>, f: FrameState)
    requires Foreign(x, addr) && OwnStruct(m, tn, names)
    ensures Conserves(x, f, ExecNewStruct(vm, addr, m, tn, names, f))
  {
    var k := |f.stack| - |names|;
    if k >= 0 {
      var fields := MakeFields(names, f.stack[k..]);
      FieldsAsValues(x, fields);
      assert Values(fields) == f.stack[k..];
      var v := VStruct(Qualified(addr, tn.name), fields);
      SumOne(x, v);
      SwapTop(x, f, k, [v]);
    }
  }

  /** A struct of the executing module without struct fields holds no token. */
  lemma FlatNoTokens(x: Token, vm: Machine, addr: Address, m: Module, v: Value, t: Type)
    requires Foreign(x, addr)
    requires Loaded(vm, addr, m) && FieldsShape(m)
    requires t.Struct? && t.tn.Local? && HasType(vm, v, Qualify(addr, t))
    requires GetStruct(m, t.tn.name).Some? && !HasStructField(GetStruct(m, t.tn.name).value)
    ensures Tokens(x, v) == 0 && forall i | 0 <= i < |v.fields| :: Tokens(x, v.fields[i].value) == 0
  {
    var def := GetStruct(m, t.tn.name).value;
    assert DefAt(vm, addr, t.tn.name) == Some(def);
    forall i | 0 <= i < |v.fields| ensures !IsLinearValue(v.fields[i].value) && Tokens(x, v.fields[i].value) == 0 {
      assert def.fields[i] in def.fields;
      assert !def.fields[i].ty.Struct?;
      LiveLinearity(vm, addr, v.fields[i].value, def.fields[i].ty);
      NoTokens(x, v.fields[i].value);
    }
    FieldsAsValues(x, v.fields);
    NoTokensAll(x, Values(v.fields));
  }

  lemma KeepGetField(x: Token, vm: Machine, addr: Address, ctx: Context, pc: nat, field: string, f: FrameState, st: State)
    requires Foreign(x, addr)
    requires Loaded(vm, addr, ctx.m) && FieldsShape(ctx.m)
    requires Related(vm, addr, f, st)
    requires FieldsKnown(vm, addr, ctx.m, GetField(field), st)
    requires StepGetField(ctx, pc, field, st).errs == []
    ensures Conserves(x, f, ExecGetField(field, f))
  {
    GetFieldAccepted(ctx, pc, field, st);
    var k := |f.stack| - 1;
    var v := f.stack[k];
    assert HasType(vm, v, Qualify(addr, st.stack[k]));
    FlatNoTokens(x, vm, addr, ctx.m, v, st.stack[k]);
    var i := FieldIndex(v.fields, field);
    if i.Some? {
      SumOne(x, v.fields[i.value].value);
      SumOne(x, v);
      assert f.stack[k..] == [v];
      SwapTop(x, f, k, [v.fields[i.value].value]);
    }
  }

  lemma KeepUnpackStruct(x: Token, vm: Machine, addr: Address, ctx: Context, pc: nat, tn: Name, names: seq<string>, f: FrameState, st: State)
    requires Foreign(x, addr)
    requires Loaded(vm, addr, ctx.m) && OwnStruct(ctx.m, tn, names) && Distinct(names)
    requires Related(vm, addr, f, st)
    requires StepUnpackStruct(ctx, pc, tn, names, st).errs == []
    ensures Conserves(x, f, ExecUnpackStruct(names, f))
  {
    var k := |f.stack| - 1;
    var v := f.stack[k];
    assert HasType(vm, v, Qualify(addr, st.stack[k]));
    UnpackTyped(vm, addr, ctx.m, v, tn, names);
    FieldsAsValues(x, v.fields);
    SumReverse(x, Values(v.fields));
    SumOne(x, v);
    assert f.stack[k..] == [v];
    SwapTop(x, f, k, Reverse(Values(v.fields)));
  }

  lemma KeepMakeTuple(x: Token, n: nat, f: FrameState)
    ensures Conserves(x, f, ExecMakeTuple(n, f))
  {
    var k := |f.stack| - n;
    if k >= 0 {
      SumOne(x, VTuple(f.stack[k..]));
      SwapTop(x, f, k, [VTuple(f.stack[k..])]);
    }
  }

  lemma KeepUnpackTuple(x: Token, n: nat, f: FrameState)
    ensures Conserves(x, f, ExecUnpackTuple(n, f))
  {
    var k := |f.stack| - 1;
    if k >= 0 && f.stack[k].VTuple? {
      SumReverse(x, f.stack[k].elems);
      SumOne(x, f.stack[k]);
      assert f.stack[k..] == [f.stack[k]];
      SwapTop(x, f, k, Reverse(f.stack[k].elems));
    }
  }

  /** Dropping a value that holds no token. */
  lemma DropTop(x: Token, f: FrameState)
    requires f.stack != [] && !IsLinearValue(f.stack[|f.stack| - 1])
    ensures FrameTokens(x, f.(stack := f.stack[..|f.stack| - 1])) == FrameTokens(x, f)
  {
    var k := |f.stack| - 1;
    NoTokensAll(x, f.stack[k..]);
    assert f.stack[..k] + [] == f.stack[..k];
    SwapTop(x, f, k, []);
  }

  /** Pushing a value that holds no token. */
  lemma PushFree(x: Token, f: FrameState, v: Value)
    requires !IsLinearValue(v)
    ensures FrameTokens(x, Push(f, v)) == FrameTokens(x, f)
  {
    NoTokens(x, v);
    SumPush(x, f.stack, v);
  }

  lemma KeepBranch(x: Token, when: bool, offset: int, f: FrameState)
    ensures Conserves(x, f, ExecBranch(when, offset, f))
  {
    if f.stack != [] && f.stack[|f.stack| - 1].VBool? {
      DropTop(x, f);
    }
  }

  lemma KeepStack(x: Token, vm: Machine, addr: Address, ctx: Context, ret: Option<Type>, pc: nat, i: Instr, f: FrameState, st: State)
    requires IsStackOp(i) && Related(vm, addr, f, st)
    requires Step(ctx, ret, pc, i, st).errs == []
    ensures Conserves(x, f, Exec(vm, addr, ctx.m, i, f))
  {
    hide Step, Exec, HasType;
    if IsConstant(i) {
      ConstantTyped(vm, addr, i);
      ConstantRuns(vm, addr, ctx.m, i, f);
      PushFree(x, f, ConstantOf(i).0);
    } else {
      TopPasses(ctx, ret, pc, i, st);
      TopRuns(vm, addr, ctx.m, i, f);
      var k := |f.stack| - 1;
      LiveLinearity(vm, addr, f.stack[k], st.stack[k]);
      if i.Pop? { DropTop(x, f); } else { PushFree(x, f, f.stack[k]); }
    }
  }

  lemma KeepNot(x: Token, vm: Machine, addr: Address, m: Module, f: FrameState)
    ensures Conserves(x, f, Exec(vm, addr, m, Not, f))
  {
    var k := |f.stack| - 1;
    if k >= 0 && f.stack[k].VBool? {
      var v := VBool(!f.stack[k].b);
      NoTokensAll(x, [v]);
      NoTokensAll(x, f.stack[k..]);
      SwapTop(x, f, k, [v]);
    }
  }

  /** Every instruction but `Call` and `Return`. */
  lemma StepKeeps(x: Token, vm: Machine, addr: Address, ctx: Context, maxTuple: nat, fn: Function, pc: nat, f: FrameState, st: State)
    requires Foreign(x, addr)
    requires Loaded(vm, addr, ctx.m) && FieldsShape(ctx.m) && DistinctFieldNames(ctx.m)
    requires pc < |fn.code| && !fn.code[pc].Call? && !fn.code[pc].Return?
    requires InstrShape(ctx.m, ctx.deps, maxTuple, fn, pc) && |st.locals| == fn.localCount
    requires FieldsKnown(vm, addr, ctx.m, fn.code[pc], st) && Spared(x, vm, addr, fn.code[pc], st)
    requires Related(vm, addr, f, st)
    requires Step(ctx, fn.ret, pc, fn.code[pc], st).errs == []
    ensures Conserves(x, f, Exec(vm, addr, ctx.m, fn.code[pc], f))
  {
    hide Exec, Step, HasType, InstrShape, FieldsKnown, Spared;
    var i := fn.code[pc];
    if IsBinary(i) {
      OperatorRuns(vm, addr, ctx.m, i, f);
      OperatorAccepted(ctx, fn.ret, pc, i, st);
      var k := |st.stack| - 2;
      OperandsTyped(vm, addr, i, f.stack[k], st.stack[k], f.stack[k + 1], st.stack[k + 1]);
      KeepOperator(x, vm, i, f);
    } else {
      StepKeepsRest(x, vm, addr, ctx, maxTuple, fn, pc, f, st);
    }
  }

  lemma OperatorRuns(vm: Machine, addr: Address, m: Module, i: Instr, f: FrameState)
    requires IsBinary(i)
    ensures Exec(vm, addr, m, i, f) == ExecOperator(i, f)
  {
  }

  lemma StepKeepsRest(x: Token, vm: Machine, addr: Address, ctx: Context, maxTuple: nat, fn: Function, pc: nat, f: FrameState, st: State)
    requires Foreign(x, addr)
    requires Loaded(vm, addr, ctx.m) && FieldsShape(ctx.m) && DistinctFieldNames(ctx.m)
    requires pc < |fn.code| && !fn.code[pc].Call? && !fn.code[pc].Return? && !IsBinary(fn.code[pc])
    requires InstrShape(ctx.m, ctx.deps, maxTuple, fn, pc) && |st.locals| == fn.localCount
    requires FieldsKnown(vm, addr, ctx.m, fn.code[pc], st) && Spared(x, vm, addr, fn.code[pc], st)
    requires Related(vm, addr, f, st)
    requires Step(ctx, fn.ret, pc, fn.code[pc], st).errs == []
    ensures Conserves(x, f, Exec(vm, addr, ctx.m, fn.code[pc], f))
  {
    match fn.code[pc]
    case Load(slot) => KeepLoad(x, vm, addr, pc, slot, f, st);
    case Store(slot) => KeepStore(x, vm, addr, pc, slot, f, st);
    case LoadField(slot, path) => KeepLoadField(x, vm, addr, ctx, pc, slot, path, f, st);
    case StoreField(slot, path) => KeepStoreField(x, vm, addr, ctx, pc, slot, path, f, st);
    case Not => KeepNot(x, vm, addr, ctx.m, f);
    case NewStruct(tn, names) => KeepNewStruct(x, vm, addr, ctx.m, tn, names, f);
    case GetField(field) => KeepGetField(x, vm, addr, ctx, pc, field, f, st);
    case UnpackStruct(tn, names) => KeepUnpackStruct(x, vm, addr, ctx, pc, tn, names, f, st);
    case JumpIf(offset) => KeepBranch(x, true, offset, f);
    case JumpIfNot(offset) => KeepBranch(x, false, offset, f);
    case MakeTuple(n) => KeepMakeTuple(x, n, f);
    case UnpackTuple(n) => KeepUnpackTuple(x, n, f);
    case Pop => KeepStack(x, vm, addr, ctx, fn.ret, pc, fn.code[pc], f, st);
    case Dup => KeepStack(x, vm, addr, ctx, fn.ret, pc, fn.code[pc], f, st);
    case PushBool(_) => KeepStack(x, vm, addr, ctx, fn.ret, pc, fn.code[pc], f, st);
    case PushU64(_) => KeepStack(x, vm, addr, ctx, fn.ret, pc, fn.code[pc], f, st);
    case PushAddress(_) => KeepStack(x, vm, addr, ctx, fn.ret, pc, fn.code[pc], f, st);
    case PushStr(_) => KeepStack(x, vm, addr, ctx, fn.ret, pc, fn.code[pc], f, st);
    case Jump(offset) =>
    case _ => assert false;
  }

  /** At an accepted `Return` everything linear is in the returned value. */
  lemma KeepReturn(x: Token, vm: Machine, addr: Address, ret: Option<Type>, f: FrameState, st: State)
    requires Related(vm, addr, f, st) && CheckReturn(ret, st) == []
    ensures FrameTokens(x, f) == OptTokens(x, Top(f.stack))
  {
    var n := |f.stack|;
    if n > 0 {
      var below := f.stack[..n - 1];
      forall i | 0 <= i < n - 1 ensures !IsLinearValue(below[i]) {
        assert HasType(vm, f.stack[i], Qualify(addr, st.stack[i]));
        LiveLinearity(vm, addr, f.stack[i], st.stack[i]);
      }
      NoTokensAll(x, below);
      assert f.stack == below + [f.stack[n - 1]];
      SumPush(x, below, f.stack[n - 1]);
    }
    forall i | 0 <= i < |f.locals| ensures f.locals[i].Some? ==> !IsLinearValue(f.locals[i].value) {
      assert SlotHolds(vm, addr, f.locals[i], st.locals[i]) && !LiveLinear(st.locals[i]);
      if st.locals[i].Live? {
        LiveLinearity(vm, addr, f.locals[i].value, st.locals[i].ty);
      }
    }
    NoSlotTokens(x, f.locals);
  }

  //
  // Whole runs
  //

  /** Tokens handed to natives. */
  function Given(x: Token, log: seq<NativeEvent>): (r: nat) {
    if log == [] then 0 else Given(x, log[..|log| - 1]) + SumTokens(x, log[|log| - 1].args)
  }

  /** Tokens natives returned. */
  function Received(x: Token, log: seq<NativeEvent>): (r: nat) {
    if log == [] then 0 else Received(x, log[..|log| - 1]) + OptTokens(x, log[|log| - 1].result)
  }

  /** Between two points of a run: what was there plus what natives returned since is what is
      there now plus what natives were handed since. */
  predicate Balanced(x: Token, before: nat, log: seq<NativeEvent>, after: nat, log': seq<NativeEvent>) {
    before + Received(x, log') + Given(x, log) == after + Given(x, log') + Received(x, log)
  }

  /** The module that defines the token's type has no code. */
  predicate NoCode(vm: Machine, x: Token) {
    && x.tn.Qualified?
    && (x.tn.addr in vm.deps ==> vm.deps[x.tn.addr].functions == [])
    && (x.tn.addr == vm.addr ==> vm.main.functions == [])
  }

  /** No reachable field write of the function goes through a value of the type `tn`. */
  predicate FunctionSpares(vm: Machine, addr: Address, ctx: Context, fn: Function, tn: Name) {
    var states := CheckFunction(ctx, fn).states;
    |states| == |fn.code| ==>
      forall pc | 0 <= pc < |fn.code| && states[pc].reachable :: Untouched(vm, addr, fn.code[pc], states[pc], tn)
  }

  predicate ModuleSpares(vm: Machine, addr: Address, m: Module, sigs: seq<NativeSig>, tn: Name) {
    forall fn | fn in m.functions :: FunctionSpares(vm, addr, Context(m, vm.deps, sigs), fn, tn)
  }

  /** No loaded code writes inside a value of the type `tn`. */
  predicate Spares(vm: Machine, sigs: seq<NativeSig>, tn: Name) {
    && ModuleSpares(vm, vm.addr, vm.main, sigs, tn)
    && forall a | a in vm.deps :: ModuleSpares(vm, a, vm.deps[a], sigs, tn)
  }

  predicate AllSpared(x: Token, vm: Machine, sigs: seq<NativeSig>) {
    x.only.Some? ==> Spares(vm, sigs, x.tn)
  }

  ghost predicate MoveKeeps(x: Token, f: FrameState, log: seq<NativeEvent>, move: Move) {
    match move
    case Stop(o) => o.Returned? ==> Balanced(x, FrameTokens(x, f), log, OptTokens(x, o.value), o.log)
    case Go(g, _, log') => Balanced(x, FrameTokens(x, f), log, FrameTokens(x, g), log')
    case Enter(_, _, _, args, back, _) => FrameTokens(x, f) == SumTokens(x, args) + FrameTokens(x, back)
  }

  lemma KeepAt(x: Token, vm: Machine, sigs: seq<NativeSig>, maxTuple: nat, addr: Address, m: Module, fn: Function, f: FrameState)
    requires MachineOk(vm, sigs, maxTuple) && Loaded(vm, addr, m) && fn in m.functions && NoCode(vm, x)
    requires AllSpared(x, vm, sigs)
    requires At(vm, sigs, addr, m, fn, f)
    ensures fn.code[f.pc].Return? ==> FrameTokens(x, f) == OptTokens(x, Top(f.stack))
    ensures !fn.code[f.pc].Call? && !fn.code[f.pc].Return? ==>
      Conserves(x, f, Exec(vm, addr, m, fn.code[f.pc], f.(pc := f.pc + 1)))
  {
    hide Exec, Step;
    AtInstruction(vm, sigs, maxTuple, addr, m, fn, f);
    var ctx := Context(m, vm.deps, sigs);
    var st := CheckFunction(ctx, fn).states[f.pc];
    if x.only.Some? {
      assert ModuleSpares(vm, addr, m, sigs, x.tn) && FunctionSpares(vm, addr, ctx, fn, x.tn);
    }
    if fn.code[f.pc].Return? {
      ReturnStep(ctx, fn.ret, f.pc, st);
      KeepReturn(x, vm, addr, fn.ret, f, st);
    } else if !fn.code[f.pc].Call? {
      StepKeeps(x, vm, addr, ctx, maxTuple, fn, f.pc, f.(pc := f.pc + 1), st);
    }
  }

  lemma ReturnStep(ctx: Context, ret: Option<Type>, pc: nat, st: State)
    ensures Step(ctx, ret, pc, Return, st).errs == CheckReturn(ret, st)
  {
  }

  lemma KeepNative(x: Token, entry: NativeEntry, f: FrameState, gas: Gas, log: seq<NativeEvent>)
    ensures MoveKeeps(x, f, log, FetchNative(entry, f, gas, log))
  {
    var k := |f.stack| - |entry.sig.params|;
    if k >= 0 {
      var args := f.stack[k..];
      SumSplit(x, f.stack, k);
      var r := entry.func(log, args);
      if r.NReturn? {
        SumPush(x, f.stack[..k], Landed(r.value));
        var log' := log + [NativeEvent(entry.sig.name, args, r.value)];
        assert log'[..|log'| - 1] == log;
      }
    }
  }

  lemma MoveKept(x: Token, vm: Machine, sigs: seq<NativeSig>, maxTuple: nat, addr: Address, m: Module, fn: Function,
                 f: FrameState, gas: Gas, log: seq<NativeEvent>)
    requires MachineOk(vm, sigs, maxTuple) && Loaded(vm, addr, m) && fn in m.functions && NoCode(vm, x)
    requires AllSpared(x, vm, sigs)
    requires At(vm, sigs, addr, m, fn, f)
    ensures MoveKeeps(x, f, log, Fetch(vm, addr, m, fn.code, f, gas, log))
  {
    hide Exec, MachineOk, Related, CheckFunction, FetchNative, AllSpared;
    var i := fn.code[f.pc];
    var (paid, gas1) := Charge(gas, CappedCost(i));
    var f1 := f.(pc := f.pc + 1);
    KeepAt(x, vm, sigs, maxTuple, addr, m, fn, f);
    if i.Call? {
      match ResolveCall(vm, addr, m, i.callee)
      case ToNative(entry) => KeepNative(x, entry, f1, gas1, log);
      case ToFunction(_, _, fn') =>
        if |fn'.params| <= |f.stack| {
          SumSplit(x, f.stack, |f.stack| - |fn'.params|);
        }
      case ToNothing(_) =>
    }
  }

  lemma LandedTokens(x: Token, back: FrameState, v: Option<Value>)
    ensures FrameTokens(x, Push(back, Landed(v))) == FrameTokens(x, back) + OptTokens(x, v)
  {
    SumPush(x, back.stack, Landed(v));
  }

  /** Balances compose. */
  lemma BalancedOn(x: Token, a: nat, log: seq<NativeEvent>, b: nat, log1: seq<NativeEvent>)
    requires Balanced(x, a, log, b, log1)
    ensures forall c: nat, log2 :: Balanced(x, b, log1, c, log2) ==> Balanced(x, a, log, c, log2)
  {
    hide Given, Received;
  }

  /** A call whose arguments and result balance leaves the caller balanced. */
  lemma BalancedCall(x: Token, before: nat, args: nat, back: nat, log: seq<NativeEvent>, result: nat, log1: seq<NativeEvent>)
    requires before == args + back && Balanced(x, args, log, result, log1)
    ensures Balanced(x, before, log, back + result, log1)
  {
    hide Given, Received;
  }

  lemma {:induction false} RunKeeps(x: Token, vm: Machine, sigs: seq<NativeSig>, maxTuple: nat, addr: Address, m: Module, fn: Function,
                                    f: FrameState, gas: Gas, log: seq<NativeEvent>, depth: nat)
    requires MachineOk(vm, sigs, maxTuple) && Loaded(vm, addr, m) && fn in m.functions && NoCode(vm, x)
    requires AllSpared(x, vm, sigs)
    requires Halting(vm, m, gas) && Forward(fn.code) && depth < vm.config.maxCallDepth
    requires At(vm, sigs, addr, m, fn, f)
    ensures var o := Run(vm, addr, m, fn.code, f, gas, log, depth);
      o.Returned? ==> Balanced(x, FrameTokens(x, f), log, OptTokens(x, o.value), o.log)
    decreases Budget(vm, gas, depth), 0, CodeLeft(fn.code, f.pc)
  {
    hide Fetch, MachineOk, Related, CheckFunction, EndsWell, AllSpared, NoCode, SumTokens, OptTokens, FrameTokens;
    hide Balanced, At, AllTyped, HasType, CallInner;
    AtCode(vm, sigs, addr, m, fn, f);
    MoveSound(vm, sigs, maxTuple, addr, m, fn, f, gas, log);
    MoveKept(x, vm, sigs, maxTuple, addr, m, fn, f, gas, log);
    FetchAdvances(vm, addr, m, fn.code, f, gas, log);
    match Fetch(vm, addr, m, fn.code, f, gas, log)
    case Stop(_) =>
    case Go(g, gas1, log1) =>
      RunKeeps(x, vm, sigs, maxTuple, addr, m, fn, g, gas1, log1, depth);
      BalancedOn(x, FrameTokens(x, f), log, FrameTokens(x, g), log1);
    case Enter(addr', m', fn', args, back, gas1) =>
      MachineHalts(vm, sigs, maxTuple, addr', m', gas1);
      CallKeeps(x, vm, sigs, maxTuple, addr', m', fn', fn'.name, args, gas1, log, depth + 1);
      CallReturns(vm, sigs, maxTuple, addr', m', fn', args, gas1, log, depth + 1);
      var o := CallInner(vm, addr', m', fn'.name, args, gas1, log, depth + 1);
      if o.Returned? {
        assert At(vm, sigs, addr, m, fn, Push(back, Landed(o.value)));
        LandedTokens(x, back, o.value);
        BalancedCall(x, FrameTokens(x, f), SumTokens(x, args), FrameTokens(x, back), log, OptTokens(x, o.value), o.log);
        BalancedOn(x, FrameTokens(x, f), log, FrameTokens(x, Push(back, Landed(o.value))), o.log);
        RunKeeps(x, vm, sigs, maxTuple, addr, m, fn, Push(back, Landed(o.value)), o.gas, o.log, depth);
      }
  }

  lemma AtCode(vm: Machine, sigs: seq<NativeSig>, addr: Address, m: Module, fn: Function, f: FrameState)
    requires At(vm, sigs, addr, m, fn, f)
    ensures f.pc < |fn.code|
  {
  }

  lemma CallReturns(vm: Machine, sigs: seq<NativeSig>, maxTuple: nat, addr: Address, m: Module, fn: Function,
                    args: seq<Value>, gas: Gas, log: seq<NativeEvent>, depth: nat)
    requires MachineOk(vm, sigs, maxTuple) && Loaded(vm, addr, m)
    requires GetFunction(m, fn.name) == Some(fn)
    requires Halting(vm, m, gas)
    requires AllTyped(vm, addr, args, ParamTypes(fn.params))
    ensures var o := CallInner(vm, addr, m, fn.name, args, gas, log, depth);
      o.Returned? ==> ReturnFits(vm, addr, fn.ret, o.value)
  {
    hide MachineOk, CallInner;
    CallSound(vm, sigs, maxTuple, addr, m, fn, fn.name, args, gas, log, depth);
  }

  lemma {:induction false} SlotsOfArgs(x: Token, args: seq<Value>, localCount: nat)
    requires |args| <= localCount
    ensures FrameTokens(x, NewFrame(args, localCount)) == SumTokens(x, args)
    decreases localCount
  {
    var f := NewFrame(args, localCount);
    if localCount > 0 {
      var rest := if args == [] then [] else args[1..];
      assert f.locals[1..] == NewFrame(rest, localCount - 1).locals;
      SlotsOfArgs(x, rest, localCount - 1);
    }
  }

  /** In a call that returns, the tokens in the arguments and those natives returned are the
      tokens in the result and those natives were handed. */
  lemma {:induction false} CallKeeps(x: Token, vm: Machine, sigs: seq<NativeSig>, maxTuple: nat, addr: Address, m: Module, fn: Function,
                                     name: string, args: seq<Value>, gas: Gas, log: seq<NativeEvent>, depth: nat)
    requires MachineOk(vm, sigs, maxTuple) && Loaded(vm, addr, m) && NoCode(vm, x)
    requires AllSpared(x, vm, sigs)
    requires GetFunction(m, name) == Some(fn)
    requires Halting(vm, m, gas)
    requires AllTyped(vm, addr, args, ParamTypes(fn.params))
    ensures var o := CallInner(vm, addr, m, name, args, gas, log, depth);
      o.Returned? ==> Balanced(x, SumTokens(x, args), log, OptTokens(x, o.value), o.log)
    decreases Budget(vm, gas, depth), 1, 0
  {
    hide MachineOk, Run, At, AllTyped, AllSpared;
    if depth < vm.config.maxCallDepth {
      MachineHalts(vm, sigs, maxTuple, addr, m, gas);
      StartsAt(vm, sigs, maxTuple, addr, m, fn, args);
      SlotsOfArgs(x, args, fn.localCount);
      RunKeeps(x, vm, sigs, maxTuple, addr, m, fn, NewFrame(args, fn.localCount), gas, log, depth);
    }
  }
}
