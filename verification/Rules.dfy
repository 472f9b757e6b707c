/** The typing rules of the bytecode, as a table of what each instruction asks of the state and what
    it leaves, and the pass as exactly these rules. */
module Rules {
  import opened MeowTypes
  import opened Verifier
  import opened Certificate
  import opened Vm

  /** The top of the stack has these types, the last one topmost. */
  predicate EndsIn(st: State, ts: seq<Type>) {
    |ts| <= |st.stack| && st.stack[|st.stack| - |ts|..] == ts
  }

  /** A value is on top, and it may be copied or dropped. */
  predicate PlainTop(st: State) {
    st.stack != [] && !IsLinear(st.stack[|st.stack| - 1])
  }

  /** The slot is unknown to the function, or holds something. */
  predicate Holds(st: State, slot: nat) {
    slot < |st.locals| ==> st.locals[slot].Live?
  }

  /** The types of the arguments of a call, and of its result; none if there is no such function. */
  datatype Signature = Typed(params: seq<Type>, ret: Type) | Foreign(native: NativeSig) | Unknown

  function SignatureOf(ctx: Context, callee: Name): (r: Signature) {
    match callee
    case Qualified(a, n) =>
      if a !in ctx.deps || GetFunction(ctx.deps[a], n).None? then Unknown
      else
        var fn := GetFunction(ctx.deps[a], n).value;
        Typed(QualifyAll(a, ParamTypes(fn.params)), Qualify(a, ReturnType(fn.ret)))
    case Local(n) =>
      if GetFunction(ctx.m, n).Some? then
        var fn := GetFunction(ctx.m, n).value;
        Typed(ParamTypes(fn.params), ReturnType(fn.ret))
      else if FindNative(ctx.natives, n).Some? then Foreign(FindNative(ctx.natives, n).value)
      else Unknown
  }

  predicate MayCall(ctx: Context, callee: Name, st: State) {
    match SignatureOf(ctx, callee)
    case Typed(params, _) => EndsIn(st, params)
    case Foreign(sig) =>
      |sig.params| <= |st.stack| &&
      forall j | 0 <= j < |sig.params| :: NativeParamMatches(sig.params[j], st.stack[|st.stack| - |sig.params| + j])
    case Unknown => false
  }

  /** At a return the declared value is on top, and nothing else that is linear is left. */
  predicate MayReturn(ret: Option<Type>, st: State) {
    && (if ret.Some? then EndsIn(st, [ret.value]) else st.stack == [] || EndsIn(st, [Void]))
    && (forall j | 0 <= j < |st.stack| - 1 :: !IsLinear(st.stack[j]))
    && (forall j | 0 <= j < |st.locals| :: !LiveLinear(st.locals[j]))
  }

  /** A field of a local's value is read: the local is live and of no other module's type, and the
      field is not a struct. */
  predicate MayReadField(ctx: Context, slot: nat, path: seq<string>, st: State) {
    slot < |st.locals| ==>
      && st.locals[slot].Live?
      && (path != [] ==>
            var root := st.locals[slot].ty;
            !(root.Struct? && root.tn.Qualified?) &&
            (ResolveFieldPathType(root, path, ctx.m).Some? ==> !ResolveFieldPathType(root, path, ctx.m).value.Struct?))
  }

  /** A field is written: as for reading, and what is on top has the type of the field. */
  predicate MayWriteField(ctx: Context, slot: nat, path: seq<string>, st: State) {
    slot < |st.locals| ==>
      && st.stack != [] && st.locals[slot].Live?
      && (path != [] ==>
            var root := st.locals[slot].ty;
            !(root.Struct? && root.tn.Qualified?) &&
            (ResolveFieldPathType(root, path, ctx.m).Some? ==>
               var want := ResolveFieldPathType(root, path, ctx.m).value;
               !want.Struct? && EndsIn(st, [want])))
  }

  /** A field is taken off the top: the struct is of the module itself and all its fields are plain. */
  predicate MayTakeField(ctx: Context, field: string, st: State) {
    && st.stack != []
    && var t := st.stack[|st.stack| - 1];
       && t.Struct? && t.tn.Local?
       && (GetStruct(ctx.m, t.tn.name).Some? ==>
             forall f | f in GetStruct(ctx.m, t.tn.name).value.fields :: !f.ty.Struct?)
  }

  /** What the rules ask before an instruction. */
  predicate Permits(ctx: Context, ret: Option<Type>, i: Instr, st: State) {
    match i
    case PushBool(_) => true
    case PushU64(_) => true
    case PushAddress(_) => true
    case PushStr(_) => true
    case Load(slot) => Holds(st, slot)
    case Store(slot) => slot < |st.locals| ==> st.stack != [] && !LiveLinear(st.locals[slot])
    case LoadField(slot, path) => MayReadField(ctx, slot, path, st)
    case StoreField(slot, path) => MayWriteField(ctx, slot, path, st)
    case Add | Sub | Mul | Div | Mod | Lt | Le | Gt | Ge => EndsIn(st, [U64, U64])
    case Eq | Ne => |st.stack| >= 2 && PlainTop(st) && st.stack[|st.stack| - 2] == st.stack[|st.stack| - 1]
    case Not => EndsIn(st, [Bool])
    case And | Or => EndsIn(st, [Bool, Bool])
    case NewStruct(tn, _) =>
      tn.Local? && GetStruct(ctx.m, tn.name).Some? ==> EndsIn(st, FieldTypes(GetStruct(ctx.m, tn.name).value))
    case GetField(field) => MayTakeField(ctx, field, st)
    case UnpackStruct(tn, _) => tn.Local? ==> EndsIn(st, [Struct(tn)])
    case Pop => PlainTop(st)
    case Dup => PlainTop(st)
    case Jump(_) => true
    case JumpIf(_) => EndsIn(st, [Bool])
    case JumpIfNot(_) => EndsIn(st, [Bool])
    case Call(callee) => MayCall(ctx, callee, st)
    case Return => MayReturn(ret, st)
    case MakeTuple(n) => |st.stack| >= n
    case UnpackTuple(n) =>
      st.stack != [] && st.stack[|st.stack| - 1].Tuple? && |st.stack[|st.stack| - 1].elems| == n
  }

  lemma EndsInAt(st: State, ts: seq<Type>)
    ensures EndsIn(st, ts) <==>
            |ts| <= |st.stack| && forall i | 0 <= i < |ts| :: st.stack[|st.stack| - |ts| + i] == ts[i]
  {
    if |ts| <= |st.stack| {
      var top := st.stack[|st.stack| - |ts|..];
      assert |top| == |ts| && forall i | 0 <= i < |ts| :: top[i] == st.stack[|st.stack| - |ts| + i];
    }
  }

  lemma EndsInMore(st: State, ts: seq<Type>)
    requires ts != []
    ensures EndsIn(st, ts) <==>
            st.stack != [] && st.stack[|st.stack| - 1] == ts[|ts| - 1] && EndsIn(Popped(st), ts[..|ts| - 1])
  {
    hide EndsIn;
    var k := |ts| - 1;
    EndsInAt(st, ts);
    if st.stack != [] {
      var below := Popped(st).stack;
      EndsInAt(Popped(st), ts[..k]);
      assert forall i | 0 <= i < |below| :: below[i] == st.stack[i];
      if EndsIn(st, ts) {
        assert st.stack[|st.stack| - |ts| + k] == ts[k];
      }
    }
  }

  lemma {:induction false} PopTypedExactly(ts: seq<Type>, st: State, pc: nat)
    ensures PopTyped(ts, st, pc).1 == [] <==> EndsIn(st, ts)
    ensures EndsIn(st, ts) ==> |ts| <= |st.stack| && PopTyped(ts, st, pc).0 == st.(stack := st.stack[..|st.stack| - |ts|])
  {
    hide EndsIn;
    EndsInAt(st, ts);
    if ts == [] {
      assert st.stack[..|st.stack|] == st.stack;
    } else {
      var k := |ts| - 1;
      EndsInMore(st, ts);
      PopTypedExactly(ts[..k], Popped(st), pc);
      if EndsIn(st, ts) {
        assert Popped(st).stack[..|st.stack| - 1 - k] == st.stack[..|st.stack| - |ts|];
      }
    }
  }

  lemma EndsInOne(st: State, t: Type)
    ensures EndsIn(st, [t]) <==> st.stack != [] && st.stack[|st.stack| - 1] == t
  {
    if st.stack != [] { assert st.stack[|st.stack| - 1..] == [st.stack[|st.stack| - 1]]; }
  }

  lemma CallRule(ctx: Context, pc: nat, callee: Name, st: State)
    ensures StepCall(ctx, pc, callee, st).errs == [] <==> MayCall(ctx, callee, st)
  {
    hide GetFunction, FindNative, QualifyAll, Qualify, NativeParamMatches;
    match SignatureOf(ctx, callee)
    case Typed(params, _) => ParamsRule(pc, params, st);
    case Foreign(sig) =>
    case Unknown =>
  }

  lemma ParamsRule(pc: nat, want: seq<Type>, st: State)
    ensures CallParams(pc, want, st).1 == [] <==> EndsIn(st, want)
  {
    if |want| <= |st.stack| {
      var args := st.stack[|st.stack| - |want|..];
      if forall j | 0 <= j < |want| :: args[j] == want[j] { assert args == want; }
    }
  }

  lemma ReturnRule(ret: Option<Type>, st: State)
    ensures CheckReturn(ret, st) == [] <==> MayReturn(ret, st)
  {
    hide IsLinear, LiveLinear, EndsIn;
    EndsInOne(st, Void);
    if ret.Some? { EndsInOne(st, ret.value); }
    var n := |st.stack|;
    var top :=
      if ret.None? then (if n == 0 || st.stack[n - 1] == Void then [] else [ReturnTypeMismatch])
      else (if n == 0 || st.stack[n - 1] != ret.value then [ReturnTypeMismatch] else []);
    var below := if n > 1 && exists i | 0 <= i < n - 1 :: IsLinear(st.stack[i]) then [UnconsumedStructOnStack] else [];
    assert CheckReturn(ret, st) == top + below + LeakedSlots(st.locals, 0);
  }

  lemma FieldRules(ctx: Context, pc: nat, slot: nat, path: seq<string>, st: State)
    ensures StepLoadField(ctx, pc, slot, path, st).errs == [] <==> MayReadField(ctx, slot, path, st)
    ensures StepStoreField(ctx, pc, slot, path, st).errs == [] <==> MayWriteField(ctx, slot, path, st)
  {
    hide ResolveFieldPathType;
    if slot < |st.locals| && st.locals[slot].Live? {
      var want := ResolveFieldPathType(st.locals[slot].ty, path, ctx.m);
      if want.Some? { EndsInOne(st, want.value); }
    }
  }

  lemma TakeRule(ctx: Context, pc: nat, field: string, st: State)
    ensures StepGetField(ctx, pc, field, st).errs == [] <==> MayTakeField(ctx, field, st)
  {
    if st.stack != [] {
      var t := st.stack[|st.stack| - 1];
      if t.Struct? && t.tn.Local? && GetStruct(ctx.m, t.tn.name).Some? {
        var def := GetStruct(ctx.m, t.tn.name).value;
        var r := FieldTypeIn(def.fields, field);
        if r.Some? && r.value.Struct? {
          var f :| f in def.fields && f.name == field && f.ty == r.value;
        }
      }
    }
  }

  lemma StructRules(ctx: Context, pc: nat, tn: Name, names: seq<string>, st: State)
    ensures StepNewStruct(ctx, pc, tn, names, st).errs == [] <==> Permits(ctx, None, NewStruct(tn, names), st)
    ensures StepUnpackStruct(ctx, pc, tn, names, st).errs == [] <==> Permits(ctx, None, UnpackStruct(tn, names), st)
  {
    hide PopTyped, GetStruct, Reversed, FieldTypes;
    EndsInOne(st, Struct(tn));
    if tn.Local? && GetStruct(ctx.m, tn.name).Some? {
      PopTypedExactly(FieldTypes(GetStruct(ctx.m, tn.name).value), st, pc);
    }
  }

  lemma SimpleRules(ctx: Context, ret: Option<Type>, pc: nat, i: Instr, st: State)
    requires !ByKind(i)
    ensures Step(ctx, ret, pc, i, st).errs == [] <==> Permits(ctx, ret, i, st)
  {
    hide PopTyped, CheckReturn, EndsIn, MayReturn;
    PopTypedExactly([Bool], st, pc);
    PopTypedExactly([Bool, Bool], st, pc);
    PopTypedExactly([U64, U64], st, pc);
    ReturnRule(ret, st);
  }

  lemma SlotRules(pc: nat, slot: nat, st: State)
    ensures StepLoad(pc, slot, st).errs == [] <==> Holds(st, slot)
    ensures StepStore(pc, slot, st).errs == [] <==> (slot < |st.locals| ==> st.stack != [] && !LiveLinear(st.locals[slot]))
  {
  }

  lemma TupleRules(pc: nat, n: nat, st: State)
    ensures StepMakeTuple(pc, n, st).errs == [] <==> |st.stack| >= n
    ensures StepUnpackTuple(pc, n, st).errs == [] <==>
              (st.stack != [] && st.stack[|st.stack| - 1].Tuple? && |st.stack[|st.stack| - 1].elems| == n)
  {
  }

  lemma SlotKinds(ctx: Context, ret: Option<Type>, pc: nat, i: Instr, st: State)
    requires i.Load? || i.Store? || i.LoadField? || i.StoreField?
    ensures Step(ctx, ret, pc, i, st).errs == [] <==> Permits(ctx, ret, i, st)
  {
    hide Step, StepLoad, StepStore, StepLoadField, StepStoreField, MayReadField, MayWriteField, Holds;
    StepByKind(ctx, ret, pc, i, st);
    SlotRules(pc, i.slot, st);
    if i.LoadField? || i.StoreField? {
      FieldRules(ctx, pc, i.slot, i.path, st);
    }
  }

  lemma OtherKinds(ctx: Context, ret: Option<Type>, pc: nat, i: Instr, st: State)
    requires ByKind(i) && !i.Load? && !i.Store? && !i.LoadField? && !i.StoreField?
    ensures Step(ctx, ret, pc, i, st).errs == [] <==> Permits(ctx, ret, i, st)
  {
    hide Step, StepNewStruct, StepGetField, StepUnpackStruct, StepCall, StepMakeTuple, StepUnpackTuple, EndsIn, MayCall,
      MayTakeField;
    StepByKind(ctx, ret, pc, i, st);
    match i
    case NewStruct(tn, names) => StructRules(ctx, pc, tn, names, st);
    case GetField(field) => TakeRule(ctx, pc, field, st);
    case UnpackStruct(tn, names) => StructRules(ctx, pc, tn, names, st);
    case Call(callee) => CallRule(ctx, pc, callee, st);
    case MakeTuple(n) => TupleRules(pc, n, st);
    case UnpackTuple(n) => TupleRules(pc, n, st);
  }

  /** The pass reports nothing at an instruction exactly when the rules permit it in the state. */
  lemma StepExactly(ctx: Context, ret: Option<Type>, pc: nat, i: Instr, st: State)
    ensures Step(ctx, ret, pc, i, st).errs == [] <==> Permits(ctx, ret, i, st)
  {
    hide Step, Permits;
    if i.Load? || i.Store? || i.LoadField? || i.StoreField? {
      SlotKinds(ctx, ret, pc, i, st);
    } else if ByKind(i) {
      OtherKinds(ctx, ret, pc, i, st);
    } else {
      SimpleRules(ctx, ret, pc, i, st);
    }
  }

  //
  // What an instruction leaves
  //

  /** Slots and structs that the instruction names exist, as the structural phase has checked. */
  predicate InScope(ctx: Context, i: Instr, st: State) {
    match i
    case Load(slot) => slot < |st.locals|
    case Store(slot) => slot < |st.locals|
    case LoadField(slot, path) => slot < |st.locals| && path != []
    case StoreField(slot, path) => slot < |st.locals| && path != []
    case NewStruct(tn, _) => tn.Local? && GetStruct(ctx.m, tn.name).Some?
    case UnpackStruct(tn, _) => tn.Local? && GetStruct(ctx.m, tn.name).Some?
    case _ => true
  }

  function TopType(st: State): (t: Type) {
    if st.stack == [] then Void else st.stack[|st.stack| - 1]
  }

  function HeldType(st: State, slot: nat): (t: Type) {
    if Holds(st, slot) && slot < |st.locals| then st.locals[slot].ty else Void
  }

  function StructTypes(ctx: Context, tn: Name): (ts: seq<Type>) {
    if GetStruct(ctx.m, tn.name).Some? then FieldTypes(GetStruct(ctx.m, tn.name).value) else []
  }

  function LastTypes(st: State, n: nat): (ts: seq<Type>) {
    if n <= |st.stack| then st.stack[|st.stack| - n..] else []
  }

  /** How many values a permitted instruction takes off the stack, and the types it puts there. */
  function Net(ctx: Context, i: Instr, st: State): (r: (nat, seq<Type>)) {
    match i
    case PushBool(_) => (0, [Bool])
    case PushU64(_) => (0, [U64])
    case PushAddress(_) => (0, [Addr])
    case PushStr(_) => (0, [Str])
    case Load(slot) => (0, [HeldType(st, slot)])
    case Store(_) => (1, [])
    case LoadField(slot, path) => (0, [FieldPathTypeOr(HeldType(st, slot), path, ctx.m)])
    case StoreField(_, _) => (1, [])
    case Add | Sub | Mul | Div | Mod => (2, [U64])
    case Eq | Ne | Lt | Le | Gt | Ge | And | Or => (2, [Bool])
    case Not => (1, [Bool])
    case NewStruct(tn, _) => (|StructTypes(ctx, tn)|, [Struct(tn)])
    case GetField(field) =>
      (1, [if ResolveFieldType(TopType(st), field, ctx.m).Some? then ResolveFieldType(TopType(st), field, ctx.m).value else Addr])
    case UnpackStruct(tn, _) => (1, Reversed(StructTypes(ctx, tn)))
    case Pop => (1, [])
    case Dup => (0, [TopType(st)])
    case Jump(_) => (0, [])
    case JumpIf(_) => (1, [])
    case JumpIfNot(_) => (1, [])
    case Call(callee) =>
      (match SignatureOf(ctx, callee)
       case Typed(params, t) => (|params|, [t])
       case Foreign(sig) => (|sig.params|, [ReturnType(sig.ret)])
       case Unknown => (0, []))
    case Return => (0, [])
    case MakeTuple(n) => (n, [Tuple(LastTypes(st, n))])
    case UnpackTuple(_) => (1, if TopType(st).Tuple? then Reversed(TopType(st).elems) else [])
  }

  /** Reading a struct empties its slot, and storing fills it; nothing else changes a slot. */
  function SlotsAfter(i: Instr, st: State): (r: seq<Slot>) {
    if i.Load? && i.slot < |st.locals| && LiveLinear(st.locals[i.slot]) then st.locals[i.slot := Dead]
    else if i.Store? && i.slot < |st.locals| && st.stack != [] then st.locals[i.slot := Live(TopType(st))]
    else st.locals
  }

  ghost predicate LeavesAs(ctx: Context, i: Instr, st: State, next: State) {
    var net := Net(ctx, i, st);
    && net.0 <= |st.stack| && next.stack == st.stack[..|st.stack| - net.0] + net.1
    && next.locals == SlotsAfter(i, st)
  }

  lemma BinaryTaken(want: Type, result: Type, pc: nat, st: State)
    requires EndsIn(st, [want, want])
    ensures var next := Binary(want, result, pc, st).next;
            next == st.(stack := st.stack[..|st.stack| - 2] + [result])
  {
    hide PopTyped;
    PopTypedExactly([want, want], st, pc);
  }

  lemma BinaryIs(ctx: Context, ret: Option<Type>, pc: nat, i: Instr, st: State)
    ensures i.Add? || i.Sub? || i.Mul? || i.Div? || i.Mod? ==> Step(ctx, ret, pc, i, st) == Binary(U64, U64, pc, st)
    ensures i.Lt? || i.Le? || i.Gt? || i.Ge? ==> Step(ctx, ret, pc, i, st) == Binary(U64, Bool, pc, st)
    ensures i.And? || i.Or? ==> Step(ctx, ret, pc, i, st) == Binary(Bool, Bool, pc, st)
    ensures i.Eq? || i.Ne? ==> Step(ctx, ret, pc, i, st) == StepEq(pc, st)
  {
    hide Binary, StepEq;
  }

  function BinaryResult(i: Instr): (t: Type) {
    if i.Add? || i.Sub? || i.Mul? || i.Div? || i.Mod? then U64 else Bool
  }

  lemma BinaryNet(ctx: Context, ret: Option<Type>, i: Instr, st: State)
    requires IsBinary(i) && Permits(ctx, ret, i, st)
    ensures InScope(ctx, i, st) && Net(ctx, i, st) == (2, [BinaryResult(i)])
    ensures |st.stack| >= 2
  {
    hide EndsIn;
    EndsInTwo(st, U64);
    EndsInTwo(st, Bool);
  }

  lemma BinaryNext(ctx: Context, ret: Option<Type>, pc: nat, i: Instr, st: State)
    requires IsBinary(i) && Permits(ctx, ret, i, st) && |st.stack| >= 2
    ensures Step(ctx, ret, pc, i, st).next == st.(stack := st.stack[..|st.stack| - 2] + [BinaryResult(i)])
  {
    hide Step, Binary, EndsIn;
    BinaryIs(ctx, ret, pc, i, st);
    if EndsIn(st, [U64, U64]) {
      BinaryTaken(U64, U64, pc, st);
      BinaryTaken(U64, Bool, pc, st);
    }
    if EndsIn(st, [Bool, Bool]) { BinaryTaken(Bool, Bool, pc, st); }
  }

  lemma BinaryLeaves(ctx: Context, ret: Option<Type>, pc: nat, i: Instr, st: State)
    requires IsBinary(i) && Permits(ctx, ret, i, st)
    ensures LeavesAs(ctx, i, st, Step(ctx, ret, pc, i, st).next)
  {
    hide Step, Net, Permits, InScope;
    BinaryNet(ctx, ret, i, st);
    BinaryNext(ctx, ret, pc, i, st);
  }

  lemma EndsInTwo(st: State, t: Type)
    ensures EndsIn(st, [t, t]) ==> |st.stack| >= 2
  {
  }

  lemma SimpleLeaves(ctx: Context, ret: Option<Type>, pc: nat, i: Instr, st: State)
    requires !ByKind(i) && !IsBinary(i) && Permits(ctx, ret, i, st)
    ensures LeavesAs(ctx, i, st, Step(ctx, ret, pc, i, st).next)
  {
    hide PopTyped, CheckReturn, MayReturn;
    PopTypedExactly([Bool], st, pc);
    assert st.stack[..|st.stack|] == st.stack;
  }

  lemma SlotLeaves(ctx: Context, ret: Option<Type>, pc: nat, i: Instr, st: State)
    requires i.Load? || i.Store? || i.LoadField? || i.StoreField?
    requires Permits(ctx, ret, i, st) && InScope(ctx, i, st)
    ensures LeavesAs(ctx, i, st, Step(ctx, ret, pc, i, st).next)
  {
    hide ResolveFieldPathType, FieldPathTypeOr;
    StepByKind(ctx, ret, pc, i, st);
    assert st.stack[..|st.stack|] == st.stack;
  }

  lemma NewLeaves(ctx: Context, ret: Option<Type>, pc: nat, i: Instr, st: State)
    requires i.NewStruct? && Permits(ctx, ret, i, st) && InScope(ctx, i, st)
    ensures LeavesAs(ctx, i, st, Step(ctx, ret, pc, i, st).next)
  {
    hide Step, PopTyped, GetStruct, Reversed, EndsIn, FieldTypes;
    StepByKind(ctx, ret, pc, i, st);
    PopTypedExactly(FieldTypes(GetStruct(ctx.m, i.tn.name).value), st, pc);
  }

  lemma UnpackLeaves(ctx: Context, ret: Option<Type>, pc: nat, i: Instr, st: State)
    requires i.UnpackStruct? && Permits(ctx, ret, i, st) && InScope(ctx, i, st)
    ensures LeavesAs(ctx, i, st, Step(ctx, ret, pc, i, st).next)
  {
    hide Step, PopTyped, GetStruct, Reversed, EndsIn;
    StepByKind(ctx, ret, pc, i, st);
    EndsInOne(st, Struct(i.tn));
  }

  lemma GetLeaves(ctx: Context, ret: Option<Type>, pc: nat, i: Instr, st: State)
    requires i.GetField? && Permits(ctx, ret, i, st)
    ensures LeavesAs(ctx, i, st, Step(ctx, ret, pc, i, st).next)
  {
    hide Step, GetStruct, ResolveFieldType, HasStructField;
    StepByKind(ctx, ret, pc, i, st);
  }

  lemma CallLeaves(ctx: Context, ret: Option<Type>, pc: nat, i: Instr, st: State)
    requires i.Call? && Permits(ctx, ret, i, st)
    ensures LeavesAs(ctx, i, st, Step(ctx, ret, pc, i, st).next)
  {
    hide Step, GetFunction, FindNative, QualifyAll, Qualify, NativeParamMatches, ArgErrors, NativeArgErrors;
    StepByKind(ctx, ret, pc, i, st);
  }

  lemma TupleLeaves(ctx: Context, ret: Option<Type>, pc: nat, i: Instr, st: State)
    requires i.MakeTuple? && Permits(ctx, ret, i, st)
    ensures LeavesAs(ctx, i, st, Step(ctx, ret, pc, i, st).next)
  {
    hide Step, Reversed, EndsIn, MayCall, MayReturn, MayReadField, MayWriteField, MayTakeField, GetStruct, FieldTypes, SignatureOf;
    StepByKind(ctx, ret, pc, i, st);
  }

  lemma UntupleLeaves(ctx: Context, ret: Option<Type>, pc: nat, i: Instr, st: State)
    requires i.UnpackTuple? && Permits(ctx, ret, i, st)
    ensures LeavesAs(ctx, i, st, Step(ctx, ret, pc, i, st).next)
  {
    hide Step, Reversed, EndsIn, MayCall, MayReturn, MayReadField, MayWriteField, MayTakeField, GetStruct, FieldTypes, SignatureOf;
    StepByKind(ctx, ret, pc, i, st);
  }

  /** And it goes on with exactly the stack and the slots the rules give. */
  lemma StepLeaves(ctx: Context, ret: Option<Type>, pc: nat, i: Instr, st: State)
    requires Permits(ctx, ret, i, st) && InScope(ctx, i, st)
    ensures LeavesAs(ctx, i, st, Step(ctx, ret, pc, i, st).next)
  {
    hide Step, Permits, InScope, LeavesAs;
    if IsBinary(i) {
      BinaryLeaves(ctx, ret, pc, i, st);
    } else if !ByKind(i) {
      SimpleLeaves(ctx, ret, pc, i, st);
    } else if i.Load? || i.Store? || i.LoadField? || i.StoreField? {
      SlotLeaves(ctx, ret, pc, i, st);
    } else if i.NewStruct? {
      NewLeaves(ctx, ret, pc, i, st);
    } else if i.UnpackStruct? {
      UnpackLeaves(ctx, ret, pc, i, st);
    } else if i.GetField? {
      GetLeaves(ctx, ret, pc, i, st);
    } else if i.Call? {
      CallLeaves(ctx, ret, pc, i, st);
    } else if i.MakeTuple? {
      TupleLeaves(ctx, ret, pc, i, st);
    } else {
      UntupleLeaves(ctx, ret, pc, i, st);
    }
  }

  /** Only a jump and a return end the path; a forward jump takes the state to its target, without
      the condition if it has one. */
  lemma StepGoes(ctx: Context, ret: Option<Type>, pc: nat, i: Instr, st: State)
    requires st.reachable && Permits(ctx, ret, i, st)
    ensures var flow := Step(ctx, ret, pc, i, st);
            && (flow.next.reachable <==> !i.Jump? && !i.Return?)
            && (flow.jump.Some? <==> (i.Jump? || i.JumpIf? || i.JumpIfNot?) && i.offset > 0)
            && (flow.jump.Some? ==>
                  && flow.jump.value == pc + i.offset && flow.jumped.reachable && flow.jumped.locals == st.locals
                  && flow.jumped.stack == if i.Jump? then st.stack else st.stack[..|st.stack| - 1])
  {
    hide Step, EndsIn;
    StepShape(ctx, ret, pc, i, st);
    if i.Jump? || i.JumpIf? || i.JumpIfNot? {
      JumpGoes(ctx, ret, pc, i, st);
    }
  }

  lemma JumpGoes(ctx: Context, ret: Option<Type>, pc: nat, i: Instr, st: State)
    requires (i.Jump? || i.JumpIf? || i.JumpIfNot?) && Permits(ctx, ret, i, st)
    ensures var flow := Step(ctx, ret, pc, i, st);
            && (flow.jump.Some? <==> i.offset > 0)
            && flow.jumped.locals == st.locals
            && flow.jumped.stack == if i.Jump? then st.stack else st.stack[..|st.stack| - 1]
  {
    hide StepBranch, StepLoad, StepStore, StepLoadField, StepStoreField, StepNewStruct, StepGetField, StepUnpackStruct, StepCall,
      StepMakeTuple, StepUnpackTuple, PopTyped, CheckReturn, Binary, StepEq, EndsIn, MayCall, MayReturn, MayReadField, MayWriteField,
      MayTakeField;
    if !i.Jump? {
      BranchGoes(pc, i.offset, st);
    }
  }

  lemma BranchGoes(pc: nat, offset: int, st: State)
    requires EndsIn(st, [Bool])
    ensures var flow := StepBranch(pc, offset, st);
            && (flow.jump.Some? <==> offset > 0)
            && flow.jumped.locals == st.locals && flow.jumped.stack == st.stack[..|st.stack| - 1]
  {
    hide PopTyped;
    PopTypedExactly([Bool], st, pc);
  }
}
