/** Phase 2 of bytecode verification: one forward pass over abstract types, with a liveness
    state per slot and a merge of the states that meet at a jump target. */
module Verifier {
  import opened MeowTypes

  datatype VerifyError =
    | StackUnderflow(pc: nat)
    | TypeMismatch(pc: nat)
    | UseAfterMove(pc: nat, slot: nat)
    | SlotOverwrite(pc: nat, slot: nat)
    | StackMergeConflict(pc: nat)
    | LivenessMergeConflict(pc: nat, slot: nat)
    | SlotTypeMergeConflict(pc: nat, slot: nat)
    | CrossModulePrivateFieldRead(pc: nat)
    | CrossModuleFieldWrite(pc: nat)
    | StructTypedFieldLoaded(pc: nat)
    | StructTypedFieldWritten(pc: nat)
    | GetFieldDropsLinearField(pc: nat)
    | EqOnLinearType(pc: nat)
    | PopOnStruct(pc: nat)
    | DupOnStruct(pc: nat)
    | UndefinedFunction(pc: nat)
    | NativeArgCountMismatch(pc: nat)
    | NativeArgTypeMismatch(pc: nat, arg: nat)
    | ReturnTypeMismatch
    | UnconsumedStructOnStack
    | UnconsumedStruct(slot: nat)
    | MissingReturn

  datatype Slot = Live(ty: Type) | Dead

  datatype State = State(stack: seq<Type>, locals: seq<Slot>, reachable: bool)

  /** What a function is checked against. */
  datatype Context = Context(m: Module, deps: map<Address, Module>, natives: seq<NativeSig>)

  predicate LiveLinear(s: Slot) {
    s.Live? && IsLinear(s.ty)
  }

  //
  // Joins
  //

  datatype Merged = Agreed(state: State) | Conflict(error: VerifyError)

  datatype MergedSlots = Slots(slots: seq<Slot>) | SlotConflict(error: VerifyError)

  /** Merge slots `i` and up, reporting the first conflict. */
  function MergeSlots(a: seq<Slot>, b: seq<Slot>, i: nat, pc: nat): (r: MergedSlots)
    decreases |a| - i
  {
    if i >= |a| || i >= |b| then Slots(if i < |a| then a[i..] else [])
    else if a[i] != b[i] && LiveLinear(a[i]) != LiveLinear(b[i]) then SlotConflict(LivenessMergeConflict(pc, i))
    else if a[i] != b[i] && LiveLinear(a[i]) then SlotConflict(SlotTypeMergeConflict(pc, i))
    else
      match MergeSlots(a, b, i + 1, pc)
      case SlotConflict(e) => SlotConflict(e)
      case Slots(rest) => Slots([if a[i] == b[i] then a[i] else Dead] + rest)
  }

  function Merge(current: State, incoming: State, pc: nat): (r: Merged) {
    if !incoming.reachable then Agreed(current)
    else if !current.reachable then Agreed(incoming)
    else if current.stack != incoming.stack then Conflict(StackMergeConflict(pc))
    else
      match MergeSlots(current.locals, incoming.locals, 0, pc)
      case SlotConflict(e) => Conflict(e)
      case Slots(slots) => Agreed(current.(locals := slots))
  }

  /** The states waiting at later program counters. */
  type Pending = map<nat, State>

  function MergeAt(pending: Pending, target: nat, incoming: State): (r: (Pending, seq<VerifyError>)) {
    if target !in pending then (pending[target := incoming], [])
    else
      match Merge(pending[target], incoming, target)
      case Agreed(s) => (pending[target := s], [])
      case Conflict(e) => (pending, [e])
  }

  //
  // Field resolution
  //

  function FieldTypeIn(fields: seq<FieldDef>, name: string): (r: Option<Type>)
    ensures r.Some? ==> exists f | f in fields :: f.name == name && f.ty == r.value
  {
    if fields == [] then None
    else if fields[0].name == name then Some(fields[0].ty)
    else FieldTypeIn(fields[1..], name)
  }

  /** Cross-module types are never resolved. */
  function ResolveFieldType(ty: Type, field: string, m: Module): (r: Option<Type>) {
    if ty.Struct? && ty.tn.Local? && GetStruct(m, ty.tn.name).Some? then
      FieldTypeIn(GetStruct(m, ty.tn.name).value.fields, field)
    else None
  }

  function ResolveFieldPathType(ty: Type, path: seq<string>, m: Module): (r: Option<Type>)
    decreases |path|
  {
    if path == [] then Some(ty)
    else
      match ResolveFieldType(ty, path[0], m)
      case None => None
      case Some(t) => ResolveFieldPathType(t, path[1..], m)
  }

  /** The type the pass pushes for a field read; an unresolved path reads as an address. */
  function FieldPathTypeOr(ty: Type, path: seq<string>, m: Module): (r: Type) {
    var t := ResolveFieldPathType(ty, path, m);
    if t.Some? then t.value else Addr
  }

  predicate CrossModule(ty: Type) {
    ty.Struct? && ty.tn.Qualified?
  }

  //
  // Transfer
  //

  /** One instruction's effect: the state that falls through, the errors, and the state sent
      to a jump target. */
  datatype Flow = Flow(next: State, errs: seq<VerifyError>, jump: Option<nat>, jumped: State)

  function Straight(next: State, errs: seq<VerifyError>): (r: Flow) {
    Flow(next, errs, None, next)
  }

  function Pushed(st: State, t: Type): (r: State) {
    st.(stack := st.stack + [t])
  }

  function PushedAll(st: State, ts: seq<Type>): (r: State) {
    st.(stack := st.stack + ts)
  }

  /** Pop with no check; popping an empty stack leaves it empty. */
  function Popped(st: State): (r: State) {
    if st.stack == [] then st else st.(stack := st.stack[..|st.stack| - 1])
  }

  function PoppedN(st: State, n: nat): (r: State) {
    if |st.stack| < n then st.(stack := []) else st.(stack := st.stack[..|st.stack| - n])
  }

  /** Pop one value per type of `ts`, last first, and compare. */
  function PopTyped(ts: seq<Type>, st: State, pc: nat): (r: (State, seq<VerifyError>)) {
    if ts == [] then (st, [])
    else
      var k := |ts| - 1;
      var errs :=
        if st.stack == [] then [StackUnderflow(pc)]
        else if st.stack[|st.stack| - 1] != ts[k] then [TypeMismatch(pc)]
        else [];
      var rest := PopTyped(ts[..k], Popped(st), pc);
      (rest.0, errs + rest.1)
  }

  function FieldTypes(def: StructDef): (r: seq<Type>)
    ensures |r| == |def.fields|
  {
    seq(|def.fields|, i requires 0 <= i < |def.fields| => def.fields[i].ty)
  }

  function FieldNames(def: StructDef): (r: seq<string>)
    ensures |r| == |def.fields|
  {
    seq(|def.fields|, i requires 0 <= i < |def.fields| => def.fields[i].name)
  }

  function ParamTypes(params: seq<Param>): (r: seq<Type>)
    ensures |r| == |params|
  {
    seq(|params|, i requires 0 <= i < |params| => params[i].ty)
  }

  function Reversed(ts: seq<Type>): (r: seq<Type>)
    ensures |r| == |ts|
    ensures forall i | 0 <= i < |ts| :: r[i] == ts[|ts| - 1 - i]
  {
    seq(|ts|, i requires 0 <= i < |ts| => ts[|ts| - 1 - i])
  }

  function StepLoad(pc: nat, slot: nat, st: State): (r: Flow) {
    if slot >= |st.locals| then Straight(st, [])
    else
      match st.locals[slot]
      case Dead => Straight(st, [UseAfterMove(pc, slot)])
      case Live(t) =>
        var moved := if IsLinear(t) then st.(locals := st.locals[slot := Dead]) else st;
        Straight(Pushed(moved, t), [])
  }

  function StepStore(pc: nat, slot: nat, st: State): (r: Flow) {
    if slot >= |st.locals| then Straight(st, [])
    else if st.stack == [] then Straight(st, [StackUnderflow(pc)])
    else
      var t := st.stack[|st.stack| - 1];
      Straight(Popped(st).(locals := st.locals[slot := Live(t)]),
               if LiveLinear(st.locals[slot]) then [SlotOverwrite(pc, slot)] else [])
  }

  function StepLoadField(ctx: Context, pc: nat, slot: nat, path: seq<string>, st: State): (r: Flow) {
    if slot >= |st.locals| then Straight(st, [])
    else
      match st.locals[slot]
      case Dead => Straight(st, [UseAfterMove(pc, slot)])
      case Live(root) =>
        if path == [] then Straight(st, [])
        else
          var t := FieldPathTypeOr(root, path, ctx.m);
          Straight(Pushed(st, t),
                   (if CrossModule(root) then [CrossModulePrivateFieldRead(pc)] else []) +
                   (if t.Struct? then [StructTypedFieldLoaded(pc)] else []))
  }

  function StepStoreField(ctx: Context, pc: nat, slot: nat, path: seq<string>, st: State): (r: Flow) {
    if slot >= |st.locals| then Straight(st, [])
    else if st.stack == [] then Straight(st, [StackUnderflow(pc)])
    else
      var t := st.stack[|st.stack| - 1];
      var next := Popped(st);
      match st.locals[slot]
      case Dead => Straight(next, [UseAfterMove(pc, slot)])
      case Live(root) =>
        if path == [] then Straight(next, [])
        else if CrossModule(root) then Straight(next, [CrossModuleFieldWrite(pc)])
        else
          match ResolveFieldPathType(root, path, ctx.m)
          case None => Straight(next, [])
          case Some(want) =>
            Straight(next,
                     if want.Struct? then [StructTypedFieldWritten(pc)]
                     else if t != want then [TypeMismatch(pc)]
                     else [])
  }

  function StepEq(pc: nat, st: State): (r: Flow) {
    var errs :=
      if |st.stack| < 2 then [StackUnderflow(pc)]
      else
        var (l, r) := (st.stack[|st.stack| - 2], st.stack[|st.stack| - 1]);
        if IsLinear(l) || IsLinear(r) then [EqOnLinearType(pc)]
        else if l != r then [TypeMismatch(pc)]
        else [];
    Straight(Pushed(PoppedN(st, 2), Bool), errs)
  }

  function StepNewStruct(ctx: Context, pc: nat, tn: Name, names: seq<string>, st: State): (r: Flow) {
    if tn.Qualified? then Straight(PoppedN(st, |names|), [])
    else
      match GetStruct(ctx.m, tn.name)
      case Some(def) =>
        var (after, errs) := PopTyped(FieldTypes(def), st, pc);
        Straight(Pushed(after, Struct(tn)), errs)
      case None => Straight(Pushed(PoppedN(st, |names|), Struct(tn)), [])
  }

  predicate HasStructField(def: StructDef) {
    exists f | f in def.fields :: f.ty.Struct?
  }

  function StepGetField(ctx: Context, pc: nat, field: string, st: State): (r: Flow) {
    if st.stack == [] then Straight(st, [StackUnderflow(pc)])
    else
      var t := st.stack[|st.stack| - 1];
      var next := Popped(st);
      if !t.Struct? then Straight(Pushed(next, Addr), [TypeMismatch(pc)])
      else
        var r := ResolveFieldType(t, field, ctx.m);
        var ft := if r.Some? then r.value else Addr;
        var def := GetStruct(ctx.m, t.tn.name);
        Straight(Pushed(next, ft),
                 (if CrossModule(t) then [CrossModulePrivateFieldRead(pc)] else []) +
                 (if ft.Struct? then [StructTypedFieldLoaded(pc)]
                  else if t.tn.Local? && def.Some? && HasStructField(def.value) then [GetFieldDropsLinearField(pc)]
                  else []))
  }

  function Placeholders(n: nat): (r: seq<Type>)
    ensures |r| == n
  {
    seq(n, _ => U64)
  }

  function StepUnpackStruct(ctx: Context, pc: nat, tn: Name, names: seq<string>, st: State): (r: Flow) {
    if tn.Qualified? then Straight(PushedAll(Popped(st), Placeholders(|names|)), [])
    else if st.stack == [] then Straight(st, [StackUnderflow(pc)])
    else if st.stack[|st.stack| - 1] != Struct(tn) then
      Straight(PushedAll(Popped(st), Placeholders(|names|)), [TypeMismatch(pc)])
    else
      match GetStruct(ctx.m, tn.name)
      case Some(def) => Straight(PushedAll(Popped(st), Reversed(FieldTypes(def))), [])
      case None => Straight(PushedAll(Popped(st), Placeholders(|names|)), [])
  }

  function StepMakeTuple(pc: nat, n: nat, st: State): (r: Flow) {
    if |st.stack| < n then Straight(st.(stack := []), [StackUnderflow(pc)])
    else
      var k := |st.stack| - n;
      Straight(st.(stack := st.stack[..k] + [Tuple(st.stack[k..])]), [])
  }

  function StepUnpackTuple(pc: nat, n: nat, st: State): (r: Flow) {
    if st.stack == [] then Straight(st, [StackUnderflow(pc)])
    else
      var t := st.stack[|st.stack| - 1];
      if !t.Tuple? then Straight(PushedAll(Popped(st), Placeholders(n)), [TypeMismatch(pc)])
      else if |t.elems| != n then Straight(Popped(st), [TypeMismatch(pc)])
      else Straight(PushedAll(Popped(st), Reversed(t.elems)), [])
  }

  function StepBranch(pc: nat, offset: int, st: State): (r: Flow) {
    var (next, errs) := PopTyped([Bool], st, pc);
    Flow(next, errs, if offset > 0 then Some(pc + offset) else None, next)
  }

  function ReturnType(ret: Option<Type>): (r: Type) {
    if ret.Some? then ret.value else Void
  }

  /** One error per argument of the wrong type. */
  function ArgErrors(pc: nat, want: seq<Type>, args: seq<Type>, i: nat): (r: seq<VerifyError>)
    requires |want| == |args|
    ensures r == [] <==> forall j | i <= j < |want| :: args[j] == want[j]
    decreases |want| - i
  {
    if i >= |want| then []
    else (if args[i] == want[i] then [] else [TypeMismatch(pc)]) + ArgErrors(pc, want, args, i + 1)
  }

  function CallParams(pc: nat, want: seq<Type>, st: State): (r: (State, seq<VerifyError>)) {
    if |st.stack| < |want| then (st.(stack := []), [StackUnderflow(pc)])
    else
      var k := |st.stack| - |want|;
      (st.(stack := st.stack[..k]), ArgErrors(pc, want, st.stack[k..], 0))
  }

  predicate NativeParamMatches(p: NativeParam, t: Type) {
    match p
    case Concrete(want) => want == t
    case AnyStruct => t.Struct?
    case LocalStruct => t.Struct? && t.tn.Local?
  }

  /** One error per native argument of the wrong type. */
  function NativeArgErrors(pc: nat, params: seq<NativeParam>, args: seq<Type>, i: nat): (r: seq<VerifyError>)
    requires |params| == |args|
    ensures r == [] <==> forall j | i <= j < |params| :: NativeParamMatches(params[j], args[j])
    decreases |params| - i
  {
    if i >= |params| then []
    else
      (if NativeParamMatches(params[i], args[i]) then [] else [NativeArgTypeMismatch(pc, i)]) +
      NativeArgErrors(pc, params, args, i + 1)
  }

  function StepNative(pc: nat, sig: NativeSig, st: State): (r: Flow) {
    var n := |sig.params|;
    var errs :=
      if |st.stack| < n then [NativeArgCountMismatch(pc)]
      else NativeArgErrors(pc, sig.params, st.stack[|st.stack| - n..], 0);
    Straight(Pushed(PoppedN(st, n), ReturnType(sig.ret)), errs)
  }

  function StepCall(ctx: Context, pc: nat, callee: Name, st: State): (r: Flow) {
    match callee
    case Qualified(a, n) =>
      if a in ctx.deps && GetFunction(ctx.deps[a], n).Some? then
        var fn := GetFunction(ctx.deps[a], n).value;
        var (after, errs) := CallParams(pc, QualifyAll(a, ParamTypes(fn.params)), st);
        Straight(Pushed(after, Qualify(a, ReturnType(fn.ret))), errs)
      else Straight(st, [UndefinedFunction(pc)])
    case Local(n) =>
      match GetFunction(ctx.m, n)
      case Some(fn) =>
        var (after, errs) := CallParams(pc, ParamTypes(fn.params), st);
        Straight(Pushed(after, ReturnType(fn.ret)), errs)
      case None =>
        match FindNative(ctx.natives, n)
        case Some(sig) => StepNative(pc, sig, st)
        case None => Straight(st, [UndefinedFunction(pc)])
  }

  /** One error per live linear slot. */
  function LeakedSlots(locals: seq<Slot>, i: nat): (r: seq<VerifyError>)
    ensures r == [] <==> forall j | i <= j < |locals| :: !LiveLinear(locals[j])
    decreases |locals| - i
  {
    if i >= |locals| then []
    else (if LiveLinear(locals[i]) then [UnconsumedStruct(i)] else []) + LeakedSlots(locals, i + 1)
  }

  function CheckReturn(ret: Option<Type>, st: State): (r: seq<VerifyError>) {
    var n := |st.stack|;
    (if ret.None? then
       (if n == 0 || st.stack[n - 1] == Void then [] else [ReturnTypeMismatch])
     else
       (if n == 0 || st.stack[n - 1] != ret.value then [ReturnTypeMismatch] else [])) +
    (if n > 1 && exists i | 0 <= i < n - 1 :: IsLinear(st.stack[i]) then [UnconsumedStructOnStack] else []) +
    LeakedSlots(st.locals, 0)
  }

  function Binary(want: Type, result: Type, pc: nat, st: State): (r: Flow) {
    var (after, errs) := PopTyped([want, want], st, pc);
    Straight(Pushed(after, result), errs)
  }

  function Step(ctx: Context, ret: Option<Type>, pc: nat, i: Instr, st: State): (r: Flow) {
    match i
    case PushBool(_) => Straight(Pushed(st, Bool), [])
    case PushU64(_) => Straight(Pushed(st, U64), [])
    case PushAddress(_) => Straight(Pushed(st, Addr), [])
    case PushStr(_) => Straight(Pushed(st, Str), [])
    case Load(slot) => StepLoad(pc, slot, st)
    case Store(slot) => StepStore(pc, slot, st)
    case LoadField(slot, path) => StepLoadField(ctx, pc, slot, path, st)
    case StoreField(slot, path) => StepStoreField(ctx, pc, slot, path, st)
    case Add | Sub | Mul | Div | Mod => Binary(U64, U64, pc, st)
    case Eq | Ne => StepEq(pc, st)
    case Lt | Le | Gt | Ge => Binary(U64, Bool, pc, st)
    case Not =>
      var (after, errs) := PopTyped([Bool], st, pc);
      Straight(Pushed(after, Bool), errs)
    case And | Or => Binary(Bool, Bool, pc, st)
    case NewStruct(tn, names) => StepNewStruct(ctx, pc, tn, names, st)
    case GetField(field) => StepGetField(ctx, pc, field, st)
    case UnpackStruct(tn, names) => StepUnpackStruct(ctx, pc, tn, names, st)
    case Pop =>
      Straight(Popped(st),
               if st.stack == [] then [StackUnderflow(pc)]
               else if IsLinear(st.stack[|st.stack| - 1]) then [PopOnStruct(pc)]
               else [])
    case Dup =>
      if st.stack == [] then Straight(st, [StackUnderflow(pc)])
      else
        var t := st.stack[|st.stack| - 1];
        if IsLinear(t) then Straight(st, [DupOnStruct(pc)]) else Straight(Pushed(st, t), [])
    case Jump(offset) =>
      Flow(st.(reachable := false), [], if offset > 0 then Some(pc + offset) else None, st)
    case JumpIf(offset) => StepBranch(pc, offset, st)
    case JumpIfNot(offset) => StepBranch(pc, offset, st)
    case Call(callee) => StepCall(ctx, pc, callee, st)
    case Return => Straight(st.(reachable := false), CheckReturn(ret, st))
    case MakeTuple(n) => StepMakeTuple(pc, n, st)
    case UnpackTuple(n) => StepUnpackTuple(pc, n, st)
  }

  //
  // The pass
  //

  /** Errors in order, and the state in which each instruction was examined. */
  datatype Report = Report(errs: seq<VerifyError>, states: seq<State>)

  function Finish(fn: Function, st: State, pending: Pending): (r: seq<VerifyError>) {
    var escaped := |fn.code| in pending;
    if st.reachable || escaped then
      [MissingReturn] + (if escaped then LeakedSlots(pending[|fn.code|].locals, |fn.params|) else [])
    else []
  }

  function Arrive(st: State, pending: Pending, pc: nat): (r: Merged) {
    if pc in pending then Merge(st, pending[pc], pc) else Agreed(st)
  }

  function AfterJump(flow: Flow, pending: Pending): (r: (Pending, seq<VerifyError>)) {
    if flow.jump.Some? then MergeAt(pending, flow.jump.value, flow.jumped) else (pending, [])
  }

  /** The pass from instruction `pc` on; a conflict at a join abandons the function. */
  function Pass(ctx: Context, fn: Function, pc: nat, st: State, pending: Pending): (r: Report)
    requires pc <= |fn.code|
    decreases |fn.code| - pc
  {
    if pc == |fn.code| then Report(Finish(fn, st, pending), [])
    else
      match Arrive(st, pending, pc)
      case Conflict(e) => Report([e] + Finish(fn, st, pending - {pc}), [])
      case Agreed(here) =>
        if !here.reachable then
          var rest := Pass(ctx, fn, pc + 1, here, pending - {pc});
          Report(rest.errs, [here] + rest.states)
        else
          var flow := Step(ctx, fn.ret, pc, fn.code[pc], here);
          var (pending', errs) := AfterJump(flow, pending - {pc});
          var rest := Pass(ctx, fn, pc + 1, flow.next, pending');
          Report(flow.errs + errs + rest.errs, [here] + rest.states)
  }

  function InitialState(fn: Function): (st: State)
    requires |fn.params| <= fn.localCount
    ensures |st.locals| == fn.localCount && st.stack == [] && st.reachable
  {
    State([], seq(fn.localCount, i requires 0 <= i < fn.localCount =>
            if i < |fn.params| then Live(fn.params[i].ty) else Dead), true)
  }

  /** `check_function`. Too few local slots are reported by the structural phase. */
  function CheckFunction(ctx: Context, fn: Function): (r: Report) {
    if fn.localCount < |fn.params| then Report([], [])
    else Pass(ctx, fn, 0, InitialState(fn), map[])
  }

  /** One turn of the pass. */
  lemma PassTurn(ctx: Context, fn: Function, pc: nat, st: State, pending: Pending)
    requires pc < |fn.code|
    ensures var arrived, left := Arrive(st, pending, pc), pending - {pc};
            var errs := Pass(ctx, fn, pc, st, pending).errs;
            && (arrived.Conflict? ==> errs == [arrived.error] + Finish(fn, st, left))
            && (arrived.Agreed? && !arrived.state.reachable ==>
                  errs == Pass(ctx, fn, pc + 1, arrived.state, left).errs)
            && (arrived.Agreed? && arrived.state.reachable ==>
                  var flow := Step(ctx, fn.ret, pc, fn.code[pc], arrived.state);
                  var jumped := AfterJump(flow, left);
                  errs == flow.errs + jumped.1 + Pass(ctx, fn, pc + 1, flow.next, jumped.0).errs)
  {
    hide Arrive, Step, AfterJump, Finish;
  }

  lemma Regroup<T>(a: seq<T>, b: seq<T>, c: seq<T>, d: seq<T>)
    ensures a + (b + c + d) == a + b + c + d
    ensures d == [] ==> a + (b + c) == a + b + c
  {
  }

  lemma PassEnd(ctx: Context, fn: Function, st: State, pending: Pending)
    ensures Pass(ctx, fn, |fn.code|, st, pending).errs == Finish(fn, st, pending)
  {
  }

  /** `check_function` as the loop it is: the state, the waiting states and the errors are
      updated instruction by instruction. */
  method CheckFunctionLoop(ctx: Context, fn: Function) returns (errors: seq<VerifyError>)
    ensures errors == CheckFunction(ctx, fn).errs
  {
    errors := [];
    if fn.localCount < |fn.params| {
      return;
    }
    var st := InitialState(fn);
    var pending: Pending := map[];
    var pc := 0;
    assert [] + Pass(ctx, fn, pc, st, pending).errs == CheckFunction(ctx, fn).errs;
    while pc < |fn.code|
      invariant 0 <= pc <= |fn.code|
      invariant errors + Pass(ctx, fn, pc, st, pending).errs == CheckFunction(ctx, fn).errs
    {
      PassTurn(ctx, fn, pc, st, pending);
      var arrived := Arrive(st, pending, pc);
      pending := pending - {pc};
      if arrived.Conflict? {
        Regroup(errors, [arrived.error], Finish(fn, st, pending), []);
        return errors + [arrived.error] + Finish(fn, st, pending);
      }
      st := arrived.state;
      if st.reachable {
        var flow := Step(ctx, fn.ret, pc, fn.code[pc], st);
        ghost var jumped := AfterJump(flow, pending);
        Regroup(errors, flow.errs, jumped.1, Pass(ctx, fn, pc + 1, flow.next, jumped.0).errs);
        errors := errors + flow.errs;
        if flow.jump.Some? {
          var merged := MergeAt(pending, flow.jump.value, flow.jumped);
          pending, errors := merged.0, errors + merged.1;
        } else {
          assert errors + [] == errors;
        }
        st := flow.next;
      }
      pc := pc + 1;
    }
    PassEnd(ctx, fn, st, pending);
    errors := errors + Finish(fn, st, pending);
  }
}
