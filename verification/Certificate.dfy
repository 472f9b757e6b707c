/** What an error-free pass establishes: one abstract state per instruction such that every
    edge of the control flow leads from a state into one that covers it. */
module Certificate {
  import opened MeowTypes
  import opened Verifier

  /** `b` covers `a`: the same contents, or nothing promised about a slot that holds nothing linear. */
  predicate SlotBelow(a: Slot, b: Slot) {
    a == b || (b.Dead? && !LiveLinear(a))
  }

  predicate Below(s: State, t: State) {
    && s.reachable && t.reachable
    && s.stack == t.stack
    && |s.locals| == |t.locals|
    && forall i | 0 <= i < |s.locals| :: SlotBelow(s.locals[i], t.locals[i])
  }

  lemma BelowTransitive(s: State, t: State, u: State)
    requires Below(s, t) && Below(t, u)
    ensures Below(s, u)
  {
    forall i | 0 <= i < |s.locals| ensures SlotBelow(s.locals[i], u.locals[i]) {
      assert SlotBelow(s.locals[i], t.locals[i]) && SlotBelow(t.locals[i], u.locals[i]);
    }
  }

  lemma {:induction false} MergeSlotsCovers(a: seq<Slot>, b: seq<Slot>, i: nat, pc: nat)
    requires |a| == |b| && i <= |a|
    requires MergeSlots(a, b, i, pc).Slots?
    ensures var r := MergeSlots(a, b, i, pc).slots;
      && |r| == |a| - i
      && forall j | i <= j < |a| :: SlotBelow(a[j], r[j - i]) && SlotBelow(b[j], r[j - i])
    decreases |a| - i
  {
    if i < |a| {
      MergeSlotsCovers(a, b, i + 1, pc);
    }
  }

  /** A successful join covers both of the states that meet. */
  lemma MergeCovers(current: State, incoming: State, pc: nat)
    requires |current.locals| == |incoming.locals|
    requires Merge(current, incoming, pc).Agreed?
    ensures var m := Merge(current, incoming, pc).state;
      && |m.locals| == |current.locals|
      && (current.reachable ==> Below(current, m))
      && (incoming.reachable ==> Below(incoming, m))
      && (m.reachable ==> current.reachable || incoming.reachable)
  {
    if current.reachable && incoming.reachable {
      MergeSlotsCovers(current.locals, incoming.locals, 0, pc);
    }
  }

  lemma {:induction false} PopTypedLocals(ts: seq<Type>, st: State, pc: nat)
    ensures var r := PopTyped(ts, st, pc).0; r.locals == st.locals && r.reachable == st.reachable
  {
    if ts != [] {
      PopTypedLocals(ts[..|ts| - 1], Popped(st), pc);
    }
  }

  /** The path goes on with as many slots, and does not branch. */
  predicate GoesOn(flow: Flow, st: State) {
    flow.jump.None? && flow.next.reachable == st.reachable && |flow.next.locals| == |st.locals|
  }

  lemma SlotsGoOn(ctx: Context, pc: nat, slot: nat, path: seq<string>, st: State)
    ensures GoesOn(StepLoad(pc, slot, st), st) && GoesOn(StepStore(pc, slot, st), st)
    ensures GoesOn(StepLoadField(ctx, pc, slot, path, st), st)
    ensures GoesOn(StepStoreField(ctx, pc, slot, path, st), st)
  {
    hide FieldPathTypeOr, ResolveFieldPathType, CrossModule, IsLinear;
  }

  lemma StructsGoOn(ctx: Context, pc: nat, tn: Name, names: seq<string>, field: string, st: State)
    ensures GoesOn(StepNewStruct(ctx, pc, tn, names, st), st)
    ensures GoesOn(StepGetField(ctx, pc, field, st), st)
    ensures GoesOn(StepUnpackStruct(ctx, pc, tn, names, st), st)
  {
    hide PopTyped, ResolveFieldType, CrossModule, GetStruct, Reversed, HasStructField;
    if tn.Local? && GetStruct(ctx.m, tn.name).Some? {
      PopTypedLocals(FieldTypes(GetStruct(ctx.m, tn.name).value), st, pc);
    }
  }

  lemma CallGoesOn(ctx: Context, pc: nat, callee: Name, st: State)
    ensures GoesOn(StepCall(ctx, pc, callee, st), st)
  {
    hide ArgErrors, NativeArgErrors, GetFunction, FindNative, QualifyAll, Qualify;
  }

  lemma TuplesGoOn(pc: nat, n: nat, st: State)
    ensures GoesOn(StepMakeTuple(pc, n, st), st) && GoesOn(StepUnpackTuple(pc, n, st), st)
  {
    hide Reversed;
  }

  /** The pass by kind of instruction. */
  lemma StepByKind(ctx: Context, ret: Option<Type>, pc: nat, i: Instr, st: State)
    ensures i.Load? ==> Step(ctx, ret, pc, i, st) == StepLoad(pc, i.slot, st)
    ensures i.Store? ==> Step(ctx, ret, pc, i, st) == StepStore(pc, i.slot, st)
    ensures i.LoadField? ==> Step(ctx, ret, pc, i, st) == StepLoadField(ctx, pc, i.slot, i.path, st)
    ensures i.StoreField? ==> Step(ctx, ret, pc, i, st) == StepStoreField(ctx, pc, i.slot, i.path, st)
    ensures i.NewStruct? ==> Step(ctx, ret, pc, i, st) == StepNewStruct(ctx, pc, i.tn, i.fieldNames, st)
    ensures i.GetField? ==> Step(ctx, ret, pc, i, st) == StepGetField(ctx, pc, i.field, st)
    ensures i.UnpackStruct? ==> Step(ctx, ret, pc, i, st) == StepUnpackStruct(ctx, pc, i.tn, i.fieldNames, st)
    ensures i.Call? ==> Step(ctx, ret, pc, i, st) == StepCall(ctx, pc, i.callee, st)
    ensures i.MakeTuple? ==> Step(ctx, ret, pc, i, st) == StepMakeTuple(pc, i.count, st)
    ensures i.UnpackTuple? ==> Step(ctx, ret, pc, i, st) == StepUnpackTuple(pc, i.count, st)
  {
    hide StepLoad, StepStore, StepLoadField, StepStoreField, StepNewStruct, StepGetField, StepUnpackStruct;
    hide StepCall, StepMakeTuple, StepUnpackTuple, PopTyped, CheckReturn;
  }

  predicate ByKind(i: Instr) {
    || i.Load? || i.Store? || i.LoadField? || i.StoreField? || i.NewStruct? || i.GetField? || i.UnpackStruct?
    || i.Call? || i.MakeTuple? || i.UnpackTuple?
  }

  lemma KindGoesOn(ctx: Context, ret: Option<Type>, pc: nat, i: Instr, st: State)
    requires ByKind(i)
    ensures GoesOn(Step(ctx, ret, pc, i, st), st)
  {
    hide Step, GoesOn;
    StepByKind(ctx, ret, pc, i, st);
    match i
    case Load(slot) => SlotsGoOn(ctx, pc, slot, [], st);
    case Store(slot) => SlotsGoOn(ctx, pc, slot, [], st);
    case LoadField(slot, path) => SlotsGoOn(ctx, pc, slot, path, st);
    case StoreField(slot, path) => SlotsGoOn(ctx, pc, slot, path, st);
    case NewStruct(tn, names) => StructsGoOn(ctx, pc, tn, names, "", st);
    case GetField(field) => StructsGoOn(ctx, pc, Local(""), [], field, st);
    case UnpackStruct(tn, names) => StructsGoOn(ctx, pc, tn, names, "", st);
    case Call(callee) => CallGoesOn(ctx, pc, callee, st);
    case MakeTuple(n) => TuplesGoOn(pc, n, st);
    case UnpackTuple(n) => TuplesGoOn(pc, n, st);
    case _ =>
  }

  lemma SimpleGoesOn(ctx: Context, ret: Option<Type>, pc: nat, i: Instr, st: State)
    requires !ByKind(i) && !i.Jump? && !i.JumpIf? && !i.JumpIfNot? && !i.Return?
    ensures GoesOn(Step(ctx, ret, pc, i, st), st)
  {
    hide PopTyped;
    PopTypedLocals([Bool], st, pc);
    PopTypedLocals([Bool, Bool], st, pc);
    PopTypedLocals([U64, U64], st, pc);
  }

  /** No instruction changes the number of slots, and only `Jump` and `Return` end a path. */
  lemma StepShape(ctx: Context, ret: Option<Type>, pc: nat, i: Instr, st: State)
    requires st.reachable
    ensures var flow := Step(ctx, ret, pc, i, st);
      && |flow.next.locals| == |st.locals|
      && (flow.next.reachable <==> !i.Jump? && !i.Return?)
      && (flow.jump.Some? ==> (i.Jump? || i.JumpIf? || i.JumpIfNot?) && i.offset > 0 && flow.jump.value == pc + i.offset)
      && (flow.jump.Some? ==> flow.jumped.reachable && |flow.jumped.locals| == |st.locals|)
  {
    if ByKind(i) {
      KindGoesOn(ctx, ret, pc, i, st);
    } else if i.Jump? || i.JumpIf? || i.JumpIfNot? || i.Return? {
      hide PopTyped, CheckReturn;
      PopTypedLocals([Bool], st, pc);
    } else {
      hide Step;
      SimpleGoesOn(ctx, ret, pc, i, st);
    }
  }

  /** Jumps stay inside the function or land just past its end. */
  predicate JumpsInRange(code: seq<Instr>) {
    forall pc | 0 <= pc < |code| ::
      code[pc].Jump? || code[pc].JumpIf? || code[pc].JumpIfNot? ==>
        0 < code[pc].offset && pc + code[pc].offset <= |code|
  }

  /** What `flow` sends on from instruction `pc` is covered by the states of its successors;
      `states` starts at instruction `base`. */
  predicate Covered(fn: Function, base: nat, states: seq<State>, pc: nat, flow: Flow)
    requires base <= pc < |fn.code| == base + |states|
  {
    && flow.errs == []
    && (flow.next.reachable ==> pc + 1 < |fn.code| && Below(flow.next, states[pc + 1 - base]))
    && (flow.jump.Some? ==>
          pc < flow.jump.value < |fn.code| && Below(flow.jumped, states[flow.jump.value - base]))
  }

  /** Instruction `pc` is accepted in its state, and its successors' states cover its effect. */
  predicate Consistent(ctx: Context, fn: Function, base: nat, states: seq<State>, pc: nat)
    requires base <= pc < |fn.code| == base + |states|
  {
    states[pc - base].reachable ==>
      Covered(fn, base, states, pc, Step(ctx, fn.ret, pc, fn.code[pc], states[pc - base]))
  }

  /** Consistency does not depend on where the list of states starts. */
  lemma ConsistentShift(ctx: Context, fn: Function, pc: nat, here: State, rest: seq<State>, q: nat)
    requires pc < q < |fn.code| == pc + 1 + |rest|
    requires Consistent(ctx, fn, pc + 1, rest, q)
    ensures Consistent(ctx, fn, pc, [here] + rest, q)
  {
    var states := [here] + rest;
    assert states[q - pc] == rest[q - (pc + 1)];
    if states[q - pc].reachable {
      var flow := Step(ctx, fn.ret, q, fn.code[q], states[q - pc]);
      assert Covered(fn, pc + 1, rest, q, flow);
      CoveredShift(fn, pc, here, rest, q, flow);
    }
  }

  lemma CoveredShift(fn: Function, pc: nat, here: State, rest: seq<State>, q: nat, flow: Flow)
    requires pc < q < |fn.code| == pc + 1 + |rest|
    requires Covered(fn, pc + 1, rest, q, flow)
    ensures Covered(fn, pc, [here] + rest, q, flow)
  {
  }

  predicate WaitingOk(fn: Function, pc: nat, pending: Pending) {
    forall t | t in pending ::
      pc <= t <= |fn.code| && pending[t].reachable && |pending[t].locals| == fn.localCount
  }

  lemma MergeAtCovers(fn: Function, pc: nat, pending: Pending, target: nat, incoming: State)
    requires WaitingOk(fn, pc, pending)
    requires pc <= target <= |fn.code|
    requires incoming.reachable && |incoming.locals| == fn.localCount
    requires MergeAt(pending, target, incoming).1 == []
    ensures var p := MergeAt(pending, target, incoming).0;
      && WaitingOk(fn, pc, p)
      && target in p && Below(incoming, p[target])
      && forall t | t in pending :: t in p && Below(pending[t], p[t])
  {
    forall t | t in pending ensures Below(pending[t], pending[t]) {
      BelowSelf(pending[t]);
    }
    BelowSelf(incoming);
    if target in pending {
      MergeCovers(pending[target], incoming, target);
    }
  }

  /** The conclusion of `PassFlows` for the instructions from `pc` on. */
  predicate Flows(ctx: Context, fn: Function, pc: nat, st: State, pending: Pending, states: seq<State>) {
    && pc <= |fn.code| == pc + |states|
    && (st.reachable ==> pc < |fn.code| && Below(st, states[0]))
    && (forall t | t in pending :: pc <= t < |fn.code| && Below(pending[t], states[t - pc]))
    && (forall q | pc <= q < |fn.code| :: Consistent(ctx, fn, pc, states, q))
  }

  /** What holds from the next instruction on, and what this instruction sends on, put together. */
  lemma FlowsExtend(ctx: Context, fn: Function, pc: nat, st: State, pending: Pending,
                    here: State, flow: Flow, pending': Pending, rest: seq<State>)
    requires pc < |fn.code|
    requires st.reachable ==> Below(st, here)
    requires pc in pending ==> Below(pending[pc], here)
    requires here.reachable ==> flow == Step(ctx, fn.ret, pc, fn.code[pc], here) && flow.errs == []
    requires Flows(ctx, fn, pc + 1, if here.reachable then flow.next else here, pending', rest)
    requires forall t | t in pending && t != pc :: t in pending' && Below(pending[t], pending'[t])
    requires here.reachable && flow.jump.Some? ==>
      flow.jump.value in pending' && Below(flow.jumped, pending'[flow.jump.value])
    ensures Flows(ctx, fn, pc, st, pending, [here] + rest)
  {
    var states := [here] + rest;
    forall t | t in pending ensures pc <= t < |fn.code| && Below(pending[t], states[t - pc]) {
      if t != pc {
        BelowTransitive(pending[t], pending'[t], rest[t - (pc + 1)]);
      }
    }
    forall q | pc <= q < |fn.code| ensures Consistent(ctx, fn, pc, states, q) {
      if q == pc {
        if here.reachable {
          CoveredHere(fn, pc, here, flow, pending', rest);
        }
      } else {
        ConsistentShift(ctx, fn, pc, here, rest, q);
      }
    }
  }

  lemma CoveredHere(fn: Function, pc: nat, here: State, flow: Flow, pending': Pending, rest: seq<State>)
    requires pc < |fn.code| == pc + 1 + |rest|
    requires flow.errs == []
    requires flow.next.reachable ==> pc + 1 < |fn.code| && Below(flow.next, rest[0])
    requires forall t | t in pending' :: pc + 1 <= t < |fn.code| && Below(pending'[t], rest[t - (pc + 1)])
    requires flow.jump.Some? ==>
      flow.jump.value in pending' && Below(flow.jumped, pending'[flow.jump.value])
    ensures Covered(fn, pc, [here] + rest, pc, flow)
  {
    if flow.jump.Some? {
      var t := flow.jump.value;
      BelowTransitive(flow.jumped, pending'[t], rest[t - (pc + 1)]);
    }
  }

  lemma BelowSelf(s: State)
    requires s.reachable
    ensures Below(s, s)
  {
  }

  lemma {:induction false} PassFlows(ctx: Context, fn: Function, pc: nat, st: State, pending: Pending)
    requires pc <= |fn.code|
    requires JumpsInRange(fn.code)
    requires |st.locals| == fn.localCount && WaitingOk(fn, pc, pending)
    requires Pass(ctx, fn, pc, st, pending).errs == []
    ensures Flows(ctx, fn, pc, st, pending, Pass(ctx, fn, pc, st, pending).states)
    decreases |fn.code| - pc
  {
    if pc < |fn.code| {
      if pc in pending {
        MergeCovers(st, pending[pc], pc);
      } else if st.reachable {
        BelowSelf(st);
      }
      var here := Arrive(st, pending, pc).state;
      var later := pending - {pc};
      forall t | t in later ensures Below(pending[t], later[t]) {
        BelowSelf(pending[t]);
      }
      if here.reachable {
        PassFlowsReachable(ctx, fn, pc, st, pending, here);
      } else {
        PassFlows(ctx, fn, pc + 1, here, later);
        FlowsExtend(ctx, fn, pc, st, pending, here, Straight(here, []), later,
                    Pass(ctx, fn, pc + 1, here, later).states);
      }
    }
  }

  /** One step of the pass at a reachable instruction. */
  lemma PassStep(ctx: Context, fn: Function, pc: nat, st: State, pending: Pending, here: State, flow: Flow)
    requires pc < |fn.code|
    requires Arrive(st, pending, pc) == Agreed(here) && here.reachable
    requires flow == Step(ctx, fn.ret, pc, fn.code[pc], here)
    requires Pass(ctx, fn, pc, st, pending).errs == []
    ensures flow.errs == [] && AfterJump(flow, pending - {pc}).1 == []
    ensures var rest := Pass(ctx, fn, pc + 1, flow.next, AfterJump(flow, pending - {pc}).0);
      rest.errs == [] && Pass(ctx, fn, pc, st, pending).states == [here] + rest.states
  {
  }

  /** The waiting states after a step, and how they cover the ones before. */
  lemma AfterJumpCovers(fn: Function, pc: nat, pending: Pending, flow: Flow)
    requires WaitingOk(fn, pc, pending)
    requires AfterJump(flow, pending).1 == []
    requires flow.jump.Some? ==>
      pc <= flow.jump.value <= |fn.code| && flow.jumped.reachable && |flow.jumped.locals| == fn.localCount
    ensures var p := AfterJump(flow, pending).0;
      && WaitingOk(fn, pc, p)
      && (flow.jump.Some? ==> flow.jump.value in p && Below(flow.jumped, p[flow.jump.value]))
      && forall t | t in pending :: t in p && Below(pending[t], p[t])
  {
    if flow.jump.Some? {
      MergeAtCovers(fn, pc, pending, flow.jump.value, flow.jumped);
    } else {
      forall t | t in pending ensures Below(pending[t], pending[t]) {
        BelowSelf(pending[t]);
      }
    }
  }

  lemma {:induction false} PassFlowsReachable(ctx: Context, fn: Function, pc: nat, st: State, pending: Pending, here: State)
    requires pc < |fn.code|
    requires JumpsInRange(fn.code)
    requires |here.locals| == fn.localCount && WaitingOk(fn, pc, pending)
    requires Arrive(st, pending, pc) == Agreed(here) && here.reachable
    requires st.reachable ==> Below(st, here)
    requires pc in pending ==> Below(pending[pc], here)
    requires Pass(ctx, fn, pc, st, pending).errs == []
    ensures Flows(ctx, fn, pc, st, pending, Pass(ctx, fn, pc, st, pending).states)
    decreases |fn.code| - pc, 0
  {
    var later := pending - {pc};
    var flow := Step(ctx, fn.ret, pc, fn.code[pc], here);
    StepShape(ctx, fn.ret, pc, fn.code[pc], here);
    PassStep(ctx, fn, pc, st, pending, here, flow);
    AfterJumpCovers(fn, pc + 1, later, flow);
    var pending' := AfterJump(flow, later).0;
    PassFlows(ctx, fn, pc + 1, flow.next, pending');
    FlowsExtend(ctx, fn, pc, st, pending, here, flow, pending', Pass(ctx, fn, pc + 1, flow.next, pending').states);
  }

  /** One state per instruction that proves the function well behaved. */
  predicate Certified(ctx: Context, fn: Function, states: seq<State>) {
    && |fn.params| <= fn.localCount
    && 0 < |fn.code| == |states|
    && Below(InitialState(fn), states[0])
    && forall pc | 0 <= pc < |fn.code| :: Consistent(ctx, fn, 0, states, pc)
  }

  /** An error-free pass over code whose jumps stay in range certifies the function. */
  lemma PassCertifies(ctx: Context, fn: Function)
    requires |fn.params| <= fn.localCount
    requires JumpsInRange(fn.code)
    requires CheckFunction(ctx, fn).errs == []
    ensures Certified(ctx, fn, CheckFunction(ctx, fn).states)
  {
    PassFlows(ctx, fn, 0, InitialState(fn), map[]);
  }
}
