/** What the pass accepts: every function for which states exist that justify it. So it rejects only
    what no assignment of states could justify, and its joins forget no more than they must. */
module Completeness {
  import opened MeowTypes
  import opened Verifier
  import opened Certificate

  //
  // Joins
  //

  /** Two slots that may meet: equal, or neither holds anything linear. */
  predicate SlotsMeet(a: Slot, b: Slot) {
    a == b || (!LiveLinear(a) && !LiveLinear(b))
  }

  lemma {:induction false} MergeSlotsExactly(a: seq<Slot>, b: seq<Slot>, i: nat, pc: nat)
    requires |a| == |b| && i <= |a|
    ensures var r := MergeSlots(a, b, i, pc);
            && (r.Slots? <==> forall j | i <= j < |a| :: SlotsMeet(a[j], b[j]))
            && (r.Slots? ==>
                  |r.slots| == |a| - i && forall j | i <= j < |a| :: r.slots[j - i] == if a[j] == b[j] then a[j] else Dead)
    decreases |a| - i
  {
    if i < |a| {
      MergeSlotsExactly(a, b, i + 1, pc);
    }
  }

  /** Two reachable states join exactly when their stacks are equal and no slot that differs holds
      something linear on either side; equal slots are kept and the others promise nothing. */
  lemma MergeExactly(current: State, incoming: State, pc: nat)
    requires current.reachable && incoming.reachable && |current.locals| == |incoming.locals|
    ensures var r := Merge(current, incoming, pc);
            && (r.Agreed? <==>
                  current.stack == incoming.stack &&
                  forall i | 0 <= i < |current.locals| :: SlotsMeet(current.locals[i], incoming.locals[i]))
            && (r.Agreed? ==>
                  && r.state.reachable && r.state.stack == current.stack && |r.state.locals| == |current.locals|
                  && forall i | 0 <= i < |current.locals| ::
                       r.state.locals[i] == if current.locals[i] == incoming.locals[i] then current.locals[i] else Dead)
  {
    hide MergeSlots, SlotsMeet;
    MergeSlotsExactly(current.locals, incoming.locals, 0, pc);
    var r := MergeSlots(current.locals, incoming.locals, 0, pc);
    if r.Slots? {
      assert forall i | 0 <= i < |current.locals| :: r.slots[i - 0] == r.slots[i];
    }
  }

  /** The join is the least state that covers both: it exists whenever any such state does, and every
      such state covers it. */
  lemma MergeLeast(current: State, incoming: State, upper: State, pc: nat)
    requires current.reachable ==> Below(current, upper)
    requires incoming.reachable ==> Below(incoming, upper)
    ensures Merge(current, incoming, pc).Agreed?
    ensures var m := Merge(current, incoming, pc).state;
            m.reachable ==> Below(m, upper)
  {
    if current.reachable && incoming.reachable {
      MergeExactly(current, incoming, pc);
      forall i | 0 <= i < |current.locals| ensures SlotsMeet(current.locals[i], incoming.locals[i]) {
        assert SlotBelow(current.locals[i], upper.locals[i]) && SlotBelow(incoming.locals[i], upper.locals[i]);
      }
      var m := Merge(current, incoming, pc).state;
      forall i | 0 <= i < |m.locals| ensures SlotBelow(m.locals[i], upper.locals[i]) {
        assert SlotBelow(current.locals[i], upper.locals[i]) && SlotBelow(incoming.locals[i], upper.locals[i]);
      }
    }
  }

  //
  // Monotonicity
  //

  /** What is accepted under one state is accepted under any state it covers, with covered effects. */
  predicate FlowBelow(a: Flow, b: Flow) {
    && a.errs == []
    && a.jump == b.jump
    && (a.next.reachable ==> Below(a.next, b.next))
    && (a.jump.Some? ==> Below(a.jumped, b.jumped))
  }

  lemma BelowStack(s: State, t: State, stack: seq<Type>)
    requires Below(s, t)
    ensures Below(s.(stack := stack), t.(stack := stack))
  {
  }

  lemma {:induction false} PopTypedAlike(ts: seq<Type>, s: State, t: State, pc: nat)
    requires s.stack == t.stack
    ensures var a, b := PopTyped(ts, s, pc), PopTyped(ts, t, pc);
            a.1 == b.1 && a.0 == s.(stack := b.0.stack) && b.0 == t.(stack := b.0.stack)
  {
    if ts != [] {
      PopTypedAlike(ts[..|ts| - 1], Popped(s), Popped(t), pc);
    }
  }

  /** Instructions that look only at the stack. */
  predicate StackOnly(i: Instr) {
    !i.Load? && !i.Store? && !i.LoadField? && !i.StoreField? && !i.Return? && !i.Jump? && !i.JumpIf? && !i.JumpIfNot?
  }

  /** The same errors and the same stack, whatever the slots hold. */
  predicate Alike(a: Flow, b: Flow, s: State, t: State) {
    && a.errs == b.errs && a.jump.None? && b.jump.None?
    && a.next == s.(stack := b.next.stack) && b.next == t.(stack := b.next.stack)
  }

  lemma StackAlike(ctx: Context, ret: Option<Type>, pc: nat, i: Instr, s: State, t: State)
    requires StackOnly(i) && s.stack == t.stack
    ensures Alike(Step(ctx, ret, pc, i, s), Step(ctx, ret, pc, i, t), s, t)
  {
    if ByKind(i) {
      hide Step, Alike;
      StepByKind(ctx, ret, pc, i, s);
      StepByKind(ctx, ret, pc, i, t);
      match i
      case NewStruct(tn, names) => StructsAlike(ctx, pc, tn, names, s, t);
      case GetField(field) => FieldAlike(ctx, pc, field, s, t);
      case UnpackStruct(tn, names) => StructsAlike(ctx, pc, tn, names, s, t);
      case Call(callee) => CallAlike(ctx, pc, callee, s, t);
      case MakeTuple(n) => TuplesAlike(pc, n, s, t);
      case UnpackTuple(n) => TuplesAlike(pc, n, s, t);
    } else {
      SimpleAlike(ctx, ret, pc, i, s, t);
    }
  }

  lemma SimpleAlike(ctx: Context, ret: Option<Type>, pc: nat, i: Instr, s: State, t: State)
    requires StackOnly(i) && !ByKind(i) && s.stack == t.stack
    ensures Alike(Step(ctx, ret, pc, i, s), Step(ctx, ret, pc, i, t), s, t)
  {
    hide PopTyped;
    PopTypedAlike([Bool], s, t, pc);
    PopTypedAlike([Bool, Bool], s, t, pc);
    PopTypedAlike([U64, U64], s, t, pc);
  }

  lemma FieldAlike(ctx: Context, pc: nat, field: string, s: State, t: State)
    requires s.stack == t.stack
    ensures Alike(StepGetField(ctx, pc, field, s), StepGetField(ctx, pc, field, t), s, t)
  {
    hide ResolveFieldType, CrossModule, GetStruct, HasStructField;
  }

  lemma StructsAlike(ctx: Context, pc: nat, tn: Name, names: seq<string>, s: State, t: State)
    requires s.stack == t.stack
    ensures Alike(StepNewStruct(ctx, pc, tn, names, s), StepNewStruct(ctx, pc, tn, names, t), s, t)
    ensures Alike(StepUnpackStruct(ctx, pc, tn, names, s), StepUnpackStruct(ctx, pc, tn, names, t), s, t)
  {
    hide PopTyped, GetStruct, Reversed;
    if tn.Local? && GetStruct(ctx.m, tn.name).Some? {
      PopTypedAlike(FieldTypes(GetStruct(ctx.m, tn.name).value), s, t, pc);
    }
  }

  lemma CallAlike(ctx: Context, pc: nat, callee: Name, s: State, t: State)
    requires s.stack == t.stack
    ensures Alike(StepCall(ctx, pc, callee, s), StepCall(ctx, pc, callee, t), s, t)
  {
    hide ArgErrors, NativeArgErrors, GetFunction, FindNative, QualifyAll, Qualify;
  }

  lemma TuplesAlike(pc: nat, n: nat, s: State, t: State)
    requires s.stack == t.stack
    ensures Alike(StepMakeTuple(pc, n, s), StepMakeTuple(pc, n, t), s, t)
    ensures Alike(StepUnpackTuple(pc, n, s), StepUnpackTuple(pc, n, t), s, t)
  {
    hide Reversed;
  }

  lemma ReturnMonotone(ret: Option<Type>, s: State, t: State)
    requires Below(s, t) && CheckReturn(ret, t) == []
    ensures CheckReturn(ret, s) == []
  {
    forall j | 0 <= j < |s.locals| ensures !LiveLinear(s.locals[j]) {
      assert SlotBelow(s.locals[j], t.locals[j]) && !LiveLinear(t.locals[j]);
    }
  }

  lemma SlotMonotone(pc: nat, slot: nat, s: State, t: State)
    requires Below(s, t)
    ensures StepLoad(pc, slot, t).errs == [] ==> FlowBelow(StepLoad(pc, slot, s), StepLoad(pc, slot, t))
    ensures StepStore(pc, slot, t).errs == [] ==> FlowBelow(StepStore(pc, slot, s), StepStore(pc, slot, t))
  {
    if slot < |t.locals| { assert SlotBelow(s.locals[slot], t.locals[slot]); }
  }

  lemma FieldMonotone(ctx: Context, pc: nat, slot: nat, path: seq<string>, s: State, t: State)
    requires Below(s, t)
    ensures StepLoadField(ctx, pc, slot, path, t).errs == [] ==>
              FlowBelow(StepLoadField(ctx, pc, slot, path, s), StepLoadField(ctx, pc, slot, path, t))
    ensures StepStoreField(ctx, pc, slot, path, t).errs == [] ==>
              FlowBelow(StepStoreField(ctx, pc, slot, path, s), StepStoreField(ctx, pc, slot, path, t))
  {
    hide ResolveFieldPathType, FieldPathTypeOr, CrossModule;
    if slot < |t.locals| { assert SlotBelow(s.locals[slot], t.locals[slot]); }
  }

  lemma StepMonotone(ctx: Context, ret: Option<Type>, pc: nat, i: Instr, s: State, t: State)
    requires Below(s, t) && Step(ctx, ret, pc, i, t).errs == []
    ensures FlowBelow(Step(ctx, ret, pc, i, s), Step(ctx, ret, pc, i, t))
  {
    hide Step, StepLoad, StepStore, StepLoadField, StepStoreField;
    if StackOnly(i) {
      StackAlike(ctx, ret, pc, i, s, t);
      BelowStack(s, t, Step(ctx, ret, pc, i, t).next.stack);
    } else if i.Jump? || i.JumpIf? || i.JumpIfNot? || i.Return? {
      BranchMonotone(ctx, ret, pc, i, s, t);
    } else {
      StepByKind(ctx, ret, pc, i, s);
      StepByKind(ctx, ret, pc, i, t);
      SlotMonotone(pc, i.slot, s, t);
      if !i.Load? && !i.Store? { FieldMonotone(ctx, pc, i.slot, i.path, s, t); }
    }
  }

  lemma BranchMonotone(ctx: Context, ret: Option<Type>, pc: nat, i: Instr, s: State, t: State)
    requires i.Jump? || i.JumpIf? || i.JumpIfNot? || i.Return?
    requires Below(s, t) && Step(ctx, ret, pc, i, t).errs == []
    ensures FlowBelow(Step(ctx, ret, pc, i, s), Step(ctx, ret, pc, i, t))
  {
    hide PopTyped, CheckReturn;
    if i.Return? {
      ReturnMonotone(ret, s, t);
    } else if !i.Jump? {
      PopTypedAlike([Bool], s, t, pc);
      BelowStack(s, t, PopTyped([Bool], t, pc).0.stack);
    }
  }

  //
  // The pass
  //

  /** The state and the waiting states of the pass are covered by `states`. */
  predicate Within(fn: Function, pc: nat, st: State, pending: Pending, states: seq<State>) {
    && |states| == |fn.code| && pc <= |fn.code|
    && (st.reachable ==> pc < |fn.code| && Below(st, states[pc]))
    && (forall t | t in pending :: pc <= t < |fn.code| && Below(pending[t], states[t]))
  }

  lemma MergeAtWithin(pending: Pending, target: nat, incoming: State, upper: State)
    requires Below(incoming, upper) && (target in pending ==> Below(pending[target], upper))
    ensures var r := MergeAt(pending, target, incoming);
            && r.1 == [] && r.0.Keys == pending.Keys + {target} && Below(r.0[target], upper)
            && forall t | t in pending && t != target :: r.0[t] == pending[t]
  {
    if target in pending { MergeLeast(pending[target], incoming, upper, target); }
  }

  /** One turn at an instruction whose state is covered. */
  lemma TurnWithin(ctx: Context, fn: Function, pc: nat, here: State, pending: Pending, states: seq<State>)
    requires pc < |fn.code| == |states| && here.reachable && Below(here, states[pc])
    requires forall t | t in pending :: pc < t < |fn.code| && Below(pending[t], states[t])
    requires Consistent(ctx, fn, 0, states, pc)
    ensures var flow := Step(ctx, fn.ret, pc, fn.code[pc], here);
            var jumped := AfterJump(flow, pending);
            && flow.errs == [] && jumped.1 == []
            && Within(fn, pc + 1, flow.next, jumped.0, states)
  {
    hide Step;
    var flow, upper := Step(ctx, fn.ret, pc, fn.code[pc], here), Step(ctx, fn.ret, pc, fn.code[pc], states[pc]);
    StepMonotone(ctx, fn.ret, pc, fn.code[pc], here, states[pc]);
    StepShape(ctx, fn.ret, pc, fn.code[pc], here);
    StepShape(ctx, fn.ret, pc, fn.code[pc], states[pc]);
    if flow.next.reachable { BelowTransitive(flow.next, upper.next, states[pc + 1]); }
    if flow.jump.Some? {
      BelowTransitive(flow.jumped, upper.jumped, states[flow.jump.value]);
      MergeAtWithin(pending, flow.jump.value, flow.jumped, states[flow.jump.value]);
    }
  }

  /** From any point of the pass that the states cover, it goes through without an error. */
  lemma {:induction false} PassAccepts(ctx: Context, fn: Function, pc: nat, st: State, pending: Pending, states: seq<State>)
    requires Within(fn, pc, st, pending, states)
    requires forall q | 0 <= q < |fn.code| :: Consistent(ctx, fn, 0, states, q)
    ensures Pass(ctx, fn, pc, st, pending).errs == []
    decreases |fn.code| - pc
  {
    hide Step, Consistent, Below;
    if pc < |fn.code| {
      PassTurn(ctx, fn, pc, st, pending);
      var arrived, left := Arrive(st, pending, pc), pending - {pc};
      ArriveWithin(fn, pc, st, pending, states);
      if arrived.state.reachable {
        TurnWithin(ctx, fn, pc, arrived.state, left, states);
        var flow := Step(ctx, fn.ret, pc, fn.code[pc], arrived.state);
        PassAccepts(ctx, fn, pc + 1, flow.next, AfterJump(flow, left).0, states);
      } else {
        PassAccepts(ctx, fn, pc + 1, arrived.state, left, states);
      }
    } else {
      PassEnd(ctx, fn, st, pending);
    }
  }

  lemma ArriveWithin(fn: Function, pc: nat, st: State, pending: Pending, states: seq<State>)
    requires pc < |fn.code| && Within(fn, pc, st, pending, states)
    ensures var arrived := Arrive(st, pending, pc);
            arrived.Agreed? && (arrived.state.reachable ==> Below(arrived.state, states[pc]))
    ensures forall t | t in pending - {pc} :: pc < t < |fn.code| && Below((pending - {pc})[t], states[t])
  {
    if pc in pending { MergeLeast(st, pending[pc], states[pc], pc); }
  }

  /** The pass accepts a function exactly when some states justify it: one per instruction, the first
      covering the parameters, each reachable instruction accepted in its state, each successor's
      state covering its effect, and no path off the end. */
  lemma AcceptsExactly(ctx: Context, fn: Function)
    requires |fn.params| <= fn.localCount && JumpsInRange(fn.code)
    ensures CheckFunction(ctx, fn).errs == [] <==> exists states :: Certified(ctx, fn, states)
  {
    hide Pass, Consistent;
    if CheckFunction(ctx, fn).errs == [] {
      PassCertifies(ctx, fn);
    }
    if states :| Certified(ctx, fn, states) {
      CertifiedAccepted(ctx, fn, states);
    }
  }

  lemma CertifiedAccepted(ctx: Context, fn: Function, states: seq<State>)
    requires Certified(ctx, fn, states)
    ensures CheckFunction(ctx, fn).errs == []
  {
    hide Pass, Consistent;
    PassAccepts(ctx, fn, 0, InitialState(fn), map[], states);
  }

  /** And the states the pass finds are the least: any that justify the function cover them. */
  lemma {:induction false} PassLeast(ctx: Context, fn: Function, pc: nat, st: State, pending: Pending, states: seq<State>, q: nat)
    requires Within(fn, pc, st, pending, states) && pc <= q < |fn.code|
    requires forall k | 0 <= k < |fn.code| :: Consistent(ctx, fn, 0, states, k)
    ensures var found := Pass(ctx, fn, pc, st, pending).states;
            |found| == |fn.code| - pc && (found[q - pc].reachable ==> Below(found[q - pc], states[q]))
    decreases |fn.code| - pc
  {
    hide Step, Consistent, Below;
    var arrived, left := Arrive(st, pending, pc), pending - {pc};
    ArriveWithin(fn, pc, st, pending, states);
    var next, later := arrived.state, left;
    if arrived.state.reachable {
      TurnWithin(ctx, fn, pc, arrived.state, left, states);
      var flow := Step(ctx, fn.ret, pc, fn.code[pc], arrived.state);
      next, later := flow.next, AfterJump(flow, left).0;
    }
    if pc + 1 < |fn.code| {
      PassLeast(ctx, fn, pc + 1, next, later, states, if q == pc then q + 1 else q);
    }
  }
}
