/** What the gas limit does to a run: nothing until it is passed. */
module Metering {
  import opened MeowTypes
  import opened Vm

  /** The meter that is never passed. */
  function Unlimited(spent: u64): (g: Gas) {
    Gas(U64_MAX, spent)
  }

  predicate Dry(o: Outcome) {
    o.Failed? && o.error.OutOfGas?
  }

  lemma ExecNotDry(vm: Machine, addr: Address, m: Module, i: Instr, f: FrameState)
    requires !i.Call? && !i.Return?
    ensures Exec(vm, addr, m, i, f).Err? ==> !Exec(vm, addr, m, i, f).error.OutOfGas?
  {
    hide ReadFieldPath, WriteFieldPath, TakeFields, FieldMap, ExecOperator, MakeFields, Reverse;
    hide ExecLoadField, ExecStoreField, ExecUnpackStruct, ExecNewStruct;
    if IsBinary(i) { OperatorNotDry(i, f); }
    FieldsNotDry(vm, addr, m, i, f);
  }

  lemma OperatorNotDry(i: Instr, f: FrameState)
    requires IsBinary(i)
    ensures ExecOperator(i, f).Err? ==> !ExecOperator(i, f).error.OutOfGas?
  {
    hide ExecBinary;
    if |f.stack| >= 2 { BinaryNotDry(i, f.stack[|f.stack| - 2], f.stack[|f.stack| - 1]); }
  }

  ghost predicate WetOnly<T>(r: Res<T>) {
    r.Err? ==> !r.error.OutOfGas?
  }

  lemma FieldsNotDry(vm: Machine, addr: Address, m: Module, i: Instr, f: FrameState)
    ensures i.LoadField? ==> WetOnly(ExecLoadField(i.slot, i.path, f))
    ensures i.StoreField? ==> WetOnly(ExecStoreField(i.slot, i.path, f))
    ensures i.UnpackStruct? ==> WetOnly(ExecUnpackStruct(i.fieldNames, f))
    ensures i.NewStruct? ==> WetOnly(ExecNewStruct(vm, addr, m, i.tn, i.fieldNames, f))
  {
    hide ReadFieldPath, WriteFieldPath, TakeFields, FieldMap, MakeFields;
    match i
    case LoadField(slot, path) =>
      if slot < |f.locals| && f.locals[slot].Some? { ReadNotDry(f.locals[slot].value, path); }
    case StoreField(slot, path) =>
      if slot < |f.locals| && f.locals[slot].Some? && f.stack != [] {
        WriteNotDry(f.locals[slot].value, path, f.stack[|f.stack| - 1]);
      }
    case UnpackStruct(_, names) =>
      if f.stack != [] && f.stack[|f.stack| - 1].VStruct? {
        TakeNotDry(FieldMap(f.stack[|f.stack| - 1].fields), names);
      }
    case _ =>
  }

  lemma BinaryNotDry(i: Instr, l: Value, r: Value)
    requires IsBinary(i)
    ensures ExecBinary(i, l, r).Err? ==> !ExecBinary(i, l, r).error.OutOfGas?
  {
  }

  lemma {:induction false} ReadNotDry(v: Value, path: seq<string>)
    ensures ReadFieldPath(v, path).Err? ==> !ReadFieldPath(v, path).error.OutOfGas?
    decreases |path|
  {
    if path != [] && v.VStruct? && FieldIndex(v.fields, path[0]).Some? {
      ReadNotDry(v.fields[FieldIndex(v.fields, path[0]).value].value, path[1..]);
    }
  }

  lemma {:induction false} WriteNotDry(v: Value, path: seq<string>, x: Value)
    ensures WriteFieldPath(v, path, x).Err? ==> !WriteFieldPath(v, path, x).error.OutOfGas?
    decreases |path|
  {
    if |path| > 1 && v.VStruct? && FieldIndex(v.fields, path[0]).Some? {
      WriteNotDry(v.fields[FieldIndex(v.fields, path[0]).value].value, path[1..], x);
    }
  }

  lemma {:induction false} TakeNotDry(m: map<string, Value>, names: seq<string>)
    ensures TakeFields(m, names).Err? ==> !TakeFields(m, names).error.OutOfGas?
  {
    if names != [] && names[|names| - 1] in m {
      TakeNotDry(m - {names[|names| - 1]}, names[..|names| - 1]);
    }
  }

  /** The unlimited meter pays for every instruction. */
  lemma FetchNotDry(vm: Machine, addr: Address, m: Module, code: seq<Instr>, f: FrameState, spent: u64, log: seq<NativeEvent>)
    requires f.pc < |code|
    ensures var move := Fetch(vm, addr, m, code, f, Unlimited(spent), log);
            move.Stop? ==> !Dry(move.outcome)
  {
    hide Exec, Fetch;
    FetchShape(vm, addr, m, code, f, Unlimited(spent), log);
    var i := code[f.pc];
    if !i.Call? && !i.Return? { ExecNotDry(vm, addr, m, i, f.(pc := f.pc + 1)); }
  }

  /** With the unlimited meter no run ends for want of gas. */
  lemma {:induction false} RunNotDry(
    vm: Machine, addr: Address, m: Module, code: seq<Instr>, f: FrameState, gas: Gas, log: seq<NativeEvent>, depth: nat)
    requires gas.limit == U64_MAX && Halting(vm, m, gas) && Forward(code) && depth < vm.config.maxCallDepth
    ensures !Dry(Run(vm, addr, m, code, f, gas, log, depth))
    decreases Budget(vm, gas, depth), 0, CodeLeft(code, f.pc)
  {
    hide Fetch, Halting;
    if f.pc < |code| {
      FetchAdvances(vm, addr, m, code, f, gas, log);
      FetchNotDry(vm, addr, m, code, f, gas.spent, log);
      match Fetch(vm, addr, m, code, f, gas, log)
      case Stop(_) =>
      case Go(g, gas1, log1) =>
        StillHalts(vm, m, gas, gas1);
        RunNotDry(vm, addr, m, code, g, gas1, log1, depth);
      case Enter(a, m', fn, args, back, gas1) =>
        EnteredHalts(vm, addr, m, code, f, gas, log);
        StillHalts(vm, m', gas, gas1);
        CallNotDry(vm, a, m', fn.name, args, gas1, log, depth + 1);
        var o := CallInner(vm, a, m', fn.name, args, gas1, log, depth + 1);
        if o.Returned? {
          StillHalts(vm, m, gas, o.gas);
          RunNotDry(vm, addr, m, code, Push(back, Landed(o.value)), o.gas, o.log, depth);
        }
    }
  }

  lemma StillHalts(vm: Machine, m: Module, gas: Gas, gas': Gas)
    requires Halting(vm, m, gas) && gas.limit == gas'.limit
    ensures Halting(vm, m, gas')
  {
  }

  lemma EnteredHalts(vm: Machine, addr: Address, m: Module, code: seq<Instr>, f: FrameState, gas: Gas, log: seq<NativeEvent>)
    requires f.pc < |code| && Fetch(vm, addr, m, code, f, gas, log).Enter? && Halting(vm, m, gas)
    ensures Halting(vm, Fetch(vm, addr, m, code, f, gas, log).m, gas)
  {
    hide Fetch;
    EnterLoaded(vm, addr, m, code, f, gas, log);
  }

  lemma {:induction false} CallNotDry(
    vm: Machine, addr: Address, m: Module, name: string, args: seq<Value>, gas: Gas, log: seq<NativeEvent>, depth: nat)
    requires gas.limit == U64_MAX && Halting(vm, m, gas)
    ensures !Dry(CallInner(vm, addr, m, name, args, gas, log, depth))
    decreases Budget(vm, gas, depth), 1, 0
  {
    hide Run;
    var fn := GetFunction(m, name);
    if depth < vm.config.maxCallDepth && fn.Some? && |args| <= fn.value.localCount {
      RunNotDry(vm, addr, m, fn.value.code, NewFrame(args, fn.value.localCount), gas, log, depth);
    }
  }

  /** A run under a limit, beside the same run without one: within the limit they are the same,
      and past it the first one runs dry. */
  predicate Metered(o: Outcome, free: Outcome, limit: u64) {
    if free.gas.spent <= limit then o == free.(gas := Gas(limit, free.gas.spent)) else Dry(o)
  }

  predicate MovesAlike(move: Move, free: Move, limit: u64) {
    match free
    case Stop(o) => move.Stop? && Metered(move.outcome, o, limit)
    case Go(f, gas, log) =>
      if gas.spent <= limit then move == Go(f, Gas(limit, gas.spent), log) else move.Stop? && Dry(move.outcome)
    case Enter(a, m, fn, args, back, gas) =>
      if gas.spent <= limit then move == Enter(a, m, fn, args, back, Gas(limit, gas.spent))
      else move.Stop? && Dry(move.outcome)
  }

  lemma FetchAlike(vm: Machine, addr: Address, m: Module, code: seq<Instr>, f: FrameState, limit: u64, spent: u64,
                   log: seq<NativeEvent>)
    requires f.pc < |code| && spent <= limit
    ensures MovesAlike(Fetch(vm, addr, m, code, f, Gas(limit, spent), log),
                       Fetch(vm, addr, m, code, f, Unlimited(spent), log), limit)
  {
    hide Charge;
    hide Exec, Fetch, FetchCall;
    FetchShape(vm, addr, m, code, f, Gas(limit, spent), log);
    FetchShape(vm, addr, m, code, f, Unlimited(spent), log);
    var i := code[f.pc];
    var paid, free := Charge(Gas(limit, spent), CappedCost(i)), Charge(Unlimited(spent), CappedCost(i));
    ChargeAlike(limit, spent, CappedCost(i));
    if i.Call? && paid.0 {
      FetchCallAlike(vm, addr, m, i.callee, f.(pc := f.pc + 1), limit, free.1.spent, log);
    } else if i.Call? {
      CallSpends(vm, addr, m, i.callee, f.(pc := f.pc + 1), free.1, log);
    }
  }

  lemma ChargeAlike(limit: u64, spent: u64, cost: u64)
    requires spent <= limit
    ensures var paid, free := Charge(Gas(limit, spent), cost), Charge(Unlimited(spent), cost);
            && free.0 && free.1.limit == U64_MAX
            && (paid.0 <==> free.1.spent <= limit)
            && (paid.0 ==> paid.1 == Gas(limit, free.1.spent))
  {
  }

  lemma FetchCallAlike(vm: Machine, addr: Address, m: Module, callee: Name, f: FrameState, limit: u64, spent: u64,
                       log: seq<NativeEvent>)
    requires spent <= limit
    ensures MovesAlike(FetchCall(vm, addr, m, callee, f, Gas(limit, spent), log),
                       FetchCall(vm, addr, m, callee, f, Unlimited(spent), log), limit)
  {
    hide ResolveCall, Charge;
    var target := ResolveCall(vm, addr, m, callee);
    if target.ToNative? { ChargeAlike(limit, spent, target.entry.gasCost); }
  }

  /** A call never takes gas back. */
  lemma CallSpends(vm: Machine, addr: Address, m: Module, callee: Name, f: FrameState, gas: Gas, log: seq<NativeEvent>)
    ensures var move := FetchCall(vm, addr, m, callee, f, gas, log);
            gas.spent <= if move.Stop? then move.outcome.gas.spent else move.gas.spent
  {
    hide ResolveCall, Charge;
  }

  lemma {:induction false} RunMetered(
    vm: Machine, addr: Address, m: Module, code: seq<Instr>, f: FrameState, limit: u64, spent: u64,
    log: seq<NativeEvent>, depth: nat)
    requires spent <= limit && Halting(vm, m, Unlimited(spent)) && Forward(code) && depth < vm.config.maxCallDepth
    ensures Halting(vm, m, Gas(limit, spent))
    ensures Metered(Run(vm, addr, m, code, f, Gas(limit, spent), log, depth),
                    Run(vm, addr, m, code, f, Unlimited(spent), log, depth), limit)
    decreases Budget(vm, Unlimited(spent), depth), 0, CodeLeft(code, f.pc)
  {
    hide Fetch, Halting;
    var free := Unlimited(spent);
    AnyHalts(vm, m, free, Gas(limit, spent));
    if f.pc < |code| {
      FetchAdvances(vm, addr, m, code, f, free, log);
      FetchAlike(vm, addr, m, code, f, limit, spent, log);
      match Fetch(vm, addr, m, code, f, free, log)
      case Stop(_) =>
      case Go(g, gas1, log1) =>
        StillHalts(vm, m, free, gas1);
        if gas1.spent <= limit { RunMetered(vm, addr, m, code, g, limit, gas1.spent, log1, depth); }
      case Enter(a, m', fn, args, back, gas1) =>
        EnteredHalts(vm, addr, m, code, f, free, log);
        if gas1.spent <= limit { EnterMetered(vm, addr, m, code, f, limit, spent, log, depth); }
    }
  }

  lemma AnyHalts(vm: Machine, m: Module, gas: Gas, gas': Gas)
    requires gas.limit == U64_MAX && Halting(vm, m, gas)
    ensures Halting(vm, m, gas')
  {
  }

  lemma {:induction false} EnterMetered(
    vm: Machine, addr: Address, m: Module, code: seq<Instr>, f: FrameState, limit: u64, spent: u64,
    log: seq<NativeEvent>, depth: nat)
    requires spent <= limit && Halting(vm, m, Unlimited(spent)) && Halting(vm, m, Gas(limit, spent))
    requires Forward(code) && depth < vm.config.maxCallDepth
    requires f.pc < |code| && Fetch(vm, addr, m, code, f, Unlimited(spent), log).Enter?
    requires Fetch(vm, addr, m, code, f, Unlimited(spent), log).gas.spent <= limit
    ensures Metered(Run(vm, addr, m, code, f, Gas(limit, spent), log, depth),
                    Run(vm, addr, m, code, f, Unlimited(spent), log, depth), limit)
    decreases Budget(vm, Unlimited(spent), depth), 0, CodeLeft(code, f.pc), 0
  {
    hide Fetch, Halting;
    var free := Unlimited(spent);
    FetchAdvances(vm, addr, m, code, f, free, log);
    FetchAlike(vm, addr, m, code, f, limit, spent, log);
    EnteredHalts(vm, addr, m, code, f, free, log);
    var move := Fetch(vm, addr, m, code, f, free, log);
    var gas1 := move.gas;
    StillHalts(vm, move.m, free, gas1);
    AnyHalts(vm, move.m, gas1, Gas(limit, gas1.spent));
    CallMetered(vm, move.addr, move.m, move.fn.name, move.args, limit, gas1.spent, log, depth + 1);
    var o := CallInner(vm, move.addr, move.m, move.fn.name, move.args, gas1, log, depth + 1);
    if o.Returned? {
      StillHalts(vm, m, free, o.gas);
      if o.gas.spent <= limit {
        RunMetered(vm, addr, m, code, Push(move.back, Landed(o.value)), limit, o.gas.spent, o.log, depth);
      }
    }
  }

  /** A gas limit changes nothing about a call that stays within it, and every other call runs dry
      under it. */
  lemma {:induction false} CallMetered(
    vm: Machine, addr: Address, m: Module, name: string, args: seq<Value>, limit: u64, spent: u64,
    log: seq<NativeEvent>, depth: nat)
    requires spent <= limit && Halting(vm, m, Unlimited(spent))
    ensures Halting(vm, m, Gas(limit, spent))
    ensures Metered(CallInner(vm, addr, m, name, args, Gas(limit, spent), log, depth),
                    CallInner(vm, addr, m, name, args, Unlimited(spent), log, depth), limit)
    decreases Budget(vm, Unlimited(spent), depth), 1, 0
  {
    hide Run;
    AnyHalts(vm, m, Unlimited(spent), Gas(limit, spent));
    var fn := GetFunction(m, name);
    if depth < vm.config.maxCallDepth && fn.Some? && |args| <= fn.value.localCount {
      RunMetered(vm, addr, m, fn.value.code, NewFrame(args, fn.value.localCount), limit, spent, log, depth);
    }
  }
}
