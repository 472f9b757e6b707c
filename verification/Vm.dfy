/** The stack machine: what one instruction does to a frame, and what a call does. */
module Vm {
  import opened MeowTypes

  datatype VmError =
    | Aborted(code: u64, message: string)
    | ArithmeticOverflow
    | ArityMismatch
    | CallStackOverflow
    | DivisionByZero
    | EqOnLinearType
    | InvalidJumpTarget
    | LinearFieldOverwrite
    | NativeError(message: string)
    | NativeFunctionCallDirect
    | OutOfGas
    | PrivateFunction
    | SlotOverwrite
    | StackUnderflow
    | TooManyDepModules
    | TypeError
    | UndefinedField
    | UndefinedFunction
    | UndefinedStruct
    | UndefinedVariable
    | UseAfterMove

  datatype Res<+T> = Ok(value: T) | Err(error: VmError)

  datatype Config = Config(maxCallDepth: nat, maxDepModules: nat, callPrivate: bool)

  datatype Machine = Machine(
    addr: Address,
    main: Module,
    deps: map<Address, Module>,
    natives: map<string, NativeEntry>,
    config: Config)

  //
  // Gas
  //

  /** A gas meter's reading; `spent` never passes `limit`. */
  datatype Gas' = Gas(limit: u64, spent: u64)
  type Gas = g: Gas' | g.spent <= g.limit witness Gas(0, 0)

  function SaturatingAdd(a: u64, b: u64): (r: u64) {
    if a + b > U64_MAX then U64_MAX else a + b
  }

  /** The meter after charging `cost`, and whether the limit held. */
  function Charge(g: Gas, cost: u64): (r: (bool, Gas))
    ensures r.1.limit == g.limit && g.spent <= r.1.spent
    ensures g.limit < U64_MAX ==> (r.0 <==> g.spent + cost <= g.limit)
    ensures r.0 && g.limit < U64_MAX ==> r.1.spent == g.spent + cost
  {
    var sum := SaturatingAdd(g.spent, cost);
    if sum > g.limit then (false, g.(spent := g.limit)) else (true, g.(spent := sum))
  }

  /** Only packing or unpacking an empty tuple or field list is free of charge. */
  function CostOf(i: Instr): (c: nat)
    ensures c == 0 ==> i.MakeTuple? || i.UnpackTuple? || i.UnpackStruct?
  {
    match i
    case PushBool(_) | PushU64(_) | PushAddress(_) => 1
    case PushStr(_) => 2
    case Load(_) | Store(_) => 1
    case LoadField(_, _) => 2
    case StoreField(_, _) => 5
    case Add | Sub | Mul => 2
    case Div | Mod => 5
    case Eq | Ne | Lt | Le | Gt | Ge => 2
    case Not | And | Or => 1
    case NewStruct(_, names) => 10 + |names| * 2
    case GetField(_) => 3
    case Pop | Dup => 1
    case Jump(_) | JumpIf(_) | JumpIfNot(_) => 2
    case Call(_) => 20
    case Return => 2
    case MakeTuple(n) => n
    case UnpackTuple(n) => n
    case UnpackStruct(_, names) => |names|
  }

  //
  // Frames
  //

  datatype FrameState = FrameState(locals: seq<Option<Value>>, stack: seq<Value>, pc: nat)

  function Push(f: FrameState, v: Value): (r: FrameState) {
    f.(stack := f.stack + [v])
  }

  function Top(s: seq<Value>): (r: Option<Value>) {
    if s == [] then None else Some(s[|s| - 1])
  }

  function NewFrame(args: seq<Value>, localCount: nat): (f: FrameState)
    requires |args| <= localCount
    ensures |f.locals| == localCount && f.stack == [] && f.pc == 0
    ensures forall i | 0 <= i < localCount :: f.locals[i] == if i < |args| then Some(args[i]) else None
  {
    FrameState(seq(localCount, i requires 0 <= i < localCount => if i < |args| then Some(args[i]) else None), [], 0)
  }

  function JumpTarget(pc: nat, offset: int): (r: Res<nat>) {
    if pc - 1 + offset < 0 then Err(InvalidJumpTarget) else Ok(pc - 1 + offset)
  }

  //
  // Struct fields
  //

  /** Index of the first field called `name`. */
  function FieldIndex(fields: seq<Field>, name: string): (r: Option<nat>)
    ensures r.Some? ==> r.value < |fields| && fields[r.value].name == name
    ensures r.Some? ==> forall j | 0 <= j < r.value :: fields[j].name != name
    ensures r.None? ==> forall j | 0 <= j < |fields| :: fields[j].name != name
  {
    if fields == [] then None
    else if fields[0].name == name then Some(0)
    else
      var rest := FieldIndex(fields[1..], name);
      if rest.None? then None else Some(rest.value + 1)
  }

  function ReadFieldPath(v: Value, path: seq<string>): (r: Res<Value>)
    decreases |path|
  {
    if path == [] then Ok(v)
    else if !v.VStruct? then Err(TypeError)
    else
      var i := FieldIndex(v.fields, path[0]);
      if i.None? then Err(UndefinedField) else ReadFieldPath(v.fields[i.value].value, path[1..])
  }

  function WriteFieldPath(v: Value, path: seq<string>, x: Value): (r: Res<Value>)
    decreases |path|
  {
    if path == [] then Err(TypeError)
    else if !v.VStruct? then Err(TypeError)
    else
      var i := FieldIndex(v.fields, path[0]);
      if i.None? then Err(UndefinedField)
      else
        var was := v.fields[i.value];
        if |path| == 1 then
          if IsLinearValue(was.value) then Err(LinearFieldOverwrite)
          else Ok(v.(fields := v.fields[i.value := was.(value := x)]))
        else
          match WriteFieldPath(was.value, path[1..], x)
          case Err(e) => Err(e)
          case Ok(inner) => Ok(v.(fields := v.fields[i.value := was.(value := inner)]))
  }

  /** Collecting fields into a hash map: a repeated name keeps its last value. */
  function FieldMap(fields: seq<Field>): (r: map<string, Value>) {
    if fields == [] then map[]
    else
      var last := fields[|fields| - 1];
      FieldMap(fields[..|fields| - 1])[last.name := last.value]
  }

  /** The values removed from `m` in reverse order of `names`, in the order they are pushed. */
  function TakeFields(m: map<string, Value>, names: seq<string>): (r: Res<seq<Value>>)
    ensures r.Ok? ==> |r.value| == |names|
  {
    if names == [] then Ok([])
    else
      var last := names[|names| - 1];
      if last !in m then Err(UndefinedField)
      else
        match TakeFields(m - {last}, names[..|names| - 1])
        case Err(e) => Err(e)
        case Ok(rest) => Ok([m[last]] + rest)
  }

  function MakeFields(names: seq<string>, values: seq<Value>): (r: seq<Field>)
    requires |names| == |values|
    ensures |r| == |names|
  {
    seq(|names|, i requires 0 <= i < |names| => Field(names[i], values[i]))
  }

  function Reverse<T>(s: seq<T>): (r: seq<T>)
    ensures |r| == |s|
    ensures forall i | 0 <= i < |s| :: r[i] == s[|s| - 1 - i]
  {
    if s == [] then [] else [s[|s| - 1]] + Reverse(s[..|s| - 1])
  }

  //
  // One instruction
  //

  function Arith(i: Instr, a: u64, b: u64): (r: Res<Value>)
    requires i.Add? || i.Sub? || i.Mul? || ((i.Div? || i.Mod?) && b != 0)
  {
    var r :=
      if i.Add? then a + b
      else if i.Sub? then a - b
      else if i.Mul? then a * b
      else if i.Div? then a / b
      else a % b;
    if 0 <= r <= U64_MAX then Ok(VU64(r)) else Err(ArithmeticOverflow)
  }

  function ExecBinary(i: Instr, l: Value, r: Value): (result: Res<Value>) {
    match i
    case Add | Sub | Mul =>
      if l.VU64? && r.VU64? then Arith(i, l.n, r.n) else Err(TypeError)
    case Div | Mod =>
      if r == VU64(0) then Err(DivisionByZero)
      else if l.VU64? && r.VU64? then Arith(i, l.n, r.n) else Err(TypeError)
    case Eq =>
      if IsLinearValue(l) || IsLinearValue(r) then Err(EqOnLinearType) else Ok(VBool(l == r))
    case Ne =>
      if IsLinearValue(l) || IsLinearValue(r) then Err(EqOnLinearType) else Ok(VBool(l != r))
    case Lt =>
      if l.VU64? && r.VU64? then Ok(VBool(l.n < r.n)) else Err(TypeError)
    case Le =>
      if l.VU64? && r.VU64? then Ok(VBool(!(r.n < l.n))) else Err(TypeError)
    case Gt =>
      if l.VU64? && r.VU64? then Ok(VBool(r.n < l.n)) else Err(TypeError)
    case Ge =>
      if l.VU64? && r.VU64? then Ok(VBool(!(l.n < r.n))) else Err(TypeError)
    case And =>
      if l.VBool? && r.VBool? then Ok(VBool(l.b && r.b)) else Err(TypeError)
    case Or =>
      if l.VBool? && r.VBool? then Ok(VBool(l.b || r.b)) else Err(TypeError)
    case _ => Err(TypeError)
  }

  function ExecOperator(i: Instr, f: FrameState): (r: Res<FrameState>) {
    var k := |f.stack| - 2;
    if k < 0 then Err(StackUnderflow)
    else
      match ExecBinary(i, f.stack[k], f.stack[k + 1])
      case Err(e) => Err(e)
      case Ok(v) => Ok(f.(stack := f.stack[..k] + [v]))
  }

  predicate IsBinary(i: Instr) {
    i.Add? || i.Sub? || i.Mul? || i.Div? || i.Mod? || i.Eq? || i.Ne? ||
    i.Lt? || i.Le? || i.Gt? || i.Ge? || i.And? || i.Or?
  }

  function ExecLoad(slot: nat, f: FrameState): (r: Res<FrameState>) {
    if slot >= |f.locals| then Err(UndefinedVariable)
    else
      match f.locals[slot]
      case None => Err(UseAfterMove)
      case Some(v) =>
        if IsLinearValue(v) then Ok(Push(f.(locals := f.locals[slot := None]), v)) else Ok(Push(f, v))
  }

  /** Storing past the last slot grows the frame. */
  function Grow(locals: seq<Option<Value>>, slot: nat): (r: seq<Option<Value>>)
    ensures slot < |r| && locals <= r
    ensures slot < |locals| ==> r == locals
  {
    if slot < |locals| then locals else locals + seq(slot + 1 - |locals|, _ => None)
  }

  function ExecStore(slot: nat, f: FrameState): (r: Res<FrameState>) {
    if f.stack == [] then Err(StackUnderflow)
    else
      var v := f.stack[|f.stack| - 1];
      var locals := Grow(f.locals, slot);
      if locals[slot].Some? && IsLinearValue(locals[slot].value) then Err(SlotOverwrite)
      else Ok(f.(stack := f.stack[..|f.stack| - 1], locals := locals[slot := Some(v)]))
  }

  function ExecLoadField(slot: nat, path: seq<string>, f: FrameState): (r: Res<FrameState>) {
    if slot >= |f.locals| || f.locals[slot].None? then Err(UseAfterMove)
    else
      match ReadFieldPath(f.locals[slot].value, path)
      case Err(e) => Err(e)
      case Ok(v) => Ok(Push(f, v))
  }

  function ExecStoreField(slot: nat, path: seq<string>, f: FrameState): (r: Res<FrameState>) {
    if f.stack == [] then Err(StackUnderflow)
    else if slot >= |f.locals| || f.locals[slot].None? then Err(UseAfterMove)
    else
      match WriteFieldPath(f.locals[slot].value, path, f.stack[|f.stack| - 1])
      case Err(e) => Err(e)
      case Ok(v) => Ok(f.(stack := f.stack[..|f.stack| - 1], locals := f.locals[slot := Some(v)]))
  }

  /** The global name of the struct an instruction builds, if its definition is known. */
  function ResolveStructName(vm: Machine, addr: Address, m: Module, tn: Name): (r: Res<Name>) {
    match tn
    case Qualified(a, n) =>
      if a in vm.deps && GetStruct(vm.deps[a], n).Some? then Ok(tn) else Err(UndefinedStruct)
    case Local(n) =>
      if GetStruct(m, n).Some? then Ok(Qualified(addr, n)) else Err(UndefinedStruct)
  }

  function ExecNewStruct(vm: Machine, addr: Address, m: Module, tn: Name, names: seq<string>, f: FrameState)
    : (r: Res<FrameState>)
  {
    match ResolveStructName(vm, addr, m, tn)
    case Err(e) => Err(e)
    case Ok(q) =>
      var k := |f.stack| - |names|;
      if k < 0 then Err(StackUnderflow)
      else Ok(f.(stack := f.stack[..k] + [VStruct(q, MakeFields(names, f.stack[k..]))]))
  }

  function ExecGetField(field: string, f: FrameState): (r: Res<FrameState>) {
    if f.stack == [] then Err(StackUnderflow)
    else
      var v := f.stack[|f.stack| - 1];
      if !v.VStruct? then Err(TypeError)
      else
        var i := FieldIndex(v.fields, field);
        if i.None? then Err(UndefinedField)
        else Ok(f.(stack := f.stack[..|f.stack| - 1] + [v.fields[i.value].value]))
  }

  function ExecUnpackStruct(names: seq<string>, f: FrameState): (r: Res<FrameState>) {
    if f.stack == [] then Err(StackUnderflow)
    else
      var v := f.stack[|f.stack| - 1];
      if !v.VStruct? then Err(TypeError)
      else
        match TakeFields(FieldMap(v.fields), names)
        case Err(e) => Err(e)
        case Ok(vs) => Ok(f.(stack := f.stack[..|f.stack| - 1] + vs))
  }

  function ExecMakeTuple(n: nat, f: FrameState): (r: Res<FrameState>) {
    var k := |f.stack| - n;
    if k < 0 then Err(StackUnderflow) else Ok(f.(stack := f.stack[..k] + [VTuple(f.stack[k..])]))
  }

  function ExecUnpackTuple(n: nat, f: FrameState): (r: Res<FrameState>) {
    if f.stack == [] then Err(StackUnderflow)
    else
      var v := f.stack[|f.stack| - 1];
      if !v.VTuple? || |v.elems| != n then Err(TypeError)
      else Ok(f.(stack := f.stack[..|f.stack| - 1] + Reverse(v.elems)))
  }

  /** A conditional jump taken when the popped condition equals `when`. */
  function ExecBranch(when: bool, offset: int, f: FrameState): (r: Res<FrameState>) {
    if f.stack == [] then Err(StackUnderflow)
    else
      var v := f.stack[|f.stack| - 1];
      var g := f.(stack := f.stack[..|f.stack| - 1]);
      if !v.VBool? then Err(TypeError)
      else if v.b != when then Ok(g)
      else
        match JumpTarget(f.pc, offset)
        case Err(e) => Err(e)
        case Ok(t) => Ok(g.(pc := t))
  }

  /** The effect of every instruction but `Call` and `Return`; `f.pc` is already past it. */
  function Exec(vm: Machine, addr: Address, m: Module, i: Instr, f: FrameState): (r: Res<FrameState>)
    requires !i.Call? && !i.Return?
  {
    match i
    case PushBool(b) => Ok(Push(f, VBool(b)))
    case PushU64(n) => Ok(Push(f, VU64(n)))
    case PushAddress(a) => Ok(Push(f, VAddr(a)))
    case PushStr(s) => Ok(Push(f, VStr(s)))
    case Load(slot) => ExecLoad(slot, f)
    case Store(slot) => ExecStore(slot, f)
    case LoadField(slot, path) => ExecLoadField(slot, path, f)
    case StoreField(slot, path) => ExecStoreField(slot, path, f)
    case Not =>
      if f.stack == [] then Err(StackUnderflow)
      else if !f.stack[|f.stack| - 1].VBool? then Err(TypeError)
      else Ok(f.(stack := f.stack[..|f.stack| - 1] + [VBool(!f.stack[|f.stack| - 1].b)]))
    case NewStruct(tn, names) => ExecNewStruct(vm, addr, m, tn, names, f)
    case GetField(field) => ExecGetField(field, f)
    case UnpackStruct(_, names) => ExecUnpackStruct(names, f)
    case Pop =>
      if f.stack == [] then Err(StackUnderflow) else Ok(f.(stack := f.stack[..|f.stack| - 1]))
    case Dup =>
      if f.stack == [] then Err(StackUnderflow) else Ok(Push(f, f.stack[|f.stack| - 1]))
    case Jump(offset) =>
      (match JumpTarget(f.pc, offset)
       case Err(e) => Err(e)
       case Ok(t) => Ok(f.(pc := t)))
    case JumpIf(offset) => ExecBranch(true, offset, f)
    case JumpIfNot(offset) => ExecBranch(false, offset, f)
    case MakeTuple(n) => ExecMakeTuple(n, f)
    case UnpackTuple(n) => ExecUnpackTuple(n, f)
    case _ => ExecOperator(i, f)
  }

  //
  // Calls
  //

  datatype Target =
    | ToFunction(addr: Address, m: Module, fn: Function)
    | ToNative(entry: NativeEntry)
    | ToNothing(error: VmError)

  function ResolveCall(vm: Machine, addr: Address, m: Module, callee: Name): (r: Target) {
    match callee
    case Qualified(a, n) =>
      if a !in vm.deps then ToNothing(UndefinedFunction)
      else
        var fn := GetFunction(vm.deps[a], n);
        if fn.None? then ToNothing(UndefinedFunction)
        else if !fn.value.isPublic then ToNothing(PrivateFunction)
        else ToFunction(a, vm.deps[a], fn.value)
    case Local(n) =>
      var fn := GetFunction(m, n);
      if fn.Some? then ToFunction(addr, m, fn.value)
      else if n in vm.natives then ToNative(vm.natives[n])
      else ToNothing(UndefinedFunction)
  }

  datatype Outcome =
    | Returned(value: Option<Value>, gas: Gas, log: seq<NativeEvent>)
    | Failed(error: VmError, gas: Gas, log: seq<NativeEvent>)

  /** Every jump goes to a later instruction. */
  predicate Forward(code: seq<Instr>) {
    forall i | i in code :: (i.Jump? || i.JumpIf? || i.JumpIfNot?) ==> i.offset > 0
  }

  predicate ForwardModule(m: Module) {
    forall fn | fn in m.functions :: Forward(fn.code)
  }

  /** The runs that are known to halt: every run under a gas limit that the saturating meter
      can pass, and every run of code without backward jumps. */
  predicate Halting(vm: Machine, m: Module, gas: Gas) {
    gas.limit < U64_MAX ||
    (ForwardModule(m) && forall a | a in vm.deps :: ForwardModule(vm.deps[a]))
  }

  /** First component of the halting measure: gas left, or call depth left when the meter
      cannot run out. */
  function Budget(vm: Machine, gas: Gas, depth: nat): (r: nat) {
    if gas.limit < U64_MAX then gas.limit - gas.spent
    else if depth <= vm.config.maxCallDepth then vm.config.maxCallDepth - depth
    else 0
  }

  function CodeLeft(code: seq<Instr>, pc: nat): (r: nat) {
    if pc < |code| then |code| - pc else 0
  }

  /** What the main loop does with one instruction: stop, go on in the same function, or call
      another one and come back to frame `back`. */
  datatype Move =
    | Stop(outcome: Outcome)
    | Go(f: FrameState, gas: Gas, log: seq<NativeEvent>)
    | Enter(addr: Address, m: Module, fn: Function, args: seq<Value>, back: FrameState, gas: Gas)

  /** The value a call leaves on the caller's stack. */
  function Landed(v: Option<Value>): (r: Value) {
    if v.Some? then v.value else VVoid
  }

  function FetchNative(entry: NativeEntry, f: FrameState, gas: Gas, log: seq<NativeEvent>): (r: Move) {
    var (paid, gas1) := Charge(gas, entry.gasCost);
    if !paid then Stop(Failed(OutOfGas, gas1, log))
    else
      var k := |f.stack| - |entry.sig.params|;
      if k < 0 then Stop(Failed(StackUnderflow, gas1, log))
      else
        var args := f.stack[k..];
        match entry.func(log, args)
        case NAbort(code, msg) => Stop(Failed(Aborted(code, msg), gas1, log))
        case NError(msg) => Stop(Failed(NativeError(msg), gas1, log))
        case NReturn(v) =>
          Go(f.(stack := f.stack[..k] + [Landed(v)]), gas1, log + [NativeEvent(entry.sig.name, args, v)])
  }

  function FetchCall(vm: Machine, addr: Address, m: Module, callee: Name, f: FrameState, gas: Gas, log: seq<NativeEvent>): (r: Move) {
    match ResolveCall(vm, addr, m, callee)
    case ToNothing(e) => Stop(Failed(e, gas, log))
    case ToNative(entry) => FetchNative(entry, f, gas, log)
    case ToFunction(a, m', fn) =>
      var k := |f.stack| - |fn.params|;
      if k < 0 then Stop(Failed(StackUnderflow, gas, log))
      else Enter(a, m', fn, f.stack[k..], f.(stack := f.stack[..k]), gas)
  }

  function CappedCost(i: Instr): (r: u64) {
    if CostOf(i) > U64_MAX then U64_MAX else CostOf(i)
  }

  function Fetch(vm: Machine, addr: Address, m: Module, code: seq<Instr>, f: FrameState, gas: Gas, log: seq<NativeEvent>): (r: Move)
    requires f.pc < |code|
  {
    var i := code[f.pc];
    var (paid, gas1) := Charge(gas, CappedCost(i));
    var f1 := f.(pc := f.pc + 1);
    if !paid then Stop(Failed(OutOfGas, gas1, log))
    else if i.Return? then Stop(Returned(Top(f.stack), gas1, log))
    else if i.Call? then FetchCall(vm, addr, m, i.callee, f1, gas1, log)
    else
      match Exec(vm, addr, m, i, f1)
      case Err(e) => Stop(Failed(e, gas1, log))
      case Ok(f2) => Go(f2, gas1, log)
  }

  /** The turn by kind of instruction. */
  lemma FetchShape(vm: Machine, addr: Address, m: Module, code: seq<Instr>, f: FrameState, gas: Gas, log: seq<NativeEvent>)
    requires f.pc < |code|
    ensures var i, paid, f1 := code[f.pc], Charge(gas, CappedCost(code[f.pc])), f.(pc := f.pc + 1);
            var move := Fetch(vm, addr, m, code, f, gas, log);
            && (!paid.0 ==> move == Stop(Failed(OutOfGas, paid.1, log)))
            && (paid.0 && i.Return? ==> move == Stop(Returned(Top(f.stack), paid.1, log)))
            && (paid.0 && i.Call? ==> move == FetchCall(vm, addr, m, i.callee, f1, paid.1, log))
            && (paid.0 && !i.Return? && !i.Call? ==>
                  var r := Exec(vm, addr, m, i, f1);
                  move == if r.Err? then Stop(Failed(r.error, paid.1, log)) else Go(r.value, paid.1, log))
  {
    hide Exec, FetchCall, Charge, CappedCost, Top;
  }

  /** The halting measure goes down: gas is spent, or the program counter moves on. */
  predicate Advances(code: seq<Instr>, f: FrameState, gas: Gas, move: Move) {
    match move
    case Stop(o) => o.gas.limit == gas.limit && gas.spent <= o.gas.spent
    case Go(g, gas1, _) =>
      && gas1.limit == gas.limit && gas.spent <= gas1.spent
      && ((gas.limit < U64_MAX && gas.spent == gas1.spent) || Forward(code) ==> f.pc < g.pc)
    case Enter(_, _, _, _, back, gas1) =>
      && gas1.limit == gas.limit && gas.spent <= gas1.spent
      && (gas.limit < U64_MAX ==> gas.spent < gas1.spent)
      && back.pc == f.pc + 1
  }

  lemma FetchAdvances(vm: Machine, addr: Address, m: Module, code: seq<Instr>, f: FrameState, gas: Gas, log: seq<NativeEvent>)
    requires f.pc < |code|
    ensures Advances(code, f, gas, Fetch(vm, addr, m, code, f, gas, log))
  {
    hide Exec, FetchCall, Charge;
    var i := code[f.pc];
    var (paid, gas1) := Charge(gas, CappedCost(i));
    var f1 := f.(pc := f.pc + 1);
    assert i in code;
    if paid && i.Call? {
      FetchCallAdvances(vm, addr, m, code, i.callee, f1, gas1, log);
    } else if paid && !i.Return? && Exec(vm, addr, m, i, f1).Ok? {
      ExecAdvances(vm, addr, m, i, f1);
    }
  }

  /** A call made at the instruction before `f.pc` keeps moving on from there. */
  lemma FetchCallAdvances(vm: Machine, addr: Address, m: Module, code: seq<Instr>, callee: Name, f: FrameState, gas: Gas, log: seq<NativeEvent>)
    ensures match FetchCall(vm, addr, m, callee, f, gas, log)
      case Stop(o) => o.gas.limit == gas.limit && gas.spent <= o.gas.spent
      case Go(g, gas1, _) => gas1.limit == gas.limit && gas.spent <= gas1.spent && g.pc == f.pc
      case Enter(_, _, _, _, back, gas1) => gas1 == gas && back.pc == f.pc
  {
  }

  /** A callee is a function of a loaded module. */
  lemma EnterLoaded(vm: Machine, addr: Address, m: Module, code: seq<Instr>, f: FrameState, gas: Gas, log: seq<NativeEvent>)
    requires f.pc < |code| && Fetch(vm, addr, m, code, f, gas, log).Enter?
    ensures var move := Fetch(vm, addr, m, code, f, gas, log);
      && GetFunction(move.m, move.fn.name) == Some(move.fn)
      && (if move.addr in vm.deps && vm.deps[move.addr] == move.m then true else move.addr == addr && move.m == m)
  {
  }

  /** The main loop of `call_inner` from frame `f` on. */
  function Run(vm: Machine, addr: Address, m: Module, code: seq<Instr>, f: FrameState,
               gas: Gas, log: seq<NativeEvent>, depth: nat): (o: Outcome)
    requires Halting(vm, m, gas)
    requires gas.limit == U64_MAX ==> Forward(code)
    requires depth < vm.config.maxCallDepth
    ensures o.gas.limit == gas.limit && gas.spent <= o.gas.spent
    decreases Budget(vm, gas, depth), 0, CodeLeft(code, f.pc)
  {
    if f.pc >= |code| then Returned(Top(f.stack), gas, log)
    else
      FetchAdvances(vm, addr, m, code, f, gas, log);
      match Fetch(vm, addr, m, code, f, gas, log)
      case Stop(o) => o
      case Go(f1, gas1, log1) => Run(vm, addr, m, code, f1, gas1, log1, depth)
      case Enter(a, m', fn, args, back, gas1) =>
        EnterLoaded(vm, addr, m, code, f, gas, log);
        match CallInner(vm, a, m', fn.name, args, gas1, log, depth + 1)
        case Failed(e, gas2, log2) => Failed(e, gas2, log2)
        case Returned(v, gas2, log2) => Run(vm, addr, m, code, Push(back, Landed(v)), gas2, log2, depth)
  }

  /** `call_inner`: look the function up, set its frame up, run it. */
  function CallInner(vm: Machine, addr: Address, m: Module, name: string, args: seq<Value>,
                     gas: Gas, log: seq<NativeEvent>, depth: nat): (o: Outcome)
    requires Halting(vm, m, gas)
    ensures o.gas.limit == gas.limit && gas.spent <= o.gas.spent
    decreases Budget(vm, gas, depth), 1, 0
  {
    if depth >= vm.config.maxCallDepth then Failed(CallStackOverflow, gas, log)
    else
      var fn := GetFunction(m, name);
      if fn.None? then Failed(UndefinedFunction, gas, log)
      else if |args| > fn.value.localCount then Failed(ArityMismatch, gas, log)
      else Run(vm, addr, m, fn.value.code, NewFrame(args, fn.value.localCount), gas, log, depth)
  }

  /** Only a jump can leave the program counter anywhere but after the instruction. */
  lemma ExecAdvances(vm: Machine, addr: Address, m: Module, i: Instr, f: FrameState)
    requires !i.Call? && !i.Return? && Exec(vm, addr, m, i, f).Ok?
    ensures var g := Exec(vm, addr, m, i, f).value;
      g.pc == f.pc || ((i.Jump? || i.JumpIf? || i.JumpIfNot?) && g.pc == f.pc - 1 + i.offset)
  {
  }
}
