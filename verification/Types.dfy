/** Types, values, instructions and compiled modules shared by the virtual machine, the
    bytecode verifier and the code generator. */
module MeowTypes {

  datatype Option<+T> = None | Some(value: T)

  const U64_MAX: int := 0xFFFF_FFFF_FFFF_FFFF
  type u64 = x: int | 0 <= x <= U64_MAX

  /** On-chain addresses are only compared, so a number stands for the 32 bytes. */
  type Address = nat

  /** A name as it appears in bytecode: a plain identifier, or `@<address>::identifier`. */
  datatype Name = Local(name: string) | Qualified(addr: Address, name: string)

  /** The verifier's abstract types. A declared type never mentions `Void`, which is the
      type of the sentinel a void call leaves on the stack. */
  datatype Type = Bool | U64 | Addr | Str | Struct(tn: Name) | Tuple(elems: seq<Type>) | Void

  datatype Value =
    | VBool(b: bool)
    | VU64(n: u64)
    | VAddr(a: Address)
    | VStr(s: string)
    | VVoid
    | VStruct(tn: Name, fields: seq<Field>)
    | VTuple(elems: seq<Value>)

  datatype Field = Field(name: string, value: Value)

  /** Structs are linear, and so is a tuple that holds a linear element. */
  predicate IsLinear(t: Type) {
    match t
    case Struct(_) => true
    case Tuple(ts) => exists i | 0 <= i < |ts| :: IsLinear(ts[i])
    case _ => false
  }

  predicate IsLinearValue(v: Value) {
    match v
    case VStruct(_, _) => true
    case VTuple(vs) => exists i | 0 <= i < |vs| :: IsLinearValue(vs[i])
    case _ => false
  }

  datatype Instr =
    | PushBool(b: bool)
    | PushU64(n: u64)
    | PushAddress(a: Address)
    | PushStr(s: string)
    | Load(slot: nat)
    | Store(slot: nat)
    | LoadField(slot: nat, path: seq<string>)
    | StoreField(slot: nat, path: seq<string>)
    | Add | Sub | Mul | Div | Mod
    | Eq | Ne | Lt | Le | Gt | Ge
    | Not | And | Or
    | NewStruct(tn: Name, fieldNames: seq<string>)
    | GetField(field: string)
    | UnpackStruct(tn: Name, fieldNames: seq<string>)
    | Pop | Dup
    | Jump(offset: int)
    | JumpIf(offset: int)
    | JumpIfNot(offset: int)
    | Call(callee: Name)
    | Return
    | MakeTuple(count: nat)
    | UnpackTuple(count: nat)

  datatype FieldDef = FieldDef(name: string, ty: Type)
  datatype StructDef = StructDef(name: string, fields: seq<FieldDef>, isPublic: bool)
  datatype Param = Param(name: string, ty: Type)

  datatype Function = Function(
    name: string,
    isPublic: bool,
    params: seq<Param>,
    ret: Option<Type>,
    localCount: nat,
    code: seq<Instr>)

  datatype Module = Module(
    name: string,
    imports: seq<Address>,
    structs: seq<StructDef>,
    functions: seq<Function>)

  /** The first struct of that name, as `Module::get_struct` finds it. */
  function FindStruct(defs: seq<StructDef>, name: string): (r: Option<StructDef>)
    ensures r.Some? ==> r.value in defs && r.value.name == name
    ensures r.None? <==> forall d | d in defs :: d.name != name
  {
    if defs == [] then None
    else if defs[0].name == name then Some(defs[0])
    else FindStruct(defs[1..], name)
  }

  function FindFunction(fns: seq<Function>, name: string): (r: Option<Function>)
    ensures r.Some? ==> r.value in fns && r.value.name == name
    ensures r.None? <==> forall f | f in fns :: f.name != name
  {
    if fns == [] then None
    else if fns[0].name == name then Some(fns[0])
    else FindFunction(fns[1..], name)
  }

  function GetStruct(m: Module, name: string): (r: Option<StructDef>)
    ensures r.Some? ==> r.value in m.structs && r.value.name == name
  {
    FindStruct(m.structs, name)
  }

  function GetFunction(m: Module, name: string): (r: Option<Function>)
    ensures r.Some? ==> r.value in m.functions && r.value.name == name
  {
    FindFunction(m.functions, name)
  }

  /** `qualify_type`: resolve every local struct name of `t` against the module at `a`. */
  function Qualify(a: Address, t: Type): (r: Type) {
    match t
    case Struct(Local(n)) => Struct(Qualified(a, n))
    case Tuple(ts) => Tuple(QualifyAll(a, ts))
    case _ => t
  }

  function QualifyAll(a: Address, ts: seq<Type>): (r: seq<Type>)
    ensures |r| == |ts|
    ensures forall i | 0 <= i < |ts| :: r[i] == Qualify(a, ts[i])
  {
    seq(|ts|, i requires 0 <= i < |ts| => Qualify(a, ts[i]))
  }

  lemma {:induction false} QualifyIdempotent(a: Address, b: Address, t: Type)
    ensures Qualify(a, Qualify(b, t)) == Qualify(b, t)
  {
    if t.Tuple? {
      forall i | 0 <= i < |t.elems| ensures Qualify(a, Qualify(b, t.elems[i])) == Qualify(b, t.elems[i]) {
        QualifyIdempotent(a, b, t.elems[i]);
      }
      assert QualifyAll(a, QualifyAll(b, t.elems)) == QualifyAll(b, t.elems);
    }
  }

  lemma {:induction false} QualifyLinear(a: Address, t: Type)
    ensures IsLinear(Qualify(a, t)) == IsLinear(t)
  {
    if t.Tuple? {
      forall i | 0 <= i < |t.elems| ensures IsLinear(Qualify(a, t.elems[i])) == IsLinear(t.elems[i]) {
        QualifyLinear(a, t.elems[i]);
      }
      var q := QualifyAll(a, t.elems);
      assert Qualify(a, t) == Tuple(q);
      assert IsLinear(t) == exists i | 0 <= i < |t.elems| :: IsLinear(t.elems[i]);
      if IsLinear(t) {
        var i :| 0 <= i < |t.elems| && IsLinear(t.elems[i]);
        assert IsLinear(q[i]);
      }
    }
  }

  //
  // Native functions
  //

  datatype NativeParam = Concrete(ty: Type) | AnyStruct | LocalStruct

  datatype NativeSig = NativeSig(name: string, params: seq<NativeParam>, ret: Option<Type>)

  datatype NativeResult = NReturn(value: Option<Value>) | NAbort(code: u64, message: string) | NError(message: string)

  /** One completed native call. */
  datatype NativeEvent = NativeEvent(name: string, args: seq<Value>, result: Option<Value>)

  /** Native closures share state that only they change, so what one returns is a function of
      its arguments and of the native calls completed before it. */
  datatype NativeEntry = NativeEntry(
    sig: NativeSig,
    gasCost: u64,
    func: (seq<NativeEvent>, seq<Value>) -> NativeResult)

  function FindNative(sigs: seq<NativeSig>, name: string): (r: Option<NativeSig>)
    ensures r.Some? ==> r.value in sigs && r.value.name == name
  {
    if sigs == [] then None
    else if sigs[0].name == name then Some(sigs[0])
    else FindNative(sigs[1..], name)
  }
}
