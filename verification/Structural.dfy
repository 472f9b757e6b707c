/** Phase 1 of bytecode verification: shape checks that need no stack simulation. */
module Structural {
  import opened MeowTypes
  import opened Verifier
  import opened Graphs

  datatype Limits = Limits(
    maxIdentifierLen: nat,
    maxStructs: nat,
    maxFunctions: nat,
    maxFields: nat,
    maxParams: nat,
    maxTupleElements: nat,
    maxLocals: nat,
    maxCodeSize: nat,
    maxImports: nat,
    reservedNames: seq<string>)

  datatype ShapeError =
    | InvalidIdentifier(name: string)
    | TooMany(what: string)
    | DuplicateStructName(name: string)
    | EmptyStruct(name: string)
    | TupleFieldType(name: string)
    | UnresolvedTypeReference
    | CrossModulePrivateStructReference
    | CyclicStructDefinition(name: string)
    | DuplicateFunctionName(name: string)
    | LocalCountTooSmall(name: string)
    | TupleTooLarge(name: string)
    | BadInstruction(pc: nat)

  //
  // What the checks demand
  //

  predicate IdentStart(c: char) {
    'a' <= c <= 'z' || 'A' <= c <= 'Z' || c == '_'
  }

  predicate ValidIdentifier(s: string, cfg: Limits) {
    && 0 < |s| <= cfg.maxIdentifierLen && IdentStart(s[0])
    && forall i | 0 < i < |s| :: IdentStart(s[i]) || '0' <= s[i] <= '9'
  }

  /** What the per-instruction checks demand of instruction `pc` of `fn`. */
  predicate InstrShape(m: Module, deps: map<Address, Module>, maxTuple: nat, fn: Function, pc: nat)
    requires pc < |fn.code|
  {
    match fn.code[pc]
    case Load(slot) => slot < fn.localCount
    case Store(slot) => slot < fn.localCount
    case LoadField(slot, path) => slot < fn.localCount && path != []
    case StoreField(slot, path) => slot < fn.localCount && path != []
    case Jump(offset) => offset > 0 && pc + offset <= |fn.code|
    case JumpIf(offset) => offset > 0 && pc + offset <= |fn.code|
    case JumpIfNot(offset) => offset > 0 && pc + offset <= |fn.code|
    case NewStruct(tn, names) => OwnStruct(m, tn, names)
    case UnpackStruct(tn, names) => OwnStruct(m, tn, names)
    case Call(Qualified(a, n)) =>
      a in deps && GetFunction(deps[a], n).Some? ==> GetFunction(deps[a], n).value.isPublic
    case MakeTuple(n) => n <= maxTuple
    case UnpackTuple(n) => n <= maxTuple
    case _ => true
  }

  /** `tn` is a struct of `m` whose fields are `names`, in order. */
  predicate OwnStruct(m: Module, tn: Name, names: seq<string>) {
    tn.Local? && GetStruct(m, tn.name).Some? && names == FieldNames(GetStruct(m, tn.name).value)
  }

  predicate IsPrimitive(t: Type) {
    t == Bool || t == U64 || t == Addr || t == Str
  }

  predicate ValidFieldType(t: Type) {
    IsPrimitive(t) || t.Struct?
  }

  predicate FieldsShape(m: Module) {
    forall s, f | s in m.structs && f in s.fields :: ValidFieldType(f.ty)
  }

  predicate CodeShape(m: Module, deps: map<Address, Module>, maxTuple: nat, fn: Function) {
    && |fn.params| <= fn.localCount
    && forall pc | 0 <= pc < |fn.code| :: InstrShape(m, deps, maxTuple, fn, pc)
  }

  /** Every struct named in `t` is the module's own, or a public struct of an import. */
  predicate TypeRefOk(t: Type, m: Module, deps: map<Address, Module>) {
    match t
    case Struct(Local(n)) => GetStruct(m, n).Some?
    case Struct(Qualified(a, n)) =>
      a in m.imports && (a in deps ==> GetStruct(deps[a], n).Some? && GetStruct(deps[a], n).value.isPublic)
    case Tuple(ts) => forall i | 0 <= i < |ts| :: TypeRefOk(ts[i], m, deps)
    case _ => true
  }

  predicate FieldOk(f: FieldDef, m: Module, deps: map<Address, Module>, cfg: Limits) {
    ValidIdentifier(f.name, cfg) && ValidFieldType(f.ty) && TypeRefOk(f.ty, m, deps)
  }

  predicate StructOk(s: StructDef, m: Module, deps: map<Address, Module>, cfg: Limits) {
    && ValidIdentifier(s.name, cfg)
    && 0 < |s.fields| <= cfg.maxFields
    && forall i | 0 <= i < |s.fields| :: FieldOk(s.fields[i], m, deps, cfg)
  }

  predicate SignatureOk(fn: Function, m: Module, deps: map<Address, Module>, cfg: Limits) {
    && (forall i | 0 <= i < |fn.params| :: TypeRefOk(fn.params[i].ty, m, deps))
    && (fn.ret.Some? ==> TypeRefOk(fn.ret.value, m, deps))
    && (fn.ret.Some? && fn.ret.value.Tuple? ==> |fn.ret.value.elems| <= cfg.maxTupleElements)
  }

  predicate FunctionNameOk(name: string, cfg: Limits) {
    ValidIdentifier(name, cfg) && name != "meow_vm_abort" && name !in cfg.reservedNames
  }

  predicate FunctionShape(fn: Function, m: Module, deps: map<Address, Module>, cfg: Limits) {
    && FunctionNameOk(fn.name, cfg) && SignatureOk(fn, m, deps, cfg)
    && |fn.params| <= cfg.maxParams && |fn.code| <= cfg.maxCodeSize && fn.localCount <= cfg.maxLocals
    && CodeShape(m, deps, cfg.maxTupleElements, fn)
  }

  function StructNames(m: Module): (r: seq<string>)
    ensures |r| == |m.structs| && forall i | 0 <= i < |r| :: r[i] == m.structs[i].name
  {
    seq(|m.structs|, i requires 0 <= i < |m.structs| => m.structs[i].name)
  }

  /** Local struct names used as field types, in field order. */
  function LocalFieldTypes(fields: seq<FieldDef>): (r: seq<string>) {
    if fields == [] then []
    else
      (if fields[0].ty.Struct? && fields[0].ty.tn.Local? then [fields[0].ty.tn.name] else []) +
      LocalFieldTypes(fields[1..])
  }

  /** Which of the module's structs appear as field types of which. */
  function StructGraph(m: Module): (r: Graph<string>) {
    map n | n in StructNames(m) ::
      if GetStruct(m, n).Some? then LocalFieldTypes(GetStruct(m, n).value.fields) else []
  }

  predicate DistinctBy(names: seq<string>) {
    forall i, j | 0 <= i < j < |names| :: names[i] != names[j]
  }

  function FunctionNames(m: Module): (r: seq<string>)
    ensures |r| == |m.functions| && forall i | 0 <= i < |r| :: r[i] == m.functions[i].name
  {
    seq(|m.functions|, i requires 0 <= i < |m.functions| => m.functions[i].name)
  }

  /** Everything the structural phase demands of a module. */
  ghost predicate WellShaped(m: Module, deps: map<Address, Module>, cfg: Limits) {
    && ValidIdentifier(m.name, cfg)
    && |m.structs| <= cfg.maxStructs && |m.functions| <= cfg.maxFunctions && |m.imports| <= cfg.maxImports
    && DistinctBy(StructNames(m)) && DistinctBy(FunctionNames(m))
    && (forall i | 0 <= i < |m.structs| :: StructOk(m.structs[i], m, deps, cfg))
    && !Cyclic(StructGraph(m))
    && (forall i | 0 <= i < |m.functions| :: FunctionShape(m.functions[i], m, deps, cfg))
  }

  //
  // The checks
  //

  method CheckTypeRef(t: Type, m: Module, deps: map<Address, Module>) returns (errors: seq<ShapeError>)
    ensures errors == [] <==> TypeRefOk(t, m, deps)
    decreases t
  {
    errors := [];
    match t {
      case Struct(Local(n)) =>
        if GetStruct(m, n).None? { errors := [UnresolvedTypeReference]; }
      case Struct(Qualified(a, n)) =>
        if a !in m.imports {
          errors := [UnresolvedTypeReference];
        } else if a in deps {
          if GetStruct(deps[a], n).None? {
            errors := [UnresolvedTypeReference];
          } else if !GetStruct(deps[a], n).value.isPublic {
            errors := [CrossModulePrivateStructReference];
          }
        }
      case Tuple(ts) =>
        for i := 0 to |ts|
          invariant errors == [] <==> forall j | 0 <= j < i :: TypeRefOk(ts[j], m, deps)
        {
          var e := CheckTypeRef(ts[i], m, deps);
          errors := errors + e;
        }
      case _ =>
    }
  }

  method CheckDuplicates(names: seq<string>) returns (duplicates: seq<string>)
    ensures duplicates == [] <==> DistinctBy(names)
  {
    var seen: set<string> := {};
    duplicates := [];
    for i := 0 to |names|
      invariant forall s :: s in seen <==> s in names[..i]
      invariant duplicates == [] <==> DistinctBy(names[..i])
    {
      assert names[..i + 1] == names[..i] + [names[i]];
      if names[i] in seen {
        var k :| 0 <= k < i && names[..i][k] == names[i];
        assert names[..i + 1][k] == names[..i + 1][i];
        duplicates := duplicates + [names[i]];
      } else {
        DistinctPush(names[..i], names[i]);
      }
      seen := seen + {names[i]};
    }
    assert names[..|names|] == names;
  }

  lemma DistinctPush(names: seq<string>, n: string)
    requires n !in names
    ensures DistinctBy(names + [n]) <==> DistinctBy(names)
  {
    if DistinctBy(names + [n]) {
      forall i, j | 0 <= i < j < |names| ensures names[i] != names[j] {
        assert (names + [n])[i] == names[i] && (names + [n])[j] == names[j];
      }
    }
  }

  method CheckStruct(s: StructDef, m: Module, deps: map<Address, Module>, cfg: Limits) returns (errors: seq<ShapeError>)
    ensures errors == [] <==> StructOk(s, m, deps, cfg)
  {
    errors := [];
    if !ValidIdentifier(s.name, cfg) { errors := errors + [InvalidIdentifier(s.name)]; }
    if |s.fields| == 0 { errors := errors + [EmptyStruct(s.name)]; }
    if |s.fields| > cfg.maxFields { errors := errors + [TooMany("fields")]; }
    ghost var headOk := ValidIdentifier(s.name, cfg) && 0 < |s.fields| <= cfg.maxFields;
    for i := 0 to |s.fields|
      invariant errors == [] <==> headOk && forall j | 0 <= j < i :: FieldOk(s.fields[j], m, deps, cfg)
    {
      var f := s.fields[i];
      if !ValidIdentifier(f.name, cfg) { errors := errors + [InvalidIdentifier(f.name)]; }
      if !ValidFieldType(f.ty) { errors := errors + [TupleFieldType(f.name)]; }
      var e := CheckTypeRef(f.ty, m, deps);
      errors := errors + e;
    }
  }

  method CheckSignature(fn: Function, m: Module, deps: map<Address, Module>, cfg: Limits) returns (errors: seq<ShapeError>)
    ensures errors == [] <==> SignatureOk(fn, m, deps, cfg)
  {
    errors := [];
    for i := 0 to |fn.params|
      invariant errors == [] <==> forall j | 0 <= j < i :: TypeRefOk(fn.params[j].ty, m, deps)
    {
      var e := CheckTypeRef(fn.params[i].ty, m, deps);
      errors := errors + e;
    }
    if fn.ret.Some? {
      var e := CheckTypeRef(fn.ret.value, m, deps);
      errors := errors + e;
      if fn.ret.value.Tuple? && |fn.ret.value.elems| > cfg.maxTupleElements {
        errors := errors + [TupleTooLarge(fn.name)];
      }
    }
  }

  method CheckFunctionShape(fn: Function, m: Module, deps: map<Address, Module>, cfg: Limits) returns (errors: seq<ShapeError>)
    ensures errors == [] <==> FunctionShape(fn, m, deps, cfg)
  {
    errors := CheckSignature(fn, m, deps, cfg);
    if !FunctionNameOk(fn.name, cfg) { errors := errors + [InvalidIdentifier(fn.name)]; }
    if fn.localCount < |fn.params| { errors := errors + [LocalCountTooSmall(fn.name)]; }
    if |fn.params| > cfg.maxParams { errors := errors + [TooMany("params")]; }
    if |fn.code| > cfg.maxCodeSize { errors := errors + [TooMany("instructions")]; }
    if fn.localCount > cfg.maxLocals { errors := errors + [TooMany("locals")]; }
    ghost var headOk := errors == [];
    for pc := 0 to |fn.code|
      invariant errors == [] <==> headOk && forall q | 0 <= q < pc :: InstrShape(m, deps, cfg.maxTupleElements, fn, q)
    {
      if !InstrShape(m, deps, cfg.maxTupleElements, fn, pc) { errors := errors + [BadInstruction(pc)]; }
    }
  }

  /** `check_module`: no error exactly when the module is well shaped. */
  method CheckModule(m: Module, deps: map<Address, Module>, cfg: Limits) returns (errors: seq<ShapeError>)
    ensures errors == [] <==> WellShaped(m, deps, cfg)
  {
    errors := [];
    if !ValidIdentifier(m.name, cfg) { errors := errors + [InvalidIdentifier(m.name)]; }
    if |m.structs| > cfg.maxStructs { errors := errors + [TooMany("structs")]; }
    if |m.functions| > cfg.maxFunctions { errors := errors + [TooMany("functions")]; }
    if |m.imports| > cfg.maxImports { errors := errors + [TooMany("imports")]; }
    var twice := CheckDuplicates(StructNames(m));
    if twice != [] { errors := errors + [DuplicateStructName(twice[0])]; }
    ghost var headOk := errors == [];
    for i := 0 to |m.structs|
      invariant errors == [] <==> headOk && forall j | 0 <= j < i :: StructOk(m.structs[j], m, deps, cfg)
    {
      var e := CheckStruct(m.structs[i], m, deps, cfg);
      errors := errors + e;
    }
    var cycles := ReportCycles(StructGraph(m), StructNames(m));
    if cycles != [] { errors := errors + [CyclicStructDefinition(cycles[0])]; }
    var again := CheckDuplicates(FunctionNames(m));
    if again != [] { errors := errors + [DuplicateFunctionName(again[0])]; }
    ghost var bodyOk := errors == [];
    for i := 0 to |m.functions|
      invariant errors == [] <==> bodyOk && forall j | 0 <= j < i :: FunctionShape(m.functions[j], m, deps, cfg)
    {
      var e := CheckFunctionShape(m.functions[i], m, deps, cfg);
      errors := errors + e;
    }
  }
}
