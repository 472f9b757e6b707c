/** Run-time values against types, relative to the struct tables of all loaded modules. */
module Typing {
  import opened MeowTypes
  import opened Vm
  import opened Verifier

  /** The definition behind the global name `@a::n`. */
  function DefAt(vm: Machine, a: Address, n: string): (r: Option<StructDef>) {
    if a in vm.deps then GetStruct(vm.deps[a], n)
    else if a == vm.addr then GetStruct(vm.main, n)
    else None
  }

  /** `m` is the module loaded at `addr`. */
  predicate Loaded(vm: Machine, addr: Address, m: Module) {
    if addr in vm.deps then vm.deps[addr] == m else addr == vm.addr && vm.main == m
  }

  /** `v` has global type `t`. A struct whose definition is not loaded is known by name only. */
  predicate HasType(vm: Machine, v: Value, t: Type)
    decreases v
  {
    match v
    case VBool(_) => t == Bool
    case VU64(_) => t == U64
    case VAddr(_) => t == Addr
    case VStr(_) => t == Str
    case VVoid => t == Void
    case VTuple(vs) => t.Tuple? && |t.elems| == |vs| && forall i | 0 <= i < |vs| :: HasType(vm, vs[i], t.elems[i])
    case VStruct(tn, fields) =>
      && t == Struct(tn) && tn.Qualified?
      && var def := DefAt(vm, tn.addr, tn.name);
         def.Some? ==>
           && |fields| == |def.value.fields|
           && forall i | 0 <= i < |fields| ::
                && fields[i].name == def.value.fields[i].name
                && HasType(vm, fields[i].value, Qualify(tn.addr, def.value.fields[i].ty))
  }

  predicate AllTyped(vm: Machine, addr: Address, vs: seq<Value>, ts: seq<Type>) {
    |vs| == |ts| && forall i | 0 <= i < |vs| :: HasType(vm, vs[i], Qualify(addr, ts[i]))
  }

  /** A value moves exactly when its type says so. */
  lemma {:induction false} TypedLinear(vm: Machine, v: Value, t: Type)
    requires HasType(vm, v, t)
    ensures IsLinearValue(v) == IsLinear(t)
  {
    if v.VTuple? {
      forall i | 0 <= i < |v.elems| ensures IsLinearValue(v.elems[i]) == IsLinear(t.elems[i]) {
        TypedLinear(vm, v.elems[i], t.elems[i]);
      }
      if IsLinear(t) {
        var i :| 0 <= i < |t.elems| && IsLinear(t.elems[i]);
        assert IsLinearValue(v.elems[i]);
      }
    }
  }

  /** Every value has at most one type. */
  lemma {:induction false} TypeUnique(vm: Machine, v: Value, t: Type, u: Type)
    requires HasType(vm, v, t) && HasType(vm, v, u)
    ensures t == u
  {
    if v.VTuple? {
      forall i | 0 <= i < |v.elems| ensures t.elems[i] == u.elems[i] {
        TypeUnique(vm, v.elems[i], t.elems[i], u.elems[i]);
      }
      assert t.elems == u.elems;
    }
  }

  /** Types of values mention no local name. */
  lemma {:induction false} TypedGlobal(vm: Machine, a: Address, v: Value, t: Type)
    requires HasType(vm, v, t)
    ensures Qualify(a, t) == t
  {
    if v.VTuple? {
      forall i | 0 <= i < |v.elems| ensures Qualify(a, t.elems[i]) == t.elems[i] {
        TypedGlobal(vm, a, v.elems[i], t.elems[i]);
      }
      assert QualifyAll(a, t.elems) == t.elems;
    }
  }

  //
  // Field paths
  //

  /** The type a field path really has, following definitions across modules. */
  function TruePathType(vm: Machine, t: Type, path: seq<string>): (r: Option<Type>)
    decreases |path|
  {
    if path == [] then Some(t)
    else if !(t.Struct? && t.tn.Qualified?) then None
    else
      var def := DefAt(vm, t.tn.addr, t.tn.name);
      if def.None? then None
      else
        var ft := FieldTypeIn(def.value.fields, path[0]);
        if ft.None? then None else TruePathType(vm, Qualify(t.tn.addr, ft.value), path[1..])
  }

  /** Looking a name up among values and among definitions finds the same field. */
  lemma {:induction false} FieldAgrees(fields: seq<Field>, defs: seq<FieldDef>, name: string)
    requires |fields| == |defs|
    requires forall i | 0 <= i < |fields| :: fields[i].name == defs[i].name
    ensures var i := FieldIndex(fields, name);
      if i.Some? then FieldTypeIn(defs, name) == Some(defs[i.value].ty) else FieldTypeIn(defs, name).None?
  {
    if fields != [] && fields[0].name != name {
      FieldAgrees(fields[1..], defs[1..], name);
    }
  }

  lemma {:induction false} ReadTyped(vm: Machine, v: Value, t: Type, path: seq<string>)
    requires HasType(vm, v, t) && TruePathType(vm, t, path).Some?
    ensures ReadFieldPath(v, path).Ok?
    ensures HasType(vm, ReadFieldPath(v, path).value, TruePathType(vm, t, path).value)
    decreases |path|
  {
    if path != [] {
      var def := DefAt(vm, t.tn.addr, t.tn.name).value;
      FieldAgrees(v.fields, def.fields, path[0]);
      var i := FieldIndex(v.fields, path[0]).value;
      ReadTyped(vm, v.fields[i].value, Qualify(t.tn.addr, def.fields[i].ty), path[1..]);
    }
  }

  /** On a value of type `t`, what a field read pushes has type `u` exactly when `u` is the
      path's true type. */
  lemma ReadTypedExactly(vm: Machine, v: Value, t: Type, path: seq<string>, u: Type)
    requires HasType(vm, v, t) && TruePathType(vm, t, path).Some?
    ensures ReadFieldPath(v, path).Ok?
    ensures HasType(vm, ReadFieldPath(v, path).value, u) <==> TruePathType(vm, t, path) == Some(u)
  {
    ReadTyped(vm, v, t, path);
    var r := ReadFieldPath(v, path).value;
    if HasType(vm, r, u) {
      TypeUnique(vm, r, u, TruePathType(vm, t, path).value);
    }
  }

  lemma {:induction false} WriteTyped(vm: Machine, v: Value, t: Type, path: seq<string>, x: Value)
    requires HasType(vm, v, t) && path != []
    requires TruePathType(vm, t, path).Some? && !IsLinear(TruePathType(vm, t, path).value)
    requires HasType(vm, x, TruePathType(vm, t, path).value)
    ensures WriteFieldPath(v, path, x).Ok?
    ensures HasType(vm, WriteFieldPath(v, path, x).value, t)
    decreases |path|
  {
    var def := DefAt(vm, t.tn.addr, t.tn.name).value;
    FieldAgrees(v.fields, def.fields, path[0]);
    var i := FieldIndex(v.fields, path[0]).value;
    var ft := Qualify(t.tn.addr, def.fields[i].ty);
    if |path| == 1 {
      assert path[1..] == [];
      TypedLinear(vm, v.fields[i].value, ft);
      UpdateTyped(vm, v, t, i, x);
    } else {
      WriteTyped(vm, v.fields[i].value, ft, path[1..], x);
      UpdateTyped(vm, v, t, i, WriteFieldPath(v.fields[i].value, path[1..], x).value);
    }
  }

  /** Every struct met along the path is defined by a loaded module. */
  predicate PathLoaded(vm: Machine, t: Type, path: seq<string>)
    decreases |path|
  {
    path != [] && t.Struct? && t.tn.Qualified? ==>
      var def := DefAt(vm, t.tn.addr, t.tn.name);
      && def.Some?
      && var ft := FieldTypeIn(def.value.fields, path[0]);
         ft.Some? ==> PathLoaded(vm, Qualify(t.tn.addr, ft.value), path[1..])
  }

  /** Reading a path that does not exist is a type error or an undefined field. */
  lemma {:induction false} ReadMissing(vm: Machine, v: Value, t: Type, path: seq<string>)
    requires HasType(vm, v, t) && PathLoaded(vm, t, path) && TruePathType(vm, t, path).None?
    ensures ReadFieldPath(v, path) in {Err(TypeError), Err(UndefinedField)}
    decreases |path|
  {
    if v.VStruct? {
      var def := DefAt(vm, t.tn.addr, t.tn.name).value;
      FieldAgrees(v.fields, def.fields, path[0]);
      var i := FieldIndex(v.fields, path[0]);
      if i.Some? {
        ReadMissing(vm, v.fields[i.value].value, Qualify(t.tn.addr, def.fields[i.value].ty), path[1..]);
      }
    }
  }

  /** The errors of a field write. */
  predicate RefusedWrite(r: Res<Value>) {
    r in {Err(TypeError), Err(UndefinedField), Err(LinearFieldOverwrite)}
  }

  /** A write keeps the type of the whole exactly when the path exists, is not linear, and has
      the type of what is written; otherwise it is refused or leaves a value of no such type. */
  lemma {:induction false} WriteTypedExactly(vm: Machine, v: Value, t: Type, path: seq<string>, x: Value, u: Type)
    requires HasType(vm, v, t) && PathLoaded(vm, t, path) && path != [] && HasType(vm, x, u)
    ensures var r := WriteFieldPath(v, path, x);
            && (r.Err? ==> RefusedWrite(r))
            && (r.Ok? && HasType(vm, r.value, t) <==> TruePathType(vm, t, path) == Some(u) && !IsLinear(u))
    decreases |path|
  {
    if TruePathType(vm, t, path) == Some(u) && !IsLinear(u) {
      WriteTyped(vm, v, t, path, x);
    }
    if v.VStruct? {
      var def := DefAt(vm, t.tn.addr, t.tn.name).value;
      FieldAgrees(v.fields, def.fields, path[0]);
      var i := FieldIndex(v.fields, path[0]);
      if i.Some? {
        var ft := Qualify(t.tn.addr, def.fields[i.value].ty);
        if |path| == 1 {
          WriteLast(vm, v, t, path, x, u, i.value, ft);
        } else {
          WriteTypedExactly(vm, v.fields[i.value].value, ft, path[1..], x, u);
          WriteInner(vm, v, t, path, x, i.value, ft);
        }
      }
    }
  }

  lemma WriteLast(vm: Machine, v: Value, t: Type, path: seq<string>, x: Value, u: Type, i: nat, ft: Type)
    requires HasType(vm, v, t) && v.VStruct? && DefAt(vm, t.tn.addr, t.tn.name).Some?
    requires |path| == 1 && FieldIndex(v.fields, path[0]) == Some(i) && HasType(vm, x, u)
    requires ft == Qualify(t.tn.addr, DefAt(vm, t.tn.addr, t.tn.name).value.fields[i].ty)
    requires TruePathType(vm, t, path) == TruePathType(vm, ft, path[1..])
    ensures var r := WriteFieldPath(v, path, x);
            && (r.Err? ==> RefusedWrite(r))
            && (r.Ok? && HasType(vm, r.value, t) ==> TruePathType(vm, t, path) == Some(u) && !IsLinear(u))
  {
    var r := WriteFieldPath(v, path, x);
    assert path[1..] == [];
    TypedLinear(vm, v.fields[i].value, ft);
    if r.Ok? && HasType(vm, r.value, t) {
      assert r.value.fields[i].value == x;
      TypeUnique(vm, x, ft, u);
    }
  }

  lemma WriteInner(vm: Machine, v: Value, t: Type, path: seq<string>, x: Value, i: nat, ft: Type)
    requires HasType(vm, v, t) && v.VStruct? && DefAt(vm, t.tn.addr, t.tn.name).Some?
    requires |path| > 1 && FieldIndex(v.fields, path[0]) == Some(i)
    requires ft == Qualify(t.tn.addr, DefAt(vm, t.tn.addr, t.tn.name).value.fields[i].ty)
    ensures var r, inner := WriteFieldPath(v, path, x), WriteFieldPath(v.fields[i].value, path[1..], x);
            && (r.Err? ==> r == inner)
            && (r.Ok? && HasType(vm, r.value, t) ==> inner.Ok? && HasType(vm, inner.value, ft))
  {
    var r := WriteFieldPath(v, path, x);
    if r.Ok? {
      var inner := WriteFieldPath(v.fields[i].value, path[1..], x).value;
      assert r.value.fields[i].value == inner;
    }
  }

  lemma UpdateTyped(vm: Machine, v: Value, t: Type, i: nat, x: Value)
    requires v.VStruct? && i < |v.fields| && HasType(vm, v, t)
    requires DefAt(vm, v.tn.addr, v.tn.name).Some?
    requires HasType(vm, x, Qualify(v.tn.addr, DefAt(vm, v.tn.addr, v.tn.name).value.fields[i].ty))
    ensures HasType(vm, v.(fields := v.fields[i := v.fields[i].(value := x)]), t)
  {
  }

  /** A path the verifier resolves in the module's own table has the type it resolved. */
  lemma {:induction false} ResolvedIsTrue(vm: Machine, addr: Address, m: Module, t: Type, path: seq<string>)
    requires Loaded(vm, addr, m)
    requires ResolveFieldPathType(t, path, m).Some?
    ensures TruePathType(vm, Qualify(addr, t), path) == Some(Qualify(addr, ResolveFieldPathType(t, path, m).value))
    decreases |path|
  {
    if path != [] {
      var ft := ResolveFieldType(t, path[0], m).value;
      ResolvedIsTrue(vm, addr, m, ft, path[1..]);
    }
  }

  //
  // Taking a struct apart
  //

  predicate Distinct(names: seq<string>) {
    forall i, j | 0 <= i < j < |names| :: names[i] != names[j]
  }

  function Values(fields: seq<Field>): (r: seq<Value>)
    ensures |r| == |fields|
    ensures forall i | 0 <= i < |fields| :: r[i] == fields[i].value
  {
    seq(|fields|, i requires 0 <= i < |fields| => fields[i].value)
  }

  predicate NamedBy(fields: seq<Field>, names: seq<string>) {
    |fields| == |names| && forall i | 0 <= i < |fields| :: fields[i].name == names[i]
  }

  lemma {:induction false} FieldMapKeys(fields: seq<Field>, name: string)
    ensures name in FieldMap(fields) <==> exists i | 0 <= i < |fields| :: fields[i].name == name
  {
    if fields != [] {
      var init := fields[..|fields| - 1];
      FieldMapKeys(init, name);
      if name in FieldMap(init) {
        var i :| 0 <= i < |init| && init[i].name == name;
        assert fields[i].name == name;
      }
      if i :| 0 <= i < |fields| && fields[i].name == name {
        assert i == |fields| - 1 || init[i].name == name;
      }
    }
  }

  lemma {:induction false} TakeAll(fields: seq<Field>, names: seq<string>)
    requires NamedBy(fields, names) && Distinct(names)
    ensures TakeFields(FieldMap(fields), names) == Ok(Reverse(Values(fields)))
  {
    if names != [] {
      var k := |names| - 1;
      var init := fields[..k];
      FieldMapKeys(init, names[k]);
      assert FieldMap(fields) - {names[k]} == FieldMap(init);
      TakeAll(init, names[..k]);
      assert Values(fields)[..k] == Values(init);
    }
  }

  lemma {:induction false} TakeNeedsDistinct(m: map<string, Value>, names: seq<string>)
    requires TakeFields(m, names).Ok?
    ensures Distinct(names) && forall n | n in names :: n in m
  {
    if names != [] {
      var k := |names| - 1;
      TakeNeedsDistinct(m - {names[k]}, names[..k]);
      forall i, j | 0 <= i < j < |names| ensures names[i] != names[j] {
        assert names[..k][i] == names[i] && names[i] in names[..k];
        if j < k {
          assert names[..k][j] == names[j];
        }
      }
      forall n | n in names ensures n in m {
        if n != names[k] {
          assert n in names[..k];
        }
      }
    }
  }

  /** A struct can be unpacked by its own field names exactly when no name repeats; then its
      values come out in reverse order, first field on top. */
  lemma UnpackExactly(fields: seq<Field>, names: seq<string>)
    requires NamedBy(fields, names)
    ensures TakeFields(FieldMap(fields), names).Ok? <==> Distinct(names)
    ensures Distinct(names) ==> TakeFields(FieldMap(fields), names) == Ok(Reverse(Values(fields)))
  {
    if Distinct(names) {
      TakeAll(fields, names);
    } else if TakeFields(FieldMap(fields), names).Ok? {
      TakeNeedsDistinct(FieldMap(fields), names);
    }
  }
}
