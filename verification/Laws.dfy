/** Laws of building, reading and updating values, stated by what one operation gives back of
    what another put in. */
module Laws {
  import opened MeowTypes
  import opened Vm
  import opened Typing
  import opened Ast

  // ------------------------------------------------------------------ structs

  lemma FieldAt(names: seq<string>, values: seq<Value>, i: nat)
    requires |names| == |values| && i < |names| && names[i] !in names[..i]
    ensures FieldIndex(MakeFields(names, values), names[i]) == Some(i)
  {
    var fields := MakeFields(names, values);
    assert fields[i].name == names[i];
    var k := FieldIndex(fields, names[i]);
    assert k.Some? && fields[k.value].name == names[k.value];
  }

  /** Building a struct succeeds exactly when its definition is known and every field has a
      value on the stack; reading a field then gives the value pushed for it, the first if a name repeats. */
  lemma NewThenGet(vm: Machine, addr: Address, m: Module, tn: Name, names: seq<string>, f: FrameState, i: nat)
    requires i < |names| && names[i] !in names[..i]
    ensures var built := ExecNewStruct(vm, addr, m, tn, names, f);
            && (built.Ok? <==> ResolveStructName(vm, addr, m, tn).Ok? && |f.stack| >= |names|)
            && (built.Ok? ==> ExecGetField(names[i], built.value)
                              == Ok(f.(stack := f.stack[..|f.stack| - |names|] + [f.stack[|f.stack| - |names| + i]])))
  {
    var built := ExecNewStruct(vm, addr, m, tn, names, f);
    if built.Ok? {
      var k := |f.stack| - |names|;
      FieldAt(names, f.stack[k..], i);
      assert built.value.stack[..k] == f.stack[..k];
    }
  }

  /** Unpacking a struct just built restores the values it was built from, topmost first, exactly when no
      field name repeats. */
  lemma NewThenUnpack(vm: Machine, addr: Address, m: Module, tn: Name, names: seq<string>, f: FrameState)
    requires ExecNewStruct(vm, addr, m, tn, names, f).Ok?
    ensures var back, k := ExecUnpackStruct(names, ExecNewStruct(vm, addr, m, tn, names, f).value), |f.stack| - |names|;
            && k >= 0
            && (back.Ok? <==> Distinct(names))
            && (back.Ok? ==> back == Ok(f.(stack := f.stack[..k] + Reverse(f.stack[k..]))))
  {
    hide TakeFields, FieldMap;
    var built := ExecNewStruct(vm, addr, m, tn, names, f);
    var k := |f.stack| - |names|;
    var fields := MakeFields(names, f.stack[k..]);
    UnpackExactly(fields, names);
    assert Values(fields) == f.stack[k..];
    assert built.value.stack[..k] == f.stack[..k];
  }

  /** Unpacking a tuple just built restores its elements, topmost first. */
  lemma TupleThenUnpack(n: nat, f: FrameState)
    requires n <= |f.stack|
    ensures var built := ExecMakeTuple(n, f);
            && built.Ok?
            && ExecUnpackTuple(n, built.value)
               == Ok(f.(stack := f.stack[..|f.stack| - n] + Reverse(f.stack[|f.stack| - n..])))
  {
    var k := |f.stack| - n;
    assert ExecMakeTuple(n, f).value.stack[..k] == f.stack[..k];
  }

  lemma JumpsAre(vm: Machine, addr: Address, m: Module, offset: int, f: FrameState)
    ensures Exec(vm, addr, m, JumpIf(offset), f) == ExecBranch(true, offset, f)
    ensures Exec(vm, addr, m, JumpIfNot(offset), f) == ExecBranch(false, offset, f)
  {
    hide ExecLoad, ExecStore, ExecLoadField, ExecStoreField, ExecNewStruct, ExecGetField, ExecUnpackStruct, ExecUnpackTuple,
      ExecOperator, ExecMakeTuple, ExecBranch;
  }

  /** One conditional jump is the other with the condition negated: taken, it goes to the place
      `offset` from its own, and otherwise on, and both take the condition off the stack. */
  lemma BranchDuality(vm: Machine, addr: Address, m: Module, offset: int, f: FrameState, b: bool)
    ensures Exec(vm, addr, m, JumpIf(offset), Push(f, VBool(b))) == Exec(vm, addr, m, JumpIfNot(offset), Push(f, VBool(!b)))
    ensures Exec(vm, addr, m, JumpIf(offset), Push(f, VBool(false))) == Ok(f)
    ensures Exec(vm, addr, m, JumpIf(offset), Push(f, VBool(true)))
            == if f.pc - 1 + offset < 0 then Err(InvalidJumpTarget) else Ok(f.(pc := f.pc - 1 + offset))
  {
    hide Exec;
    assert Push(f, VBool(true)).stack[..|f.stack|] == f.stack && Push(f, VBool(false)).stack[..|f.stack|] == f.stack;
    JumpsAre(vm, addr, m, offset, Push(f, VBool(true)));
    JumpsAre(vm, addr, m, offset, Push(f, VBool(false)));
  }

  /** A copy is the value copied. */
  lemma DupThenTuple(vm: Machine, addr: Address, m: Module, f: FrameState, v: Value)
    ensures var two := Exec(vm, addr, m, Dup, Push(f, v));
            && two.Ok?
            && Exec(vm, addr, m, MakeTuple(2), two.value) == Ok(Push(f, VTuple([v, v])))
            && Exec(vm, addr, m, Pop, two.value) == Ok(Push(f, v))
  {
    hide ExecLoad, ExecStore, ExecLoadField, ExecStoreField, ExecNewStruct, ExecGetField, ExecUnpackStruct, ExecUnpackTuple,
      ExecOperator, ExecBranch;
    var two := Push(Push(f, v), v);
    assert two.stack[..|f.stack|] == f.stack && two.stack[|f.stack|..] == [v, v];
    assert two.stack[..|f.stack| + 1] == f.stack + [v];
  }

  // -------------------------------------------------------------------- calls

  /** A call reaches the module's own functions, the public functions of loaded modules, and the natives
      that no function of its own hides; nothing private to another module, and nothing else. */
  lemma CalleesReached(vm: Machine, addr: Address, m: Module, callee: Name, n: string, fn: Function)
    requires callee.name == n
    ensures ResolveCall(vm, addr, m, callee).ToFunction? && ResolveCall(vm, addr, m, callee).fn == fn <==>
            || (callee.Local? && GetFunction(m, n) == Some(fn))
            || (callee.Qualified? && callee.addr in vm.deps && GetFunction(vm.deps[callee.addr], n) == Some(fn) && fn.isPublic)
    ensures ResolveCall(vm, addr, m, callee).ToNative? <==>
            callee.Local? && n in vm.natives && (forall f | f in m.functions :: f.name != n)
    ensures ResolveCall(vm, addr, m, callee) == ToNothing(PrivateFunction) <==>
            && callee.Qualified? && callee.addr in vm.deps && GetFunction(vm.deps[callee.addr], n).Some?
            && !GetFunction(vm.deps[callee.addr], n).value.isPublic
  {
  }

  // ---------------------------------------------------------------- operators

  /** The instruction on the two values pushed last. */
  function OnTwo(i: Instr, f: FrameState, l: Value, r: Value): (q: Res<FrameState>)
    requires IsBinary(i)
  {
    ExecOperator(i, Push(Push(f, l), r))
  }

  lemma TwoPushed(f: FrameState, l: Value, r: Value)
    ensures var g := Push(Push(f, l), r);
            |g.stack| == |f.stack| + 2 && g.stack[..|f.stack|] == f.stack && g.stack[|f.stack|] == l && g.stack[|f.stack| + 1] == r
            && g.(stack := f.stack) == f
  {
  }

  /** Sums and differences are those of the integers where they fit, and errors where they do not; the
      left operand is the one pushed first. */
  lemma SumsMean(f: FrameState, a: u64, b: u64)
    ensures OnTwo(Add, f, VU64(a), VU64(b)) == if a + b <= U64_MAX then Ok(Push(f, VU64(a + b))) else Err(ArithmeticOverflow)
    ensures OnTwo(Sub, f, VU64(a), VU64(b)) == if b <= a then Ok(Push(f, VU64(a - b))) else Err(ArithmeticOverflow)
  {
    TwoPushed(f, VU64(a), VU64(b));
  }

  /** Quotient and remainder are the two numbers that make up the dividend, the remainder the smaller of
      it and the divisor; by zero there is neither. */
  lemma DivisionMeans(f: FrameState, a: u64, b: u64, q: u64, r: u64)
    requires b != 0 && r < b && a == q * b + r
    ensures OnTwo(Div, f, VU64(a), VU64(b)) == Ok(Push(f, VU64(q)))
    ensures OnTwo(Mod, f, VU64(a), VU64(b)) == Ok(Push(f, VU64(r)))
    ensures OnTwo(Div, f, VU64(a), VU64(0)) == Err(DivisionByZero) == OnTwo(Mod, f, VU64(a), VU64(0))
  {
    TwoPushed(f, VU64(a), VU64(b));
    TwoPushed(f, VU64(a), VU64(0));
    DivisionUnique(a, b, q, r);
  }

  lemma DivisionUnique(a: nat, b: nat, q: nat, r: nat)
    requires b != 0 && r < b && a == q * b + r
    ensures a / b == q && a % b == r
  {
    var q', r' := a / b, a % b;
    assert a == q' * b + r';
    NotBelow(q, r, q', r', b);
    NotBelow(q', r', q, r, b);
  }

  lemma NotBelow(q: nat, r: nat, q': nat, r': nat, b: nat)
    requires q * b + r == q' * b + r' && r < b && r' < b
    ensures q' <= q
  {
    if q' > q {
      Multiples(q, q', b);
    }
  }

  lemma {:induction false} Multiples(q: nat, q': nat, b: nat)
    requires q < q'
    ensures q' * b >= q * b + b
    decreases q'
  {
    assert q' * b == (q' - 1) * b + b;
    if q < q' - 1 {
      Multiples(q, q' - 1, b);
    }
  }

  /** The six comparisons are the order of the numbers. */
  lemma OrderMeans(f: FrameState, a: u64, b: u64)
    ensures OnTwo(Lt, f, VU64(a), VU64(b)) == Ok(Push(f, VBool(a < b))) == OnTwo(Gt, f, VU64(b), VU64(a))
    ensures OnTwo(Le, f, VU64(a), VU64(b)) == Ok(Push(f, VBool(a <= b))) == OnTwo(Ge, f, VU64(b), VU64(a))
    ensures OnTwo(Eq, f, VU64(a), VU64(b)) == Ok(Push(f, VBool(a == b)))
    ensures OnTwo(Ne, f, VU64(a), VU64(b)) == Ok(Push(f, VBool(a != b)))
  {
    TwoPushed(f, VU64(a), VU64(b));
    TwoPushed(f, VU64(b), VU64(a));
  }

  // -------------------------------------------------------------- field paths

  predicate Apart(p: seq<string>, q: seq<string>) {
    !(p <= q) && !(q <= p)
  }

  /** A field can be written exactly when it can be read and does not hold a struct. */
  lemma {:induction false} WriteExactly(v: Value, path: seq<string>, x: Value)
    ensures WriteFieldPath(v, path, x).Ok? <==>
            path != [] && ReadFieldPath(v, path).Ok? && !IsLinearValue(ReadFieldPath(v, path).value)
    decreases |path|
  {
    if path != [] && v.VStruct? {
      var i := FieldIndex(v.fields, path[0]);
      if i.Some? {
        var inner := v.fields[i.value].value;
        assert ReadFieldPath(v, path) == ReadFieldPath(inner, path[1..]);
        if |path| > 1 {
          WriteExactly(inner, path[1..], x);
        }
      }
    }
  }

  lemma SameIndex(fields: seq<Field>, i: nat, x: Value, name: string)
    requires i < |fields|
    ensures FieldIndex(fields[i := fields[i].(value := x)], name) == FieldIndex(fields, name)
  {
    var after := fields[i := fields[i].(value := x)];
    assert forall j | 0 <= j < |fields| :: after[j].name == fields[j].name;
    var a, b := FieldIndex(fields, name), FieldIndex(after, name);
    if a.Some? && b.Some? {
      assert fields[b.value].name == name && after[a.value].name == name;
    }
  }

  /** What was written is read back. */
  lemma {:induction false} WriteThenRead(v: Value, path: seq<string>, x: Value)
    requires WriteFieldPath(v, path, x).Ok?
    ensures ReadFieldPath(WriteFieldPath(v, path, x).value, path) == Ok(x)
    decreases |path|
  {
    var i := FieldIndex(v.fields, path[0]).value;
    var u := WriteFieldPath(v, path, x).value;
    SameIndex(v.fields, i, u.fields[i].value, path[0]);
    if |path| > 1 {
      WriteThenRead(v.fields[i].value, path[1..], x);
    } else {
      assert path[1..] == [];
    }
  }

  /** No path that parts from the one written reads anything else than before. */
  lemma {:induction false} WriteElsewhere(v: Value, path: seq<string>, x: Value, q: seq<string>)
    requires WriteFieldPath(v, path, x).Ok? && Apart(path, q)
    ensures ReadFieldPath(WriteFieldPath(v, path, x).value, q) == ReadFieldPath(v, q)
    decreases |path|
  {
    assert q != [];
    var i := FieldIndex(v.fields, path[0]).value;
    var u := WriteFieldPath(v, path, x).value;
    SameIndex(v.fields, i, u.fields[i].value, q[0]);
    if q[0] == path[0] {
      assert path == [path[0]] + path[1..] && q == [q[0]] + q[1..];
      assert Apart(path[1..], q[1..]);
      assert path[1..] != [];
      WriteElsewhere(v.fields[i].value, path[1..], x, q[1..]);
    }
  }

  /** A longer path reads on from where a shorter one ended. */
  lemma {:induction false} ReadOn(v: Value, p: seq<string>, q: seq<string>)
    ensures ReadFieldPath(v, p + q) == (if ReadFieldPath(v, p).Ok? then ReadFieldPath(ReadFieldPath(v, p).value, q)
                                        else Err(ReadFieldPath(v, p).error))
    decreases |p|
  {
    if p == [] {
      assert p + q == q;
    } else {
      assert (p + q)[0] == p[0] && (p + q)[1..] == p[1..] + q;
      if v.VStruct? && FieldIndex(v.fields, p[0]).Some? {
        ReadOn(v.fields[FieldIndex(v.fields, p[0]).value].value, p[1..], q);
      }
    }
  }

  // ----------------------------------------------------------------- branches

  /** A condition chooses: true takes the first branch, false the other, or neither if there is none. */
  lemma IfChooses(w: World, addr: Address, sm: SourceModule, env: Env, log: seq<NativeEvent>, depth: nat, s: Stmt, b: bool,
                  env1: Env, log1: seq<NativeEvent>)
    requires depth < w.maxDepth && env != [] && s.SIf?
    requires EvalExpr(w, addr, sm, env, log, depth, s.cond) == Val(VBool(b), env1, log1)
    ensures b ==> EvalStmt(w, addr, sm, env, log, depth, s) == EvalBlock(w, addr, sm, env1, log1, depth, s.body)
    ensures !b && s.other.Else? ==>
              EvalStmt(w, addr, sm, env, log, depth, s) == EvalBlock(w, addr, sm, env1, log1, depth, s.other.stmts)
    ensures !b && s.other.NoElse? ==> EvalStmt(w, addr, sm, env, log, depth, s) == Next(env1, log1)
  {
    hide EvalExpr, EvalBlock;
  }

  // ----------------------------------------------------------------- literals

  lemma {:induction false} InitAt(
    w: World, addr: Address, sm: SourceModule, env: Env, log: seq<NativeEvent>, depth: nat, inits: seq<Init>,
    names: seq<string>, i: nat)
    requires depth < w.maxDepth && i < |names|
    requires EvalInits(w, addr, sm, env, log, depth, inits, names).Val?
    ensures var before := EvalInits(w, addr, sm, env, log, depth, inits, names[..i]);
            && before.Val? && LastInit(inits, names[i]).Some?
            && var got := EvalExpr(w, addr, sm, before.env, before.log, depth, LastInit(inits, names[i]).value);
            got.Val? && got.value == EvalInits(w, addr, sm, env, log, depth, inits, names).value[i]
    decreases |names|
  {
    hide EvalExpr, LastInit;
    var k := |names| - 1;
    var init := EvalInits(w, addr, sm, env, log, depth, inits, names[..k]);
    assert init.Val? && EvalInits(w, addr, sm, env, log, depth, inits, names).value[..k] == init.value;
    if i < k {
      InitAt(w, addr, sm, env, log, depth, inits, names[..k], i);
      assert names[..k][..i] == names[..i];
    }
  }

  /** Reading a field of a literal gives the value of the initializer written for that field,
      whatever the order the initializers are written in; they take effect in the order of the
      definition. */
  lemma LiteralField(
    w: World, addr: Address, sm: SourceModule, env: Env, log: seq<NativeEvent>, depth: nat, name: string, inits: seq<Init>,
    def: StructDef, i: nat, j: nat)
    requires depth < w.maxDepth && FindStruct(sm.structs, name) == Some(def)
    requires Distinct(FieldNames(def)) && i < |def.fields|
    requires j < |inits| && inits[j].field == def.fields[i].name
    requires forall k | j < k < |inits| :: inits[k].field != inits[j].field
    requires EvalExpr(w, addr, sm, env, log, depth, EStruct(name, inits)).Val?
    ensures var r := EvalExpr(w, addr, sm, env, log, depth, EStruct(name, inits));
            var before := EvalInits(w, addr, sm, env, log, depth, inits, FieldNames(def)[..i]);
            && before.Val?
            && var got := EvalExpr(w, addr, sm, before.env, before.log, depth, inits[j].expr);
            && got.Val?
            && EvalExpr(w, addr, sm, env, log, depth, EField(EStruct(name, inits), inits[j].field))
               == Val(got.value, r.env, r.log)
  {
    hide EvalInits, LastInit, MakeFields, FieldIndex, Distinct;
    var names := FieldNames(def);
    LastInitIs(inits, j);
    assert EvalInits(w, addr, sm, env, log, depth, inits, names).Val?;
    InitAt(w, addr, sm, env, log, depth, inits, names, i);
    FieldRead(addr, name, names, EvalInits(w, addr, sm, env, log, depth, inits, names).value, i);
  }

  lemma FieldRead(addr: Address, name: string, names: seq<string>, vs: seq<Value>, i: nat)
    requires |names| == |vs| && Distinct(names) && i < |names|
    ensures ReadFieldPath(VStruct(Qualified(addr, name), MakeFields(names, vs)), [names[i]]) == Ok(vs[i])
  {
    assert names[i] !in names[..i];
    FieldAt(names, vs, i);
    assert [names[i]][1..] == [];
  }

  lemma {:induction false} LastInitIs(inits: seq<Init>, j: nat)
    requires j < |inits| && forall k | j < k < |inits| :: inits[k].field != inits[j].field
    ensures LastInit(inits, inits[j].field) == Some(inits[j].expr)
  {
    var n := |inits| - 1;
    if j < n {
      assert inits[..n][j] == inits[j];
      LastInitIs(inits[..n], j);
    }
  }

  // ----------------------------------------------------------- destructurings

  lemma {:induction false} BoundIs(bs: seq<Binding>, j: nat)
    requires j < |bs| && forall k | j < k < |bs| :: bs[k].field != bs[j].field
    ensures Bound(bs, bs[j].field) == Some(bs[j].name)
  {
    var n := |bs| - 1;
    if j < n {
      assert bs[..n][j] == bs[j];
      BoundIs(bs[..n], j);
    }
  }

  lemma {:induction false} BoundFrom(bs: seq<Binding>, field: string) returns (j: nat)
    requires Bound(bs, field).Some?
    ensures j < |bs| && bs[j].field == field && bs[j].name == Bound(bs, field).value
  {
    var n := |bs| - 1;
    if bs[n].field == field {
      j := n;
    } else {
      j := BoundFrom(bs[..n], field);
    }
  }

  lemma BoundAmong(bs: seq<Binding>, field: string)
    requires Bound(bs, field).Some?
    ensures Bound(bs, field).value in NamesOf(bs)
  {
    var j := BoundFrom(bs, field);
    assert NamesOf(bs)[j] == Bound(bs, field).value;
  }

  /** Each name of a tuple pattern is bound to its element, the last one where a name repeats, and no
      other variable changes. */
  lemma {:induction false} TupleBinds(env: Env, names: seq<string>, vs: seq<Value>, log: seq<NativeEvent>, i: nat)
    requires env != [] && |names| == |vs| && i < |names| && names[i] !in names[i + 1..]
    requires BindAll(env, names, vs, log).Next?
    ensures var after := BindAll(env, names, vs, log).env;
            && names[i] in after[|env| - 1] && after[|env| - 1][names[i]] == Some(vs[i])
            && Elsewhere(env, after, names)
    decreases |names|
  {
    var env1 := Assign(env, |env| - 1, names[0], Some(vs[0]));
    assert names == [names[0]] + names[1..];
    if |names| == 1 {
      assert BindAll(env1, names[1..], vs[1..], log) == Next(env1, log);
    } else if i == 0 {
      var k := |names| - 2;
      TupleBinds(env1, names[1..], vs[1..], log, k);
    } else {
      assert names[1..][i..] == names[i + 1..];
      TupleBinds(env1, names[1..], vs[1..], log, i - 1);
    }
  }

  /** Only variables of the innermost scope called one of `names` may differ. */
  ghost predicate Elsewhere(env: Env, after: Env, names: seq<string>) {
    && env != [] && |after| == |env|
    && after[..|env| - 1] == env[..|env| - 1]
    && forall x | x !in names ::
         (x in after[|env| - 1] <==> x in env[|env| - 1])
         && (x in env[|env| - 1] ==> after[|env| - 1][x] == env[|env| - 1][x])
  }

  function NamesOf(bs: seq<Binding>): (r: seq<string>)
    ensures |r| == |bs| && forall i | 0 <= i < |bs| :: r[i] == bs[i].name
  {
    seq(|bs|, i requires 0 <= i < |bs| => bs[i].name)
  }

  /** No later field is bound to the name. */
  ghost predicate LastBound(bs: seq<Binding>, fields: seq<string>, i: nat, x: string) {
    i < |fields| && Bound(bs, fields[i]) == Some(x) && forall k | i < k < |fields| :: Bound(bs, fields[k]) != Some(x)
  }

  lemma {:induction false} FieldsBind(
    env: Env, bs: seq<Binding>, fields: seq<string>, vs: seq<Value>, log: seq<NativeEvent>, i: nat, x: string)
    requires env != [] && |fields| == |vs| && BindFields(env, bs, fields, vs, log).Next?
    ensures var after := BindFields(env, bs, fields, vs, log).env;
            && Elsewhere(env, after, NamesOf(bs))
            && (LastBound(bs, fields, i, x) ==> x in after[|env| - 1] && after[|env| - 1][x] == Some(vs[i]))
            && ((forall k | 0 <= k < |fields| :: Bound(bs, fields[k]) != Some(x)) ==>
                  (x in after[|env| - 1] <==> x in env[|env| - 1])
                  && (x in env[|env| - 1] ==> after[|env| - 1][x] == env[|env| - 1][x]))
    decreases |fields|
  {
    hide Bound;
    if fields != [] {
      var y, rest := Bound(bs, fields[0]), fields[1..];
      var env1 := if y.None? then env else Assign(env, |env| - 1, y.value, Some(vs[0]));
      if y.Some? { BoundAmong(bs, fields[0]); }
      FieldsBind(env1, bs, rest, vs[1..], log, if i == 0 then 0 else i - 1, x);
      assert forall k | 0 <= k < |rest| :: rest[k] == fields[k + 1];
      if LastBound(bs, fields, i, x) && i > 0 {
        assert rest[i - 1] == fields[i];
        assert LastBound(bs, rest, i - 1, x);
      }
    }
  }

  lemma FinishBinds(sm: SourceModule, env: Env, log: seq<NativeEvent>, s: Stmt, v: Value, def: StructDef)
    requires env != [] && s.SLetStruct? && v.VStruct?
    requires FindStruct(sm.structs, s.tn) == Some(def) && NamedBy(v.fields, FieldNames(def))
    requires Finish(sm, env, log, s, v).Next?
    ensures Finish(sm, env, log, s, v) == BindFields(env, s.bindings, FieldNames(def), Values(v.fields), log)
  {
    hide TakeFields, FieldMap, BindFields, Reverse, Values, FieldNames, NamedBy, Distinct, WriteFieldPath, Scope;
    UnpackExactly(v.fields, FieldNames(def));
    ReverseTwice(Values(v.fields));
  }

  lemma ReverseTwice(vs: seq<Value>)
    ensures Reverse(Reverse(vs)) == vs
  {
    hide Reverse;
  }

  lemma BoundLast(bs: seq<Binding>, fields: seq<string>, i: nat, j: nat)
    requires i < |fields| && j < |bs| && bs[j].field == fields[i]
    requires forall k | j < k < |bs| :: bs[k].field != bs[j].field
    requires forall k, l | i < k < |fields| && 0 <= l < |bs| && bs[l].field == fields[k] :: bs[l].name != bs[j].name
    ensures LastBound(bs, fields, i, bs[j].name)
  {
    hide Bound;
    BoundIs(bs, j);
    forall k | i < k < |fields| ensures Bound(bs, fields[k]) != Some(bs[j].name) {
      if Bound(bs, fields[k]).Some? {
        var l := BoundFrom(bs, fields[k]);
      }
    }
  }

  /** A destructuring `let` binds each name to the field it is written for, in any order; where a name
      repeats, the last field of the definition that is bound to it counts. */
  lemma DestructuringBinds(sm: SourceModule, env: Env, log: seq<NativeEvent>, s: Stmt, v: Value, def: StructDef, i: nat, j: nat)
    requires env != [] && s.SLetStruct? && v.VStruct?
    requires FindStruct(sm.structs, s.tn) == Some(def) && NamedBy(v.fields, FieldNames(def))
    requires Finish(sm, env, log, s, v).Next?
    requires i < |v.fields| && j < |s.bindings| && s.bindings[j].field == v.fields[i].name
    requires forall k | j < k < |s.bindings| :: s.bindings[k].field != s.bindings[j].field
    requires forall k, l | i < k < |v.fields| && 0 <= l < |s.bindings| && s.bindings[l].field == v.fields[k].name ::
               s.bindings[l].name != s.bindings[j].name
    ensures var after := Finish(sm, env, log, s, v).env;
            && s.bindings[j].name in after[|env| - 1]
            && after[|env| - 1][s.bindings[j].name] == Some(v.fields[i].value)
            && Elsewhere(env, after, NamesOf(s.bindings))
  {
    hide Finish, BindFields, Elsewhere, LastBound;
    FinishBinds(sm, env, log, s, v, def);
    BoundLast(s.bindings, FieldNames(def), i, j);
    FieldsBind(env, s.bindings, FieldNames(def), Values(v.fields), log, i, s.bindings[j].name);
  }
}
