/** The code generator as it works: one growing list of instructions, one flat table of names
    with their slot and scope depth, and jumps patched once their target is known. */
module LiveCodegen {
  import opened MeowTypes
  import opened Vm
  import opened Ast
  import opened Codegen

  /** The flat table of nested scopes: a name stands for its innermost binding. */
  ghost function Flat(sc: Slots): (r: map<string, (nat, nat)>) {
    if sc == [] then map[]
    else
      var n := |sc| - 1;
      Flat(sc[..n]) + map x | x in sc[n] :: (sc[n][x], n)
  }

  lemma {:induction false} FlatLookup(sc: Slots, x: string)
    ensures x in Flat(sc) <==> Scope(sc, x).Some?
    ensures x in Flat(sc) ==> Flat(sc)[x] == (sc[Scope(sc, x).value][x], Scope(sc, x).value)
  {
    if sc != [] {
      FlatLookup(sc[..|sc| - 1], x);
    }
  }

  /** A new name in the innermost scope is one new entry. */
  lemma FlatAdd(sc: Slots, x: string, slot: nat, inner: map<string, nat>)
    requires sc != [] && inner == sc[|sc| - 1][x := slot]
    ensures Flat(sc[..|sc| - 1] + [inner]) == Flat(sc)[x := (slot, |sc| - 1)]
  {
    hide Flat;
    var n := |sc| - 1;
    var sc' := sc[..n] + [inner];
    assert sc'[..n] == sc[..n];
    forall y
      ensures y in Flat(sc') <==> y in Flat(sc) || y == x
      ensures y in Flat(sc') ==> Flat(sc')[y] == Flat(sc)[x := (slot, n)][y]
    {
      FlatLookup(sc', y);
      FlatLookup(sc, y);
    }
  }

  /** Opening a scope changes no name. */
  lemma FlatOpen(sc: Slots)
    ensures Flat(sc + [map[]]) == Flat(sc)
  {
    hide Flat;
    assert (sc + [map[]])[..|sc|] == sc;
    forall y
      ensures y in Flat(sc + [map[]]) <==> y in Flat(sc)
      ensures y in Flat(sc) ==> Flat(sc + [map[]])[y] == Flat(sc)[y]
    {
      FlatLookup(sc + [map[]], y);
      FlatLookup(sc, y);
    }
  }

  /** Filling in the target of a jump. */
  lemma Patched(pre: seq<Instr>, blank: Instr, jump: Instr, post: seq<Instr>)
    ensures (pre + [blank] + post)[|pre| := jump] == pre + [jump] + post
  {
  }

  lemma PatchedPlain(base: seq<Instr>, c: seq<Instr>, jump: Instr, b: seq<Instr>)
    ensures (base + c + [JumpIfNot(0)] + b)[|base + c| := jump] == base + (c + [jump] + b)
  {
    Patched(base + c, JumpIfNot(0), jump, b);
  }

  lemma PatchedElse(base: seq<Instr>, c: seq<Instr>, jump: Instr, b: seq<Instr>, over: Instr, o: seq<Instr>)
    ensures (base + c + [JumpIfNot(0)] + b + [Jump(0)])[|base + c| := jump] == base + (c + [jump] + b) + [Jump(0)]
    ensures (base + (c + [jump] + b) + [Jump(0)] + o)[|base| + |c| + 1 + |b| := over]
         == base + (c + [jump] + b + [over] + o)
  {
    Patched(base + c, JumpIfNot(0), jump, b + [Jump(0)]);
    assert base + c + [JumpIfNot(0)] + b + [Jump(0)] == base + c + [JumpIfNot(0)] + (b + [Jump(0)]);
    Patched(base + (c + [jump] + b), Jump(0), over, o);
  }

  /** The cases of a field access. */
  lemma FieldParts(sm: SourceModule, lim: GenLimits, sc: Slots, base: Expr, path: seq<string>)
    ensures CompileField(sm, lim, sc, base, path) ==
      if base.EField? then CompileField(sm, lim, sc, base.base, [base.field] + path)
      else if base.EIdent? && SlotOf(sc, base.x).Some? then Some([LoadField(SlotOf(sc, base.x).value, path)])
      else if CompileExpr(sm, lim, sc, base).None? then None
      else Some(CompileExpr(sm, lim, sc, base).value + GetFields(path))
  {
    hide CompileExpr;
  }

  /** The parts of a compiled `if`. */
  lemma IfParts(sm: SourceModule, lim: GenLimits, sc: Slots, next: nat, s: Stmt)
    requires sc != [] && s.SIf?
    ensures var c, b := CompileExpr(sm, lim, sc, s.cond), CompileStmts(sm, lim, sc + [map[]], next, s.body);
            && (c.None? || b.None? ==> CompileStmt(sm, lim, sc, next, s).None?)
            && (c.Some? && b.Some? && s.other.NoElse? ==>
                  CompileStmt(sm, lim, sc, next, s)
                  == Some(Gen(c.value + [JumpIfNot(|b.value.code| + 1)] + b.value.code, sc, b.value.next)))
            && (c.Some? && b.Some? && s.other.Else? ==>
                  var o := CompileStmts(sm, lim, sc + [map[]], b.value.next, s.other.stmts);
                  CompileStmt(sm, lim, sc, next, s) ==
                    if o.None? then None
                    else Some(Gen(c.value + [JumpIfNot(|b.value.code| + 2)] + b.value.code
                                  + [Jump(|o.value.code| + 1)] + o.value.code, sc, o.value.next)))
  {
    hide CompileExpr, CompileStmts;
  }

  /** The code of a statement that does not branch. */
  lemma PlainCode(sm: SourceModule, lim: GenLimits, sc: Slots, next: nat, s: Stmt)
    requires sc != [] && !s.SIf?
    ensures s == SReturn(None) ==> CompileStmt(sm, lim, sc, next, s) == Some(Gen([Return], sc, next))
    ensures s.SReturn? && s.result.Some? ==>
              var e := CompileExpr(sm, lim, sc, s.result.value);
              CompileStmt(sm, lim, sc, next, s) == if e.None? then None else Some(Gen(e.value + [Return], sc, next))
    ensures !s.SReturn? ==>
              var e, tail := CompileExpr(sm, lim, sc, s.expr), CompileTail(sm, lim, sc, next, s);
              CompileStmt(sm, lim, sc, next, s) ==
              if e.None? || tail.None? then None else Some(tail.value.(code := e.value + tail.value.code))
  {
    hide CompileExpr, CompileTail;
  }

  lemma StructCode(sm: SourceModule, lim: GenLimits, sc: Slots, name: string, inits: seq<Init>)
    ensures var def := FindStruct(sm.structs, name);
            var code := CompileExpr(sm, lim, sc, EStruct(name, inits));
            if def.None? || !AllDistinct(FieldNames(def.value)) then code.None?
            else
              var parts := CompileInits(sm, lim, sc, inits, FieldNames(def.value));
              && (code.Some? <==> parts.Some?)
              && (code.Some? ==> code.value == parts.value + [NewStruct(Local(name), FieldNames(def.value))])
  {
    hide CompileInits;
  }

  lemma InitsNone(sm: SourceModule, lim: GenLimits, sc: Slots, inits: seq<Init>)
    ensures CompileInits(sm, lim, sc, inits, []) == Some([])
  {
  }

  lemma InitsNext(sm: SourceModule, lim: GenLimits, sc: Slots, inits: seq<Init>, names: seq<string>, i: nat)
    requires i < |names| && CompileInits(sm, lim, sc, inits, names[..i]).Some?
    ensures var e := LastInit(inits, names[i]);
            var all := CompileInits(sm, lim, sc, inits, names[..i + 1]);
            if e.None? || CompileExpr(sm, lim, sc, e.value).None? then all.None?
            else all == Some(CompileInits(sm, lim, sc, inits, names[..i]).value + CompileExpr(sm, lim, sc, e.value).value)
  {
    hide CompileExpr;
    assert names[..i + 1][..i] == names[..i];
  }

  class Generator {
    const sm: SourceModule
    const lim: GenLimits
    var code: seq<Instr>
    var locals: map<string, (nat, nat)>
    var next: nat
    var depth: nat
    ghost var sc: Slots

    ghost predicate Valid()
      reads this
    {
      |sc| == depth + 1 && locals == Flat(sc)
    }

    constructor (sm: SourceModule, lim: GenLimits)
      ensures Valid() && this.sm == sm && this.lim == lim
      ensures code == [] && sc == [map[]] && next == 0
    {
      this.sm, this.lim := sm, lim;
      code, locals, next, depth, sc := [], map[], 0, 0, [map[]];
    }

    method Emit(i: Instr)
      modifies `code
      ensures code == old(code) + [i]
    {
      code := code + [i];
    }

    /** A slot for a name: reused within one scope, new when the name is new or from outside. */
    method AllocLocal(x: string) returns (slot: Option<nat>)
      requires Valid()
      modifies `locals, `next, `sc
      ensures var g := Alloc(lim, old(sc), old(next), x);
              && (slot.None? <==> g.None?)
              && (slot.Some? ==> Valid() && g.value == Gen([Store(slot.value)], sc, next))
    {
      FlatLookup(sc, x);
      if x in locals && locals[x].1 == depth {
        return Some(locals[x].0);
      }
      if next >= lim.maxLocals { return None; }
      slot := Some(next);
      ghost var inner: map<string, nat> := sc[depth][x := next];
      FlatAdd(sc, x, next, inner);
      locals := locals[x := (next, depth)];
      sc := sc[..depth] + [inner];
      next := next + 1;
    }

    method LookUp(x: string) returns (slot: Option<nat>)
      requires Valid()
      ensures slot == SlotOf(sc, x)
    {
      FlatLookup(sc, x);
      if x in locals { return Some(locals[x].0); } else { return None; }
    }

    /** The code of an expression is appended; nothing else changes. */
    method GenExpr(e: Expr) returns (ok: bool)
      requires Valid()
      modifies `code
      ensures ok <==> CompileExpr(sm, lim, sc, e).Some?
      ensures ok ==> code == old(code) + CompileExpr(sm, lim, sc, e).value
      decreases e, 0
    {
      hide Flat;
      match e
      case EBool(b) => Emit(PushBool(b)); return true;
      case EInt(n) => Emit(PushU64(n)); return true;
      case EAddress(a) => Emit(PushAddress(a)); return true;
      case EStr(s) => Emit(PushStr(s)); return true;
      case EIdent(x) =>
        var slot := LookUp(x);
        if slot.None? { return false; }
        Emit(Load(slot.value));
        return true;
      case EBin(left, op, right) =>
        ok := GenExpr(left);
        if !ok { return; }
        ok := GenExpr(right);
        if !ok { return; }
        Emit(OpCode(op));
      case ENot(arg) =>
        ok := GenExpr(arg);
        if !ok { return; }
        Emit(Not);
      case EField(base, field) => ok := GenField(base, [field]);
      case EStruct(name, inits) => ok := GenStruct(name, inits);
      case ETuple(items) =>
        ok := GenExprs(items);
        if !ok || |items| > lim.maxTuple { return false; }
        Emit(MakeTuple(|items|));
      case ECall(callee, args) =>
        ok := GenExprs(args);
        if !ok { return; }
        var n := Translate(sm, callee);
        if n.None? { return false; }
        Emit(Call(n.value));
    }

    /** A chain of field accesses, unwound to its root. */
    method GenField(base: Expr, path: seq<string>) returns (ok: bool)
      requires Valid()
      modifies `code
      ensures ok <==> CompileField(sm, lim, sc, base, path).Some?
      ensures ok ==> code == old(code) + CompileField(sm, lim, sc, base, path).value
      decreases base, 1
    {
      hide Flat, CompileExpr, CompileField, SlotOf;
      FieldParts(sm, lim, sc, base, path);
      if base.EField? {
        ok := GenField(base.base, [base.field] + path);
        return;
      }
      if base.EIdent? {
        var slot := LookUp(base.x);
        if slot.Some? {
          Emit(LoadField(slot.value, path));
          return true;
        }
      }
      ok := GenExpr(base);
      if !ok { return; }
      GenGetFields(path);
    }

    method GenGetFields(path: seq<string>)
      modifies `code
      ensures code == old(code) + GetFields(path)
    {
      for i := 0 to |path|
        invariant code == old(code) + GetFields(path)[..i]
      {
        Emit(GetField(path[i]));
      }
    }

    method GenExprs(es: seq<Expr>) returns (ok: bool)
      requires Valid()
      modifies `code
      ensures ok <==> CompileExprs(sm, lim, sc, es).Some?
      ensures ok ==> code == old(code) + CompileExprs(sm, lim, sc, es).value
      decreases es, 1
    {
      hide Flat;
      for i := 0 to |es|
        invariant CompileExprs(sm, lim, sc, es[..i]).Some?
        invariant code == old(code) + CompileExprs(sm, lim, sc, es[..i]).value
      {
        assert es[..i + 1][..i] == es[..i];
        ok := GenExpr(es[i]);
        if !ok {
          ExprsFail(sm, lim, sc, es, i + 1);
          return;
        }
      }
      assert es[..|es|] == es;
      return true;
    }

    /** A struct literal: its fields in the order of the definition, whatever order it lists. */
    method GenStruct(name: string, inits: seq<Init>) returns (ok: bool)
      requires Valid()
      modifies `code
      ensures ok <==> CompileExpr(sm, lim, sc, EStruct(name, inits)).Some?
      ensures ok ==> code == old(code) + CompileExpr(sm, lim, sc, EStruct(name, inits)).value
      decreases inits, 1
    {
      hide Flat, CompileExpr, CompileInits, FieldNames;
      StructCode(sm, lim, sc, name, inits);
      var def := FindStruct(sm.structs, name);
      if def.None? || !AllDistinct(FieldNames(def.value)) { return false; }
      var names := FieldNames(def.value);
      ok := GenInits(inits, names);
      if !ok { return; }
      Emit(NewStruct(Local(name), names));
    }

    /** The initializers, in the order of the field names. */
    method GenInits(inits: seq<Init>, names: seq<string>) returns (ok: bool)
      requires Valid()
      modifies `code
      ensures ok <==> CompileInits(sm, lim, sc, inits, names).Some?
      ensures ok ==> code == old(code) + CompileInits(sm, lim, sc, inits, names).value
      decreases inits, 0
    {
      hide Flat, CompileExpr, CompileInits;
      assert names[..0] == [];
      InitsNone(sm, lim, sc, inits);
      for i := 0 to |names|
        invariant CompileInits(sm, lim, sc, inits, names[..i]).Some?
        invariant code == old(code) + CompileInits(sm, lim, sc, inits, names[..i]).value
      {
        InitsNext(sm, lim, sc, inits, names, i);
        var e := LastInit(inits, names[i]);
        if e.None? {
          InitsFail(sm, lim, sc, inits, names, i + 1);
          return false;
        }
        ok := GenExpr(e.value);
        if !ok {
          InitsFail(sm, lim, sc, inits, names, i + 1);
          return false;
        }
      }
      assert names[..|names|] == names;
      return true;
    }

    /** The code of a statement is appended, with the slots it binds. */
    method GenStmt(s: Stmt) returns (ok: bool)
      requires Valid()
      modifies this
      ensures ok <==> CompileStmt(sm, lim, old(sc), old(next), s).Some?
      ensures ok ==>
        var g := CompileStmt(sm, lim, old(sc), old(next), s).value;
        Valid() && code == old(code) + g.code && sc == g.sc && next == g.next
      decreases s, 1
    {
      hide Flat, CompileExpr, CompileTail, CompileStmt;
      if !s.SIf? { PlainCode(sm, lim, sc, next, s); }
      if s.SReturn? {
        ok := true;
        if s.result.Some? {
          ok := GenExpr(s.result.value);
        }
        if ok { Emit(Return); }
      } else if s.SIf? {
        ok := GenIf(s);
      } else {
        ok := GenExpr(s.expr);
        if ok { ok := GenTail(s); }
      }
    }

    /** What a statement does with the value its expression has pushed. */
    method GenTail(s: Stmt) returns (ok: bool)
      requires Valid() && !s.SReturn? && !s.SIf?
      modifies this
      ensures ok <==> CompileTail(sm, lim, old(sc), old(next), s).Some?
      ensures ok ==>
        var g := CompileTail(sm, lim, old(sc), old(next), s).value;
        Valid() && code == old(code) + g.code && sc == g.sc && next == g.next
    {
      hide Flat, AllocAll, AllocFields, BindingsOk, Alloc, SlotOf;
      match s
      case SLet(x, _) =>
        var slot := AllocLocal(x);
        if slot.None? { return false; }
        Emit(Store(slot.value));
        return true;
      case SExpr(_) => Emit(Pop); return true;
      case SReassign(x, _) =>
        var slot := LookUp(x);
        if slot.None? { return false; }
        Emit(Store(slot.value));
        return true;
      case SFieldAssign(x, path, _) =>
        var slot := LookUp(x);
        if slot.None? || path == [] { return false; }
        Emit(StoreField(slot.value, path));
        return true;
      case SLetTuple(names, _) =>
        if |names| > lim.maxTuple { return false; }
        Emit(UnpackTuple(|names|));
        ok := GenNames(names);
      case SLetStruct(tn, bs, _, rest) =>
        var def := FindStruct(sm.structs, tn);
        if def.None? || !BindingsOk(def.value, bs, rest) { return false; }
        Emit(UnpackStruct(Local(tn), FieldNames(def.value)));
        ok := GenFields(bs, FieldNames(def.value));
    }

    method GenNames(names: seq<string>) returns (ok: bool)
      requires Valid()
      modifies this
      ensures ok <==> AllocAll(lim, old(sc), old(next), names).Some?
      ensures ok ==>
        var g := AllocAll(lim, old(sc), old(next), names).value;
        Valid() && code == old(code) + g.code && sc == g.sc && next == g.next
    {
      hide Flat, Alloc;
      ghost var done: seq<Instr> := [];
      OntoNothing(AllocAll(lim, sc, next, names));
      assert names[0..] == names;
      for i := 0 to |names|
        invariant Valid() && code == old(code) + done
        invariant AllocAll(lim, old(sc), old(next), names) == Onto(done, AllocAll(lim, sc, next, names[i..]))
      {
        assert names[i..][0] == names[i] && names[i..][1..] == names[i + 1..];
        ghost var sc0, next0 := sc, next;
        var slot := AllocLocal(names[i]);
        if slot.None? { return false; }
        Emit(Store(slot.value));
        OntoTwice(done, [Store(slot.value)], AllocAll(lim, sc, next, names[i + 1..]));
        done := done + [Store(slot.value)];
      }
      return true;
    }

    method GenFields(bs: seq<Binding>, fields: seq<string>) returns (ok: bool)
      requires Valid()
      modifies this
      ensures ok <==> AllocFields(lim, old(sc), old(next), bs, fields).Some?
      ensures ok ==>
        var g := AllocFields(lim, old(sc), old(next), bs, fields).value;
        Valid() && code == old(code) + g.code && sc == g.sc && next == g.next
    {
      hide Flat, Alloc;
      ghost var done: seq<Instr> := [];
      OntoNothing(AllocFields(lim, sc, next, bs, fields));
      assert fields[0..] == fields;
      for i := 0 to |fields|
        invariant Valid() && code == old(code) + done
        invariant AllocFields(lim, old(sc), old(next), bs, fields) == Onto(done, AllocFields(lim, sc, next, bs, fields[i..]))
      {
        assert fields[i..][0] == fields[i] && fields[i..][1..] == fields[i + 1..];
        var x := Bound(bs, fields[i]);
        var instr := Pop;
        if x.Some? {
          var slot := AllocLocal(x.value);
          if slot.None? { return false; }
          instr := Store(slot.value);
        }
        Emit(instr);
        OntoTwice(done, [instr], AllocFields(lim, sc, next, bs, fields[i + 1..]));
        done := done + [instr];
      }
      return true;
    }

    /** An `if`: jumps are emitted blank and patched when the arm behind them is complete, and the
        table of names is put back after each arm. */
    method GenIf(s: Stmt) returns (ok: bool)
      requires Valid() && s.SIf?
      modifies this
      ensures ok <==> CompileStmt(sm, lim, old(sc), old(next), s).Some?
      ensures ok ==>
        var g := CompileStmt(sm, lim, old(sc), old(next), s).value;
        Valid() && code == old(code) + g.code && sc == g.sc && next == g.next
      decreases s, 0
    {
      hide Flat, CompileExpr, CompileStmts, CompileStmt;
      IfParts(sm, lim, sc, next, s);
      ghost var c, b := CompileExpr(sm, lim, sc, s.cond), CompileStmts(sm, lim, sc + [map[]], next, s.body);
      ok := GenExpr(s.cond);
      if !ok { return; }
      var patchCond := |code|;
      Emit(JumpIfNot(0));
      ok := GenArm(s.body);
      if !ok { return; }
      if s.other.NoElse? {
        PatchedPlain(old(code), c.value, JumpIfNot(|b.value.code| + 1), b.value.code);
        code := code[patchCond := JumpIfNot(|code| - patchCond)];
        return true;
      }
      ghost var o := CompileStmts(sm, lim, sc + [map[]], next, s.other.stmts);
      ghost var arm := if o.Some? then o.value.code else [];
      PatchedElse(old(code), c.value, JumpIfNot(|b.value.code| + 2), b.value.code, Jump(|arm| + 1), arm);
      var patchJump := |code|;
      Emit(Jump(0));
      code := code[patchCond := JumpIfNot(|code| - patchCond)];
      ok := GenArm(s.other.stmts);
      if !ok { return; }
      code := code[patchJump := Jump(|code| - patchJump)];
    }

    method GenArm(body: seq<Stmt>) returns (ok: bool)
      requires Valid()
      modifies this
      ensures ok <==> CompileStmts(sm, lim, old(sc) + [map[]], old(next), body).Some?
      ensures ok ==>
        var g := CompileStmts(sm, lim, old(sc) + [map[]], old(next), body).value;
        Valid() && code == old(code) + g.code && sc == old(sc) && next == g.next
      decreases body, 2
    {
      var outer := locals;
      FlatOpen(sc);
      depth := depth + 1;
      sc := sc + [map[]];
      ok := GenStmts(body);
      if !ok { return; }
      depth := depth - 1;
      locals := outer;
      sc := sc[..|sc| - 1];
      assert (old(sc) + [map[]])[..|old(sc)|] == old(sc);
    }

    method GenStmts(ss: seq<Stmt>) returns (ok: bool)
      requires Valid()
      modifies this
      ensures ok <==> CompileStmts(sm, lim, old(sc), old(next), ss).Some?
      ensures ok ==>
        var g := CompileStmts(sm, lim, old(sc), old(next), ss).value;
        Valid() && code == old(code) + g.code && sc == g.sc && next == g.next
      decreases ss, 1
    {
      hide Flat;
      for i := 0 to |ss|
        invariant Valid()
        invariant CompileStmts(sm, lim, old(sc), old(next), ss[..i]).Some?
        invariant var g := CompileStmts(sm, lim, old(sc), old(next), ss[..i]).value;
                  code == old(code) + g.code && sc == g.sc && next == g.next
      {
        assert ss[..i + 1][..i] == ss[..i];
        ok := GenStmt(ss[i]);
        if !ok {
          StmtsFail(sm, lim, old(sc), old(next), ss, i + 1);
          return;
        }
      }
      assert ss[..|ss|] == ss;
      return true;
    }
  }

  function Onto(done: seq<Instr>, g: Option<Gen>): (r: Option<Gen>) {
    if g.None? then None else Some(g.value.(code := done + g.value.code))
  }

  lemma OntoNothing(g: Option<Gen>)
    ensures Onto([], g) == g
  {
    if g.Some? { assert [] + g.value.code == g.value.code; }
  }

  lemma OntoTwice(a: seq<Instr>, b: seq<Instr>, g: Option<Gen>)
    ensures Onto(a, Onto(b, g)) == Onto(a + b, g)
  {
    if g.Some? { assert a + (b + g.value.code) == a + b + g.value.code; }
  }

  lemma {:induction false} ExprsFail(sm: SourceModule, lim: GenLimits, sc: Slots, es: seq<Expr>, k: nat)
    requires k <= |es| && CompileExprs(sm, lim, sc, es[..k]).None?
    ensures CompileExprs(sm, lim, sc, es).None?
  {
    if k < |es| {
      assert es[..|es| - 1][..k] == es[..k];
      ExprsFail(sm, lim, sc, es[..|es| - 1], k);
    } else {
      assert es[..k] == es;
    }
  }

  lemma {:induction false} InitsFail(sm: SourceModule, lim: GenLimits, sc: Slots, inits: seq<Init>, names: seq<string>, k: nat)
    requires k <= |names| && CompileInits(sm, lim, sc, inits, names[..k]).None?
    ensures CompileInits(sm, lim, sc, inits, names).None?
  {
    if k < |names| {
      assert names[..|names| - 1][..k] == names[..k];
      InitsFail(sm, lim, sc, inits, names[..|names| - 1], k);
    } else {
      assert names[..k] == names;
    }
  }

  lemma {:induction false} StmtsFail(sm: SourceModule, lim: GenLimits, sc: Slots, next: nat, ss: seq<Stmt>, k: nat)
    requires sc != [] && k <= |ss| && CompileStmts(sm, lim, sc, next, ss[..k]).None?
    ensures CompileStmts(sm, lim, sc, next, ss).None?
  {
    if k < |ss| {
      assert ss[..|ss| - 1][..k] == ss[..k];
      StmtsFail(sm, lim, sc, next, ss[..|ss| - 1], k);
    } else {
      assert ss[..k] == ss;
    }
  }

  /** The slots of the parameters, in their order. */
  method GenParams(cg: Generator, names: seq<string>) returns (ok: bool)
    requires cg.Valid() && cg.sc == [map[]] && cg.next == 0
    modifies cg`locals, cg`next, cg`sc
    ensures ok <==> AllocParams(cg.lim, names).Some?
    ensures ok ==>
      var g := AllocParams(cg.lim, names).value;
      cg.Valid() && cg.sc == g.sc && cg.next == g.next
  {
    hide Flat, Alloc, AllocParams;
    ParamsNone(cg.lim);
    assert names[..0] == [];
    for i := 0 to |names|
      invariant cg.Valid()
      invariant AllocParams(cg.lim, names[..i]).Some?
      invariant var g := AllocParams(cg.lim, names[..i]).value; cg.sc == g.sc && cg.next == g.next
    {
      ParamsNext(cg.lim, names, i);
      var slot := cg.AllocLocal(names[i]);
      if slot.None? {
        ParamsFail(cg.lim, names, i + 1);
        return false;
      }
    }
    assert names[..|names|] == names;
    return true;
  }

  lemma ParamsNone(lim: GenLimits)
    ensures AllocParams(lim, []) == Some(Gen([], [map[]], 0))
  {
  }

  lemma ParamsNext(lim: GenLimits, names: seq<string>, i: nat)
    requires i < |names| && AllocParams(lim, names[..i]).Some?
    ensures var g := AllocParams(lim, names[..i]).value;
            AllocParams(lim, names[..i + 1]) == Alloc(lim, g.sc, g.next, names[i])
  {
    hide Alloc;
    assert names[..i + 1][..i] == names[..i];
  }

  /** What the specification makes of the parts. */
  lemma FunctionParts(sm: SourceModule, lim: GenLimits, f: AstFunction)
    ensures |f.params| > lim.maxParams ==> CompileFunction(sm, lim, f).None?
    ensures |f.params| <= lim.maxParams ==>
              var params := AllocParams(lim, ParamNames(f.params));
              && (params.None? ==> CompileFunction(sm, lim, f).None?)
              && (params.Some? ==>
                    var body := CompileStmts(sm, lim, params.value.sc, params.value.next, f.body);
                    CompileFunction(sm, lim, f) ==
                    if body.None? || |Closed(body.value.code)| > lim.maxCode then None
                    else Some(Function(f.name, f.isPublic, f.params, f.ret, body.value.next, Closed(body.value.code))))
  {
    hide AllocParams, CompileStmts, Closed;
  }

  /** Compile a function: parameters, body, and a closing return if the code does not end in one. */
  method GenFunction(sm: SourceModule, lim: GenLimits, f: AstFunction) returns (r: Option<Function>)
    ensures r == CompileFunction(sm, lim, f)
  {
    hide Flat, CompileStmts, AllocParams, CompileFunction;
    FunctionParts(sm, lim, f);
    if |f.params| > lim.maxParams { return None; }
    var cg := new Generator(sm, lim);
    var ok := GenParams(cg, ParamNames(f.params));
    if !ok { return None; }
    ghost var params := AllocParams(lim, ParamNames(f.params)).value;
    ok := cg.GenStmts(f.body);
    if !ok { return None; }
    assert cg.code == CompileStmts(sm, lim, params.sc, params.next, f.body).value.code;
    if cg.code == [] || cg.code[|cg.code| - 1] != Return {
      cg.Emit(Return);
    }
    if |cg.code| > lim.maxCode { return None; }
    return Some(Function(f.name, f.isPublic, f.params, f.ret, cg.next, cg.code));
  }

  lemma {:induction false} ParamsFail(lim: GenLimits, names: seq<string>, k: nat)
    requires k <= |names| && AllocParams(lim, names[..k]).None?
    ensures AllocParams(lim, names).None?
  {
    if k < |names| {
      assert names[..|names| - 1][..k] == names[..k];
      ParamsFail(lim, names[..|names| - 1], k);
    } else {
      assert names[..k] == names;
    }
  }
}
