/** What the code generator accepts, in terms of the source alone: names in scope, known structs and
    aliases, and the limits, counted without generating any code. */
module Acceptance {
  import opened MeowTypes
  import opened Vm
  import opened Ast
  import opened Codegen

  // --------------------------------------------------------------- expressions

  /** Every variable is in scope, every literal gives each field of a known struct, and every alias
      and tuple is allowed. */
  predicate Scoped(sm: SourceModule, lim: GenLimits, names: set<string>, e: Expr)
    decreases e, 0
  {
    match e
    case EBool(_) | EInt(_) | EAddress(_) | EStr(_) => true
    case EIdent(x) => x in names
    case EBin(left, _, right) => Scoped(sm, lim, names, left) && Scoped(sm, lim, names, right)
    case ENot(arg) => Scoped(sm, lim, names, arg)
    case EField(base, _) => Scoped(sm, lim, names, base)
    case EStruct(name, inits) =>
      var def := FindStruct(sm.structs, name);
      def.Some? && AllDistinct(FieldNames(def.value)) && InitsScoped(sm, lim, names, inits, FieldNames(def.value))
    case ETuple(items) => |items| <= lim.maxTuple && forall i | 0 <= i < |items| :: Scoped(sm, lim, names, items[i])
    case ECall(callee, args) =>
      (callee.Dep? ==> callee.alias in sm.alias) && forall i | 0 <= i < |args| :: Scoped(sm, lim, names, args[i])
  }

  predicate InitsScoped(sm: SourceModule, lim: GenLimits, names: set<string>, inits: seq<Init>, fields: seq<string>)
    decreases inits, 1
  {
    forall i | 0 <= i < |fields| ::
      var e := LastInit(inits, fields[i]);
      e.Some? && Scoped(sm, lim, names, e.value)
  }

  /** A field path rooted in a variable is a single load. */
  predicate RootIsVar(e: Expr) {
    e.EIdent? || (e.EField? && RootIsVar(e.base))
  }

  /** The number of instructions an accepted expression takes. */
  function ExprSize(sm: SourceModule, e: Expr): (n: nat)
    decreases e, 0
  {
    match e
    case EBool(_) | EInt(_) | EAddress(_) | EStr(_) | EIdent(_) => 1
    case EBin(left, _, right) => ExprSize(sm, left) + ExprSize(sm, right) + 1
    case ENot(arg) => ExprSize(sm, arg) + 1
    case EField(base, _) => if RootIsVar(base) then 1 else ExprSize(sm, base) + 1
    case EStruct(name, inits) =>
      var def := FindStruct(sm.structs, name);
      (if def.Some? then InitsSize(sm, inits, FieldNames(def.value)) else 0) + 1
    case ETuple(items) => ExprsSize(sm, items) + 1
    case ECall(_, args) => ExprsSize(sm, args) + 1
  }

  function ExprsSize(sm: SourceModule, es: seq<Expr>): (n: nat)
    decreases es, 0
  {
    if es == [] then 0 else ExprsSize(sm, es[..|es| - 1]) + ExprSize(sm, es[|es| - 1])
  }

  function InitsSize(sm: SourceModule, inits: seq<Init>, fields: seq<string>): (n: nat)
    decreases inits, |fields|
  {
    if fields == [] then 0
    else
      var e := LastInit(inits, fields[|fields| - 1]);
      InitsSize(sm, inits, fields[..|fields| - 1]) + if e.Some? then ExprSize(sm, e.value) else 0
  }

  ghost function Visible(sc: Slots): (r: set<string>) {
    set i, x | 0 <= i < |sc| && x in sc[i] :: x
  }

  lemma SlotExactly(sc: Slots, x: string)
    ensures SlotOf(sc, x).Some? <==> x in Visible(sc)
  {
  }

  /** An expression compiles exactly when it is well scoped, to as many instructions as counted. */
  lemma {:induction false} ExprAccepted(sm: SourceModule, lim: GenLimits, sc: Slots, e: Expr)
    ensures CompileExpr(sm, lim, sc, e).Some? <==> Scoped(sm, lim, Visible(sc), e)
    ensures CompileExpr(sm, lim, sc, e).Some? ==> |CompileExpr(sm, lim, sc, e).value| == ExprSize(sm, e)
    decreases e, 0
  {
    hide SlotOf, Visible, FindStruct, AllDistinct, FieldNames, OpCode;
    match e
    case EBool(_) =>
    case EInt(_) =>
    case EAddress(_) =>
    case EStr(_) =>
    case EIdent(x) => SlotExactly(sc, x);
    case EBin(left, _, right) =>
      ExprAccepted(sm, lim, sc, left);
      ExprAccepted(sm, lim, sc, right);
    case ENot(arg) => ExprAccepted(sm, lim, sc, arg);
    case EField(base, field) => FieldAccepted(sm, lim, sc, base, [field]);
    case EStruct(name, inits) =>
      var def := FindStruct(sm.structs, name);
      if def.Some? {
        InitsAccepted(sm, lim, sc, inits, FieldNames(def.value));
      }
    case ETuple(items) => ExprsAccepted(sm, lim, sc, items);
    case ECall(callee, args) => ExprsAccepted(sm, lim, sc, args);
  }

  lemma {:induction false} FieldAccepted(sm: SourceModule, lim: GenLimits, sc: Slots, base: Expr, path: seq<string>)
    ensures CompileField(sm, lim, sc, base, path).Some? <==> Scoped(sm, lim, Visible(sc), base)
    ensures CompileField(sm, lim, sc, base, path).Some? ==>
              |CompileField(sm, lim, sc, base, path).value| == if RootIsVar(base) then 1 else ExprSize(sm, base) + |path|
    decreases base, 1
  {
    hide SlotOf, Visible, CompileExpr;
    if base.EField? {
      FieldAccepted(sm, lim, sc, base.base, [base.field] + path);
    } else {
      ExprAccepted(sm, lim, sc, base);
      if base.EIdent? { SlotExactly(sc, base.x); }
    }
  }

  lemma {:induction false} ExprsAccepted(sm: SourceModule, lim: GenLimits, sc: Slots, es: seq<Expr>)
    ensures CompileExprs(sm, lim, sc, es).Some? <==> forall i | 0 <= i < |es| :: Scoped(sm, lim, Visible(sc), es[i])
    ensures CompileExprs(sm, lim, sc, es).Some? ==> |CompileExprs(sm, lim, sc, es).value| == ExprsSize(sm, es)
    decreases es, 0
  {
    hide CompileExpr, Scoped, ExprSize, Visible;
    if es != [] {
      var init := es[..|es| - 1];
      ExprsAccepted(sm, lim, sc, init);
      ExprAccepted(sm, lim, sc, es[|es| - 1]);
      assert forall i | 0 <= i < |init| :: init[i] == es[i];
    }
  }

  lemma {:induction false} InitsAccepted(sm: SourceModule, lim: GenLimits, sc: Slots, inits: seq<Init>, fields: seq<string>)
    ensures CompileInits(sm, lim, sc, inits, fields).Some? <==> InitsScoped(sm, lim, Visible(sc), inits, fields)
    ensures CompileInits(sm, lim, sc, inits, fields).Some? ==>
              |CompileInits(sm, lim, sc, inits, fields).value| == InitsSize(sm, inits, fields)
    decreases inits, |fields|
  {
    hide CompileExpr, Scoped, ExprSize, Visible, LastInit;
    if fields != [] {
      var init := fields[..|fields| - 1];
      InitsAccepted(sm, lim, sc, inits, init);
      assert forall i | 0 <= i < |init| :: init[i] == fields[i];
      var e := LastInit(inits, fields[|fields| - 1]);
      if e.Some? { ExprAccepted(sm, lim, sc, e.value); }
    }
  }

  // ---------------------------------------------------------------- statements

  /** The names declared so far by scope, innermost last, and how many slots they took. */
  datatype Names = Names(scopes: seq<set<string>>, used: nat)

  ghost function InScope(n: Names): (r: set<string>) {
    set i, x | 0 <= i < |n.scopes| && x in n.scopes[i] :: x
  }

  /** Only a name that is new to the innermost scope takes a slot. */
  ghost function Declare(lim: GenLimits, n: Names, x: string): (r: Option<Names>)
    requires n.scopes != []
    ensures r.Some? ==> |r.value.scopes| == |n.scopes|
  {
    var k := |n.scopes| - 1;
    if x in n.scopes[k] then Some(n)
    else if n.used >= lim.maxLocals then None
    else Some(Names(n.scopes[..k] + [n.scopes[k] + {x}], n.used + 1))
  }

  ghost function DeclareAll(lim: GenLimits, n: Names, xs: seq<string>): (r: Option<Names>)
    requires n.scopes != []
    ensures r.Some? ==> |r.value.scopes| == |n.scopes|
    decreases xs
  {
    if xs == [] then Some(n)
    else
      var first := Declare(lim, n, xs[0]);
      if first.None? then None else DeclareAll(lim, first.value, xs[1..])
  }

  /** The names a destructuring binds, in the order of the definition. */
  function BoundNames(bs: seq<Binding>, fields: seq<string>): (r: seq<string>)
    ensures |r| <= |fields|
  {
    if fields == [] then []
    else (if Bound(bs, fields[0]).Some? then [Bound(bs, fields[0]).value] else []) + BoundNames(bs, fields[1..])
  }

  /** What a statement that binds or assigns leaves declared, if it is allowed. */
  ghost function TailDeclares(sm: SourceModule, lim: GenLimits, n: Names, s: Stmt): (r: Option<Names>)
    requires n.scopes != [] && !s.SReturn? && !s.SIf?
    ensures r.Some? ==> |r.value.scopes| == |n.scopes|
  {
    match s
    case SLet(x, _) => Declare(lim, n, x)
    case SExpr(_) => Some(n)
    case SReassign(x, _) => if x in InScope(n) then Some(n) else None
    case SFieldAssign(x, path, _) => if x in InScope(n) && path != [] then Some(n) else None
    case SLetTuple(names, _) => if |names| <= lim.maxTuple then DeclareAll(lim, n, names) else None
    case SLetStruct(tn, bs, _, rest) =>
      var def := FindStruct(sm.structs, tn);
      if def.Some? && BindingsOk(def.value, bs, rest) then DeclareAll(lim, n, BoundNames(bs, FieldNames(def.value))) else None
  }

  function TailSize(sm: SourceModule, s: Stmt): (k: nat)
    requires !s.SReturn? && !s.SIf?
  {
    match s
    case SLet(_, _) | SExpr(_) | SReassign(_, _) | SFieldAssign(_, _, _) => 1
    case SLetTuple(names, _) => 1 + |names|
    case SLetStruct(tn, _, _, _) =>
      var def := FindStruct(sm.structs, tn);
      1 + if def.Some? then |def.value.fields| else 0
  }

  /** Branches declare into scopes of their own, but keep the slots they took. */
  ghost function StmtDeclares(sm: SourceModule, lim: GenLimits, n: Names, s: Stmt): (r: Option<Names>)
    requires n.scopes != []
    ensures r.Some? ==> |r.value.scopes| == |n.scopes|
    decreases s, 0
  {
    match s
    case SReturn(None) => Some(n)
    case SReturn(Some(e)) => if Scoped(sm, lim, InScope(n), e) then Some(n) else None
    case SIf(cond, body, other) =>
      var b := StmtsDeclare(sm, lim, n.(scopes := n.scopes + [{}]), body);
      if !Scoped(sm, lim, InScope(n), cond) || b.None? then None
      else if other.NoElse? then Some(n.(used := b.value.used))
      else
        var o := StmtsDeclare(sm, lim, Names(n.scopes + [{}], b.value.used), other.stmts);
        if o.None? then None else Some(n.(used := o.value.used))
    case _ => if Scoped(sm, lim, InScope(n), s.expr) then TailDeclares(sm, lim, n, s) else None
  }

  ghost function StmtsDeclare(sm: SourceModule, lim: GenLimits, n: Names, ss: seq<Stmt>): (r: Option<Names>)
    requires n.scopes != []
    ensures r.Some? ==> |r.value.scopes| == |n.scopes|
    decreases ss, 0
  {
    if ss == [] then Some(n)
    else
      var init := StmtsDeclare(sm, lim, n, ss[..|ss| - 1]);
      if init.None? then None else StmtDeclares(sm, lim, init.value, ss[|ss| - 1])
  }

  function StmtSize(sm: SourceModule, s: Stmt): (k: nat)
    decreases s, 0
  {
    match s
    case SReturn(None) => 1
    case SReturn(Some(e)) => ExprSize(sm, e) + 1
    case SIf(cond, body, other) =>
      ExprSize(sm, cond) + 1 + StmtsSize(sm, body) + if other.Else? then 1 + StmtsSize(sm, other.stmts) else 0
    case _ => ExprSize(sm, s.expr) + TailSize(sm, s)
  }

  function StmtsSize(sm: SourceModule, ss: seq<Stmt>): (k: nat)
    decreases ss, 0
  {
    if ss == [] then 0 else StmtsSize(sm, ss[..|ss| - 1]) + StmtSize(sm, ss[|ss| - 1])
  }

  // ------------------------------------------------- the generator keeps the same books

  ghost function NamesOf(sc: Slots, next: nat): (n: Names)
    ensures |n.scopes| == |sc| && forall i | 0 <= i < |sc| :: n.scopes[i] == sc[i].Keys
  {
    Names(seq(|sc|, i requires 0 <= i < |sc| => sc[i].Keys), next)
  }

  lemma SameNames(sc: Slots, next: nat)
    ensures InScope(NamesOf(sc, next)) == Visible(sc)
  {
  }

  lemma InnerNames(sc: Slots, next: nat)
    ensures NamesOf(sc + [map[]], next) == Names(NamesOf(sc, next).scopes + [{}], next)
  {
    var none: map<string, nat> := map[];
    assert none.Keys == {};
    assert NamesOf(sc + [map[]], next).scopes == NamesOf(sc, next).scopes + [{}];
  }

  /** Both refuse, or the generated code has the size and leaves the names. */
  ghost predicate Agree(g: Option<Gen>, n: Option<Names>, size: nat) {
    && (g.Some? <==> n.Some?)
    && (g.Some? ==> NamesOf(g.value.sc, g.value.next) == n.value && |g.value.code| == size)
  }

  lemma DeclareAgrees(lim: GenLimits, sc: Slots, next: nat, x: string)
    requires sc != []
    ensures Agree(Alloc(lim, sc, next, x), Declare(lim, NamesOf(sc, next), x), 1)
  {
    var k := |sc| - 1;
    var n := NamesOf(sc, next);
    if x !in sc[k] && next < lim.maxLocals {
      var g := Alloc(lim, sc, next, x).value;
      assert g.sc[k].Keys == sc[k].Keys + {x};
      assert NamesOf(g.sc, g.next).scopes == n.scopes[..k] + [n.scopes[k] + {x}];
    }
  }

  lemma {:induction false} DeclareAllAgrees(lim: GenLimits, sc: Slots, next: nat, xs: seq<string>)
    requires sc != []
    ensures Agree(AllocAll(lim, sc, next, xs), DeclareAll(lim, NamesOf(sc, next), xs), |xs|)
    decreases xs
  {
    hide Alloc, Declare, NamesOf;
    if xs != [] {
      DeclareAgrees(lim, sc, next, xs[0]);
      var first := Alloc(lim, sc, next, xs[0]);
      if first.Some? {
        DeclareAllAgrees(lim, first.value.sc, first.value.next, xs[1..]);
      }
    }
  }

  lemma {:induction false} DeclareFieldsAgrees(lim: GenLimits, sc: Slots, next: nat, bs: seq<Binding>, fields: seq<string>)
    requires sc != []
    ensures Agree(AllocFields(lim, sc, next, bs, fields), DeclareAll(lim, NamesOf(sc, next), BoundNames(bs, fields)), |fields|)
    decreases fields
  {
    hide Alloc, Declare, NamesOf, Bound;
    if fields != [] {
      var x := Bound(bs, fields[0]);
      if x.None? {
        DeclareFieldsAgrees(lim, sc, next, bs, fields[1..]);
        assert [] + BoundNames(bs, fields[1..]) == BoundNames(bs, fields[1..]);
      } else {
        DeclareAgrees(lim, sc, next, x.value);
        var first := Alloc(lim, sc, next, x.value);
        assert BoundNames(bs, fields)[1..] == BoundNames(bs, fields[1..]);
        if first.Some? {
          DeclareFieldsAgrees(lim, first.value.sc, first.value.next, bs, fields[1..]);
        }
      }
    }
  }

  lemma TailAgrees(sm: SourceModule, lim: GenLimits, sc: Slots, next: nat, s: Stmt)
    requires sc != [] && !s.SReturn? && !s.SIf?
    ensures Agree(CompileTail(sm, lim, sc, next, s), TailDeclares(sm, lim, NamesOf(sc, next), s), TailSize(sm, s))
  {
    hide Alloc, AllocAll, AllocFields, Declare, DeclareAll, BoundNames, BindingsOk, SlotOf, InScope, Visible, FindStruct;
    SameNames(sc, next);
    match s
    case SLet(x, _) => DeclareAgrees(lim, sc, next, x);
    case SExpr(_) =>
    case SReassign(x, _) => SlotExactly(sc, x);
    case SFieldAssign(x, path, _) => SlotExactly(sc, x);
    case SLetTuple(names, _) => DeclareAllAgrees(lim, sc, next, names);
    case SLetStruct(tn, bs, _, _) =>
      var def := FindStruct(sm.structs, tn);
      if def.Some? { DeclareFieldsAgrees(lim, sc, next, bs, FieldNames(def.value)); }
  }

  lemma {:induction false} StmtAgrees(sm: SourceModule, lim: GenLimits, sc: Slots, next: nat, s: Stmt)
    requires sc != []
    ensures Agree(CompileStmt(sm, lim, sc, next, s), StmtDeclares(sm, lim, NamesOf(sc, next), s), StmtSize(sm, s))
    decreases s, 1
  {
    hide CompileExpr, CompileTail, TailDeclares, TailSize, Scoped, ExprSize, InScope, Visible;
    SameNames(sc, next);
    match s
    case SReturn(None) =>
    case SReturn(Some(e)) => ExprAccepted(sm, lim, sc, e);
    case SIf(cond, body, other) => IfAgrees(sm, lim, sc, next, s);
    case _ =>
      ExprAccepted(sm, lim, sc, s.expr);
      TailAgrees(sm, lim, sc, next, s);
  }

  lemma {:induction false} IfAgrees(sm: SourceModule, lim: GenLimits, sc: Slots, next: nat, s: Stmt)
    requires sc != [] && s.SIf?
    ensures Agree(CompileStmt(sm, lim, sc, next, s), StmtDeclares(sm, lim, NamesOf(sc, next), s), StmtSize(sm, s))
    decreases s, 0
  {
    hide CompileExpr, Scoped, ExprSize, InScope, Visible;
    SameNames(sc, next);
    ExprAccepted(sm, lim, sc, s.cond);
    var inner := sc + [map[]];
    InnerNames(sc, next);
    StmtsAgree(sm, lim, inner, next, s.body);
    var b := CompileStmts(sm, lim, inner, next, s.body);
    if b.Some? && s.other.Else? {
      InnerNames(sc, b.value.next);
      assert NamesOf(sc, b.value.next).scopes == NamesOf(sc, next).scopes;
      StmtsAgree(sm, lim, inner, b.value.next, s.other.stmts);
    }
  }

  /** Statements compile exactly when all they name is declared by then and the slots suffice, to as many
      instructions as counted. */
  lemma {:induction false} StmtsAgree(sm: SourceModule, lim: GenLimits, sc: Slots, next: nat, ss: seq<Stmt>)
    requires sc != []
    ensures Agree(CompileStmts(sm, lim, sc, next, ss), StmtsDeclare(sm, lim, NamesOf(sc, next), ss), StmtsSize(sm, ss))
    decreases ss, 0
  {
    hide CompileStmt, StmtDeclares, StmtSize, NamesOf;
    if ss != [] {
      var init := ss[..|ss| - 1];
      StmtsAgree(sm, lim, sc, next, init);
      var g := CompileStmts(sm, lim, sc, next, init);
      if g.Some? {
        StmtAgrees(sm, lim, g.value.sc, g.value.next, ss[|ss| - 1]);
      }
    }
  }

  // ----------------------------------------------------------------- functions

  /** The code of these statements ends in a `return`. */
  predicate EndsInReturn(ss: seq<Stmt>)
    decreases ss
  {
    ss != [] &&
    match ss[|ss| - 1]
    case SReturn(_) => true
    case SIf(_, body, other) => if other.Else? then EndsInReturn(other.stmts) else EndsInReturn(body)
    case _ => false
  }

  /** A function is accepted when its parameters fit, its body is well scoped within the slots, and its
      code, closed by a `return`, is not too long. */
  ghost predicate FunctionOk(sm: SourceModule, lim: GenLimits, f: AstFunction) {
    var params := DeclareAll(lim, Names([{}], 0), ParamNames(f.params));
    && |f.params| <= lim.maxParams
    && params.Some?
    && StmtsDeclare(sm, lim, params.value, f.body).Some?
    && StmtsSize(sm, f.body) + (if EndsInReturn(f.body) then 0 else 1) <= lim.maxCode
  }

  predicate LastIsReturn(code: seq<Instr>) {
    code != [] && code[|code| - 1] == Return
  }

  lemma {:induction false} DeclareSnoc(lim: GenLimits, n: Names, xs: seq<string>, x: string)
    requires n.scopes != []
    ensures var before := DeclareAll(lim, n, xs);
            DeclareAll(lim, n, xs + [x]) == if before.None? then None else Declare(lim, before.value, x)
    decreases xs
  {
    hide Declare;
    if xs == [] {
      assert xs + [x] == [x] && [x][1..] == [];
    } else {
      assert (xs + [x])[0] == xs[0] && (xs + [x])[1..] == xs[1..] + [x];
      var first := Declare(lim, n, xs[0]);
      if first.Some? { DeclareSnoc(lim, first.value, xs[1..], x); }
    }
  }

  lemma {:induction false} ParamsAgree(lim: GenLimits, names: seq<string>)
    ensures var g, n := AllocParams(lim, names), DeclareAll(lim, Names([{}], 0), names);
            && (g.Some? <==> n.Some?)
            && (g.Some? ==> NamesOf(g.value.sc, g.value.next) == n.value)
  {
    hide Alloc, Declare;
    if names == [] {
      var none: map<string, nat> := map[];
      assert none.Keys == {};
      assert NamesOf([none], 0).scopes == [{}];
    } else {
      var k := |names| - 1;
      ParamsAgree(lim, names[..k]);
      assert names[..k] + [names[k]] == names;
      DeclareSnoc(lim, Names([{}], 0), names[..k], names[k]);
      var before := AllocParams(lim, names[..k]);
      if before.Some? { DeclareAgrees(lim, before.value.sc, before.value.next, names[k]); }
    }
  }

  lemma TailNotReturn(sm: SourceModule, lim: GenLimits, sc: Slots, next: nat, s: Stmt)
    requires sc != [] && !s.SReturn? && !s.SIf?
    ensures var g := CompileTail(sm, lim, sc, next, s); g.Some? ==> g.value.code != [] && !LastIsReturn(g.value.code)
  {
    hide SlotOf, FindStruct, BindingsOk, FieldNames;
    match s
    case SLetTuple(names, _) =>
      if AllocAll(lim, sc, next, names).Some? { StoresOnly(lim, sc, next, names); }
    case SLetStruct(tn, bs, _, _) =>
      var def := FindStruct(sm.structs, tn);
      if def.Some? && AllocFields(lim, sc, next, bs, FieldNames(def.value)).Some? {
        StoresFields(lim, sc, next, bs, FieldNames(def.value));
      }
    case _ =>
  }

  lemma {:induction false} StoresOnly(lim: GenLimits, sc: Slots, next: nat, xs: seq<string>)
    requires sc != [] && AllocAll(lim, sc, next, xs).Some?
    ensures forall i | 0 <= i < |AllocAll(lim, sc, next, xs).value.code| :: AllocAll(lim, sc, next, xs).value.code[i].Store?
    decreases xs
  {
    if xs != [] {
      var first := Alloc(lim, sc, next, xs[0]).value;
      StoresOnly(lim, first.sc, first.next, xs[1..]);
    }
  }

  lemma {:induction false} StoresFields(lim: GenLimits, sc: Slots, next: nat, bs: seq<Binding>, fields: seq<string>)
    requires sc != [] && AllocFields(lim, sc, next, bs, fields).Some?
    ensures forall i | 0 <= i < |AllocFields(lim, sc, next, bs, fields).value.code| ::
              AllocFields(lim, sc, next, bs, fields).value.code[i] != Return
    decreases fields
  {
    hide Bound;
    if fields != [] {
      var x := Bound(bs, fields[0]);
      var first := if x.None? then Gen([Pop], sc, next) else Alloc(lim, sc, next, x.value).value;
      StoresFields(lim, first.sc, first.next, bs, fields[1..]);
    }
  }

  lemma LastOfSum(a: seq<Instr>, b: seq<Instr>)
    ensures b != [] ==> (LastIsReturn(a + b) <==> LastIsReturn(b))
  {
  }

  lemma {:induction false} ReturnLast(sm: SourceModule, lim: GenLimits, sc: Slots, next: nat, ss: seq<Stmt>)
    requires sc != []
    ensures var g := CompileStmts(sm, lim, sc, next, ss);
            g.Some? ==> (LastIsReturn(g.value.code) <==> EndsInReturn(ss))
    decreases ss, 0
  {
    hide CompileStmt, LastIsReturn;
    if ss == [] {
      assert !LastIsReturn([]) by { NoReturn(); }
    } else {
      var init := CompileStmts(sm, lim, sc, next, ss[..|ss| - 1]);
      if init.Some? {
        var last := CompileStmt(sm, lim, init.value.sc, init.value.next, ss[|ss| - 1]);
        StmtReturnLast(sm, lim, init.value.sc, init.value.next, ss[|ss| - 1]);
        if last.Some? { LastOfSum(init.value.code, last.value.code); }
      }
    }
  }

  lemma NoReturn()
    ensures !LastIsReturn([])
  {
  }

  lemma {:induction false} StmtReturnLast(sm: SourceModule, lim: GenLimits, sc: Slots, next: nat, s: Stmt)
    requires sc != []
    ensures var g := CompileStmt(sm, lim, sc, next, s);
            g.Some? ==> g.value.code != [] && (LastIsReturn(g.value.code) <==> EndsInReturn([s]))
    decreases s, 1
  {
    hide CompileExpr, CompileTail;
    assert [s][|[s]| - 1] == s;
    match s
    case SReturn(_) =>
    case SIf(cond, body, other) => IfReturnLast(sm, lim, sc, next, s);
    case _ =>
      TailNotReturn(sm, lim, sc, next, s);
      var code, tail := CompileExpr(sm, lim, sc, s.expr), CompileTail(sm, lim, sc, next, s);
      if code.Some? && tail.Some? { LastOfSum(code.value, tail.value.code); }
  }

  lemma {:induction false} IfReturnLast(sm: SourceModule, lim: GenLimits, sc: Slots, next: nat, s: Stmt)
    requires sc != [] && s.SIf?
    ensures var g := CompileStmt(sm, lim, sc, next, s);
            g.Some? ==> g.value.code != []
                        && (LastIsReturn(g.value.code) <==> EndsInReturn(if s.other.Else? then s.other.stmts else s.body))
    decreases s, 0
  {
    hide CompileExpr;
    var c := CompileExpr(sm, lim, sc, s.cond);
    var inner := sc + [map[]];
    var b := CompileStmts(sm, lim, inner, next, s.body);
    if c.Some? && b.Some? {
      ReturnLast(sm, lim, inner, next, s.body);
      var jump := c.value + [JumpIfNot(|b.value.code| + 1)];
      LastOfSum(jump, b.value.code);
      if s.other.Else? {
        ReturnLast(sm, lim, inner, b.value.next, s.other.stmts);
        var o := CompileStmts(sm, lim, inner, b.value.next, s.other.stmts);
        if o.Some? {
          var over := c.value + [JumpIfNot(|b.value.code| + 2)] + b.value.code + [Jump(|o.value.code| + 1)];
          LastOfSum(over, o.value.code);
        }
      }
    }
  }

  /** A function compiles exactly when it is accepted in these terms; its code has the size counted, and
      its frame one slot for each declaration. */
  lemma FunctionAccepted(sm: SourceModule, lim: GenLimits, f: AstFunction)
    ensures CompileFunction(sm, lim, f).Some? <==> FunctionOk(sm, lim, f)
    ensures CompileFunction(sm, lim, f).Some? ==>
              && |CompileFunction(sm, lim, f).value.code|
                 == StmtsSize(sm, f.body) + (if EndsInReturn(f.body) then 0 else 1)
              && CompileFunction(sm, lim, f).value.localCount
                 == StmtsDeclare(sm, lim, DeclareAll(lim, Names([{}], 0), ParamNames(f.params)).value, f.body).value.used
  {
    hide CompileStmts, AllocParams, DeclareAll, StmtsDeclare, StmtsSize, EndsInReturn;
    ParamsAgree(lim, ParamNames(f.params));
    var params := AllocParams(lim, ParamNames(f.params));
    if params.Some? {
      StmtsAgree(sm, lim, params.value.sc, params.value.next, f.body);
      ReturnLast(sm, lim, params.value.sc, params.value.next, f.body);
    }
  }
}
