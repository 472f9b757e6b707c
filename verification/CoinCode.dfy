/** The coin module compiles: every function of it passes the generator, so there is a machine that
    runs it. */
module CoinCode {
  import opened MeowTypes
  import opened Vm
  import opened Ast
  import opened Codegen
  import Meaning
  import opened Ledger
  import opened Adapter
  import opened Coin

  /** Limits that leave room for the functions of the module. */
  predicate Roomy(lim: GenLimits) {
    lim.maxParams >= 3 && lim.maxLocals >= 16 && lim.maxTuple >= 2 && lim.maxCode >= 64
  }

  // --------------------------------------------------------------- expressions

  /** One scope, in which at least these names have slots. */
  predicate Knows(sc: Slots, xs: set<string>): (r: bool)
    ensures r ==> sc != []
  {
    |sc| == 1 && forall x | x in xs :: x in sc[0]
  }

  predicate Fits(lim: GenLimits, sc: Slots, e: Expr, k: nat) {
    var code := CompileExpr(COIN_SOURCE, lim, sc, e);
    code.Some? && |code.value| <= k
  }

  lemma VarFits(lim: GenLimits, sc: Slots, xs: set<string>, x: string)
    requires Knows(sc, xs) && x in xs
    ensures SlotOf(sc, x).Some? && Fits(lim, sc, Var(x), 1) && Fits(lim, sc, BalanceOf(x), 1)
  {
    assert Scope(sc, x) == Some(0);
    assert CompileField(COIN_SOURCE, lim, sc, Var(x), ["balance"]).Some?;
  }

  lemma BinFits(lim: GenLimits, sc: Slots, l: Expr, op: BinOp, r: Expr)
    requires Fits(lim, sc, l, 1) && Fits(lim, sc, r, 1)
    ensures Fits(lim, sc, EBin(l, op, r), 3)
  {
  }

  /** Up to three arguments, each compiled to up to three instructions. */
  lemma AskFits(lim: GenLimits, sc: Slots, name: string, args: seq<Expr>)
    requires |args| <= 3 && forall e | e in args :: Fits(lim, sc, e, 3)
    ensures Fits(lim, sc, Ask(name, args), 10)
  {
    hide Fits;
    ArgsFit(lim, sc, args);
    AskGiven(lim, sc, name, args);
  }

  lemma AskGiven(lim: GenLimits, sc: Slots, name: string, args: seq<Expr>)
    requires var code := CompileExprs(COIN_SOURCE, lim, sc, args); code.Some? && |code.value| <= 9
    ensures Fits(lim, sc, Ask(name, args), 10)
    ensures args == [] ==> Fits(lim, sc, Ask(name, args), 1)
  {
  }

  lemma {:induction false} ArgsFit(lim: GenLimits, sc: Slots, args: seq<Expr>)
    requires forall e | e in args :: Fits(lim, sc, e, 3)
    ensures var code := CompileExprs(COIN_SOURCE, lim, sc, args);
            code.Some? && |code.value| <= 3 * |args|
  {
    if args != [] {
      var init, e := args[..|args| - 1], args[|args| - 1];
      ArgsFit(lim, sc, init);
      assert e in args && Fits(lim, sc, e, 3);
    }
  }

  lemma Smaller(lim: GenLimits, sc: Slots, e: Expr)
    requires Fits(lim, sc, e, 1)
    ensures Fits(lim, sc, e, 3)
  {
  }

  lemma Bigger(lim: GenLimits, sc: Slots, e: Expr)
    requires Fits(lim, sc, e, 3)
    ensures Fits(lim, sc, e, 10)
  {
  }

  lemma NewCoinFits(lim: GenLimits, sc: Slots, xs: set<string>, x: string)
    requires Knows(sc, xs) && x in xs
    ensures Fits(lim, sc, NewCoin(Var(x)), 3)
  {
    hide FindStruct, FieldNames, FreshName, LastInit;
    CoinStruct();
    VarFits(lim, sc, xs, x);
    InitsFound(Var(x));
    AskGiven(lim, sc, FreshName(), []);
    assert |"id"| != |"balance"|;
    var inits := NewCoin(Var(x)).inits;
    assert ["id", "balance"][..1] == ["id"] && ["id"][..0] == [];
    assert CompileInits(COIN_SOURCE, lim, sc, inits, []) == Some([]);
    assert CompileInits(COIN_SOURCE, lim, sc, inits, ["id"]).Some?;
    assert CompileInits(COIN_SOURCE, lim, sc, inits, ["id", "balance"]).Some?;
  }

  lemma ParkedFits(lim: GenLimits, sc: Slots, xs: set<string>, x: string)
    requires Knows(sc, xs) && x in xs
    ensures Fits(lim, sc, EStruct("MeowCoinBalance", [Init("amount", Var(x))]), 3)
  {
    hide FindStruct, FieldNames;
    ParkedStruct();
    VarFits(lim, sc, xs, x);
    var inits := [Init("amount", Var(x))];
    assert ["amount"][..0] == [] && LastInit(inits, "amount") == Some(Var(x));
    assert CompileInits(COIN_SOURCE, lim, sc, inits, []) == Some([]);
    assert CompileInits(COIN_SOURCE, lim, sc, inits, ["amount"]).Some?;
  }

  lemma ParkedStruct()
    ensures FindStruct(COIN_SOURCE.structs, "MeowCoinBalance") == Some(PARKED)
    ensures FieldNames(PARKED) == ["amount"]
  {
    assert PARKED in COIN_SOURCE.structs;
    assert |"MeowCoin"| != |"MeowCoinBalance"|;
  }

  lemma TupleFits(lim: GenLimits, sc: Slots, xs: set<string>, x: string, y: string)
    requires Roomy(lim) && Knows(sc, xs) && x in xs && y in xs
    ensures Fits(lim, sc, ETuple([Var(x), Var(y)]), 10)
  {
    VarFits(lim, sc, xs, x);
    VarFits(lim, sc, xs, y);
    ArgsFit(lim, sc, [Var(x), Var(y)]);
  }

  // ---------------------------------------------------------------- statements

  /** The body so far: it compiles, within this much code and this many slots, and knows these names. */
  predicate Reaches(lim: GenLimits, sc: Slots, next: nat, ts: seq<Stmt>, xs: set<string>)
    requires sc != []
  {
    var g := CompileStmts(COIN_SOURCE, lim, sc, next, ts);
    g.Some? && |g.value.code| <= 12 * |ts| && Knows(g.value.sc, xs) && g.value.next <= next + 2 * |ts|
  }

  /** One statement: the same for it alone. */
  predicate Adds(lim: GenLimits, sc: Slots, next: nat, t: Stmt, xs: set<string>)
    requires sc != []
  {
    var g := CompileStmt(COIN_SOURCE, lim, sc, next, t);
    g.Some? && |g.value.code| <= 12 && Knows(g.value.sc, xs) && g.value.next <= next + 2
  }

  /** Wherever the names `xs` are known, the statement compiles, and then `ys` are known. */
  ghost predicate Always(lim: GenLimits, t: Stmt, xs: set<string>, ys: set<string>) {
    forall sc, next {:trigger Adds(lim, sc, next, t, ys)} :: Knows(sc, xs) && next <= 13 ==> Adds(lim, sc, next, t, ys)
  }

  lemma ReachesNone(lim: GenLimits, sc: Slots, next: nat, xs: set<string>)
    requires Knows(sc, xs)
    ensures Reaches(lim, sc, next, [], xs)
  {
  }

  lemma ReachesSnoc(lim: GenLimits, sc: Slots, next: nat, ts: seq<Stmt>, t: Stmt, xs: set<string>, ys: set<string>)
    requires sc != [] && Reaches(lim, sc, next, ts, xs) && next + 2 * |ts| <= 13
    requires Always(lim, t, xs, ys)
    ensures Reaches(lim, sc, next, ts + [t], ys)
  {
    hide CompileStmt;
    assert (ts + [t])[..|ts|] == ts;
    var g := CompileStmts(COIN_SOURCE, lim, sc, next, ts).value;
    assert Adds(lim, g.sc, g.next, t, ys);
  }

  /** A statement whose expression fits adds what its tail adds. */
  lemma AddsTail(lim: GenLimits, sc: Slots, next: nat, t: Stmt, k: nat, xs: set<string>)
    requires sc != [] && !t.SReturn? && !t.SIf? && Fits(lim, sc, t.expr, k)
    requires var tail := CompileTail(COIN_SOURCE, lim, sc, next, t);
             tail.Some? && |tail.value.code| + k <= 12 && Knows(tail.value.sc, xs) && tail.value.next <= next + 2
    ensures Adds(lim, sc, next, t, xs)
  {
    hide CompileExpr, CompileTail;
    assert CompileStmt(COIN_SOURCE, lim, sc, next, t) == CompileBinding(COIN_SOURCE, lim, sc, next, t);
  }

  lemma AddsLet(lim: GenLimits, sc: Slots, next: nat, x: string, e: Expr, xs: set<string>)
    requires Roomy(lim) && Knows(sc, xs) && next <= 13 && Fits(lim, sc, e, 3)
    ensures Adds(lim, sc, next, SLet(x, e), xs + {x})
  {
    hide CompileExpr;
    AddsTail(lim, sc, next, SLet(x, e), 3, xs + {x});
  }

  lemma AddsCall(lim: GenLimits, sc: Slots, next: nat, e: Expr, xs: set<string>)
    requires Knows(sc, xs) && Fits(lim, sc, e, 10)
    ensures Adds(lim, sc, next, SExpr(e), xs)
  {
    hide CompileExpr;
    AddsTail(lim, sc, next, SExpr(e), 10, xs);
  }

  lemma AddsAssign(lim: GenLimits, sc: Slots, next: nat, x: string, e: Expr, xs: set<string>)
    requires Knows(sc, xs) && x in xs && Fits(lim, sc, e, 3)
    ensures Adds(lim, sc, next, SFieldAssign(x, ["balance"], e), xs)
  {
    hide CompileExpr;
    VarFits(lim, sc, xs, x);
    AddsTail(lim, sc, next, SFieldAssign(x, ["balance"], e), 3, xs);
  }

  lemma AddsReturn(lim: GenLimits, sc: Slots, next: nat, e: Expr, xs: set<string>)
    requires Knows(sc, xs) && Fits(lim, sc, e, 10)
    ensures Adds(lim, sc, next, SReturn(Some(e)), xs)
  {
    hide CompileExpr;
  }

  lemma AddsTakeApart(lim: GenLimits, sc: Slots, next: nat, x: string, xs: set<string>)
    requires Roomy(lim) && Knows(sc, xs) && x in xs && next <= 13
    ensures Adds(lim, sc, next, TakeApart(x), xs + {"id"})
  {
    hide CompileExpr, FindStruct, FieldNames;
    CoinStruct();
    VarFits(lim, sc, xs, x);
    assert |"id"| != |"balance"|;
    var bs := [Binding("id", "id")];
    assert bs[..0] == [] && Bound(bs, "id") == Some("id") && Bound(bs, "balance").None?;
    assert ["id", "balance"][1..] == ["balance"] && ["balance"][1..] == [];
    var first := Alloc(lim, sc, next, "id").value;
    assert AllocFields(lim, first.sc, first.next, bs, ["balance"]) == Some(Gen([Pop], first.sc, first.next)) by {
      assert AllocFields(lim, first.sc, first.next, bs, []) == Some(Gen([], first.sc, first.next));
      assert [Pop] + [] == [Pop];
    }
    assert AllocFields(lim, sc, next, bs, ["id", "balance"]).Some?;
    AddsTail(lim, sc, next, TakeApart(x), 1, xs + {"id"});
  }

  lemma AddsTakeAll(lim: GenLimits, sc: Slots, next: nat, x: string, xs: set<string>)
    requires Roomy(lim) && Knows(sc, xs) && x in xs && next <= 13
    ensures Adds(lim, sc, next, SLetStruct("MeowCoin", [Binding("id", "id"), Binding("balance", "balance")], Var(x), false),
                 xs + {"id", "balance"})
  {
    hide CompileExpr, FindStruct, FieldNames;
    CoinStruct();
    VarFits(lim, sc, xs, x);
    assert |"id"| != |"balance"|;
    var bs := [Binding("id", "id"), Binding("balance", "balance")];
    assert bs[..1] == [Binding("id", "id")] && bs[..1][..0] == [];
    assert Bound(bs[..1], "id") == Some("id");
    assert Bound(bs, "id") == Some("id") && Bound(bs, "balance") == Some("balance");
    assert ["id", "balance"][1..] == ["balance"] && ["balance"][1..] == [];
    var first := Alloc(lim, sc, next, "id").value;
    var second := Alloc(lim, first.sc, first.next, "balance").value;
    assert AllocFields(lim, second.sc, second.next, bs, []) == Some(Gen([], second.sc, second.next));
    assert AllocFields(lim, first.sc, first.next, bs, ["balance"]).Some?;
    assert AllocFields(lim, sc, next, bs, ["id", "balance"]).Some?;
    AddsTail(lim, sc, next, SLetStruct("MeowCoin", bs, Var(x), false), 1, xs + {"id", "balance"});
  }

  lemma AddsUnpark(lim: GenLimits, sc: Slots, next: nat, x: string, xs: set<string>)
    requires Roomy(lim) && Knows(sc, xs) && x in xs && next <= 13
    ensures Adds(lim, sc, next, SLetStruct("MeowCoinBalance", [Binding("amount", "amount")], Var(x), false), xs + {"amount"})
  {
    hide CompileExpr, FindStruct, FieldNames;
    ParkedStruct();
    VarFits(lim, sc, xs, x);
    var bs := [Binding("amount", "amount")];
    assert Bound(bs, "amount") == Some("amount") && ["amount"][1..] == [];
    var first := Alloc(lim, sc, next, "amount").value;
    assert AllocFields(lim, first.sc, first.next, bs, []) == Some(Gen([], first.sc, first.next));
    assert AllocFields(lim, sc, next, bs, ["amount"]).Some?;
    AddsTail(lim, sc, next, SLetStruct("MeowCoinBalance", bs, Var(x), false), 1, xs + {"amount"});
  }

  lemma LetAlways(lim: GenLimits, xs: set<string>, x: string, y: string)
    requires Roomy(lim) && y in xs
    ensures Always(lim, SLet(x, NewCoin(Var(y))), xs, xs + {x}) && Always(lim, SLet(x, BalanceOf(y)), xs, xs + {x})
  {
    hide Adds, Fits, Knows;
    forall sc, next | Knows(sc, xs) && next <= 13
      ensures Adds(lim, sc, next, SLet(x, NewCoin(Var(y))), xs + {x}) && Adds(lim, sc, next, SLet(x, BalanceOf(y)), xs + {x})
    {
      NewCoinFits(lim, sc, xs, y);
      VarFits(lim, sc, xs, y);
      Smaller(lim, sc, BalanceOf(y));
      AddsLet(lim, sc, next, x, NewCoin(Var(y)), xs);
      AddsLet(lim, sc, next, x, BalanceOf(y), xs);
    }
  }

  /** An argument that is a known variable or the sender. */
  predicate Simple(xs: set<string>, e: Expr) {
    (e.EIdent? && e.x in xs) || e == Ask(SenderName(), []) || e.EInt? || e.EStr?
    || (e.EBin? && e.left.EField? && e.left.base.EIdent? && e.left == BalanceOf(e.left.base.x) && e.left.base.x in xs &&
        e.right.EIdent? && e.right.x in xs)
  }

  lemma SimpleFits(lim: GenLimits, sc: Slots, xs: set<string>, e: Expr)
    requires Knows(sc, xs) && Simple(xs, e)
    ensures Fits(lim, sc, e, 3)
  {
    hide SenderName, Knows;
    if e.EIdent? {
      VarFits(lim, sc, xs, e.x);
    } else if e.EBin? {
      VarFits(lim, sc, xs, e.left.base.x);
      VarFits(lim, sc, xs, e.right.x);
      BinFits(lim, sc, e.left, e.op, e.right);
    } else if e.ECall? {
      AskGiven(lim, sc, SenderName(), []);
    }
  }

  lemma CallAlways(lim: GenLimits, xs: set<string>, name: string, args: seq<Expr>)
    requires |args| <= 3 && forall e | e in args :: Simple(xs, e)
    ensures Always(lim, SExpr(Ask(name, args)), xs, xs)
  {
    hide Adds, Fits, Knows, Simple;
    forall sc, next | Knows(sc, xs) && next <= 13 ensures Adds(lim, sc, next, SExpr(Ask(name, args)), xs) {
      forall e | e in args ensures Fits(lim, sc, e, 3) {
        SimpleFits(lim, sc, xs, e);
      }
      AskFits(lim, sc, name, args);
      AddsCall(lim, sc, next, Ask(name, args), xs);
    }
  }

  lemma AssignAlways(lim: GenLimits, xs: set<string>, x: string, op: BinOp, r: Expr, y: string)
    requires x in xs && y in xs && (r == Var(y) || r == BalanceOf(y))
    ensures Always(lim, SFieldAssign(x, ["balance"], EBin(BalanceOf(x), op, r)), xs, xs)
  {
    hide Adds, Fits, Knows;
    var e := EBin(BalanceOf(x), op, r);
    forall sc, next | Knows(sc, xs) && next <= 13 ensures Adds(lim, sc, next, SFieldAssign(x, ["balance"], e), xs) {
      VarFits(lim, sc, xs, x);
      VarFits(lim, sc, xs, y);
      BinFits(lim, sc, BalanceOf(x), op, r);
      AddsAssign(lim, sc, next, x, e, xs);
    }
  }

  lemma TakeAlways(lim: GenLimits, xs: set<string>, x: string)
    requires Roomy(lim) && x in xs
    ensures Always(lim, TakeApart(x), xs, xs + {"id"})
    ensures Always(lim, SLetStruct("MeowCoin", [Binding("id", "id"), Binding("balance", "balance")], Var(x), false), xs,
                   xs + {"id", "balance"})
    ensures Always(lim, SLetStruct("MeowCoinBalance", [Binding("amount", "amount")], Var(x), false), xs, xs + {"amount"})
  {
    hide Adds, Knows;
    forall sc, next | Knows(sc, xs) && next <= 13 ensures Adds(lim, sc, next, TakeApart(x), xs + {"id"}) {
      AddsTakeApart(lim, sc, next, x, xs);
    }
    var all := SLetStruct("MeowCoin", [Binding("id", "id"), Binding("balance", "balance")], Var(x), false);
    forall sc, next | Knows(sc, xs) && next <= 13 ensures Adds(lim, sc, next, all, xs + {"id", "balance"}) {
      AddsTakeAll(lim, sc, next, x, xs);
    }
    var parked := SLetStruct("MeowCoinBalance", [Binding("amount", "amount")], Var(x), false);
    forall sc, next | Knows(sc, xs) && next <= 13 ensures Adds(lim, sc, next, parked, xs + {"amount"}) {
      AddsUnpark(lim, sc, next, x, xs);
    }
  }

  lemma ReturnAlways(lim: GenLimits, xs: set<string>, x: string, y: string)
    requires Roomy(lim) && x in xs && y in xs
    ensures Always(lim, SReturn(Some(ETuple([Var(x), Var(y)]))), xs, xs)
    ensures Always(lim, SReturn(Some(NewCoin(Var(x)))), xs, xs)
    ensures Always(lim, SReturn(Some(EStruct("MeowCoinBalance", [Init("amount", Var(x))]))), xs, xs)
  {
    hide Adds, Fits, Knows;
    var tuple, coin, parked := ETuple([Var(x), Var(y)]), NewCoin(Var(x)), EStruct("MeowCoinBalance", [Init("amount", Var(x))]);
    forall sc, next | Knows(sc, xs) && next <= 13
      ensures Adds(lim, sc, next, SReturn(Some(tuple)), xs) && Adds(lim, sc, next, SReturn(Some(coin)), xs)
      ensures Adds(lim, sc, next, SReturn(Some(parked)), xs)
    {
      TupleFits(lim, sc, xs, x, y);
      NewCoinFits(lim, sc, xs, x);
      ParkedFits(lim, sc, xs, x);
      Bigger(lim, sc, coin);
      Bigger(lim, sc, parked);
      AddsReturn(lim, sc, next, tuple, xs);
      AddsReturn(lim, sc, next, coin, xs);
      AddsReturn(lim, sc, next, parked, xs);
    }
  }

  // ------------------------------------------------------------------ functions

  lemma {:induction false} ParamsKnown(lim: GenLimits, names: seq<string>, xs: set<string>)
    requires Roomy(lim) && |names| <= 3 && xs == set x | x in names
    ensures var g := AllocParams(lim, names);
            g.Some? && Knows(g.value.sc, xs) && g.value.next <= |names|
  {
    if names != [] {
      var init := names[..|names| - 1];
      ParamsKnown(lim, init, set x | x in init);
    }
  }

  /** A function whose body reaches its end within the limits compiles. */
  lemma BodyCompiles(lim: GenLimits, fn: AstFunction, xs: set<string>)
    requires Roomy(lim) && |fn.params| <= 3 && |fn.body| <= 5
    requires var g := AllocParams(lim, ParamNames(fn.params));
             g.Some? && g.value.sc != [] && Reaches(lim, g.value.sc, g.value.next, fn.body, xs)
    ensures CompileFunction(COIN_SOURCE, lim, fn).Some?
  {
    hide CompileStmts, AllocParams, Knows;
  }

  lemma MintCompiles(lim: GenLimits)
    requires Roomy(lim)
    ensures CompileFunction(COIN_SOURCE, lim, MINT_SOURCE).Some?
  {
    hide CompileFunction, AllocParams, Reaches, Always, Knows, FreshName, TransferName, DestroyName, SenderName, AbortName, INSUFFICIENT;
    var body, names := MINT_SOURCE.body, ParamNames(MINT_SOURCE.params);
    assert names == ["balance", "owner"];
    ParamsKnown(lim, names, {"balance", "owner"});
    var g := AllocParams(lim, names).value;
    ReachesNone(lim, g.sc, g.next, {"balance", "owner"});
    LetAlways(lim, {"balance", "owner"}, "coin", "balance");
    assert {"balance", "owner"} + {"coin"} == {"balance", "owner", "coin"};
    ReachesSnoc(lim, g.sc, g.next, [], body[0], {"balance", "owner"}, {"balance", "owner", "coin"});
    assert [] + [body[0]] == body[..1];
    CallAlways(lim, {"balance", "owner", "coin"}, TransferName(), [Var("coin"), Var("owner")]);
    ReachesSnoc(lim, g.sc, g.next, body[..1], body[1], {"balance", "owner", "coin"}, {"balance", "owner", "coin"});
    assert body[..1] + [body[1]] == body;
    BodyCompiles(lim, MINT_SOURCE, {"balance", "owner", "coin"});
  }

  lemma BalanceCompiles(lim: GenLimits)
    requires Roomy(lim)
    ensures CompileFunction(COIN_SOURCE, lim, BALANCE_SOURCE).Some?
  {
    hide CompileFunction, AllocParams, Reaches, Always, Knows, FreshName, TransferName, DestroyName, SenderName, AbortName, INSUFFICIENT;
    var body, names := BALANCE_SOURCE.body, ParamNames(BALANCE_SOURCE.params);
    assert names == ["coin"];
    ParamsKnown(lim, names, {"coin"});
    var g := AllocParams(lim, names).value;
    ReachesNone(lim, g.sc, g.next, {"coin"});
    LetAlways(lim, {"coin"}, "b", "coin");
    assert {"coin"} + {"b"} == {"coin", "b"};
    ReachesSnoc(lim, g.sc, g.next, [], body[0], {"coin"}, {"coin", "b"});
    assert [] + [body[0]] == body[..1];
    ReturnAlways(lim, {"coin", "b"}, "coin", "b");
    ReachesSnoc(lim, g.sc, g.next, body[..1], body[1], {"coin", "b"}, {"coin", "b"});
    assert body[..1] + [body[1]] == body;
    BodyCompiles(lim, BALANCE_SOURCE, {"coin", "b"});
  }

  lemma BurnCompiles(lim: GenLimits)
    requires Roomy(lim)
    ensures CompileFunction(COIN_SOURCE, lim, BURN_SOURCE).Some?
  {
    hide CompileFunction, AllocParams, Reaches, Always, Knows, FreshName, TransferName, DestroyName, SenderName, AbortName, INSUFFICIENT;
    var body, names := BURN_SOURCE.body, ParamNames(BURN_SOURCE.params);
    assert names == ["coin"];
    ParamsKnown(lim, names, {"coin"});
    var g := AllocParams(lim, names).value;
    ReachesNone(lim, g.sc, g.next, {"coin"});
    TakeAlways(lim, {"coin"}, "coin");
    assert {"coin"} + {"id"} == {"coin", "id"};
    ReachesSnoc(lim, g.sc, g.next, [], body[0], {"coin"}, {"coin", "id"});
    assert [] + [body[0]] == body[..1];
    CallAlways(lim, {"coin", "id"}, DestroyName(), [Var("id")]);
    ReachesSnoc(lim, g.sc, g.next, body[..1], body[1], {"coin", "id"}, {"coin", "id"});
    assert body[..1] + [body[1]] == body;
    BodyCompiles(lim, BURN_SOURCE, {"coin", "id"});
  }

  lemma TransferCompiles(lim: GenLimits)
    requires Roomy(lim)
    ensures CompileFunction(COIN_SOURCE, lim, TRANSFER_SOURCE).Some?
  {
    hide CompileFunction, AllocParams, Reaches, Always, Knows, FreshName, TransferName, DestroyName, SenderName, AbortName, INSUFFICIENT;
    var body, names := TRANSFER_SOURCE.body, ParamNames(TRANSFER_SOURCE.params);
    assert names == ["coin", "to"];
    ParamsKnown(lim, names, {"coin", "to"});
    var g := AllocParams(lim, names).value;
    ReachesNone(lim, g.sc, g.next, {"coin", "to"});
    CallAlways(lim, {"coin", "to"}, TransferName(), [Var("coin"), Var("to")]);
    ReachesSnoc(lim, g.sc, g.next, [], body[0], {"coin", "to"}, {"coin", "to"});
    assert [] + [body[0]] == body;
    BodyCompiles(lim, TRANSFER_SOURCE, {"coin", "to"});
  }

  lemma MergeCompiles(lim: GenLimits)
    requires Roomy(lim)
    ensures CompileFunction(COIN_SOURCE, lim, MERGE_SOURCE).Some?
  {
    hide CompileFunction, AllocParams, Reaches, Always, Knows, FreshName, TransferName, DestroyName, SenderName, AbortName, INSUFFICIENT;
    var body, names := MERGE_SOURCE.body, ParamNames(MERGE_SOURCE.params);
    assert names == ["from", "to", "recipient"];
    ParamsKnown(lim, names, {"from", "to", "recipient"});
    var g := AllocParams(lim, names).value;
    ReachesNone(lim, g.sc, g.next, {"from", "to", "recipient"});
    AssignAlways(lim, {"from", "to", "recipient"}, "to", OpAdd, BalanceOf("from"), "from");
    ReachesSnoc(lim, g.sc, g.next, [], body[0], {"from", "to", "recipient"}, {"from", "to", "recipient"});
    assert [] + [body[0]] == body[..1];
    TakeAlways(lim, {"from", "to", "recipient"}, "from");
    assert {"from", "to", "recipient"} + {"id"} == {"from", "to", "recipient", "id"};
    ReachesSnoc(lim, g.sc, g.next, body[..1], body[1], {"from", "to", "recipient"}, {"from", "to", "recipient", "id"});
    assert body[..1] + [body[1]] == body[..2];
    CallAlways(lim, {"from", "to", "recipient", "id"}, DestroyName(), [Var("id")]);
    ReachesSnoc(lim, g.sc, g.next, body[..2], body[2], {"from", "to", "recipient", "id"}, {"from", "to", "recipient", "id"});
    assert body[..2] + [body[2]] == body[..3];
    CallAlways(lim, {"from", "to", "recipient", "id"}, TransferName(), [Var("to"), Var("recipient")]);
    ReachesSnoc(lim, g.sc, g.next, body[..3], body[3], {"from", "to", "recipient", "id"}, {"from", "to", "recipient", "id"});
    assert body[..3] + [body[3]] == body;
    BodyCompiles(lim, MERGE_SOURCE, {"from", "to", "recipient", "id"});
  }

  lemma MergeOwnCompiles(lim: GenLimits)
    requires Roomy(lim)
    ensures CompileFunction(COIN_SOURCE, lim, MERGE_OWN_SOURCE).Some?
  {
    hide CompileFunction, AllocParams, Reaches, Always, Knows, FreshName, TransferName, DestroyName, SenderName, AbortName, INSUFFICIENT;
    var body, names := MERGE_OWN_SOURCE.body, ParamNames(MERGE_OWN_SOURCE.params);
    assert names == ["from", "to"];
    ParamsKnown(lim, names, {"from", "to"});
    var g := AllocParams(lim, names).value;
    ReachesNone(lim, g.sc, g.next, {"from", "to"});
    CallAlways(lim, {"from", "to"}, "merge_and_transfer", [Var("from"), Var("to"), Ask(SenderName(), [])]);
    ReachesSnoc(lim, g.sc, g.next, [], body[0], {"from", "to"}, {"from", "to"});
    assert [] + [body[0]] == body;
    BodyCompiles(lim, MERGE_OWN_SOURCE, {"from", "to"});
  }

  lemma SplitCompiles(lim: GenLimits)
    requires Roomy(lim)
    ensures CompileFunction(COIN_SOURCE, lim, SPLIT_SOURCE).Some?
  {
    hide CompileFunction, AllocParams, Reaches, Always, Knows, FreshName, TransferName, DestroyName, SenderName, AbortName, INSUFFICIENT;
    var body, names := SPLIT_SOURCE.body, ParamNames(SPLIT_SOURCE.params);
    assert names == ["from", "amount", "to"];
    ParamsKnown(lim, names, {"from", "amount", "to"});
    var g := AllocParams(lim, names).value;
    ReachesNone(lim, g.sc, g.next, {"from", "amount", "to"});
    CallAlways(lim, {"from", "amount", "to"}, AbortName(), [EBin(BalanceOf("from"), OpGe, Var("amount")), EInt(1), EStr(INSUFFICIENT)]);
    ReachesSnoc(lim, g.sc, g.next, [], body[0], {"from", "amount", "to"}, {"from", "amount", "to"});
    assert [] + [body[0]] == body[..1];
    AssignAlways(lim, {"from", "amount", "to"}, "from", OpSub, Var("amount"), "amount");
    ReachesSnoc(lim, g.sc, g.next, body[..1], body[1], {"from", "amount", "to"}, {"from", "amount", "to"});
    assert body[..1] + [body[1]] == body[..2];
    LetAlways(lim, {"from", "amount", "to"}, "coin", "amount");
    assert {"from", "amount", "to"} + {"coin"} == {"from", "amount", "to", "coin"};
    ReachesSnoc(lim, g.sc, g.next, body[..2], body[2], {"from", "amount", "to"}, {"from", "amount", "to", "coin"});
    assert body[..2] + [body[2]] == body[..3];
    CallAlways(lim, {"from", "amount", "to", "coin"}, TransferName(), [Var("coin"), Var("to")]);
    ReachesSnoc(lim, g.sc, g.next, body[..3], body[3], {"from", "amount", "to", "coin"}, {"from", "amount", "to", "coin"});
    assert body[..3] + [body[3]] == body[..4];
    CallAlways(lim, {"from", "amount", "to", "coin"}, TransferName(), [Var("from"), Ask(SenderName(), [])]);
    ReachesSnoc(lim, g.sc, g.next, body[..4], body[4], {"from", "amount", "to", "coin"}, {"from", "amount", "to", "coin"});
    assert body[..4] + [body[4]] == body;
    BodyCompiles(lim, SPLIT_SOURCE, {"from", "amount", "to", "coin"});
  }

  lemma SplitOwnCompiles(lim: GenLimits)
    requires Roomy(lim)
    ensures CompileFunction(COIN_SOURCE, lim, SPLIT_OWN_SOURCE).Some?
  {
    hide CompileFunction, AllocParams, Reaches, Always, Knows, FreshName, TransferName, DestroyName, SenderName, AbortName, INSUFFICIENT;
    var body, names := SPLIT_OWN_SOURCE.body, ParamNames(SPLIT_OWN_SOURCE.params);
    assert names == ["from", "amount"];
    ParamsKnown(lim, names, {"from", "amount"});
    var g := AllocParams(lim, names).value;
    ReachesNone(lim, g.sc, g.next, {"from", "amount"});
    CallAlways(lim, {"from", "amount"}, "split_and_transfer", [Var("from"), Var("amount"), Ask(SenderName(), [])]);
    ReachesSnoc(lim, g.sc, g.next, [], body[0], {"from", "amount"}, {"from", "amount"});
    assert [] + [body[0]] == body;
    BodyCompiles(lim, SPLIT_OWN_SOURCE, {"from", "amount"});
  }

  lemma ToBalanceCompiles(lim: GenLimits)
    requires Roomy(lim)
    ensures CompileFunction(COIN_SOURCE, lim, TO_BALANCE_SOURCE).Some?
  {
    hide CompileFunction, AllocParams, Reaches, Always, Knows, FreshName, TransferName, DestroyName, SenderName, AbortName, INSUFFICIENT;
    var body, names := TO_BALANCE_SOURCE.body, ParamNames(TO_BALANCE_SOURCE.params);
    assert names == ["coin"];
    ParamsKnown(lim, names, {"coin"});
    var g := AllocParams(lim, names).value;
    ReachesNone(lim, g.sc, g.next, {"coin"});
    TakeAlways(lim, {"coin"}, "coin");
    assert {"coin"} + {"id", "balance"} == {"coin", "id", "balance"};
    ReachesSnoc(lim, g.sc, g.next, [], body[0], {"coin"}, {"coin", "id", "balance"});
    assert [] + [body[0]] == body[..1];
    CallAlways(lim, {"coin", "id", "balance"}, DestroyName(), [Var("id")]);
    ReachesSnoc(lim, g.sc, g.next, body[..1], body[1], {"coin", "id", "balance"}, {"coin", "id", "balance"});
    assert body[..1] + [body[1]] == body[..2];
    ReturnAlways(lim, {"coin", "id", "balance"}, "balance", "balance");
    ReachesSnoc(lim, g.sc, g.next, body[..2], body[2], {"coin", "id", "balance"}, {"coin", "id", "balance"});
    assert body[..2] + [body[2]] == body;
    BodyCompiles(lim, TO_BALANCE_SOURCE, {"coin", "id", "balance"});
  }

  lemma FromBalanceCompiles(lim: GenLimits)
    requires Roomy(lim)
    ensures CompileFunction(COIN_SOURCE, lim, FROM_BALANCE_SOURCE).Some?
  {
    hide CompileFunction, AllocParams, Reaches, Always, Knows, FreshName, TransferName, DestroyName, SenderName, AbortName, INSUFFICIENT;
    var body, names := FROM_BALANCE_SOURCE.body, ParamNames(FROM_BALANCE_SOURCE.params);
    assert names == ["balance"];
    ParamsKnown(lim, names, {"balance"});
    var g := AllocParams(lim, names).value;
    ReachesNone(lim, g.sc, g.next, {"balance"});
    TakeAlways(lim, {"balance"}, "balance");
    assert {"balance"} + {"amount"} == {"balance", "amount"};
    ReachesSnoc(lim, g.sc, g.next, [], body[0], {"balance"}, {"balance", "amount"});
    assert [] + [body[0]] == body[..1];
    ReturnAlways(lim, {"balance", "amount"}, "amount", "amount");
    ReachesSnoc(lim, g.sc, g.next, body[..1], body[1], {"balance", "amount"}, {"balance", "amount"});
    assert body[..1] + [body[1]] == body;
    BodyCompiles(lim, FROM_BALANCE_SOURCE, {"balance", "amount"});
  }

  /** Every function of the module compiles. */
  lemma CoinCompiles(lim: GenLimits, i: nat)
    requires Roomy(lim) && i < 10
    ensures |COIN_SOURCE.functions| == 10 && CompileFunction(COIN_SOURCE, lim, COIN_SOURCE.functions[i]).Some?
  {
    hide CompileFunction;
    match i
    case 0 => MintCompiles(lim);
    case 1 => BalanceCompiles(lim);
    case 2 => BurnCompiles(lim);
    case 3 => TransferCompiles(lim);
    case 4 => MergeCompiles(lim);
    case 5 => MergeOwnCompiles(lim);
    case 6 => SplitCompiles(lim);
    case 7 => SplitOwnCompiles(lim);
    case 8 => ToBalanceCompiles(lim);
    case 9 => FromBalanceCompiles(lim);
  }
}
