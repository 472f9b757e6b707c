/** The coin module, in source, and what its functions do to coins: evaluated, and so compiled. */
module Coin {
  import opened MeowTypes
  import opened Vm
  import opened Typing
  import opened Ast
  import opened Ledger
  import opened Effects
  import opened Adapter

  const COIN: StructDef := StructDef("MeowCoin", [FieldDef("id", ID), FieldDef("balance", U64)], true)
  const PARKED: StructDef := StructDef("MeowCoinBalance", [FieldDef("amount", U64)], true)
  const COIN_REF: Type := Struct(Local("MeowCoin"))

  function Var(x: string): (e: Expr) { EIdent(x) }
  function Ask(name: string, args: seq<Expr>): (e: Expr) { ECall(Plain(name), args) }
  function NewCoin(amount: Expr): (e: Expr) {
    EStruct("MeowCoin", [Init("id", Ask(FreshName(), [])), Init("balance", amount)])
  }

  function BalanceOf(x: string): (e: Expr) { EField(Var(x), "balance") }
  function TakeApart(x: string): (t: Stmt) { SLetStruct("MeowCoin", [Binding("id", "id")], Var(x), true) }
  function Destroy(): (t: Stmt) { SExpr(Ask(DestroyName(), [Var("id")])) }
  function HandOver(x: string, to: Expr): (t: Stmt) { SExpr(Ask(TransferName(), [Var(x), to])) }

  const MINT_SOURCE: AstFunction := AstFunction(MINT, false, [Param("balance", U64), Param("owner", Addr)], None,
    [SLet("coin", NewCoin(Var("balance"))), HandOver("coin", Var("owner"))])

  const BURN_SOURCE: AstFunction := AstFunction("burn", true, [Param("coin", COIN_REF)], None, [TakeApart("coin"), Destroy()])

  const TRANSFER_SOURCE: AstFunction := AstFunction("transfer", true, [Param("coin", COIN_REF), Param("to", Addr)], None,
    [HandOver("coin", Var("to"))])

  const MERGE_SOURCE: AstFunction := AstFunction("merge_and_transfer", true,
    [Param("from", COIN_REF), Param("to", COIN_REF), Param("recipient", Addr)], None,
    [SFieldAssign("to", ["balance"], EBin(BalanceOf("to"), OpAdd, BalanceOf("from"))),
     TakeApart("from"), Destroy(), HandOver("to", Var("recipient"))])

  const INSUFFICIENT: string := "The balance is insufficient"

  const SPLIT_SOURCE: AstFunction := AstFunction("split_and_transfer", true,
    [Param("from", COIN_REF), Param("amount", U64), Param("to", Addr)], None,
    [SExpr(Ask(AbortName(), [EBin(BalanceOf("from"), OpGe, Var("amount")), EInt(1), EStr(INSUFFICIENT)])),
     SFieldAssign("from", ["balance"], EBin(BalanceOf("from"), OpSub, Var("amount"))),
     SLet("coin", NewCoin(Var("amount"))), HandOver("coin", Var("to")), HandOver("from", Ask(SenderName(), []))])

  const BALANCE_SOURCE: AstFunction := AstFunction("balance", true, [Param("coin", COIN_REF)], Some(Tuple([COIN_REF, U64])),
    [SLet("b", BalanceOf("coin")), SReturn(Some(ETuple([Var("coin"), Var("b")])))])

  const MERGE_OWN_SOURCE: AstFunction := AstFunction("merge", true, [Param("from", COIN_REF), Param("to", COIN_REF)], None,
    [SExpr(Ask("merge_and_transfer", [Var("from"), Var("to"), Ask(SenderName(), [])]))])

  const SPLIT_OWN_SOURCE: AstFunction := AstFunction("split", true, [Param("from", COIN_REF), Param("amount", U64)], None,
    [SExpr(Ask("split_and_transfer", [Var("from"), Var("amount"), Ask(SenderName(), [])]))])

  const TO_BALANCE_SOURCE: AstFunction := AstFunction("to_balance", true, [Param("coin", COIN_REF)], Some(Struct(Local("MeowCoinBalance"))),
    [SLetStruct("MeowCoin", [Binding("id", "id"), Binding("balance", "balance")], Var("coin"), false), Destroy(),
     SReturn(Some(EStruct("MeowCoinBalance", [Init("amount", Var("balance"))])))])

  const FROM_BALANCE_SOURCE: AstFunction := AstFunction("from_balance", true, [Param("balance", Struct(Local("MeowCoinBalance")))],
    Some(COIN_REF),
    [SLetStruct("MeowCoinBalance", [Binding("amount", "amount")], Var("balance"), false), SReturn(Some(NewCoin(Var("amount"))))])

  const COIN_SOURCE: SourceModule := SourceModule(map["meow_object" := OBJECT_MODULE], [COIN, PARKED],
    [MINT_SOURCE, BALANCE_SOURCE, BURN_SOURCE, TRANSFER_SOURCE, MERGE_SOURCE, MERGE_OWN_SOURCE, SPLIT_SOURCE, SPLIT_OWN_SOURCE,
     TO_BALANCE_SOURCE, FROM_BALANCE_SOURCE])

  function CoinValue(a: Address, n: u64): (v: Value)
    ensures v.VStruct?
  {
    VStruct(Qualified(COIN_MODULE, "MeowCoin"), [Field("id", IdValue(a)), Field("balance", VU64(n))])
  }

  /** The coin module is what runs, on the chain's natives. */
  ghost predicate CoinWorld(w: World, s: Session) {
    w.addr == COIN_MODULE && w.main == COIN_SOURCE && w.natives == Natives(s) && w.maxDepth > 0
  }

  // ------------------------------------------------------------------ lookups

  lemma CoinStruct()
    ensures FindStruct(COIN_SOURCE.structs, "MeowCoin") == Some(COIN)
    ensures FieldNames(COIN) == ["id", "balance"]
  {
    assert COIN in COIN_SOURCE.structs;
    assert |"MeowCoin"| != |"MeowCoinBalance"|;
  }

  lemma CoinFunctions()
    ensures FindAst(COIN_SOURCE.functions, MINT) == Some(MINT_SOURCE)
    ensures FindAst(COIN_SOURCE.functions, "burn") == Some(BURN_SOURCE)
    ensures FindAst(COIN_SOURCE.functions, "transfer") == Some(TRANSFER_SOURCE)
    ensures FindAst(COIN_SOURCE.functions, "merge_and_transfer") == Some(MERGE_SOURCE)
    ensures FindAst(COIN_SOURCE.functions, "split_and_transfer") == Some(SPLIT_SOURCE)
  {
    hide FindAst;
    FunctionAt(0);
    FunctionAt(2);
    FunctionAt(3);
    FunctionAt(4);
    FunctionAt(6);
  }

  /** The first letter and the length tell the functions apart. */
  lemma NamesTold(i: nat)
    requires i < 10
    ensures |COIN_SOURCE.functions| == 10 && |COIN_SOURCE.functions[i].name| >= 4
    ensures var n := COIN_SOURCE.functions[i].name;
            (n[0], |n|) == [('m', 4), ('b', 7), ('b', 4), ('t', 8), ('m', 18), ('m', 5), ('s', 18), ('s', 5), ('t', 10), ('f', 12)][i]
  {
    var names := [MINT, "balance", "burn", "transfer", "merge_and_transfer", "merge", "split_and_transfer", "split", "to_balance",
      "from_balance"];
    assert forall k | 0 <= k < 10 :: COIN_SOURCE.functions[k].name == names[k];
    assert i == 0 || i == 1 || i == 2 || i == 3 || i == 4 || i == 5 || i == 6 || i == 7 || i == 8 || i == 9;
  }

  lemma FunctionAt(i: nat)
    requires i < 10
    ensures |COIN_SOURCE.functions| == 10
    ensures FindAst(COIN_SOURCE.functions, COIN_SOURCE.functions[i].name) == Some(COIN_SOURCE.functions[i])
  {
    hide COIN_SOURCE;
    NamesTold(i);
    forall k | 0 <= k < 10 && COIN_SOURCE.functions[k].name == COIN_SOURCE.functions[i].name ensures k == i {
      NamesTold(k);
    }
    OnlyOne(COIN_SOURCE.functions, i);
  }

  lemma OnlyOne(fns: seq<AstFunction>, i: nat)
    requires i < |fns| && forall k | 0 <= k < |fns| && fns[k].name == fns[i].name :: k == i
    ensures FindAst(fns, fns[i].name) == Some(fns[i])
  {
    assert fns[i] in fns;
  }

  /** Natives are no functions of the module. */
  lemma NoSuchFunction(name: string)
    requires 8 < |name| < 18 && name[0] == 'm'
    ensures FindAst(COIN_SOURCE.functions, name).None?
  {
    hide COIN_SOURCE;
    NamesTold(0);
    forall k | 0 <= k < 10 ensures COIN_SOURCE.functions[k].name != name {
      NamesTold(k);
    }
  }

  function Answer(env: Env, log: seq<NativeEvent>, name: string, vs: seq<Value>, r: NativeResult): (d: Done<Value>) {
    match r
    case NAbort(code, msg) => Bad(VmError.Aborted(code, msg), log)
    case NError(msg) => Bad(NativeError(msg), log)
    case NReturn(v) => Val(Landed(v), env, log + [NativeEvent(name, vs, v)])
  }

  /** A call of a native from the coin module. */
  lemma AskNative(w: World, s: Session, env: Env, log: seq<NativeEvent>, name: string, vs: seq<Value>)
    requires CoinWorld(w, s) && name in Natives(s) && 8 < |name| < 18 && name[0] == 'm'
    ensures var entry := Natives(s)[name];
            |vs| == |entry.sig.params| ==>
              EvalCall(w, COIN_MODULE, COIN_SOURCE, env, log, 0, Local(name), vs) ==
              Answer(env, log, entry.sig.name, vs, entry.func(log, vs))
  {
    hide Natives, EvalFunction, COIN_SOURCE, EvalExpr;
    NoSuchFunction(name);
  }

  lemma NativeNames()
    ensures 8 < |FreshName()| < 18 && FreshName()[0] == 'm' && 8 < |TransferName()| < 18 && TransferName()[0] == 'm'
    ensures 8 < |DestroyName()| < 18 && DestroyName()[0] == 'm' && 8 < |SenderName()| < 18 && SenderName()[0] == 'm'
    ensures 8 < |AbortName()| < 18 && AbortName()[0] == 'm'
  {
  }

  lemma AskFresh(w: World, s: Session, env: Env, log: seq<NativeEvent>)
    requires CoinWorld(w, s)
    ensures var id := IdValue(s.derive(s.tx, Named(log, FreshName())));
            EvalCall(w, COIN_MODULE, COIN_SOURCE, env, log, 0, Local(FreshName()), []) ==
              Val(id, env, log + [NativeEvent(FreshName(), [], Some(id))])
  {
    hide FreshName, TransferName, DestroyName, SenderName, RandName, TimeName, AbortName, Natives, EvalCall, Named;
    NamesDistinct();
    NativeNames();
    NativeLookup(s, FreshName());
    AskNative(w, s, env, log, FreshName(), []);
  }

  lemma AskTransfer(w: World, s: Session, env: Env, log: seq<NativeEvent>, v: Value, to: Address)
    requires CoinWorld(w, s) && ObjectAddress(v).Some?
    ensures EvalCall(w, COIN_MODULE, COIN_SOURCE, env, log, 0, Local(TransferName()), [v, VAddr(to)]) ==
              Val(VVoid, env, log + [NativeEvent(TransferName(), [v, VAddr(to)], None)])
  {
    hide FreshName, TransferName, DestroyName, SenderName, RandName, TimeName, AbortName, Natives, EvalCall, ObjectAddress;
    NamesDistinct();
    NativeNames();
    NativeLookup(s, TransferName());
    AskNative(w, s, env, log, TransferName(), [v, VAddr(to)]);
  }

  lemma AskDestroy(w: World, s: Session, env: Env, log: seq<NativeEvent>, a: Address)
    requires CoinWorld(w, s)
    ensures EvalCall(w, COIN_MODULE, COIN_SOURCE, env, log, 0, Local(DestroyName()), [IdValue(a)]) ==
              Val(VVoid, env, log + [NativeEvent(DestroyName(), [IdValue(a)], None)])
  {
    hide FreshName, TransferName, DestroyName, SenderName, RandName, TimeName, AbortName, Natives, EvalCall;
    NamesDistinct();
    NativeNames();
    NativeLookup(s, DestroyName());
    AskNative(w, s, env, log, DestroyName(), [IdValue(a)]);
  }

  lemma AskSender(w: World, s: Session, env: Env, log: seq<NativeEvent>)
    requires CoinWorld(w, s)
    ensures EvalCall(w, COIN_MODULE, COIN_SOURCE, env, log, 0, Local(SenderName()), []) ==
              Val(VAddr(s.sender), env, log + [NativeEvent(SenderName(), [], Some(VAddr(s.sender)))])
  {
    hide FreshName, TransferName, DestroyName, SenderName, RandName, TimeName, AbortName, Natives, EvalCall;
    NamesDistinct();
    NativeNames();
    NativeLookup(s, SenderName());
    AskNative(w, s, env, log, SenderName(), []);
  }

  lemma AskAbort(w: World, s: Session, env: Env, log: seq<NativeEvent>, ok: bool, code: u64, msg: string)
    requires CoinWorld(w, s)
    ensures var vs := [VBool(ok), VU64(code), VStr(msg)];
            EvalCall(w, COIN_MODULE, COIN_SOURCE, env, log, 0, Local(AbortName()), vs) ==
              if ok then Val(VVoid, env, log + [NativeEvent(AbortName(), vs, None)]) else Bad(VmError.Aborted(code, msg), log)
  {
    hide FreshName, TransferName, DestroyName, SenderName, RandName, TimeName, AbortName, Natives, EvalCall;
    NamesDistinct();
    NativeNames();
    NativeLookup(s, AbortName());
    AskNative(w, s, env, log, AbortName(), [VBool(ok), VU64(code), VStr(msg)]);
  }

  lemma CoinObject(a: Address, n: u64)
    ensures ObjectAddress(CoinValue(a, n)) == Some(a) && IsLinearValue(CoinValue(a, n)) && IsLinearValue(IdValue(a))
  {
  }

  lemma PlainValues(a: Address, n: u64)
    ensures !IsLinearValue(VAddr(a)) && !IsLinearValue(VU64(n))
  {
  }

  // --------------------------------------------------------------- expressions

  type Vars = map<string, Option<Value>>

  function Moved(m: Vars, x: string): (r: Vars) {
    m[x := None]
  }

  /** An expression of the coin module, evaluated in its only scope. */
  function Eval(w: World, m: Vars, log: seq<NativeEvent>, e: Expr): (r: Done<Value>)
    requires w.maxDepth > 0
  {
    EvalExpr(w, COIN_MODULE, COIN_SOURCE, [m], log, 0, e)
  }

  function Evals(w: World, m: Vars, log: seq<NativeEvent>, es: seq<Expr>): (r: Done<seq<Value>>)
    requires w.maxDepth > 0
  {
    EvalExprs(w, COIN_MODULE, COIN_SOURCE, [m], log, 0, es)
  }

  function Exec(w: World, m: Vars, log: seq<NativeEvent>, t: Stmt): (r: Flow)
    requires w.maxDepth > 0
  {
    EvalStmt(w, COIN_MODULE, COIN_SOURCE, [m], log, 0, t)
  }

  function Execs(w: World, m: Vars, log: seq<NativeEvent>, ts: seq<Stmt>): (r: Flow)
    requires w.maxDepth > 0
  {
    EvalStmts(w, COIN_MODULE, COIN_SOURCE, [m], log, 0, ts)
  }

  /** Reading a variable of the only scope. */
  lemma Reads(w: World, m: Vars, log: seq<NativeEvent>, x: string, v: Value)
    requires w.maxDepth > 0 && x in m && m[x] == Some(v)
    ensures Eval(w, m, log, Var(x)) == if IsLinearValue(v) then Val(v, [Moved(m, x)], log) else Val(v, [m], log)
  {
    assert Scope([m], x) == Some(0);
    assert [m][0 := Moved(m, x)] == [Moved(m, x)];
  }

  lemma EvalsNone(w: World, m: Vars, log: seq<NativeEvent>)
    requires w.maxDepth > 0
    ensures Evals(w, m, log, []) == Val([], [m], log)
  {
  }

  /** Arguments one after the other. */
  lemma EvalsSnoc(w: World, m: Vars, log: seq<NativeEvent>, es: seq<Expr>, e: Expr, vs: seq<Value>, m1: Vars, log1: seq<NativeEvent>)
    requires w.maxDepth > 0 && Evals(w, m, log, es) == Val(vs, [m1], log1)
    ensures var r := Eval(w, m1, log1, e);
            && (r.Val? ==> Evals(w, m, log, es + [e]) == Val(vs + [r.value], r.env, r.log))
            && (r.Bad? ==> Evals(w, m, log, es + [e]) == Bad(r.error, r.log))
  {
    hide EvalExpr;
    assert (es + [e])[..|es|] == es;
  }

  /** A call whose arguments are known. */
  lemma Asks(w: World, m: Vars, log: seq<NativeEvent>, name: string, args: seq<Expr>, vs: seq<Value>, m1: Vars, log1: seq<NativeEvent>)
    requires w.maxDepth > 0 && Evals(w, m, log, args) == Val(vs, [m1], log1)
    ensures Eval(w, m, log, Ask(name, args)) == EvalCall(w, COIN_MODULE, COIN_SOURCE, [m1], log1, 0, Local(name), vs)
  {
    hide EvalExprs, EvalCall;
  }

  /** A statement that evaluates one expression. */
  lemma Binds(w: World, m: Vars, log: seq<NativeEvent>, t: Stmt)
    requires w.maxDepth > 0 && !t.SReturn? && !t.SIf?
    ensures var r := Eval(w, m, log, t.expr);
            && (r.Val? ==> Exec(w, m, log, t) == Finish(COIN_SOURCE, r.env, r.log, t, r.value))
            && (r.Bad? ==> Exec(w, m, log, t) == Halt(r.error, r.log))
  {
    hide EvalExpr, Finish;
    assert Exec(w, m, log, t) == EvalBinding(w, COIN_MODULE, COIN_SOURCE, [m], log, 0, t);
  }

  /** A call made for its effect. */
  lemma Does(w: World, m: Vars, log: seq<NativeEvent>, e: Expr, m1: Vars, log1: seq<NativeEvent>)
    requires w.maxDepth > 0
    ensures Eval(w, m, log, e) == Val(VVoid, [m1], log1) ==> Exec(w, m, log, SExpr(e)) == Next([m1], log1)
    ensures Eval(w, m, log, e).Bad? ==> Exec(w, m, log, SExpr(e)) == Halt(Eval(w, m, log, e).error, Eval(w, m, log, e).log)
  {
    hide EvalExpr, EvalStmt;
    Binds(w, m, log, SExpr(e));
  }

  lemma ExecsNone(w: World, m: Vars, log: seq<NativeEvent>)
    requires w.maxDepth > 0
    ensures Execs(w, m, log, []) == Next([m], log)
  {
  }

  lemma ExecsSnoc(w: World, m: Vars, log: seq<NativeEvent>, ts: seq<Stmt>, t: Stmt, m1: Vars, log1: seq<NativeEvent>)
    requires w.maxDepth > 0 && Execs(w, m, log, ts) == Next([m1], log1)
    ensures Execs(w, m, log, ts + [t]) == Exec(w, m1, log1, t)
  {
    hide EvalStmt;
    assert (ts + [t])[..|ts|] == ts;
  }

  /** What follows a statement that stops is not reached. */
  lemma {:induction false} ExecsStop(w: World, m: Vars, log: seq<NativeEvent>, t: Stmt, rest: seq<Stmt>)
    requires w.maxDepth > 0 && Exec(w, m, log, t).Halt?
    ensures Execs(w, m, log, [t] + rest) == Exec(w, m, log, t)
  {
    hide EvalStmt;
    if rest == [] {
      assert [t] + rest == [t] && [t][..0] == [];
      ExecsNone(w, m, log);
    } else {
      var init := rest[..|rest| - 1];
      ExecsStop(w, m, log, t, init);
      assert ([t] + rest)[..|rest|] == [t] + init;
    }
  }

  // ----------------------------------------------------------------- coin statements

  /** Reading a balance in place. */
  lemma ReadsBalance(w: World, m: Vars, log: seq<NativeEvent>, x: string, a: Address, n: u64)
    requires w.maxDepth > 0 && x in m && m[x] == Some(CoinValue(a, n))
    ensures Eval(w, m, log, BalanceOf(x)) == Val(VU64(n), [m], log)
  {
    assert Scope([m], x) == Some(0);
    assert |"id"| != |"balance"|;
    assert FieldIndex(CoinValue(a, n).fields, "balance") == Some(1);
    assert ["balance"][1..] == [];
    assert ReadFieldPath(CoinValue(a, n), ["balance"]) == Ok(VU64(n));
    assert EvalField(w, COIN_MODULE, COIN_SOURCE, [m], log, 0, Var(x), ["balance"]) == Val(VU64(n), [m], log);
  }

  /** Setting a balance in place. */
  lemma SetsBalance(w: World, m: Vars, log: seq<NativeEvent>, x: string, e: Expr, a: Address, n: u64, k: u64)
    requires w.maxDepth > 0 && x in m && m[x] == Some(CoinValue(a, n)) && Eval(w, m, log, e) == Val(VU64(k), [m], log)
    ensures Exec(w, m, log, SFieldAssign(x, ["balance"], e)) == Next([m[x := Some(CoinValue(a, k))]], log)
  {
    hide EvalExpr, EvalStmt;
    Binds(w, m, log, SFieldAssign(x, ["balance"], e));
    assert Scope([m], x) == Some(0);
    assert |"id"| != |"balance"|;
    var fields := CoinValue(a, n).fields;
    assert FieldIndex(fields, "balance") == Some(1);
    assert fields[1 := Field("balance", VU64(k))] == CoinValue(a, k).fields;
    assert WriteFieldPath(CoinValue(a, n), ["balance"], VU64(k)) == Ok(CoinValue(a, k));
    assert [m][0 := m[x := Some(CoinValue(a, k))]] == [m[x := Some(CoinValue(a, k))]];
  }

  /** Handing a coin over. */
  lemma HandsOver(w: World, s: Session, m: Vars, log: seq<NativeEvent>, x: string, v: Value, to: Expr, addr: Address, log1: seq<NativeEvent>)
    requires CoinWorld(w, s) && x in m && m[x] == Some(v) && ObjectAddress(v).Some? && IsLinearValue(v)
    requires Eval(w, Moved(m, x), log, to) == Val(VAddr(addr), [Moved(m, x)], log1)
    ensures Exec(w, m, log, HandOver(x, to)) == Next([Moved(m, x)], log1 + [NativeEvent(TransferName(), [v, VAddr(addr)], None)])
  {
    hide EvalExpr, EvalExprs, EvalStmt, EvalCall, ObjectAddress, IsLinearValue, TransferName;
    var m1 := Moved(m, x);
    Reads(w, m, log, x, v);
    EvalsNone(w, m, log);
    EvalsSnoc(w, m, log, [], Var(x), [], m, log);
    assert [] + [Var(x)] == [Var(x)] && [] + [v] == [v];
    EvalsSnoc(w, m, log, [Var(x)], to, [v], m1, log);
    assert [Var(x)] + [to] == [Var(x), to] && [v] + [VAddr(addr)] == [v, VAddr(addr)];
    Asks(w, m, log, TransferName(), [Var(x), to], [v, VAddr(addr)], m1, log1);
    AskTransfer(w, s, [m1], log1, v, addr);
    Does(w, m, log, Ask(TransferName(), [Var(x), to]), m1, log1 + [NativeEvent(TransferName(), [v, VAddr(addr)], None)]);
  }

  /** Destroying an id. */
  lemma Destroys(w: World, s: Session, m: Vars, log: seq<NativeEvent>, a: Address)
    requires CoinWorld(w, s) && "id" in m && m["id"] == Some(IdValue(a))
    ensures Exec(w, m, log, Destroy()) == Next([Moved(m, "id")], log + [NativeEvent(DestroyName(), [IdValue(a)], None)])
  {
    hide EvalExpr, EvalExprs, EvalStmt, EvalCall, IsLinearValue, DestroyName, IdValue;
    var m1 := Moved(m, "id");
    CoinObject(a, 0);
    Reads(w, m, log, "id", IdValue(a));
    EvalsNone(w, m, log);
    EvalsSnoc(w, m, log, [], Var("id"), [], m, log);
    assert [] + [Var("id")] == [Var("id")] && [] + [IdValue(a)] == [IdValue(a)];
    Asks(w, m, log, DestroyName(), [Var("id")], [IdValue(a)], m1, log);
    AskDestroy(w, s, [m1], log, a);
    Does(w, m, log, Ask(DestroyName(), [Var("id")]), m1, log + [NativeEvent(DestroyName(), [IdValue(a)], None)]);
  }

  /** Taking a coin apart keeps its id and drops its balance. */
  lemma TakesApart(w: World, m: Vars, log: seq<NativeEvent>, x: string, a: Address, n: u64)
    requires w.maxDepth > 0 && x in m && m[x] == Some(CoinValue(a, n)) && "id" !in m
    ensures Exec(w, m, log, TakeApart(x)) == Next([Moved(m, x)["id" := Some(IdValue(a))]], log)
  {
    hide EvalExpr, EvalStmt, IsLinearValue, CoinValue, TakeFields, FieldMap, FindStruct, FieldNames, BindFields;
    Binds(w, m, log, TakeApart(x));
    CoinObject(a, n);
    CoinStruct();
    Reads(w, m, log, x, CoinValue(a, n));
    CoinParts(a, n);
    BindsId(Moved(m, x), log, IdValue(a), VU64(n));
    assert Finish(COIN_SOURCE, [Moved(m, x)], log, TakeApart(x), CoinValue(a, n)) ==
             Next([Moved(m, x)["id" := Some(IdValue(a))]], log);
  }

  lemma CoinParts(a: Address, n: u64)
    ensures var r := TakeFields(FieldMap(CoinValue(a, n).fields), ["id", "balance"]);
            r.Ok? && Reverse(r.value) == [IdValue(a), VU64(n)]
  {
    var fields := CoinValue(a, n).fields;
    assert "id" != "balance" by { assert |"id"| != |"balance"|; }
    UnpackExactly(fields, ["id", "balance"]);
    assert Values(fields) == [IdValue(a), VU64(n)];
    assert Reverse(Reverse(Values(fields))) == Values(fields);
  }

  lemma BindsId(m: Vars, log: seq<NativeEvent>, id: Value, rest: Value)
    requires "id" !in m
    ensures BindFields([m], [Binding("id", "id")], ["id", "balance"], [id, rest], log) == Next([m["id" := Some(id)]], log)
  {
    assert |"id"| != |"balance"|;
    assert ["id", "balance"][1..] == ["balance"] && [id, rest][1..] == [rest] && ["balance"][1..] == [] && [rest][1..] == [];
    assert [m][0 := m["id" := Some(id)]] == [m["id" := Some(id)]];
    var m1 := m["id" := Some(id)];
    assert [Binding("id", "id")][..0] == [];
    assert Bound([Binding("id", "id")], "balance").None?;
    assert BindFields([m1], [Binding("id", "id")], ["balance"], [rest], log) == Next([m1], log);
  }

  /** The id the next fresh id will be. */
  function NextId(s: Session, log: seq<NativeEvent>): (a: Address) {
    s.derive(s.tx, Named(log, FreshName()))
  }

  function Drawn(s: Session, log: seq<NativeEvent>): (ev: NativeEvent) {
    NativeEvent(FreshName(), [], Some(IdValue(NextId(s, log))))
  }

  /** Making a coin worth what a variable holds. */
  lemma Makes(w: World, s: Session, m: Vars, log: seq<NativeEvent>, x: string, n: u64)
    requires CoinWorld(w, s) && x in m && m[x] == Some(VU64(n)) && "coin" !in m
    ensures Exec(w, m, log, SLet("coin", NewCoin(Var(x)))) ==
              Next([m["coin" := Some(CoinValue(NextId(s, log), n))]], log + [Drawn(s, log)])
  {
    hide EvalInits, FindStruct, FieldNames, FreshName, IsLinearValue, NextId;
    var id := NextId(s, log);
    CoinStruct();
    MakesFields(w, s, m, log, x, n);
    assert MakeFields(["id", "balance"], [IdValue(id), VU64(n)]) == CoinValue(id, n).fields;
    assert Eval(w, m, log, NewCoin(Var(x))) == Val(CoinValue(id, n), [m], log + [Drawn(s, log)]);
    Binds(w, m, log, SLet("coin", NewCoin(Var(x))));
    assert [m][0 := m["coin" := Some(CoinValue(id, n))]] == [m["coin" := Some(CoinValue(id, n))]];
  }

  lemma MakesFields(w: World, s: Session, m: Vars, log: seq<NativeEvent>, x: string, n: u64)
    requires CoinWorld(w, s) && x in m && m[x] == Some(VU64(n))
    ensures EvalInits(w, COIN_MODULE, COIN_SOURCE, [m], log, 0, NewCoin(Var(x)).inits, ["id", "balance"]) ==
              Val([IdValue(NextId(s, log)), VU64(n)], [m], log + [Drawn(s, log)])
  {
    hide EvalExpr, EvalExprs, EvalCall, FreshName, IdValue, Named, LastInit, IsLinearValue;
    var inits, id, log1 := NewCoin(Var(x)).inits, IdValue(NextId(s, log)), log + [Drawn(s, log)];
    PlainValues(0, n);
    EvalsNone(w, m, log);
    Asks(w, m, log, FreshName(), [], [], m, log);
    AskFresh(w, s, [m], log);
    Reads(w, m, log1, x, VU64(n));
    InitsFound(Var(x));
    assert ["id", "balance"][..1] == ["id"] && ["id"][..0] == [];
    assert EvalInits(w, COIN_MODULE, COIN_SOURCE, [m], log, 0, inits, []) == Val([], [m], log);
    assert [] + [id] == [id] && [id] + [VU64(n)] == [id, VU64(n)];
    assert EvalInits(w, COIN_MODULE, COIN_SOURCE, [m], log, 0, inits, ["id"]) == Val([id], [m], log1);
  }

  lemma InitsFound(amount: Expr)
    ensures LastInit(NewCoin(amount).inits, "id") == Some(Ask(FreshName(), []))
    ensures LastInit(NewCoin(amount).inits, "balance") == Some(amount)
  {
    hide FreshName;
    var inits := NewCoin(amount).inits;
    assert |"id"| != |"balance"|;
    assert inits[..1] == [inits[0]];
    assert LastInit(inits[..1], "id") == Some(inits[0].expr);
  }

  // ------------------------------------------------------------------ functions

  function Ends(w: World, fn: AstFunction, vs: seq<Value>): (r: Flow)
    requires |vs| == |fn.params|
  {
    EvalFunction(w, COIN_MODULE, COIN_SOURCE, fn, vs, [], 0)
  }

  /** A body that runs to its end returns nothing. */
  lemma RunsToEnd(w: World, fn: AstFunction, vs: seq<Value>, m: Vars, m1: Vars, log: seq<NativeEvent>)
    requires w.maxDepth > 0 && |vs| == |fn.params| && ParamScope(fn.params, vs) == m
    ensures Execs(w, m, [], fn.body) == Next([m1], log) ==> Ends(w, fn, vs) == Ret(None, log)
    ensures Execs(w, m, [], fn.body).Halt? ==> Ends(w, fn, vs) == Execs(w, m, [], fn.body)
  {
    hide EvalStmts;
  }

  lemma ScopeOf(params: seq<Param>, vs: seq<Value>)
    requires 0 < |params| == |vs| <= 3
    ensures |vs| == 1 ==> ParamScope(params, vs) == map[params[0].name := Some(vs[0])]
    ensures |vs| == 2 ==> ParamScope(params, vs) == map[params[0].name := Some(vs[0]), params[1].name := Some(vs[1])]
    ensures |vs| == 3 ==>
              ParamScope(params, vs) ==
              map[params[0].name := Some(vs[0]), params[1].name := Some(vs[1]), params[2].name := Some(vs[2])]
  {
    var n := |vs| - 1;
    if n > 0 {
      ScopeOf(params[..n], vs[..n]);
    } else {
      assert params[..0] == [] && vs[..0] == [];
    }
  }

  function Sent(v: Value, to: Address): (ev: NativeEvent) {
    NativeEvent(TransferName(), [v, VAddr(to)], None)
  }

  function Gone(a: Address): (ev: NativeEvent) {
    NativeEvent(DestroyName(), [IdValue(a)], None)
  }

  /** `transfer` hands the coin over. */
  lemma TransferEvaluates(w: World, s: Session, a: Address, n: u64, to: Address)
    requires CoinWorld(w, s)
    ensures Ends(w, TRANSFER_SOURCE, [CoinValue(a, n), VAddr(to)]) == Ret(None, [Sent(CoinValue(a, n), to)])
  {
    hide EvalExpr, EvalStmt, EvalStmts, EvalFunction, ObjectAddress, IsLinearValue, CoinValue, ParamScope;
    var v := CoinValue(a, n);
    var m: Vars := map["coin" := Some(v), "to" := Some(VAddr(to))];
    CoinObject(a, n);
    PlainValues(to, n);
    ScopeOf(TRANSFER_SOURCE.params, [v, VAddr(to)]);
    Reads(w, Moved(m, "coin"), [], "to", VAddr(to));
    HandsOver(w, s, m, [], "coin", v, Var("to"), to, []);
    ExecsNone(w, m, []);
    ExecsSnoc(w, m, [], [], HandOver("coin", Var("to")), m, []);
    assert [] + [HandOver("coin", Var("to"))] == TRANSFER_SOURCE.body && [] + [Sent(v, to)] == [Sent(v, to)];
    RunsToEnd(w, TRANSFER_SOURCE, [v, VAddr(to)], m, Moved(m, "coin"), [Sent(v, to)]);
  }

  /** `mint` makes one coin with the first fresh id, worth the amount, and hands it over. */
  lemma MintEvaluates(w: World, s: Session, n: u64, to: Address)
    requires CoinWorld(w, s)
    ensures Ends(w, MINT_SOURCE, [VU64(n), VAddr(to)]) ==
              Ret(None, [Drawn(s, []), Sent(CoinValue(NextId(s, []), n), to)])
  {
    hide EvalExpr, EvalStmt, EvalStmts, EvalFunction, ObjectAddress, IsLinearValue, CoinValue, ParamScope, NextId, Drawn;
    var m: Vars := map["balance" := Some(VU64(n)), "owner" := Some(VAddr(to))];
    var v := CoinValue(NextId(s, []), n);
    var m1 := m["coin" := Some(v)];
    CoinObject(NextId(s, []), n);
    PlainValues(to, n);
    ScopeOf(MINT_SOURCE.params, [VU64(n), VAddr(to)]);
    Makes(w, s, m, [], "balance", n);
    assert [] + [Drawn(s, [])] == [Drawn(s, [])];
    ExecsNone(w, m, []);
    ExecsSnoc(w, m, [], [], MINT_SOURCE.body[0], m, []);
    assert [] + [MINT_SOURCE.body[0]] == [MINT_SOURCE.body[0]];
    Reads(w, Moved(m1, "coin"), [Drawn(s, [])], "owner", VAddr(to));
    HandsOver(w, s, m1, [Drawn(s, [])], "coin", v, Var("owner"), to, [Drawn(s, [])]);
    ExecsSnoc(w, m, [], [MINT_SOURCE.body[0]], MINT_SOURCE.body[1], m1, [Drawn(s, [])]);
    assert [MINT_SOURCE.body[0]] + [MINT_SOURCE.body[1]] == MINT_SOURCE.body;
    assert [Drawn(s, [])] + [Sent(v, to)] == [Drawn(s, []), Sent(v, to)];
    RunsToEnd(w, MINT_SOURCE, [VU64(n), VAddr(to)], m, Moved(m1, "coin"), [Drawn(s, []), Sent(v, to)]);
  }

  /** `burn` destroys the coin's id, and its balance is dropped. */
  lemma BurnEvaluates(w: World, s: Session, a: Address, n: u64)
    requires CoinWorld(w, s)
    ensures Ends(w, BURN_SOURCE, [CoinValue(a, n)]) == Ret(None, [Gone(a)])
  {
    hide EvalExpr, EvalStmt, EvalStmts, EvalFunction, IsLinearValue, CoinValue, IdValue, ParamScope;
    var m: Vars := map["coin" := Some(CoinValue(a, n))];
    var m1 := Moved(m, "coin")["id" := Some(IdValue(a))];
    assert |"coin"| != |"id"|;
    ScopeOf(BURN_SOURCE.params, [CoinValue(a, n)]);
    TakesApart(w, m, [], "coin", a, n);
    ExecsNone(w, m, []);
    ExecsSnoc(w, m, [], [], TakeApart("coin"), m, []);
    assert [] + [TakeApart("coin")] == [TakeApart("coin")];
    Destroys(w, s, m1, [], a);
    ExecsSnoc(w, m, [], [TakeApart("coin")], Destroy(), m1, []);
    assert [TakeApart("coin")] + [Destroy()] == BURN_SOURCE.body && [] + [Gone(a)] == [Gone(a)];
    RunsToEnd(w, BURN_SOURCE, [CoinValue(a, n)], m, Moved(m1, "id"), [Gone(a)]);
  }

  /** An operation on two values read in place. */
  lemma Computes(w: World, m: Vars, log: seq<NativeEvent>, l: Expr, op: BinOp, r: Expr, a: Value, b: Value)
    requires w.maxDepth > 0 && Eval(w, m, log, l) == Val(a, [m], log) && Eval(w, m, log, r) == Val(b, [m], log)
    ensures var v := BinValue(op, a, b);
            Eval(w, m, log, EBin(l, op, r)) == if v.Ok? then Val(v.value, [m], log) else Bad(v.error, log)
  {
    hide BinValue;
    var el := EvalExpr(w, COIN_MODULE, COIN_SOURCE, [m], log, 0, l);
    var er := EvalExpr(w, COIN_MODULE, COIN_SOURCE, [m], log, 0, r);
    assert el == Val(a, [m], log) && er == Val(b, [m], log);
  }

  /** `merge_and_transfer` destroys one coin and hands over the other, worth both; if the sum does not
      fit it fails and nothing is handed over. */
  lemma MergeEvaluates(w: World, s: Session, a: Address, n: u64, b: Address, k: u64, to: Address)
    requires CoinWorld(w, s)
    ensures Ends(w, MERGE_SOURCE, [CoinValue(a, n), CoinValue(b, k), VAddr(to)]) ==
              if n + k > U64_MAX then Halt(ArithmeticOverflow, []) else Ret(None, [Gone(a), Sent(CoinValue(b, n + k), to)])
  {
    hide EvalExpr, EvalStmt, EvalStmts, EvalFunction, IsLinearValue, CoinValue, ParamScope;
    var vs := [CoinValue(a, n), CoinValue(b, k), VAddr(to)];
    var m: Vars := map["from" := Some(CoinValue(a, n)), "to" := Some(CoinValue(b, k)), "recipient" := Some(VAddr(to))];
    assert |"from"| == 4 && |"to"| == 2 && |"recipient"| == 9;
    ScopeOf(MERGE_SOURCE.params, vs);
    ReadsBalance(w, m, [], "to", b, k);
    ReadsBalance(w, m, [], "from", a, n);
    Computes(w, m, [], BalanceOf("to"), OpAdd, BalanceOf("from"), VU64(k), VU64(n));
    Binds(w, m, [], MERGE_SOURCE.body[0]);
    if n + k > U64_MAX {
      ExecsStop(w, m, [], MERGE_SOURCE.body[0], MERGE_SOURCE.body[1..]);
      assert [MERGE_SOURCE.body[0]] + MERGE_SOURCE.body[1..] == MERGE_SOURCE.body;
      RunsToEnd(w, MERGE_SOURCE, vs, m, m, []);
    } else {
      SetsBalance(w, m, [], "to", MERGE_SOURCE.body[0].expr, b, k, n + k);
      MergeRest(w, s, m, a, n, b, n + k, to);
      RunsToEnd(w, MERGE_SOURCE, vs, m, MergedVars(m, a, b, n + k), [Gone(a), Sent(CoinValue(b, n + k), to)]);
    }
  }

  function MergedVars(m: Vars, a: Address, b: Address, k: u64): (r: Vars) {
    Moved(Moved(Moved(m["to" := Some(CoinValue(b, k))], "from")["id" := Some(IdValue(a))], "id"), "to")
  }

  lemma MergeRest(w: World, s: Session, m: Vars, a: Address, n: u64, b: Address, k: u64, to: Address)
    requires CoinWorld(w, s)
    requires "from" in m && "to" in m && "recipient" in m && "id" !in m
    requires m["from"] == Some(CoinValue(a, n)) && m["recipient"] == Some(VAddr(to))
    requires Exec(w, m, [], MERGE_SOURCE.body[0]) == Next([m["to" := Some(CoinValue(b, k))]], [])
    ensures Execs(w, m, [], MERGE_SOURCE.body) == Next([MergedVars(m, a, b, k)], [Gone(a), Sent(CoinValue(b, k), to)])
  {
    hide EvalExpr, EvalStmt, EvalStmts, ObjectAddress, IsLinearValue, CoinValue, IdValue;
    var body := MERGE_SOURCE.body;
    assert |"from"| == 4 && |"to"| == 2 && |"recipient"| == 9 && |"id"| == 2 && "id"[0] != "to"[0];
    var m1 := m["to" := Some(CoinValue(b, k))];
    var m2 := Moved(m1, "from")["id" := Some(IdValue(a))];
    var m3 := Moved(m2, "id");
    CoinObject(b, k);
    PlainValues(to, k);
    TakesApart(w, m1, [], "from", a, n);
    Destroys(w, s, m2, [], a);
    assert [] + [Gone(a)] == [Gone(a)];
    Reads(w, Moved(m3, "to"), [Gone(a)], "recipient", VAddr(to));
    HandsOver(w, s, m3, [Gone(a)], "to", CoinValue(b, k), Var("recipient"), to, [Gone(a)]);
    ExecsNone(w, m, []);
    ExecsSnoc(w, m, [], [], body[0], m, []);
    assert [] + [body[0]] == body[..1];
    ExecsSnoc(w, m, [], body[..1], body[1], m1, []);
    assert body[..1] + [body[1]] == body[..2];
    ExecsSnoc(w, m, [], body[..2], body[2], m2, []);
    assert body[..2] + [body[2]] == body[..3];
    ExecsSnoc(w, m, [], body[..3], body[3], m3, [Gone(a)]);
    assert body[..3] + [body[3]] == body && [Gone(a)] + [Sent(CoinValue(b, k), to)] == [Gone(a), Sent(CoinValue(b, k), to)];
  }

  // --------------------------------------------------------------------- splitting

  function Checked(ok: bool): (ev: NativeEvent) {
    NativeEvent(AbortName(), [VBool(ok), VU64(1), VStr(INSUFFICIENT)], None)
  }

  function AskedSender(s: Session): (ev: NativeEvent) {
    NativeEvent(SenderName(), [], Some(VAddr(s.sender)))
  }

  /** What `split_and_transfer` leaves in the log: the new coin goes to `to`, the rest back. */
  function SplitLog(s: Session, a: Address, n: u64, amount: u64, to: Address): (log: seq<NativeEvent>)
    requires amount <= n
  {
    var log1 := [Checked(true)];
    log1 + [Drawn(s, log1)] + [Sent(CoinValue(NextId(s, log1), amount), to)] + [AskedSender(s)] +
    [Sent(CoinValue(a, n - amount), s.sender)]
  }

  lemma Checks(w: World, s: Session, m: Vars, a: Address, n: u64, amount: u64)
    requires CoinWorld(w, s) && "from" in m && "amount" in m
    requires m["from"] == Some(CoinValue(a, n)) && m["amount"] == Some(VU64(amount))
    ensures Exec(w, m, [], SPLIT_SOURCE.body[0]) ==
              if n < amount then Halt(VmError.Aborted(1, INSUFFICIENT), []) else Next([m], [Checked(true)])
  {
    hide EvalExpr, EvalStmt, EvalExprs, EvalCall, IsLinearValue, CoinValue, AbortName, INSUFFICIENT;
    var ok := n >= amount;
    var cond, es := EBin(BalanceOf("from"), OpGe, Var("amount")), SPLIT_SOURCE.body[0].expr.args;
    PlainValues(0, amount);
    ReadsBalance(w, m, [], "from", a, n);
    Reads(w, m, [], "amount", VU64(amount));
    Computes(w, m, [], BalanceOf("from"), OpGe, Var("amount"), VU64(n), VU64(amount));
    Constants(w, m, []);
    EvalsNone(w, m, []);
    EvalsSnoc(w, m, [], [], cond, [], m, []);
    assert [] + [cond] == [cond] && [] + [VBool(ok)] == [VBool(ok)];
    EvalsSnoc(w, m, [], [cond], EInt(1), [VBool(ok)], m, []);
    assert [cond] + [EInt(1)] == [cond, EInt(1)] && [VBool(ok)] + [VU64(1)] == [VBool(ok), VU64(1)];
    EvalsSnoc(w, m, [], [cond, EInt(1)], EStr(INSUFFICIENT), [VBool(ok), VU64(1)], m, []);
    assert [cond, EInt(1)] + [EStr(INSUFFICIENT)] == es;
    assert [VBool(ok), VU64(1)] + [VStr(INSUFFICIENT)] == [VBool(ok), VU64(1), VStr(INSUFFICIENT)];
    Asks(w, m, [], AbortName(), es, [VBool(ok), VU64(1), VStr(INSUFFICIENT)], m, []);
    AskAbort(w, s, [m], [], ok, 1, INSUFFICIENT);
    assert [] + [Checked(true)] == [Checked(true)];
    Does(w, m, [], Ask(AbortName(), es), m, [Checked(true)]);
  }

  lemma Constants(w: World, m: Vars, log: seq<NativeEvent>)
    requires w.maxDepth > 0
    ensures Eval(w, m, log, EInt(1)) == Val(VU64(1), [m], log)
    ensures Eval(w, m, log, EStr(INSUFFICIENT)) == Val(VStr(INSUFFICIENT), [m], log)
  {
  }

  lemma AsksSender(w: World, s: Session, m: Vars, log: seq<NativeEvent>)
    requires CoinWorld(w, s)
    ensures Eval(w, m, log, Ask(SenderName(), [])) == Val(VAddr(s.sender), [m], log + [AskedSender(s)])
  {
    hide EvalExpr, EvalExprs, EvalCall, SenderName;
    EvalsNone(w, m, log);
    Asks(w, m, log, SenderName(), [], [], m, log);
    AskSender(w, s, [m], log);
  }

  /** `split_and_transfer` hands over a new coin worth the amount and the old one worth the rest; it
      aborts if the balance is insufficient. */
  lemma SplitEvaluates(w: World, s: Session, a: Address, n: u64, amount: u64, to: Address)
    requires CoinWorld(w, s)
    ensures Ends(w, SPLIT_SOURCE, [CoinValue(a, n), VU64(amount), VAddr(to)]) ==
              if n < amount then Halt(VmError.Aborted(1, INSUFFICIENT), []) else Ret(None, SplitLog(s, a, n, amount, to))
  {
    hide EvalExpr, EvalStmt, EvalStmts, EvalFunction, IsLinearValue, CoinValue, ParamScope, SplitLog, INSUFFICIENT;
    var vs := [CoinValue(a, n), VU64(amount), VAddr(to)];
    var m: Vars := map["from" := Some(CoinValue(a, n)), "amount" := Some(VU64(amount)), "to" := Some(VAddr(to))];
    assert |"from"| == 4 && |"to"| == 2 && |"amount"| == 6;
    ScopeOf(SPLIT_SOURCE.params, vs);
    Checks(w, s, m, a, n, amount);
    if n < amount {
      ExecsStop(w, m, [], SPLIT_SOURCE.body[0], SPLIT_SOURCE.body[1..]);
      assert [SPLIT_SOURCE.body[0]] + SPLIT_SOURCE.body[1..] == SPLIT_SOURCE.body;
      RunsToEnd(w, SPLIT_SOURCE, vs, m, m, []);
    } else {
      assert |"coin"| == 4 && "coin"[0] != "from"[0];
      SplitRest(w, s, m, a, n, amount, to);
      RunsToEnd(w, SPLIT_SOURCE, vs, m, SplitVars(s, m, a, n - amount, amount), SplitLog(s, a, n, amount, to));
    }
  }

  function SplitVars(s: Session, m: Vars, a: Address, rest: u64, amount: u64): (r: Vars) {
    Moved(Moved(m["from" := Some(CoinValue(a, rest))]["coin" := Some(CoinValue(NextId(s, [Checked(true)]), amount))], "coin"), "from")
  }

  lemma SplitRest(w: World, s: Session, m: Vars, a: Address, n: u64, amount: u64, to: Address)
    requires CoinWorld(w, s) && amount <= n
    requires "from" in m && "amount" in m && "to" in m && "coin" !in m
    requires m["from"] == Some(CoinValue(a, n)) && m["amount"] == Some(VU64(amount)) && m["to"] == Some(VAddr(to))
    requires Exec(w, m, [], SPLIT_SOURCE.body[0]) == Next([m], [Checked(true)])
    ensures Execs(w, m, [], SPLIT_SOURCE.body) ==
              Next([SplitVars(s, m, a, n - amount, amount)], SplitLog(s, a, n, amount, to))
  {
    hide EvalExpr, EvalStmt, EvalStmts, ObjectAddress, IsLinearValue, CoinValue, IdValue, NextId, Drawn, Checked, AskedSender, Sent;
    var body, log1, rest := SPLIT_SOURCE.body, [Checked(true)], CoinValue(a, n - amount);
    assert |"from"| == 4 && |"to"| == 2 && |"amount"| == 6 && |"coin"| == 4 && "coin"[0] != "from"[0];
    var coin := CoinValue(NextId(s, log1), amount);
    var m1 := m["from" := Some(rest)];
    var m2 := m1["coin" := Some(coin)];
    var m3 := Moved(m2, "coin");
    var log2 := log1 + [Drawn(s, log1)];
    var log3 := log2 + [Sent(coin, to)];
    SplitTakes(w, m, log1, a, n, amount);
    Makes(w, s, m1, log1, "amount", amount);
    SplitGives(w, s, m2, log2, coin, to, NextId(s, log1), amount);
    SplitReturns(w, s, m3, log3, a, n - amount);
    ExecsNone(w, m, []);
    ExecsSnoc(w, m, [], [], body[0], m, []);
    assert [] + [body[0]] == body[..1];
    ExecsSnoc(w, m, [], body[..1], body[1], m, log1);
    assert body[..1] + [body[1]] == body[..2];
    ExecsSnoc(w, m, [], body[..2], body[2], m1, log1);
    assert body[..2] + [body[2]] == body[..3];
    ExecsSnoc(w, m, [], body[..3], body[3], m2, log2);
    assert body[..3] + [body[3]] == body[..4];
    ExecsSnoc(w, m, [], body[..4], body[4], m3, log3);
    assert body[..4] + [body[4]] == body;
  }

  lemma SplitTakes(w: World, m: Vars, log: seq<NativeEvent>, a: Address, n: u64, amount: u64)
    requires w.maxDepth > 0 && amount <= n && "from" in m && "amount" in m
    requires m["from"] == Some(CoinValue(a, n)) && m["amount"] == Some(VU64(amount))
    ensures Exec(w, m, log, SPLIT_SOURCE.body[1]) == Next([m["from" := Some(CoinValue(a, n - amount))]], log)
  {
    hide EvalExpr, EvalStmt, IsLinearValue, CoinValue;
    PlainValues(0, amount);
    ReadsBalance(w, m, log, "from", a, n);
    Reads(w, m, log, "amount", VU64(amount));
    Computes(w, m, log, BalanceOf("from"), OpSub, Var("amount"), VU64(n), VU64(amount));
    SetsBalance(w, m, log, "from", SPLIT_SOURCE.body[1].expr, a, n, n - amount);
  }

  lemma SplitGives(w: World, s: Session, m: Vars, log: seq<NativeEvent>, coin: Value, to: Address, id: Address, amount: u64)
    requires CoinWorld(w, s) && "coin" in m && "to" in m && m["coin"] == Some(coin) && m["to"] == Some(VAddr(to))
    requires coin == CoinValue(id, amount)
    ensures Exec(w, m, log, SPLIT_SOURCE.body[3]) == Next([Moved(m, "coin")], log + [Sent(coin, to)])
  {
    hide EvalExpr, EvalStmt, IsLinearValue, CoinValue, ObjectAddress;
    assert |"coin"| == 4 && |"to"| == 2;
    CoinObject(id, amount);
    PlainValues(to, amount);
    Reads(w, Moved(m, "coin"), log, "to", VAddr(to));
    HandsOver(w, s, m, log, "coin", coin, Var("to"), to, log);
  }

  lemma SplitReturns(w: World, s: Session, m: Vars, log: seq<NativeEvent>, a: Address, n: u64)
    requires CoinWorld(w, s) && "from" in m && m["from"] == Some(CoinValue(a, n))
    ensures Exec(w, m, log, SPLIT_SOURCE.body[4]) ==
              Next([Moved(m, "from")], log + [AskedSender(s)] + [Sent(CoinValue(a, n), s.sender)])
  {
    hide EvalExpr, EvalStmt, IsLinearValue, CoinValue, ObjectAddress, SenderName;
    CoinObject(a, n);
    AsksSender(w, s, Moved(m, "from"), log);
    HandsOver(w, s, m, log, "from", CoinValue(a, n), Ask(SenderName(), []), s.sender, log + [AskedSender(s)]);
  }
}
