/** The executor: gas coin, call or publish, effects, gas deduction. What the virtual machine
    does during a call is a parameter; `Adapter` shows that the machine meets its contract. */
module Executor {
  import opened MeowTypes
  import opened Vm
  import opened Ledger
  import opened Effects

  const BASE_TRANSACTION_GAS_COST: u64 := 1000
  const GAS_PER_MODULE_BYTE: nat := 10
  const MAX_MODULE_SIZE: nat := 512 * 1024

  const COIN_TYPE: Name := Qualified(COIN_MODULE, "MeowCoin")
  const BALANCE: string := "balance"

  // --------------------------------------------------------------------- coins

  predicate IsCoin(o: Object) {
    o.content.Instance? && o.content.decl == COIN_TYPE
  }

  function BalanceIn(fields: seq<Field>): (b: Option<u64>) {
    var v := FirstField(fields, BALANCE);
    if v.Some? && v.value.VU64? then Some(v.value.n) else None
  }

  function Balance(o: Object): (b: Option<u64>) {
    if IsCoin(o) then BalanceIn(o.content.fields) else None
  }

  function Minus(n: u64, spent: u64): (r: u64) {
    if n < spent then 0 else n - spent
  }

  /** The fields with `spent` taken off the first balance, not below zero; nothing if the
      balance is not a number. */
  function Deduct(fields: seq<Field>, spent: u64): (r: Option<seq<Field>>) {
    var i := Place(fields, BALANCE);
    if i == |fields| then Some(fields)
    else if !fields[i].value.VU64? then None
    else Some(fields[i := Field(BALANCE, VU64(Minus(fields[i].value.n, spent)))])
  }

  /** The deduction as it edits the field list. */
  method DeductGas(fields: seq<Field>, spent: u64) returns (r: Option<seq<Field>>)
    ensures r == Deduct(fields, spent)
  {
    for i := 0 to |fields|
      invariant forall k :: 0 <= k < i ==> fields[k].name != BALANCE
    {
      if fields[i].name == BALANCE {
        if !fields[i].value.VU64? { return None; }
        return Some(fields[i := Field(BALANCE, VU64(Minus(fields[i].value.n, spent)))]);
      }
    }
    return Some(fields);
  }

  /** A deduction within the balance is exact, and touches no other field. */
  lemma DeductExactly(fields: seq<Field>, spent: u64, name: string)
    requires BalanceIn(fields).Some? && spent <= BalanceIn(fields).value
    ensures Deduct(fields, spent).Some?
    ensures BalanceIn(Deduct(fields, spent).value) == Some(BalanceIn(fields).value - spent)
    ensures name != BALANCE ==> FirstField(Deduct(fields, spent).value, name) == FirstField(fields, name)
  {
    var r := Deduct(fields, spent).value;
    SamePlace(fields, r, BALANCE);
    SamePlace(fields, r, name);
  }

  lemma {:induction false} SamePlace(xs: seq<Field>, ys: seq<Field>, name: string)
    requires |xs| == |ys| && forall i :: 0 <= i < |xs| ==> xs[i].name == ys[i].name
    ensures Place(xs, name) == Place(ys, name)
  {
    if xs != [] {
      SamePlace(xs[1..], ys[1..], name);
    }
  }

  // --------------------------------------------------------------- the environment

  datatype CallEnd = Finished(ctx: Context, gas: Gas) | Stopped(message: string, gas: Gas)

  /** The parts of execution that are not the executor's: address derivation, module encoding,
      the checks before a call or a publication, and the run of the virtual machine. */
  datatype Env = Env(
    derive: (Digest, nat) -> Address,
    moduleSize: Module -> nat,
    callError: (Tx, Store) -> Option<string>,
    publishError: (Tx, Store) -> Option<string>,
    run: (Tx, Store, seq<Object>, Digest, nat, Gas) -> CallEnd,
    runSystem: (Tx, Store, Gas) -> CallEnd)

  // --------------------------------------------------------------------- results

  function Failure(message: string, tx: Digest): (r: ExecResult) {
    ExecResult(Some(message), tx, [], [], [], 0)
  }

  function Success(e: ObjectEffects, tx: Digest): (r: ExecResult) {
    ExecResult(None, tx, e.created, e.changed, e.destroyed, 0)
  }

  /** The gas coin, if it is a live coin of the sender in exactly the version referenced. */
  function GasCoin(p: Protocol, t: Tx, s: Store): (o: Option<Object>)
    ensures o.Some? ==>
      t.gasCoin.addr in s && o.value == s[t.gasCoin.addr] && IsCoin(o.value) && o.value.owner == OwnedBy(t.sender)
      && o.value.version == t.gasCoin.version && o.value.version < U64_MAX
  {
    if t.gasCoin.addr !in s then None
    else
      var coin := s[t.gasCoin.addr];
      if !IsCoin(coin) || coin.owner != OwnedBy(t.sender) || coin.version == U64_MAX
         || coin.version != t.gasCoin.version || p.objectDigest(coin) != t.gasCoin.digest
      then None else Some(coin)
  }

  /** An object argument is live, an instance, the sender's, and in the version referenced. */
  predicate ArgUsable(p: Protocol, r: ObjectRef, sender: Address, s: Store) {
    && r.addr in s && s[r.addr].content.Instance? && s[r.addr].owner == OwnedBy(sender)
    && s[r.addr].version < U64_MAX && s[r.addr].version == r.version
    && p.objectDigest(s[r.addr]) == r.digest
  }

  /** The objects a call takes, in argument order, if all of them are usable. */
  function ObjectArgs(p: Protocol, args: seq<Input>, sender: Address, s: Store): (r: Option<seq<Object>>)
  {
    if args == [] then Some([])
    else
      var before := ObjectArgs(p, args[..|args| - 1], sender, s);
      var last := args[|args| - 1];
      if before.None? then None
      else if last.Raw? then before
      else if ArgUsable(p, last.ref, sender, s) then Some(before.value + [s[last.ref.addr]])
      else None
  }

  /** The result of a finished run: its effects, or a failure if an object is unaccounted for.
      A run whose ids do not resolve would stop the node. */
  function Settle(ctx: Context, objs: seq<Object>, tx: Digest): (r: ExecResult) {
    if Resolvable(ctx, objs) && Consumed(ctx, objs) then Success(EffectsOf(ctx, objs, tx), tx)
    else Failure("object not accounted for", tx)
  }

  function ExecuteCall(p: Protocol, e: Env, t: Tx, s: Store, seed: Digest, time: nat, gas: Gas)
    : (r: (ExecResult, Gas))
    requires t.kind.MeowCall?
  {
    var digest := p.txDigest(t);
    var refused := e.callError(t, s);
    if refused.Some? then (Failure(refused.value, digest), gas)
    else
      var objs := ObjectArgs(p, t.kind.args, t.sender, s);
      if objs.None? then (Failure("argument", digest), gas)
      else
        match e.run(t, s, objs.value, seed, time, gas)
        case Stopped(message, left) => (Failure(message, digest), left)
        case Finished(ctx, left) => (Settle(ctx, objs.value, digest), left)
  }

  function ExecutePublish(p: Protocol, e: Env, t: Tx, s: Store, gas: Gas): (r: (ExecResult, Gas))
    requires t.kind.ModulePublish?
  {
    var digest := p.txDigest(t);
    var refused := e.publishError(t, s);
    var size := e.moduleSize(t.kind.code);
    if size > MAX_MODULE_SIZE then (Failure("module too large", digest), gas)
    else if refused.Some? then (Failure(refused.value, digest), gas)
    else
      var (paid, left) := Charge(gas, size * GAS_PER_MODULE_BYTE);
      if !paid then (Failure("out of gas", digest), left)
      else
        var published := Object(e.derive(digest, 0), Immutable, digest, 1, ModuleCode(t.kind.code));
        (Success(ObjectEffects([published], [], []), digest), left)
  }

  /** The coin with the gas taken from it, one version later. */
  function Spent(coin: Object, spent: u64, tx: Digest): (o: Object)
    requires coin.content.Instance? && coin.version < U64_MAX
    ensures o.addr == coin.addr && o.owner == coin.owner && o.content.Instance?
  {
    var left := Deduct(coin.content.fields, spent);
    var fields := if left.None? then coin.content.fields else left.value;
    Object(coin.addr, coin.owner, tx, Bump(coin), Instance(coin.content.decl, fields))
  }

  /** The result with the coin after it paid. */
  function Spend(r: ExecResult, coin: Object, spent: u64, tx: Digest): (q: ExecResult)
    requires coin.content.Instance? && coin.version < U64_MAX
    ensures q.created == r.created && q.destroyed == r.destroyed && q.gasUsed == spent
  {
    r.(changed := r.changed + [Spent(coin, spent, tx)], gasUsed := spent)
  }

  /** Execute a transaction on a store. The whole balance of the gas coin is the gas limit. */
  function Execute(p: Protocol, e: Env, t: Tx, s: Store, seed: Digest, time: nat): (r: Option<ExecResult>) {
    var coin := GasCoin(p, t, s);
    if coin.None? || Balance(coin.value).None? then None
    else
      var digest := p.txDigest(t);
      var (paid, gas) := Charge(Gas(Balance(coin.value).value, 0), BASE_TRANSACTION_GAS_COST);
      var (result, left) :=
        if !paid then (Failure("out of gas", digest), gas)
        else if t.kind.MeowCall? then ExecuteCall(p, e, t, s, seed, time, gas)
        else ExecutePublish(p, e, t, s, gas);
      Some(Spend(result, coin.value, left.spent, digest))
  }

  /** Execute a reward transaction: no gas coin, no object arguments, no gas. */
  function ExecuteReward(p: Protocol, e: Env, t: Tx, s: Store): (r: ExecResult) {
    var digest := p.txDigest(t);
    var refused := e.callError(t, s);
    if refused.Some? then Failure(refused.value, digest)
    else
      match e.runSystem(t, s, Gas(U64_MAX, 0))
      case Stopped(message, _) => Failure(message, digest)
      case Finished(ctx, _) => Settle(ctx, [], digest)
  }
}
