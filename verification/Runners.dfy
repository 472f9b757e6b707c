/** Chains whose executor is the virtual machine: what the machine's theorems give the theorems about
    chains. */
module Runners {
  import opened MeowTypes
  import opened Vm
  import opened Typing
  import Verifier
  import opened Structural
  import opened Soundness
  import opened Verify
  import opened Ledger
  import Effects
  import opened Executor
  import opened History
  import opened Adapter
  import opened Layouts
  import opened Chain
  import opened AtMostOnce
  import opened Assertions

  // ---------------------------------------------------------------- any code at all

  /** The run is an error before anything ran, or a call of the machine on the chain's natives, on
      any modules and any arguments. */
  ghost predicate RunsMachine(p: Protocol, e: Env, t: Tx, gas: Gas, end: CallEnd) {
    (end.Stopped? && end.gas == gas) || exists vm, s, name, vals :: RunsThis(p, e, t, gas, end, vm, s, name, vals)
  }

  ghost predicate RunsThis(
    p: Protocol, e: Env, t: Tx, gas: Gas, end: CallEnd, vm: Machine, s: Session, name: string, vals: seq<Value>)
  {
    && vm.natives == Natives(s) && s.tx == p.txDigest(t) && s.derive == e.derive
    && Halting(vm, vm.main, gas) && end == MachineEnd(vm, name, vals, gas)
  }

  /** Every call of the runner is a run of the machine. */
  ghost predicate Machines(p: Protocol, e: Env) {
    && (forall t, s, objs, seed, time, gas {:trigger e.run(t, s, objs, seed, time, gas)} ::
          RunsMachine(p, e, t, gas, e.run(t, s, objs, seed, time, gas)))
    && (forall t, s, gas {:trigger e.runSystem(t, s, gas)} :: RunsMachine(p, e, t, gas, e.runSystem(t, s, gas)))
  }

  lemma RunIsHonest(p: Protocol, e: Env, t: Tx, gas: Gas, end: CallEnd)
    requires RunsMachine(p, e, t, gas, end)
    ensures EndOk(p, e, t, gas, end)
  {
    hide Halting, MachineEnd, Natives, FreshIds;
    if !(end.Stopped? && end.gas == gas) {
      var vm, s, name, vals :| RunsThis(p, e, t, gas, end, vm, s, name, vals);
      AnyRunIsHonest(p, e, t, vm, s, name, vals, gas);
    }
  }

  /** A runner that is the machine is honest, whatever modules are in the store. */
  lemma RunnersAreHonest(p: Protocol, e: Env)
    requires Machines(p, e)
    ensures Honest(p, e)
  {
    hide RunsMachine, EndOk;
    forall t, s, objs, seed, time, gas ensures EndOk(p, e, t, gas, e.run(t, s, objs, seed, time, gas)) {
      RunIsHonest(p, e, t, gas, e.run(t, s, objs, seed, time, gas));
    }
    forall t, s, gas ensures EndOk(p, e, t, gas, e.runSystem(t, s, gas)) {
      RunIsHonest(p, e, t, gas, e.runSystem(t, s, gas));
    }
  }

  /** So a chain executed by the machine, on whatever modules, lets no transaction take effect twice. */
  lemma MachineChainOnce(p: Protocol, e: Env, g: Store, bs: seq<Block>, t: Store)
    requires Collisionless(p) && DerivesFresh(e) && Runs(p, e) && GenesisOk(e, g) && Machines(p, e)
    requires Replays(p, bs, g, t)
    ensures NoDuplicates(ChainDigests(p, bs))
  {
    hide Collisionless, DerivesFresh, Runs, GenesisOk, Machines, Honest, Replays, ChainDigests;
    RunnersAreHonest(p, e);
    TakesEffectOnce(p, e, g, bs, t);
  }

  // -------------------------------------------------------------- modules that keep the rules

  /** The store has the objects a call names. */
  ghost predicate Loadable(args: seq<Input>, s: Store) {
    forall i :: 0 <= i < |args| && args[i].ObjectArg? ==> args[i].ref.addr in s && s[args[i].ref.addr].content.Instance?
  }

  /** The call runs on modules that keep the rules, on arguments of the declared types. */
  ghost predicate RunsLawfully(args: seq<Input>, store: Store, gas: Gas, end: CallEnd, vm: Machine, s: Session, cfg: Limits, name: string)
    requires Loadable(args, store)
  {
    && LawfulMachine(vm, s, cfg) && EntryError(vm, name).None?
    && AllTyped(vm, vm.addr, LoadArgs(args, store), Verifier.ParamTypes(GetFunction(vm.main, name).value.params))
    && Halting(vm, vm.main, gas) && end == MachineEnd(vm, name, LoadArgs(args, store), gas)
  }

  ghost predicate RunsLawful(args: seq<Input>, store: Store, gas: Gas, end: CallEnd)
    requires Loadable(args, store)
  {
    (end.Stopped? && end.gas == gas) || exists vm, s, cfg, name :: RunsLawfully(args, store, gas, end, vm, s, cfg, name)
  }

  /** On a store of the chain, every call that is let through runs on modules that keep the rules.
      Nothing is asked of other stores. */
  ghost predicate LawfulRunner(p: Protocol, e: Env, g: Store) {
    && (forall t: Tx, s, objs, seed, time, gas {:trigger e.run(t, s, objs, seed, time, gas)} ::
          t.kind.MeowCall? && Sound(e, g, Plain, s) && e.callError(t, s).None? &&
          ObjectArgs(p, t.kind.args, t.sender, s) == Some(objs) && Loadable(t.kind.args, s) ==>
            RunsLawful(t.kind.args, s, gas, e.run(t, s, objs, seed, time, gas)))
    && (forall t: Tx, s, gas {:trigger e.runSystem(t, s, gas)} ::
          Rewards(t) && Sound(e, g, Plain, s) && e.callError(t, s).None? && t.kind.MeowCall? && Loadable(t.kind.args, s) ==>
            RunsLawful(t.kind.args, s, gas, e.runSystem(t, s, gas)))
  }

  lemma {:induction false} ArgsLoadable(p: Protocol, args: seq<Input>, sender: Address, s: Store)
    requires ObjectArgs(p, args, sender, s).Some?
    ensures Loadable(args, s)
  {
    if args != [] {
      ArgsLoadable(p, args[..|args| - 1], sender, s);
      forall i | 0 <= i < |args| && args[i].ObjectArg? ensures args[i].ref.addr in s && s[args[i].ref.addr].content.Instance? {
        if i < |args| - 1 { assert args[..|args| - 1][i] == args[i]; }
      }
    }
  }

  lemma LawfulRunFits(args: seq<Input>, s: Store, objs: seq<Object>, gas: Gas, end: CallEnd)
    requires Keyed(s) && AllGood(Plain, s) && Loadable(args, s) && Effects.Addrs(objs) == ArgAddrs(args)
    requires RunsLawful(args, s, gas, end)
    ensures EndFits(Plain, objs, end)
  {
    hide LawfulMachine, EntryError, AllTyped, Halting, MachineEnd, LoadArgs, EndFits;
    if end.Stopped? {
      StoppedFits(objs, end);
    } else {
      var vm, ses, cfg, name :| RunsLawfully(args, s, gas, end, vm, ses, cfg, name);
      assert Takes(args, s, objs) by { PlainTakes(args, s, objs); }
      LawfulFits(vm, ses, cfg, name, args, s, objs, gas);
    }
  }

  lemma StoppedFits(objs: seq<Object>, end: CallEnd)
    requires end.Stopped?
    ensures EndFits(Plain, objs, end)
  {
  }

  lemma PlainTakes(args: seq<Input>, s: Store, objs: seq<Object>)
    requires Keyed(s) && AllGood(Plain, s) && Loadable(args, s) && Effects.Addrs(objs) == ArgAddrs(args)
    ensures Takes(args, s, objs)
  {
    forall i | 0 <= i < |args| && args[i].ObjectArg? ensures PlainContent(s[args[i].ref.addr]) {
      assert Plain(s[args[i].ref.addr]);
    }
  }

  /** A lawful runner makes every run on a store of the chain fit. */
  lemma RunnersAreAccountable(p: Protocol, e: Env, g: Store)
    requires LawfulRunner(p, e, g)
    ensures Accountable(p, e, g, Plain)
  {
    hide Published, AllGood, EndFits, RunsLawful, Loadable, ObjectArgs, Rewards;
    forall t: Tx, s, objs, seed, time, gas | t.kind.MeowCall? && Sound(e, g, Plain, s) && e.callError(t, s).None? &&
        ObjectArgs(p, t.kind.args, t.sender, s) == Some(objs)
      ensures EndFits(Plain, objs, e.run(t, s, objs, seed, time, gas))
    {
      ArgsLoadable(p, t.kind.args, t.sender, s);
      ObjectArgsAre(p, t.kind.args, t.sender, s);
      LawfulRunFits(t.kind.args, s, objs, gas, e.run(t, s, objs, seed, time, gas));
    }
    forall t: Tx, s, gas | Rewards(t) && Sound(e, g, Plain, s) && e.callError(t, s).None?
      ensures EndFits(Plain, [], e.runSystem(t, s, gas))
    {
      RewardArgs(t, s);
      LawfulRunFits(t.kind.args, s, [], gas, e.runSystem(t, s, gas));
    }
  }

  lemma RewardArgs(t: Tx, s: Store)
    requires Rewards(t)
    ensures t.kind.MeowCall? && Loadable(t.kind.args, s) && ArgAddrs(t.kind.args) == []
  {
    var amount, mining :| IsReward(t, amount, mining);
    var args := t.kind.args;
    assert args[..1][..0] == [] && args[..|args| - 1] == args[..1];
    assert args[..1][0].Raw? && args[1].Raw?;
    assert ArgAddrs(args[..1]) == ArgAddrs(args[..1][..0]);
  }

  /** A chain executed by the machine on modules that keep the rules: every module was accepted when
      it was published, no object holds another id than its own, and no assertion of the store trips. */
  lemma MachineChainHolds(p: Protocol, e: Env, g: Store, bs: seq<Block>, t: Store)
    requires Collisionless(p) && DerivesFresh(e) && Runs(p, e) && GenesisOk(e, g)
    requires Machines(p, e) && LawfulRunner(p, e, g) && AllGood(Plain, g)
    requires Replays(p, bs, g, t)
    ensures ChainHolds(p, bs, g) && Sound(e, g, Plain, t)
  {
    hide Collisionless, DerivesFresh, Runs, GenesisOk, Machines, Honest, LawfulRunner, Accountable, Lasting, AllGood, Replays,
      ChainHolds, Sound;
    RunnersAreHonest(p, e);
    RunnersAreAccountable(p, e, g);
    PlainLasts();
    ChainNeverTrips(p, e, g, Plain, bs, t);
  }
}
