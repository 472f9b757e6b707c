/** The two phases together, the machine's entry point, and what acceptance guarantees. */
module Verify {
  import opened MeowTypes
  import opened Vm
  import opened Verifier
  import opened Certificate
  import Completeness
  import opened Typing
  import opened Structural
  import opened Soundness
  import opened Safety
  import opened Conservation

  const ABORT_SIG := NativeSig("meow_vm_abort", [Concrete(Bool), Concrete(U64), Concrete(Str)], None)

  function AllNatives(natives: seq<NativeSig>): (r: seq<NativeSig>) {
    [ABORT_SIG] + natives
  }

  /** Neither phase reports an error. */
  ghost predicate Verified(m: Module, deps: map<Address, Module>, natives: seq<NativeSig>, cfg: Limits) {
    && WellShaped(m, deps, cfg)
    && forall i | 0 <= i < |m.functions| ::
         CheckFunction(Context(m, deps, AllNatives(natives)), m.functions[i]).errs == []
  }

  /** `verify`. */
  method VerifyModule(m: Module, deps: map<Address, Module>, natives: seq<NativeSig>, cfg: Limits) returns (accepted: bool)
    ensures accepted <==> Verified(m, deps, natives, cfg)
  {
    var shape := CheckModule(m, deps, cfg);
    accepted := shape == [];
    for i := 0 to |m.functions|
      invariant accepted <==> (WellShaped(m, deps, cfg) &&
        forall j | 0 <= j < i :: CheckFunction(Context(m, deps, AllNatives(natives)), m.functions[j]).errs == [])
    {
      var errors := CheckFunctionLoop(Context(m, deps, AllNatives(natives)), m.functions[i]);
      accepted := accepted && errors == [];
    }
  }

  /** What acceptance does not check: struct definitions without repeated field names, and field
      instructions that find what the pass takes them to find. */
  predicate FieldsSettled(vm: Machine, addr: Address, m: Module, natives: seq<NativeSig>) {
    && DistinctFieldNames(m)
    && forall fn | fn in m.functions ::
         var states := CheckFunction(Context(m, vm.deps, AllNatives(natives)), fn).states;
         |states| == |fn.code| ==>
           forall pc | 0 <= pc < |fn.code| && states[pc].reachable :: FieldsKnown(vm, addr, m, fn.code[pc], states[pc])
  }

  /** Every loaded module is accepted in this environment, and its fields are settled. */
  ghost predicate MachineVerified(vm: Machine, natives: seq<NativeSig>, cfg: Limits) {
    && NativesTyped(vm, AllNatives(natives))
    && (vm.addr in vm.deps ==> vm.deps[vm.addr] == vm.main)
    && Verified(vm.main, vm.deps, natives, cfg) && FieldsSettled(vm, vm.addr, vm.main, natives)
    && forall a | a in vm.deps :: Verified(vm.deps[a], vm.deps, natives, cfg) && FieldsSettled(vm, a, vm.deps[a], natives)
  }

  lemma ShapeJumps(m: Module, deps: map<Address, Module>, maxTuple: nat, fn: Function)
    requires CodeShape(m, deps, maxTuple, fn)
    ensures JumpsInRange(fn.code)
  {
    forall pc | 0 <= pc < |fn.code| && (fn.code[pc].Jump? || fn.code[pc].JumpIf? || fn.code[pc].JumpIfNot?)
      ensures 0 < fn.code[pc].offset && pc + fn.code[pc].offset <= |fn.code|
    {
      assert InstrShape(m, deps, maxTuple, fn, pc);
    }
  }

  /** States exist that justify the function. */
  ghost predicate Justified(ctx: Context, fn: Function) {
    exists states :: Certified(ctx, fn, states)
  }

  /** A module is accepted exactly when it is well shaped and states exist that justify each of its
      functions: the analysis refuses nothing that could be justified. */
  lemma VerifiedExactly(m: Module, deps: map<Address, Module>, natives: seq<NativeSig>, cfg: Limits)
    ensures Verified(m, deps, natives, cfg) <==>
            && WellShaped(m, deps, cfg)
            && forall i | 0 <= i < |m.functions| :: Justified(Context(m, deps, AllNatives(natives)), m.functions[i])
  {
    hide CheckFunction, Justified, InstrShape;
    var ctx := Context(m, deps, AllNatives(natives));
    if WellShaped(m, deps, cfg) {
      forall i | 0 <= i < |m.functions|
        ensures CheckFunction(ctx, m.functions[i]).errs == [] <==> Justified(ctx, m.functions[i])
      {
        assert FunctionShape(m.functions[i], m, deps, cfg);
        JustifiedExactly(m, deps, cfg.maxTupleElements, ctx, m.functions[i]);
      }
    }
  }

  lemma JustifiedExactly(m: Module, deps: map<Address, Module>, maxTuple: nat, ctx: Context, fn: Function)
    requires CodeShape(m, deps, maxTuple, fn)
    ensures CheckFunction(ctx, fn).errs == [] <==> Justified(ctx, fn)
  {
    hide CheckFunction, Certified, InstrShape;
    ShapeJumps(m, deps, maxTuple, fn);
    Completeness.AcceptsExactly(ctx, fn);
  }

  lemma VerifiedFunction(vm: Machine, addr: Address, m: Module, natives: seq<NativeSig>, cfg: Limits, fn: Function)
    requires Verified(m, vm.deps, natives, cfg) && FieldsSettled(vm, addr, m, natives)
    requires fn in m.functions
    ensures FunctionOk(vm, addr, Context(m, vm.deps, AllNatives(natives)), cfg.maxTupleElements, fn)
  {
    hide Pass, Step, InstrShape, FieldsKnown, TypeRefOk;
    var i :| 0 <= i < |m.functions| && m.functions[i] == fn;
    assert FunctionShape(m.functions[i], m, vm.deps, cfg);
    ShapeJumps(m, vm.deps, cfg.maxTupleElements, fn);
    PassCertifies(Context(m, vm.deps, AllNatives(natives)), fn);
  }

  lemma VerifiedModule(vm: Machine, addr: Address, m: Module, natives: seq<NativeSig>, cfg: Limits)
    requires Verified(m, vm.deps, natives, cfg) && FieldsSettled(vm, addr, m, natives)
    ensures ModuleOk(vm, addr, m, AllNatives(natives), cfg.maxTupleElements)
  {
    hide FunctionOk, TypeRefOk;
    forall fn | fn in m.functions
      ensures FunctionOk(vm, addr, Context(m, vm.deps, AllNatives(natives)), cfg.maxTupleElements, fn)
    {
      VerifiedFunction(vm, addr, m, natives, cfg, fn);
    }
    forall s, f | s in m.structs && f in s.fields ensures ValidFieldType(f.ty) {
      var i :| 0 <= i < |m.structs| && m.structs[i] == s;
      var j :| 0 <= j < |s.fields| && s.fields[j] == f;
      assert StructOk(m.structs[i], m, vm.deps, cfg);
      assert FieldOk(s.fields[j], m, vm.deps, cfg);
    }
  }

  lemma VerifiedMachine(vm: Machine, natives: seq<NativeSig>, cfg: Limits)
    requires MachineVerified(vm, natives, cfg)
    ensures MachineOk(vm, AllNatives(natives), cfg.maxTupleElements)
  {
    hide Verified, FieldsSettled, ModuleOk, NativesTyped;
    VerifiedModule(vm, vm.addr, vm.main, natives, cfg);
    forall a | a in vm.deps ensures ModuleOk(vm, a, vm.deps[a], AllNatives(natives), cfg.maxTupleElements) {
      VerifiedModule(vm, a, vm.deps[a], natives, cfg);
    }
  }

  /** The checks `Vm::call` makes before it runs anything. */
  function EntryError(vm: Machine, name: string): (r: Option<VmError>) {
    if |vm.deps| > vm.config.maxDepModules then Some(TooManyDepModules)
    else if name in vm.natives then Some(NativeFunctionCallDirect)
    else if GetFunction(vm.main, name).None? then Some(VmError.UndefinedFunction)
    else if !GetFunction(vm.main, name).value.isPublic && !vm.config.callPrivate then Some(PrivateFunction)
    else None
  }

  /** `Vm::call`. */
  function TopCall(vm: Machine, name: string, args: seq<Value>, gas: Gas): (r: Outcome)
    requires Halting(vm, vm.main, gas)
  {
    var e := EntryError(vm, name);
    if e.Some? then Failed(e.value, gas, []) else CallInner(vm, vm.addr, vm.main, name, args, gas, [], 0)
  }

  /** A verified machine halts on every call, even with a meter that never runs out. */
  lemma VerifiedHalts(vm: Machine, natives: seq<NativeSig>, cfg: Limits, gas: Gas)
    requires MachineVerified(vm, natives, cfg)
    ensures Halting(vm, vm.main, gas)
  {
    hide MachineVerified, MachineOk;
    VerifiedMachine(vm, natives, cfg);
    MachineHalts(vm, AllNatives(natives), cfg.maxTupleElements, vm.addr, vm.main, gas) by {
      MainLoaded(vm, natives, cfg);
    }
  }

  lemma MainLoaded(vm: Machine, natives: seq<NativeSig>, cfg: Limits)
    requires MachineVerified(vm, natives, cfg)
    ensures Loaded(vm, vm.addr, vm.main)
  {
  }

  /** Verifier soundness: a call of verified code on arguments of the declared types ends in a
      value of the declared type, or in gas, depth, arithmetic or native trouble. It never
      underflows the stack, confuses types, reads a moved value, overwrites a live struct or
      meets an undefined variable, field, struct or function, at any call depth. */
  lemma VerifierSoundness(vm: Machine, natives: seq<NativeSig>, cfg: Limits, name: string, args: seq<Value>, gas: Gas)
    requires MachineVerified(vm, natives, cfg)
    requires EntryError(vm, name).None?
    requires AllTyped(vm, vm.addr, args, ParamTypes(GetFunction(vm.main, name).value.params))
    ensures Halting(vm, vm.main, gas)
    ensures EndsWell(vm, vm.addr, GetFunction(vm.main, name).value.ret, TopCall(vm, name, args, gas))
  {
    hide MachineVerified, MachineOk, CallInner, AllTyped, EndsWell;
    VerifiedHalts(vm, natives, cfg, gas);
    VerifiedMachine(vm, natives, cfg);
    MainLoaded(vm, natives, cfg);
    CallSound(vm, AllNatives(natives), cfg.maxTupleElements, vm.addr, vm.main, GetFunction(vm.main, name).value,
              name, args, gas, [], 0);
  }

  /** Linear conservation: if the module that defines the type of `x` has no code, a call that
      returns has as many values of that type in its result and in what it handed to natives as
      there were in its arguments and in what natives returned; and as many copies of one value, if
      no loaded code writes inside values of that type. */
  lemma LinearConservation(x: Token, vm: Machine, natives: seq<NativeSig>, cfg: Limits, name: string, args: seq<Value>, gas: Gas)
    requires MachineVerified(vm, natives, cfg) && NoCode(vm, x) && AllSpared(x, vm, AllNatives(natives))
    requires EntryError(vm, name).None?
    requires AllTyped(vm, vm.addr, args, ParamTypes(GetFunction(vm.main, name).value.params))
    ensures Halting(vm, vm.main, gas)
    ensures var o := TopCall(vm, name, args, gas);
      o.Returned? ==> SumTokens(x, args) + Received(x, o.log) == OptTokens(x, o.value) + Given(x, o.log)
  {
    hide MachineVerified, MachineOk, CallInner, AllTyped, SumTokens, OptTokens, AllSpared;
    VerifiedHalts(vm, natives, cfg, gas);
    VerifiedMachine(vm, natives, cfg);
    MainLoaded(vm, natives, cfg);
    CallKeeps(x, vm, AllNatives(natives), cfg.maxTupleElements, vm.addr, vm.main, GetFunction(vm.main, name).value,
              name, args, gas, [], 0);
  }
}
