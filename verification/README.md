# Meow, verified

A Dafny model of the Meow blockchain, from the virtual machine up to the gossip service, with
proofs about whole runs of each part.

- **Virtual machine and bytecode verifier.** The stack machine with linear structs and gas, the
  two-phase verifier, and what acceptance guarantees: no type, move or stack error at any call
  depth, exact conservation of object ids, and termination. The verifier is also complete for its own
  rules: it accepts every function that some assignment of states justifies. Three places where
  acceptance is not enough (field reads, repeated field names, field writes) have a concrete accepted
  program each, and the exact condition, per instruction, that closes the gap.
- **Code generator.** The source language with an evaluator of its own, the generator with its
  patched jumps, exactly which programs it accepts, and preservation of meaning for every program,
  every input and every gas limit.
- **Executor.** Object effects, gas, the store's assertions. A transaction takes effect at most once
  along a chain, whatever code the chain runs, and an object stays as it is until its owner sends one.
  Where modules keep the object rules, transfers arrive at the recipients they name and no assertion of
  the store ever trips, although accepted code may write into ids: the check for left-over objects is
  enough. The coin supply changes exactly by what calls take in and give out, and the coin module's own
  functions are followed from source through the compiler to that account.
- **Chain and miner.** Fork choice, pruning, snapshots, the mempool and the mining rounds as a state
  machine with arbitrary interleavings: snapshots are a faithful cache, no head ever comes back,
  transactions never overtake each other, a block misses only what the executor refused, the pool
  follows every change of head, and a validator accepts what the miner grinds exactly when
  its timestamp is past its parent's and within the drift.
- **Gossip service.** Buffering, pulling and snapshot fetching over every sequence of events, and
  catch-up while the chain prunes behind itself, up to the head of the peer that was asked.

## Reading the project

| files | part |
|---|---|
| `Types`, `Vm`, `Interpreter`, `Halting`, `Metering`, `Bills`, `Logs` | the machine: pure semantics, the loop over mutable frames, bounds on its turns, what the meter changes, what a run is charged, what its log records |
| `Verifier`, `Certificate`, `Typing`, `Graphs`, `Structural`, `Soundness`, `Safety`, `Conservation`, `Completeness`, `Rules`, `Verify`, `Boundaries`, `Forgery`, `NativeCalls` | the verifier and its theorems |
| `Ast`, `Codegen`, `LiveCodegen`, `Meaning`, `Defined`, `Acceptance`, `Laws` | the compiler, and laws of the source language and the machine |
| `Ledger`, `Effects`, `Executor`, `History`, `AtMostOnce`, `Assertions`, `Supply`, `Ownership` | objects, execution, history, supply, ownership |
| `Adapter`, `Layouts`, `Runners` | from the machine to the executor: natives, object layouts, chains the machine executes |
| `Coin`, `CoinCode`, `CoinSupply`, `CoinDelivery` | the coin module: evaluated, compiled, its effect on the supply, and whose coins it leaves |
| `Deps`, `Inputs` | dependency closures and transaction inputs |
| `Chain`, `LiveChain`, `CatchUp`, `Order`, `Mempool`, `Mining`, `Batches`, `Node`, `Steps`, `Queue`, `Witness`, `LiveNode`, `Difficulty` | the node |
| `Sync`, `Choices`, `LiveSync` | the gossip service |

Parts that the program runs by changing state (interpreter, generator, chain, mempool, miner, store,
input collector, gossip service) are classes and loops whose contracts equate the new state with a
function of the old one; the theorems are about those functions.

Hashes, signatures and the clock are parameters. Theorems that compare hashes assume that no two
inputs share one and that no header is hashed into its own ancestry (`Ledger.Collisionless`). Natives
are functions of the log of native calls so far, which stands for their captured state. 64-bit
arithmetic is written out where the program computes with it; block heights and timestamps are
unbounded.

## Model

| member | source | states |
|---|---|---|
| `Interpreter.CallFunction` | crates/meow-vm/src/lib.rs:234-268 | a call with its depth, lookup and arity errors, run on a mutable meter and native host, has the outcome, gas and native log of the pure semantics |
| `Interpreter.RunFunction` | crates/meow-vm/src/lib.rs:264-687 | the main loop over one mutable frame computes the pure run, including what falls off the end |
| `Interpreter.Turn` | crates/meow-vm/src/lib.rs:266-687 | one turn keeps the outcome of the run ahead, whether it stops or goes on, and a turn that costs nothing or is unmetered moves forward |
| `Interpreter.CallNative` | crates/meow-vm/src/lib.rs:613-640 | a native is charged first, then takes its arguments; success, abort and error each end as the semantics says |
| `Interpreter.GasMeter.Charge` | crates/meow-vm/src/gas_meter.rs:24-39 | charging saturates, fails exactly when the limit is passed, and leaves the whole limit spent then |
| `Typing.TypeUnique` | crates/meow-vm-types/src/types.rs:87-121 | a value has at most one type |
| `Typing.ReadTypedExactly` | crates/meow-vm/src/lib.rs:715-737 | reading a field path of a typed value succeeds and gives a value of exactly the type found by following the path in the true struct definitions |
| `Typing.WriteTyped` | crates/meow-vm/src/lib.rs:739-790 | writing a fitting primitive through a field path succeeds and keeps the type of the whole value |
| `Typing.WriteTypedExactly` | crates/meow-vm/src/lib.rs:739-790 | writing any typed value through a path keeps the type of the whole if and only if the path ends in exactly that type and it is not linear; otherwise the write is refused with a type or field error, or changes the type |
| `Typing.UnpackExactly` | crates/meow-vm/src/lib.rs:506-532 | unpacking a struct succeeds exactly when its field names are distinct, and then yields every field value once, in reverse |
| `Laws.NewThenGet` | crates/meow-vm/src/lib.rs:448-505 | building a struct succeeds exactly when its definition is known and the stack holds a value for each field; each field then reads as the value pushed for it |
| `Laws.NewThenUnpack` | crates/meow-vm/src/lib.rs:448-533 | unpacking a struct just built restores the values it was built from, topmost first, exactly when no field name repeats |
| `Laws.TupleThenUnpack` | crates/meow-vm/src/lib.rs:646-678 | so for tuples |
| `Laws.WriteExactly` | crates/meow-vm/src/lib.rs:739-790 | a field path can be written exactly when it can be read and does not end in a struct |
| `Laws.WriteThenRead` | crates/meow-vm/src/lib.rs:739-790 | what was written through a path is read back through it |
| `Laws.WriteElsewhere` | crates/meow-vm/src/lib.rs:739-790 | and no path that parts from it reads anything else than before |
| `Laws.SumsMean` | crates/meow-vm/src/lib.rs:346-360 | sums and differences are those of the integers, the first operand pushed first, with an error exactly where they leave 64 bits |
| `Laws.DivisionMeans` | crates/meow-vm/src/lib.rs:361-378 | quotient and remainder are the two numbers that make up the dividend, with the remainder below the divisor; by zero there is neither |
| `Laws.OrderMeans` | crates/meow-vm/src/lib.rs:379-416 | the six comparisons are the order of the numbers |
| `Laws.BranchDuality` | crates/meow-vm/src/lib.rs:545-566 | each conditional jump is the other with the condition negated; taken it goes its offset from its own place, and otherwise it only takes the condition away |
| `Laws.DupThenTuple` | crates/meow-vm/src/lib.rs:536-543 | a copy is the value copied, and popping it undoes the copy |
| `Laws.CalleesReached` | crates/meow-vm/src/lib.rs:568-612 | a call reaches own functions, public functions of loaded modules, and natives no own function hides; a private function of another module is refused as such |
| `Verifier.CheckFunctionLoop` | crates/meow-vm-bytecode-verifier/src/abstract_interpretation.rs:302-989 | the verifier's loop with its waiting states at join points reports the errors of the recursive pass, in order |
| `Certificate.MergeCovers` | crates/meow-vm-bytecode-verifier/src/abstract_interpretation.rs:120-190 | a join without conflict covers both of the states that meet |
| `Certificate.PassCertifies` | crates/meow-vm-bytecode-verifier/src/abstract_interpretation.rs:302-989 | if a pass reports nothing, its states are a certificate: each instruction is accepted in its state and every successor's state covers its effect, jumps included |
| `Completeness.MergeExactly` | crates/meow-vm-bytecode-verifier/src/abstract_interpretation.rs:120-190 | states join exactly when their stacks are equal and wherever their slots differ neither holds anything linear; slots that agree stay, and the others hold nothing |
| `Completeness.MergeLeast` | crates/meow-vm-bytecode-verifier/src/abstract_interpretation.rs:120-190 | the join is the least state that covers both: it forgets no more than it must |
| `Completeness.StepMonotone` | crates/meow-vm-bytecode-verifier/src/abstract_interpretation.rs:302-989 | what is accepted in a state is accepted in every more precise one, with effects as precise |
| `Completeness.AcceptsExactly` | crates/meow-vm-bytecode-verifier/src/abstract_interpretation.rs:302-989 | main theorem: the pass accepts a function if and only if some states justify it, so it refuses nothing that could be justified |
| `Completeness.PassLeast` | crates/meow-vm-bytecode-verifier/src/abstract_interpretation.rs:302-989 | and the states it finds are the least of those |
| `Rules.PopTypedExactly` | crates/meow-vm-bytecode-verifier/src/abstract_interpretation.rs:302-989 | values are taken off the stack without error exactly when it ends in their types, and then exactly those are gone |
| `Rules.StepExactly` | crates/meow-vm-bytecode-verifier/src/abstract_interpretation.rs:302-989 | the pass reports nothing at an instruction if and only if a table of typing rules permits the instruction in the state |
| `Rules.StepLeaves` | crates/meow-vm-bytecode-verifier/src/abstract_interpretation.rs:302-989 | and then, on slots and structs the structural phase has checked, leaves exactly the stack and slots of the table |
| `Rules.StepGoes` | crates/meow-vm-bytecode-verifier/src/abstract_interpretation.rs:302-989 | and goes on where the instruction goes: forward, to its target, to both, or nowhere |
| `Graphs.ReportCycles` | crates/meow-vm-bytecode-verifier/src/structural.rs:440-488 | depth-first search with a visited set shared across roots reports an error if and only if the graph has a cycle |
| `Graphs.FindCycle` | crates/meow-vm-compiler/src/validator.rs:150-204 | the variant that stops at the first cycle finds one if and only if there is one |
| `Structural.CheckTypeRef` | crates/meow-vm-bytecode-verifier/src/structural.rs:386-437 | no error if and only if every struct named inside the type exists where it is named |
| `Structural.CheckDuplicates` | crates/meow-vm-bytecode-verifier/src/structural.rs:123-140 | nothing is reported if and only if the names are pairwise distinct |
| `Structural.CheckModule` | crates/meow-vm-bytecode-verifier/src/structural.rs:23-383 | the structural phase reports nothing if and only if the module is well shaped: names, limits, references, acyclic structs, slots and jump targets in range, no backward jump |
| `Soundness.StepSound` | crates/meow-vm/src/lib.rs:270-570 | from a frame described by an accepted state, any instruction but a call or return ends in a benign error or in a frame the verifier's next state describes |
| `Soundness.ResolvedWriteKnown` | crates/meow-vm-bytecode-verifier/src/abstract_interpretation.rs:492-507 | an accepted field write whose path stays in the module's own structs always meets the side condition |
| `Safety.CallSound` | crates/meow-vm/src/lib.rs:234-690 | the same for a whole call at any depth: it ends in a benign error or returns a value of the declared type |
| `Conservation.StepKeeps` | crates/meow-vm/src/lib.rs:270-570 | an accepted instruction keeps how many values of a foreign struct type the frame holds, across moves, fields, tuples and unpacking; and how many copies of one such value, if it does not write inside values of that type |
| `Conservation.ResolvedAvoids` | crates/meow-vm-bytecode-verifier/src/abstract_interpretation.rs:236-262 | a path that stays in the module's own structs goes through no value of another module's type |
| `Conservation.CallKeeps` | crates/meow-vm/src/lib.rs:234-690 | so does a whole call, counting what natives gave and took; for single values, when no loaded code writes inside them |
| `Verify.VerifyModule` | crates/meow-vm-bytecode-verifier/src/lib.rs:37-63 | a module is accepted if and only if it is well shaped and every function passes |
| `Verify.VerifiedExactly` | crates/meow-vm-bytecode-verifier/src/lib.rs:37-63 | accepted if and only if it is well shaped and states exist that justify each function |
| `Verify.VerifierSoundness` | crates/meow-vm-bytecode-verifier/src/abstract_interpretation.rs:302-989 | main theorem: in a verified machine every call on arguments of the declared types halts and ends in out-of-gas, call depth, arithmetic, abort or native error, or returns a value of the declared type; never in a stack, type, move, overwrite or lookup error |
| `Verify.LinearConservation` | crates/meow-vm/src/lib.rs:234-687 | main theorem: for every struct type whose module has no code, arguments plus what natives returned hold as many values of it as the result plus what natives were given; and as many copies of each value, if no loaded code writes into them |
| `Verify.VerifiedHalts` | crates/meow-vm-bytecode-verifier/src/structural.rs:245-264 | verified code halts under every gas limit, the unlimited one included |
| `HaltingBounds.GasBoundsTurns` | crates/meow-vm/src/gas_schedule.rs:79-121 | any bytecode, verified or not: the turns taken, nested calls included, are bounded by the gas left and the code ahead |
| `HaltingBounds.GasBoundsCall` | crates/meow-vm/src/gas_meter.rs:24-39 | the same for a whole call |
| `HaltingBounds.ForwardOnce` | crates/meow-vm-bytecode-verifier/src/structural.rs:245-264 | code without backward jumps executes each of its instructions at most once per frame |
| `HaltingBounds.UnlimitedLoops` | crates/meow-vm/src/lib.rs:695-701 | with the unlimited meter, unverified code goes on for any number of turns: the bound needs a limit or forward jumps |
| `Metering.CallNotDry` | crates/meow-vm/src/gas_meter.rs:24-39 | a call on the unlimited meter never ends out of gas, at any depth |
| `Metering.CallMetered` | crates/meow-vm/src/gas_meter.rs:24-39 | under any limit a call runs out exactly when the unmetered call spends more than the limit, and otherwise ends as the unmetered one does, with the same gas and native calls |
| `Bills.RunBilled` | crates/meow-vm/src/gas_schedule.rs:79-121 | any run, of verified code or not, spends exactly the prices of the instructions and natives it got to, at every depth, up to the limit |
| `Bills.CallIsBilled` | crates/meow-vm/src/gas_meter.rs:24-39 | so does a whole call |
| `Boundaries.AcceptedTypeConfusion` | crates/meow-vm-bytecode-verifier/src/abstract_interpretation.rs:397-442 | an accepted program that ends in a type error: a field read from a number passes the verifier |
| `Boundaries.LoadFieldExactly` | crates/meow-vm-bytecode-verifier/src/abstract_interpretation.rs:397-442 | an accepted field load, on a path that exists or not, lands where the verifier says if and only if the type the verifier pushes is the true one |
| `Boundaries.GetFieldExactly` | crates/meow-vm-bytecode-verifier/src/abstract_interpretation.rs:689-751 | an accepted field read from the stack lands where the verifier says if and only if the verifier resolved the field to its true type |
| `Boundaries.StoreFieldExactly` | crates/meow-vm-bytecode-verifier/src/abstract_interpretation.rs:444-511 | an accepted field write lands where the verifier says if and only if the path truly ends in the type written and that type is not linear |
| `Forgery.AcceptedForgery` | crates/meow-vm-bytecode-verifier/src/abstract_interpretation.rs:492-507 | an accepted, terminating, well-typed program that returns an object with another id than it was given: a path leaving the module's structs is not checked, and one token is gone |
| `Forgery.StoreConservesExactly` | crates/meow-vm-bytecode-verifier/src/abstract_interpretation.rs:444-511 | an accepted, correctly typed field write keeps every token of a type if and only if its path does not go through that type, or it writes the value already there |
| `Boundaries.AcceptedMissingField` | crates/meow-vm-bytecode-verifier/src/structural.rs:96-117 | an accepted program that fails on a missing field: a struct definition may repeat a field name |
| `Boundaries.UnpackStructExactly` | crates/meow-vm-bytecode-verifier/src/abstract_interpretation.rs:853-897 | an accepted unpack lands where the verifier says if and only if the field names are distinct |
| `NativeCalls.NativesSeeTypedArguments` | crates/meow-vm-bytecode-verifier/src/abstract_interpretation.rs:996-1094 | every native call that verified code makes, at any depth, receives arguments that fit its signature |
| `Logs.CallRecords` | crates/meow-vm/src/lib.rs:613-640 | any call, of verified code or not, leaves in its log exactly what the natives did, in order |
| `LiveCodegen.GenFunction` | crates/meow-vm-compiler/src/codegen.rs:55-132 | the generator with one code vector, one flat name table and patched jumps emits exactly the specified function, or fails exactly when the specification does |
| `LiveCodegen.GenParams` | crates/meow-vm-compiler/src/codegen.rs:55-132 | the parameter loop binds the specified slots, and fails exactly when slots run out |
| `LiveCodegen.Generator.AllocLocal` | crates/meow-vm-compiler/src/codegen.rs:156-186 | a name bound in the innermost scope keeps its slot; any other takes the next one and shadows outer bindings; it fails only when slots run out |
| `LiveCodegen.Generator.GenExpr` | crates/meow-vm-compiler/src/codegen.rs:334-495 | expressions append the specified code |
| `LiveCodegen.Generator.GenStruct` | crates/meow-vm-compiler/src/codegen.rs:334-495 | a struct literal is emitted in definition order, whatever order it lists |
| `LiveCodegen.Generator.GenIf` | crates/meow-vm-compiler/src/codegen.rs:562-636 | jumps emitted blank and patched later equal jumps computed from code lengths, and the scope table is restored after each arm |
| `LiveCodegen.Generator.GenStmt` | crates/meow-vm-compiler/src/codegen.rs:497-773 | statements append the specified code and bind the specified slots |
| `Meaning.CompiledHalts` | crates/meow-vm-compiler/src/codegen.rs:562-636 | every compiled module jumps forward only, so it halts |
| `Acceptance.ExprAccepted` | crates/meow-vm-compiler/src/codegen.rs:334-495 | an expression compiles if and only if its names are in scope, its literals give every field of a known struct, and its aliases and tuples are allowed; the number of instructions is counted from the source |
| `Acceptance.StmtsAgree` | crates/meow-vm-compiler/src/codegen.rs:497-773 | statements compile if and only if what they name is declared by then and the slots suffice, one slot for each name new to its scope |
| `Acceptance.FunctionAccepted` | crates/meow-vm-compiler/src/codegen.rs:55-132 | a function compiles if and only if its parameters fit, its body is well scoped and its code, with the closing return, is not too long; frame size and code size are those counted from the source |
| `Laws.LiteralField` | crates/meow-vm-compiler/src/codegen.rs:425-460 | in the source language, a field of a literal is the value of the initializer written for that field, in whatever order initializers are written |
| `Laws.DestructuringBinds` | crates/meow-vm-compiler/src/codegen.rs:665-734 | a destructuring binds each name to the field it is written for and changes no other variable |
| `Laws.TupleBinds` | crates/meow-vm-compiler/src/codegen.rs:638-663 | so for tuples, by position |
| `Laws.IfChooses` | crates/meow-vm-compiler/src/codegen.rs:562-636 | a true condition runs the first branch, a false one the other, or neither if there is none |
| `Meaning.FunctionRuns` | crates/meow-vm-compiler/src/codegen.rs:55-132 | at any depth and native history, running compiled code ends as the evaluator does: same value or same error, and same native calls; on the unlimited meter it never runs out |
| `Meaning.CodegenPreservesMeaning` | crates/meow-vm-compiler/src/codegen.rs:334-773 | main theorem: the same for a whole program from its entry point, over all values, structs, tuples, branches, shadowing, calls across modules and natives; running out of gas is the only difference, and none on the unlimited meter |
| `Defined.MeaningIsExact` | crates/meow-vm-compiler/src/ast.rs:6-112 | when calls have the right number of arguments, compiled code on the unlimited meter agrees with the evaluator with no exception; under a limit it runs out exactly when that run spends more, and agrees otherwise |
| `Deps.DetectModuleDepCycles` | crates/meow-vm-compiler/src/validator.rs:150-204 | fails if and only if the import graph of the given modules has a cycle |
| `Deps.ResolveDepModules` | crates/meow-vm-adapter/src/executor/resolvers.rs:215-252 | succeeds if and only if everything reached through imports is there and decodes, and then returns exactly the reached modules |
| `Inputs.Collector.Visit` | crates/meow-vm-adapter/src/inputs_resolver.rs:177-197 | the recursive walk with a shared seen set appends the specified list |
| `Inputs.Collector.VisitNew` | crates/meow-vm-adapter/src/inputs_resolver.rs:177-197 | visiting an unseen address appends its imports' lists, then the object if it is live |
| `Inputs.CollectInputsSync` | crates/meow-vm-adapter/src/inputs_resolver.rs:23-66 | gas coin, dependencies, module, arguments, in that order; what is missing is left out |
| `Inputs.CollectsReached` | crates/meow-vm-adapter/src/inputs_resolver.rs:177-197 | the modules collected for a call are exactly the live objects imports reach, on any import graph |
| `Inputs.InputsExactly` | crates/meow-vm-adapter/src/inputs_resolver.rs:23-66 | the inputs of a transaction are exactly the live objects it needs: its gas coin, its object arguments, and the modules imports reach from the one it calls or publishes |
| `Inputs.GatherOnce` | crates/meow-vm-adapter/src/inputs_resolver.rs:177-197 | none is listed twice, diamonds and cycles included |
| `Inputs.DependenciesFirst` | crates/meow-vm-adapter/src/inputs_resolver.rs:49-62 | on acyclic imports every live import of a listed module is listed before it |
| `Inputs.CalledLast` | crates/meow-vm-adapter/src/inputs_resolver.rs:34-40 | so it is for a call, with the module called at the end |
| `Inputs.FetchModules` | crates/meow-vm-adapter/src/inputs_resolver.rs:147-170 | the worklist fetch ends, and its cache agrees with the store and holds every live object imports reach |
| `Inputs.CollectInputsAsync` | crates/meow-vm-adapter/src/inputs_resolver.rs:74-107 | fetching into a cache and collecting from it gives what collecting from the whole store gives |
| `Effects.ObjectRoundTrip` | crates/meow-vm-adapter/src/executor/effects.rs:27-133 | an object turned into a value and back is the same object |
| `Effects.CollectObjectEffects` | crates/meow-vm-adapter/src/executor/effects.rs:27-133 | succeeds if and only if every input and fresh id was transferred or destroyed, and then returns the specified effects |
| `Effects.LinearResolves` | crates/meow-vm-adapter/src/executor/effects.rs:27-133 | with linear ids none of the internal expectations can fail |
| `Effects.EffectsPartition` | crates/meow-vm-adapter/src/executor/effects.rs:27-133 | created, changed and destroyed are disjoint, cover every fresh and input id exactly once, and bump each surviving input's version by one |
| `Effects.EffectsDeliver` | crates/meow-vm-adapter/src/executor/effects.rs:85-113 | each transferred object reaches its recipient: what the effects write at its address is its content without the id, owned by the recipient, at version one exactly when its id is fresh and otherwise one above the argument's |
| `Effects.EffectAddrs` | crates/meow-vm-adapter/src/executor/effects.rs:85-133 | an id is created, changed or destroyed exactly when it is a fresh transferred, an old transferred or an old destroyed one |
| `Effects.LinearByAccount` | crates/meow-vm-adapter/src/executor/effects.rs:66-79 | the check for left-over objects suffices: a call that used no more ids than it had and left none unaccounted for used each exactly once, and no other, whatever it wrote into them |
| `Executor.DeductGas` | crates/meow-types/src/system_framework/meow_coin.rs:166-180 | the loop over the coin's fields computes the specified deduction |
| `Executor.DeductExactly` | crates/meow-types/src/system_framework/meow_coin.rs:166-180 | within the balance the subtraction is exact and touches no other field |
| `History.ValidateCallArguments` | crates/meow-types/src/transaction/validator/mod.rs:81-104 | accepted if and only if the gas coin is not an argument and no object is passed twice |
| `History.ExecuteTouches` | crates/meow-vm-adapter/src/executor/mod.rs:49-95 | whatever code a transaction runs, its effects touch only live owned objects, create only addresses derived from its own digest, renew versions, add only modules accepted for publication, and always change its gas coin, which was live at the referenced version |
| `History.RewardTouches` | crates/meow-vm-adapter/src/executor/mod.rs:97-126 | so do the effects of a reward transaction |
| `History.ExecuteTidy` | crates/meow-vm-adapter/src/executor/mod.rs:49-95 | where runs fit, they also write no address twice and only objects with the property the stored ones have |
| `History.RewardTidy` | crates/meow-vm-adapter/src/executor/mod.rs:97-126 | so do those of a reward |
| `Ownership.TouchesOwn` | crates/meow-vm-adapter/src/executor/resolvers.rs:68-183 | whatever code it runs, a transaction changes and destroys only objects of its sender |
| `Ownership.OwnersDecide` | crates/meow-vm-adapter/src/executor/resolvers.rs:68-183 | main theorem: along any chain from genesis an object keeps its owner, version and content until a block holds a transaction sent by its owner |
| `Ownership.ExecutesExactly` | crates/meow-vm-adapter/src/executor/resolvers.rs:144-183 | a transaction executes if and only if its gas coin is a live coin of its sender with a balance, in the state it names |
| `Ownership.ObjectArgsExactly` | crates/meow-vm-adapter/src/executor/resolvers.rs:26-142 | a call gets its objects if and only if each is a live instance of the sender's in the state named |
| `Ownership.SucceedsExactly` | crates/meow-vm-adapter/src/executor/mod.rs:156-260 | a call succeeds if and only if its coin covers the base cost, it is not refused, its objects are there, it runs to the end and its objects are accounted for |
| `Ownership.CallOutcome` | crates/meow-vm-adapter/src/executor/mod.rs:49-95 | what a successful call leaves, address by address: each transferred object with its recipient, nothing of what was destroyed, the gas coin less its gas, and everything else as it was |
| `Ownership.FailureCostsGas` | crates/meow-vm-adapter/src/executor/gas.rs:16-47 | a failed transaction takes its gas from the coin and does nothing else |
| `Ownership.PublishOutcome` | crates/meow-vm-adapter/src/executor/mod.rs:262-352 | a publication succeeds if and only if the module fits, is not refused and is paid for by its size; then it is in the store, immutable, at the transaction's first derived address |
| `History.ObjectStore.ApplyExecutionResult` | crates/meow-nakamoto/src/store.rs:49-74 | with the asserted conditions met, the in-place update gives the specified store |
| `AtMostOnce.ExecutesOnce` | crates/meow-vm-adapter/src/executor/resolvers.rs:144-183 | a transaction that executes has not taken effect before, and extends the history |
| `AtMostOnce.ReplayOnce` | crates/meow-nakamoto/src/chain/mod.rs:304-404 | replaying a block adds only new digests and keeps the history invariant |
| `AtMostOnce.ChainHistory` | crates/meow-nakamoto/src/chain/mod.rs:304-404 | so does replaying a chain from genesis |
| `AtMostOnce.TakesEffectOnce` | crates/meow-vm-adapter/src/executor/gas.rs:16-47 | main theorem: along any chain replayed from genesis no digest takes effect twice, whatever the modules on it do |
| `AtMostOnce.NeverAgain` | crates/meow-vm-adapter/src/executor/resolvers.rs:144-183 | and after it, a transaction that took effect can no longer execute, under any seed and time |
| `AtMostOnce.PublishedGrows` | crates/meow-vm-adapter/src/executor/mod.rs:262-352 | what is immutable stays, and every module of the store is a genesis module or was accepted when it was published, by a store whose immutable objects are still there |
| `Assertions.TransactionFits` | crates/meow-nakamoto/src/store.rs:49-74 | where runs fit, the result of a signed transaction trips no assertion of the store, on any store of a chain |
| `Assertions.ChainNeverTrips` | crates/meow-nakamoto/src/store.rs:49-74 | main theorem: so along any chain replayed from genesis, rewards included, no assertion of the store ever trips |
| `Supply.TotalApply` | crates/meow-nakamoto/src/store.rs:49-74 | applying a result that writes no address twice changes the total by exactly what is written minus what is replaced or removed |
| `Supply.GasWithinBalance` | crates/meow-vm-adapter/src/executor/gas.rs:16-47 | gas never exceeds the coin's balance, whatever code runs, so the saturating subtraction never saturates |
| `Supply.ExecuteShifts` | crates/meow-vm-adapter/src/executor/mod.rs:49-95 | a transaction lowers the total by exactly its gas and the worth of the coins its call took, and raises it by the worth of what its call transferred |
| `Supply.NoOverflow` | crates/meow-nakamoto/src/miner/mining_work.rs:127-150 | the 64-bit gas sum is the sum if and only if that fits, and falls short of it otherwise |
| `Supply.RewardMints` | crates/meow-nakamoto/src/chain/mod.rs:558-596 | with the system modules in place, the reward adds exactly its amount |
| `Supply.BlockShifts` | crates/meow-nakamoto/src/chain/mod.rs:304-404 | a block changes the total by what its calls transferred less what they took, and by what its 64-bit gas sum lost |
| `Supply.ChainSupply` | crates/meow-nakamoto/src/chain/mod.rs:304-404 | main theorem: so does a chain replayed from genesis, summed over its calls; the supply is the genesis supply if and only if calls transferred as much as was taken and lost |
| `Supply.ThriftySupply` | crates/meow-nakamoto/src/miner/mining_work.rs:127-150 | if no call transfers more than it took and the genesis supply fits in 64 bits, no gas sum overflows and the supply never rises |
| `Adapter.NativesAsDeclared` | crates/meow-vm-adapter/src/natives.rs:40-160 | the adapter's natives return what their signatures declare |
| `Adapter.IdsConserved` | crates/meow-vm-adapter/src/context.rs:68-90 | fresh ids plus object arguments are as many as the ids returned plus those handed to natives; and for each address, if no code writes into ids |
| `Adapter.AnyRunIsHonest` | crates/meow-vm-adapter/src/context.rs:68-90 | any call that halts, of verified code or not, keeps to its gas limit and draws its fresh ids from the transaction's digest in order |
| `Adapter.AnyRunReports` | crates/meow-vm-adapter/src/natives.rs:119-156 | in every run the natives report the transaction's sender, the block's time and the random numbers in order of asking, and an assertion that let the run go on was true |
| `Adapter.LoadedInOrder` | crates/meow-vm-adapter/src/executor/resolvers.rs:26-142 | each argument reaches the machine in its place: raw values as they are, objects with their id in front |
| `Adapter.AccountedIsLinear` | crates/meow-vm-adapter/src/executor/effects.rs:27-133 | a call of verified code hands out no more ids than it had, so if it accounts for every object it used its ids linearly, although its code may write into them |
| `Adapter.NothingLeftOver` | crates/meow-vm-adapter/src/executor/effects.rs:27-133 | if no code writes into ids, a call returning nothing linear has transferred or destroyed every object it took or made |
| `Layouts.CheckObjectLayouts` | crates/meow-vm-adapter/src/bytecode_verifier/mod.rs:98-132 | the loop over all fields reports nothing if and only if no id field comes after the first and no field is an object, local or imported |
| `Layouts.Unambiguous` | crates/meow-vm-adapter/src/bytecode_verifier/mod.rs:86-90 | a struct that passes is an object or holds no id field at all, if and only if an id in first position is named `id` |
| `Layouts.SecondIdAllowed` | crates/meow-vm-adapter/src/bytecode_verifier/mod.rs:98-132 | the layout rules alone pass a module with an object type that holds a second id, in a struct whose first field is an id under another name |
| `Layouts.TransfersAreObjects` | crates/meow-vm-adapter/src/bytecode_verifier/mod.rs:31-48 | with layouts kept, ids only in objects and transfers only of object structs, every value transferred in any run is an object holding exactly one id |
| `Layouts.LawfulFits` | crates/meow-vm-adapter/src/executor/mod.rs:156-260 | so under those static rules, with nothing assumed of its log, a machine run that accounts for every object used its ids linearly and transferred objects without a second id |
| `Runners.RunnersAreHonest` | crates/meow-vm-adapter/src/executor/mod.rs:156-260 | an executor whose calls are machine runs meets what at-most-once asks of it, whatever modules are in the store |
| `Runners.MachineChainOnce` | crates/meow-nakamoto/src/chain/mod.rs:304-404 | so a chain executed by the machine, on any modules, lets no transaction take effect twice |
| `Runners.RunnersAreAccountable` | crates/meow-vm-adapter/src/executor/mod.rs:156-260 | if calls on stores of the chain run on modules that keep the rules, every run fits; nothing is asked of other stores |
| `Runners.MachineChainHolds` | crates/meow-nakamoto/src/store.rs:49-74 | so on such a chain no assertion of the store trips, every module was accepted when published, and no stored object holds another id |
| `Coin.MintEvaluates` | crates/meow-framework/modules/meow_coin.meow:27-33 | `mint` makes one coin with the first fresh id, worth the amount, and transfers it to the owner |
| `Coin.BurnEvaluates` | crates/meow-framework/modules/meow_coin.meow:44-47 | `burn` destroys the coin's id and does nothing else |
| `Coin.TransferEvaluates` | crates/meow-framework/modules/meow_coin.meow:50-52 | `transfer` hands over the coin as it is |
| `Coin.MergeEvaluates` | crates/meow-framework/modules/meow_coin.meow:56-63 | `merge_and_transfer` destroys one coin and hands over the other worth both, or fails on overflow with nothing done |
| `Coin.SplitEvaluates` | crates/meow-framework/modules/meow_coin.meow:74-86 | `split_and_transfer` hands over a new coin worth the amount and the old one worth the rest, or aborts if the balance is insufficient |
| `CoinCode.CoinCompiles` | crates/meow-framework/modules/meow_coin.meow:1-111 | every function of the coin module passes the generator |
| `CoinSupply.CoinMachineExists` | crates/meow-framework/modules/meow_coin.meow:1-111 | there is a machine that runs the compiled module, so the statements about it are not empty |
| `CoinSupply.MachineMints` | crates/meow-framework/modules/meow_coin.meow:27-33 | an executor running the compiled `mint` for rewards mints exactly the requested amount: the assumption of the supply theorems |
| `CoinSupply.TransferShifts` | crates/meow-framework/modules/meow_coin.meow:50-52 | run under any gas limit, `transfer` gives out what it takes in |
| `CoinSupply.MergeShifts` | crates/meow-framework/modules/meow_coin.meow:56-63 | so does `merge_and_transfer`; without a limit it finishes if and only if the sum fits in 64 bits |
| `CoinSupply.SplitShifts` | crates/meow-framework/modules/meow_coin.meow:74-86 | so does `split_and_transfer`; without a limit it finishes if and only if the balance suffices |
| `CoinSupply.BurnShifts` | crates/meow-framework/modules/meow_coin.meow:44-47 | `burn` takes the coin's worth and gives nothing |
| `CoinSupply.BurnLowersSupply` | crates/meow-framework/modules/meow_coin.meow:44-47 | so a transaction that burns a coin lowers the supply by its worth on top of the gas |
| `CoinDelivery.TransferDelivers` | crates/meow-framework/modules/meow_coin.meow:50-52 | the compiled `transfer` has one effect: the same coin, one version later, owned by the recipient |
| `CoinDelivery.TransferArrives` | crates/meow-vm-adapter/src/executor/effects.rs:98-113 | a transaction that runs it to the end leaves the coin with its new owner, the gas coin less its gas, and every other object as it was |
| `CoinDelivery.SplitDelivers` | crates/meow-framework/modules/meow_coin.meow:74-86 | the compiled `split_and_transfer` leaves a new coin worth the amount with the recipient and the old one, worth the rest, with the sender |
| `CoinDelivery.MintDelivers` | crates/meow-framework/modules/meow_coin.meow:27-33 | the compiled `mint` always leaves one new coin worth the amount with the recipient |
| `LiveChain.ValidateStructure` | crates/meow-nakamoto/src/chain/mod.rs:462-556 | the checks, in order, give the specified first error |
| `LiveChain.ReExecute` | crates/meow-nakamoto/src/chain/mod.rs:304-394 | re-execution with its result, reward and state root comparisons computes the specified replay |
| `LiveChain.ChainState.FromSnapshot` | crates/meow-nakamoto/src/chain/mod.rs:77-125 | accepted if and only if higher than the head, well formed and with the root of its objects; then the chain is anchored there |
| `LiveChain.ChainState.Commit` | crates/meow-nakamoto/src/chain/mod.rs:193-204 | records a mined block, moves the head and prunes |
| `LiveChain.ChainState.PruneFinalized` | crates/meow-nakamoto/src/chain/mod.rs:209-225 | drops exactly the blocks and snapshots below the retained depth |
| `LiveChain.ChainState.ReceiveBlock` | crates/meow-nakamoto/src/chain/mod.rs:244-405 | the in-place update equals the specified step; it reports a head change exactly when the block is higher |
| `LiveChain.ChainState.CanonicalChain` | crates/meow-nakamoto/src/chain/mod.rs:439-446 | walks from the head parent by parent to a block with no retained parent, one height at a time |
| `LiveChain.ChainState.BlocksSince` | crates/meow-nakamoto/src/chain/mod.rs:430-436 | answers exactly the retained blocks at or above the height |
| `Chain.JudgeExact` | crates/meow-nakamoto/src/chain/mod.rs:244-394 | a block is accepted with a resulting store if and only if it is unknown, extends a known block and replays to that store |
| `Chain.ApplyKeeps` | crates/meow-nakamoto/src/chain/mod.rs:244-405 | applying any block keeps the cache faithful, each snapshot with the state root its header commits to; the head stays or gets strictly higher |
| `Chain.AnchoredFaithful` | crates/meow-nakamoto/src/chain/mod.rs:77-125 | a chain anchored at a snapshot starts faithful |
| `Chain.SnapshotIsReplay` | crates/meow-nakamoto/src/chain/mod.rs:23-43 | main theorem: between retained blocks, restoring a snapshot equals replaying the path that leads to it |
| `CatchUp.CatchesUp` | crates/meow-node/src/gossip_service/mod.rs:169-210 | main theorem: in height order, every valid block joined to the chain through pulled blocks is known right after its turn, with the store its replay leads to, although pruning runs in between |
| `CatchUp.FinalHeight` | crates/meow-nakamoto/src/chain/mod.rs:152-159 | for any list in height order: the final head is at least the old head and every block that joins, and it is the old head or the height of a block that joins |
| `CatchUp.KnownJoins` | crates/meow-nakamoto/src/chain/mod.rs:244-405 | nothing else gets in: each block known after any part of the list was known before or ends a path of listed blocks from a known one, with the store its replay leads to |
| `CatchUp.PeerReached` | crates/meow-nakamoto/src/chain/mod.rs:152-159 | two nodes: if the peer's retained chain meets a retained local block, then after applying the peer's answer from the head less the depth, in height order, the local head is at least the peer's |
| `CatchUp.DepthZeroLosesSibling` | crates/meow-nakamoto/src/chain/mod.rs:209-225 | with depth zero it fails: after one child of the head, every sibling of it has an unknown parent |
| `Pool.ValidateAgainstStore` | crates/meow-nakamoto/src/mempool/mod.rs:124-164 | the loop returns the first reference that is missing or out of date, gas coin first |
| `Pool.Mempool.Enqueue` | crates/meow-nakamoto/src/mempool/mod.rs:65-85 | appends the transaction or reports the specified error and changes nothing |
| `Pool.Mempool.Retain` | crates/meow-nakamoto/src/mempool/mod.rs:90-108 | keeps exactly the entries valid for the store, in order |
| `Pool.Mempool.TakeBatch` | crates/meow-nakamoto/src/mempool/mod.rs:112-121 | takes a prefix of the queue and forgets its digests |
| `Pool.SubmitKeeps` | crates/meow-nakamoto/src/mempool/mod.rs:65-85 | the queue stays duplicate-free within 4096 and `seen` stays exactly its digests |
| `Pool.RetainKeeps` | crates/meow-nakamoto/src/mempool/mod.rs:90-108 | so after a reorganisation, and exactly the valid entries stay, as a subsequence of the queue |
| `Pool.RetainOrdered` | crates/meow-nakamoto/src/mempool/mod.rs:90-108 | filtering keeps the order |
| `Pool.RetainIdempotent` | crates/meow-nakamoto/src/mempool/mod.rs:90-108 | retaining twice is retaining once, and a valid queue stays as it is |
| `Pool.DrainKeeps` | crates/meow-nakamoto/src/mempool/mod.rs:112-121 | a batch followed by the rest is the old queue, and its digests are no longer held |
| `Queue.FirstInFirstOut` | crates/meow-nakamoto/src/miner/mod.rs:162-259 | main theorem: over every run without a reorganisation or restore, the batches of all work handed out followed by the queue are those of the start followed by the accepted submissions, in order |
| `Queue.NeverOvertakes` | crates/meow-nakamoto/src/miner/mod.rs:162-259 | and over every run whatsoever they are a subsequence of that |
| `Mining.GrindNonce` | crates/meow-nakamoto/src/miner/mining_work.rs:62-92 | the search finds the least nonce that meets the difficulty, or none in 64 bits |
| `Mining.ExecuteBatch` | crates/meow-nakamoto/src/miner/mining_work.rs:94-118 | runs the batch in order and leaves out what the executor refuses |
| `Mining.GrindWork` | crates/meow-nakamoto/src/miner/mining_work.rs:55-178 | the loop with its re-grinding ends and computes the specified block and store |
| `Mining.RootsOutsideMiningHash` | crates/meow-nakamoto-types/src/block_header.rs:50-60 | filling in the state and reward roots never changes the mining hash, so neither the difficulty nor the random seed |
| `Mining.GrindSound` | crates/meow-nakamoto/src/miner/mining_work.rs:55-178 | a returned block is well formed, meets the difficulty, holds only transactions of the batch and replays to the returned store |
| `Batches.DropsOnlyRefused` | crates/meow-nakamoto/src/miner/mining_work.rs:94-118 | what a round keeps are exactly the survivors: transactions that execute one after another, while each other one is refused after the survivors before it |
| `Batches.SurvivorsExist` | crates/meow-nakamoto/src/miner/mining_work.rs:94-118 | every batch has such survivors |
| `Batches.NothingDropped` | crates/meow-nakamoto/src/miner/mining_work.rs:94-118 | nothing is dropped if and only if the whole batch executes |
| `Batches.GrindComplete` | crates/meow-nakamoto/src/miner/mining_work.rs:55-178 | a ground block holds the batch in order and misses only transactions the executor refused in some round; it pays its gas, if any, to the miner's reward address in a signed mint bound to the mining hash |
| `Batches.WholeBatchMined` | crates/meow-nakamoto/src/miner/mining_work.rs:55-178 | a batch that executes under the first nonce that solves its header becomes a block of exactly that batch |
| `Batches.GrindFails` | crates/meow-nakamoto/src/miner/mining_work.rs:55-178 | grinding yields nothing only if no nonce solves some header of the work or every transaction was refused |
| `Mining.MinerAndValidatorAgree` | crates/meow-nakamoto/src/chain/mod.rs:244-405 | main theorem: a ground block, not yet known, is accepted on the same parent if and only if its timestamp is past the parent's and within the drift, and then with the identical store |
| `Node.StepKeeps` | crates/meow-nakamoto/src/miner/mod.rs:162-277 | each atomic step of the node keeps its invariant, and its head stays or climbs |
| `Steps.SubmissionExactly` | crates/meow-nakamoto/src/miner/mod.rs:162-166 | a submission joins the end of the queue if and only if it is signed, not pending, there is room, and all it refers to is up to date on the head; nothing else changes |
| `Steps.RoundExactly` | crates/meow-nakamoto/src/miner/mod.rs:224-259 | once a batch is pending, a round takes exactly a batch from the front into work on the head at the current time; otherwise it does nothing |
| `Steps.ArrivalExactly` | crates/meow-nakamoto/src/miner/mod.rs:211-218 | a peer's block is taken if and only if it is admissible, adding one block and dropping what is beyond the depth; if that moves the head, exactly the pending transactions that are up to date on the new head stay, in order, and otherwise the pool is as it was |
| `Steps.PoolFollowsHead` | crates/meow-nakamoto/src/miner/mod.rs:211-218 | so at every arrival of every run |
| `Steps.SolvedExactly` | crates/meow-nakamoto/src/miner/mod.rs:265-277 | a ground block becomes the head if and only if its parent still is the head and its time is within the drift; otherwise nothing happens |
| `Steps.RestoreExactly` | crates/meow-nakamoto/src/miner/mod.rs:191-201 | a snapshot replaces chain and pool if and only if it is higher, well formed, in time, and its objects have the root its header commits to |
| `Node.ReachableOk` | crates/meow-nakamoto/src/miner/mod.rs:191-277 | main theorem: over every interleaving of submissions, rounds, commits, peer blocks and snapshots the chain is a faithful cache, the pool is in order, and each work unit handed out describes its parent |
| `Node.NoAba` | crates/meow-nakamoto/src/miner/mod.rs:265-277 | main theorem: if the head is the same at two moments it was the same in between |
| `Node.CommitIsFresh` | crates/meow-nakamoto/src/miner/mod.rs:224-277 | when a commit finds its parent at the head, the head has not moved since the round was prepared, the block is one higher, and its store was computed from the head's snapshot |
| `Node.CommitStopsOnlyOnTime` | crates/meow-nakamoto/src/chain/mod.rs:193-204 | the structural check inside a commit can fail on the timestamp alone, exactly when it is beyond the allowed drift |
| `Node.OwnBlockExactly` | crates/meow-nakamoto/src/miner/mod.rs:224-277 | work handed out on the current head of any reachable node: its block would be accepted if and only if its timestamp is past the head's and within the drift |
| `Node.CommitsAnyway` | crates/meow-nakamoto/src/miner/mod.rs:265-277 | the node makes it its head if and only if its timestamp is within the drift, and when it does not advance every chain holding the parent refuses it, at any time |
| `Witness.CommitStops` | crates/meow-nakamoto/src/chain/mod.rs:193-204 | a reachable node, one submission and one round from genesis, whose commit fails the structural check because the clock went back |
| `Witness.RoundRefused` | crates/meow-nakamoto/src/miner/mod.rs:224-277 | so it is for any idle node of any run whose clock has not passed its head's timestamp |
| `Witness.HeadRefused` | crates/meow-nakamoto/src/miner/mod.rs:224-277 | a reachable node whose head is a peer's block ahead of its own clock, and which then makes a block its head that every chain with the same peer block refuses |
| `LiveNode.Miner.SubmitTransaction` | crates/meow-nakamoto/src/miner/mod.rs:162-166 | in place, equals the node's submission step |
| `LiveNode.Miner.ReplaceFromSnapshot` | crates/meow-nakamoto/src/miner/mod.rs:191-201 | succeeds if and only if the snapshot is admissible; then chain and pool start anew |
| `LiveNode.Miner.ReceiveBlock` | crates/meow-nakamoto/src/miner/mod.rs:211-218 | equals the node's arrival step; only a head change filters the pool |
| `LiveNode.Miner.PrepareRound` | crates/meow-nakamoto/src/miner/mod.rs:224-259 | hands out work on the current head exactly when a batch is pending |
| `LiveNode.Miner.CommitMined` | crates/meow-nakamoto/src/miner/mod.rs:265-277 | commits if and only if the parent is the head |
| `Sync.ServiceReachesOk` | crates/meow-node/src/gossip_service/mod.rs:110-329 | main theorem: over every sequence of events a pull runs only in block sync and a fetch only in state sync; a buffer is within its cap, without repeated hashes, and indexed by exactly its hashes |
| `Sync.NoStrayCompletion` | crates/meow-node/src/gossip_service/mod.rs:186-200 | so the branch for a pull that completes outside a block sync is never reached, and no running future is replaced |
| `Sync.ServiceRunsNode` | crates/meow-node/src/gossip_service/mod.rs:116-385 | every run of the service, mining steps in between included, is a run of the node |
| `Sync.SyncKeepsNode` | crates/meow-node/src/gossip_service/mod.rs:116-385 | so syncing keeps the node's invariant and never lowers its head |
| `Sync.PullOffersOnce` | crates/meow-node/src/gossip_service/mod.rs:169-210 | a completed pull offers the chain exactly one block for each hash pulled or buffered |
| `Sync.PullCatchesUp` | crates/meow-node/src/gossip_service/mod.rs:169-210 | afterwards the head is at least as high as every pulled block that joins the chain and every buffered block that joins what the pull left, and it is the old head or the height of one of those |
| `Sync.PullReachesPeer` | crates/meow-node/src/gossip_service/mod.rs:169-210 | a completed pull answered by a peer whose retained chain meets a retained local block brings the head to at least the peer's |
| `Sync.StrandedExactly` | crates/meow-node/src/gossip_service/mod.rs:262-327 | a sync starts with nothing running for it if and only if a block needs one while no peer is known |
| `Sync.StrandedStays` | crates/meow-node/src/gossip_service/mod.rs:237-245 | such a service never leaves the sync: no sequence of events, peers met later included, lets a gossiped block reach the chain |
| `Sync.StrandedAtStart` | crates/meow-node/src/gossip_service/mod.rs:262-327 | so it is for a node just started: any gossiped block of height two or more leaves it in a sync for good |
| `Choices.SyncStartsExactly` | crates/meow-node/src/gossip_service/mod.rs:237-327 | a fetch starts if and only if a block more than the depth above the head reaches a working service with a peer; a pull if and only if blocks are missing below it within the depth, or it is the next and not admissible; each ends exactly when it completes |
| `Choices.FetchRunsExactly` | crates/meow-node/src/gossip_service/mod.rs:136-327 | over every run: a snapshot is being fetched if and only if such a block came and no fetch has completed since |
| `Choices.GossipExactly` | crates/meow-node/src/gossip_service/mod.rs:237-327 | a working service hands a known or next block to the chain; a syncing one keeps it behind those it has, unless the buffer is full |
| `Choices.FetchOffersOnce` | crates/meow-node/src/gossip_service/mod.rs:136-168 | a completed fetch restores an admissible snapshot and then offers one block for each hash buffered, and otherwise changes nothing |
| `LiveSync.SortByHeight` | crates/meow-node/src/gossip_service/mod.rs:177-189 | some order of the same blocks by height |
| `LiveSync.GossipService.Offer` | crates/meow-node/src/gossip_service/mod.rs:175-184 | offers the first block of each new hash, in order |
| `LiveSync.GossipService.BlockGossiped` | crates/meow-node/src/gossip_service/mod.rs:237-329 | buffers, applies, or starts the right kind of sync, as the specified step |
| `LiveSync.GossipService.PullCompleted` | crates/meow-node/src/gossip_service/mod.rs:169-210 | pulled blocks first, then the buffer, each sorted; back to work |
| `LiveSync.GossipService.FetchCompleted` | crates/meow-node/src/gossip_service/mod.rs:136-168 | a good snapshot replaces the chain before the buffer is offered; otherwise nothing is applied; back to work |
| `Difficulty.LeadingZeros` | crates/meow-nakamoto-types/src/block_header.rs:63-77 | the count places the big-endian number between two consecutive powers of two |
| `Difficulty.MeetsDifficulty` | crates/meow-nakamoto-types/src/block_header.rs:56-60 | a 32-byte hash meets difficulty d up to 256 if and only if it is below 2^(256-d), and never beyond |

## Where the code and its documentation differ

- The bytecode verifier documents its abstract interpretation as establishing type safety. The code
  accepts a field load from a non-struct, repeated field names in a struct, and an unchecked write
  through a struct of another module; `Boundaries` and `Forgery` have the programs and the exact
  conditions, and `Verify.FieldsSettled` and `Conservation.Spares` are what the main theorems assume.
- The tokenomics notes call the supply fixed at genesis except for `burn`. In the code it is the worth of
  coin objects, and changes exactly by what calls transfer less what they take (`Supply.ChainSupply`):
  `burn` lowers it (`CoinSupply.BurnLowersSupply`), `to_balance` moves worth out of coin objects into
  fields of other objects and `from_balance` back, and a field write through another module's struct is
  not checked, as `Forgery` shows for ids.
- The adapter's verifier says that a struct is either an object or carries no identity. A struct whose
  first field is an id under a name other than `id` passes the layout rules and is neither
  (`Layouts.SecondIdAllowed`).
- `commit_mined` does not compare the block's timestamp with its parent's, so a node whose clock has not
  passed the head's timestamp makes a block its head that no other node accepts (`Node.CommitsAnyway`).
- `commit_mined` does not filter the mempool, so entries spent by the mined block stay until the next
  reorganisation or until a batch drops them. The model follows the code.
- The input collector documents a recursion depth bounded by the compiler. Its termination here
  follows from the seen set alone, on any import graph.
- The gossip service describes buffered blocks as applied after the sync. A sync that starts without
  a known peer never ends (`Sync.StrandedStays`).

## Left out

- Verify.VerifierSoundness: assumes distinct field names and field accesses of the true type (`FieldsSettled`), because without them it is false; `Boundaries` shows the failures and proves the condition exact for each instruction.
- Verify.LinearConservation: assumes the same; for single values it also assumes that no loaded code writes a field through a value of the type (`Spares`), because without it it is false; `Forgery` shows the failure and proves the condition exact for each write. The count by type needs no such condition.
- Conservation.StepKeeps: assumes the same of the one instruction.
- Soundness.StepSound: assumes of a field instruction what `Boundaries` proves exact for it.
- Adapter.IdsConserved: assumes that every transferred value carries an id field (`TransfersObjects`); `Layouts.TransfersAreObjects` derives it from static rules. For single addresses it assumes that no code writes into ids (`NoIdWrites`), as `Forgery` shows it must.
- Adapter.AccountedIsLinear: assumes `TransfersObjects` in the same way; `Layouts.LawfulFits` does without.
- Adapter.NothingLeftOver: assumes in addition that a transferred value holds no second id (`TransfersOneId`), which `Layouts.TransfersAreObjects` derives, and `NoIdWrites`.
- Layouts.TransfersAreObjects: assumes of each transfer that the verifier's state has an object struct there (`TransfersAllowed`), and that an id is the `id` field of an object (`LaidOut`), which the layout rules alone do not give; the adapter's pass over function bodies, which tracks freshness and struct tags, is not modelled.
- Layouts.LawfulFits: assumes the same static rules of the loaded modules.
- Runners.RunnersAreAccountable: assumes that accepted modules keep these rules and are settled in the sense of `VerifierSoundness`; publishing does not check all of it, and the checks themselves are a parameter of the executor (`publishError`).
- Meaning.CodegenPreservesMeaning: out-of-gas is not predicted by the evaluator, and a call with the wrong number of arguments is outside its meaning; `Defined.MeaningIsExact` removes the first exception, and the second by assuming the arities (`WorldFits`), which the compiler's type checker enforces (crates/meow-vm-compiler/src/type_checker.rs:271, 314).
- Acceptance.FunctionAccepted: about the generator as modelled, without the rejections that need inferred types (field visibility, struct-typed fields, unconsumed structs), as said below.
- Ownership.OwnersDecide: assumes what `AtMostOnce.TakesEffectOnce` assumes (`World`).
- Ownership.CallOutcome: assumes that runs fit (`Accountable`), which `Runners.RunnersAreAccountable` derives, and that no address derived from the transaction is live yet (`NoneLive`), which holds along every chain for a transaction that has not taken effect.
- CoinDelivery.SplitDelivers: speaks of a fresh id that is not the coin's own, as derived addresses are.
- AtMostOnce.TakesEffectOnce: assumes of the call runner what `Runners.RunnersAreHonest` derives for every machine (`Honest`), and that derived addresses never collide (`DerivesFresh`). A result on which an assertion of the store would trip counts as applied.
- Supply.ChainSupply: assumes that runs fit (`Accountable`), which `Runners.RunnersAreAccountable` derives, and that `mint` makes the requested amount with the system modules in place (`Mints`), which `CoinSupply.MachineMints` derives. Coin worth held as `MeowCoinBalance` in other objects is not part of the total.
- CoinSupply.BurnLowersSupply: a statement about one transaction, as the witness that the supply can fall; the module's `merge`, `split`, `balance`, `to_balance` and `from_balance` are compiled here but not followed into the supply.
- Interpreter.CallFunction: requires a gas limit below the maximum or forward jumps, because otherwise the loop may never end; `HaltingBounds.UnlimitedLoops` shows such a loop.
- LiveNode.Miner.CommitMined: requires the structural check that the program would panic on; `Node.CommitStopsOnlyOnTime` says exactly when it passes.
- Effects.CollectObjectEffects: requires the ids to resolve, where the program would panic; `Effects.LinearResolves` and `Layouts.LawfulFits` establish it for calls that account for their objects.
- History.ObjectStore.ApplyExecutionResult: requires what the program asserts; `Assertions.ChainNeverTrips` establishes it along every chain whose runs fit.
- Mining.MinerAndValidatorAgree: a block whose hash is already known is refused, as the code does.
- Sync.PullCatchesUp: one clock reading serves a whole list of blocks; the program reads the clock for each.
- CatchUp.PeerReached: requires the meeting block when it is a genesis to have the same store on both sides, because a genesis header commits to no store; and of the peer's blocks on the way, in its own retained chain, that they are signed, that their timestamps advance, and that none is beyond the drift of the local clock.
- LiveSync.GossipService.BlockGossiped: runs without interruption; `Sync.GossipStep` also covers mining steps between reading the heights and applying the block.
- Executor.Settle: a run whose ids do not resolve, on which the program would panic, counts as a failed transaction; `Layouts.LawfulFits` and `Effects.LinearResolves` show that runs on modules that keep the rules do not get there.
- Executor: a gas coin without a readable balance counts as not executable, where the program would panic.
- The compiler's parser, type inference and move checking; the generator is modelled without those rejections, so its theorem covers a superset of the accepted programs.
- That compiled code is always accepted by the bytecode verifier: some joins are left to the verifier on purpose, so it does not hold.
- The adapter's pass over function bodies, whose stack effects differ from the machine's for some instructions.
- Choice of peer and URL handling, topic decoding, RPC, storage of keys, shutdown and logging.
- Encodings, hash functions, signatures and the random generator, which are taken as injective functions, a predicate and a parameter.
- Progress of a sync whose fetch never completes, and of a chain whose miners never find a nonce.
- Heights and timestamps as 64-bit numbers: they do not wrap here.
