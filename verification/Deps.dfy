/** Dependency closures: import cycles, and the modules a call can reach through imports. */
module Deps {
  import opened MeowTypes
  import opened Ledger
  import opened Graphs

  // --------------------------------------------------------------- cycles of imports

  function ImportGraph(mods: map<Address, Module>): (g: Graph<Address>) {
    map a | a in mods :: mods[a].imports
  }

  /** Import cycles among the given modules; imports of other modules do not count. */
  method DetectModuleDepCycles(mods: seq<(Address, Module)>) returns (found: Option<Address>)
    ensures found.Some? <==> Cyclic(ImportGraph(Collected(mods)))
  {
    var roots := seq(|mods|, i requires 0 <= i < |mods| => mods[i].0);
    CollectedKeys(mods);
    forall a
      ensures a in roots <==> a in ImportGraph(Collected(mods))
    {
      if a in Collected(mods) {
        var i :| 0 <= i < |mods| && mods[i].0 == a;
        assert roots[i] == a;
      }
    }
    found := FindCycle(ImportGraph(Collected(mods)), roots);
  }

  /** Collecting pairs into a map: a repeated address keeps its last module. */
  function Collected(mods: seq<(Address, Module)>): (r: map<Address, Module>) {
    if mods == [] then map[]
    else Collected(mods[..|mods| - 1])[mods[|mods| - 1].0 := mods[|mods| - 1].1]
  }

  lemma {:induction false} CollectedKeys(mods: seq<(Address, Module)>)
    ensures forall a :: a in Collected(mods) <==> exists i :: 0 <= i < |mods| && mods[i].0 == a
  {
    if mods != [] {
      var init := mods[..|mods| - 1];
      CollectedKeys(init);
      forall a | a in Collected(mods)
        ensures exists i :: 0 <= i < |mods| && mods[i].0 == a
      {
        if a in Collected(init) {
          var i :| 0 <= i < |init| && init[i].0 == a;
          assert mods[i].0 == a;
        } else {
          assert mods[|mods| - 1].0 == a;
        }
      }
      forall i | 0 <= i < |mods|
        ensures mods[i].0 in Collected(mods)
      {
        if i < |init| { assert init[i].0 in Collected(init); }
      }
    }
  }

  // --------------------------------------------------------------- transitive modules

  /** Module objects by address; an entry that does not decode is `None`. */
  type Index = map<Address, Option<Module>>

  /** A chain of imports, each read from a module that is there. */
  ghost predicate Chain(index: Index, roots: seq<Address>, path: seq<Address>) {
    && |path| > 0 && path[0] in roots
    && forall i {:trigger Hop(index, path, i)} :: 0 <= i < |path| - 1 ==> Hop(index, path, i)
  }

  ghost predicate Hop(index: Index, path: seq<Address>, i: nat)
    requires i + 1 < |path|
  {
    Imports(index, path[i], path[i + 1])
  }

  ghost predicate Imports(index: Index, a: Address, b: Address) {
    a in index && index[a].Some? && b in index[a].value.imports
  }

  /** The address is imported, directly or through other modules. */
  ghost predicate Reached(index: Index, roots: seq<Address>, a: Address) {
    exists path :: Chain(index, roots, path) && path[|path| - 1] == a
  }

  predicate Usable(index: Index, a: Address) {
    a in index && index[a].Some?
  }

  lemma ReachedRoot(index: Index, roots: seq<Address>, a: Address)
    requires a in roots
    ensures Reached(index, roots, a)
  {
    assert Chain(index, roots, [a]) && [a][|[a]| - 1] == a;
  }

  lemma ReachedNext(index: Index, roots: seq<Address>, a: Address, b: Address)
    requires Reached(index, roots, a) && Imports(index, a, b)
    ensures Reached(index, roots, b)
  {
    var path :| Chain(index, roots, path) && path[|path| - 1] == a;
    var more := path + [b];
    forall i: nat | i < |more| - 1
      ensures Hop(index, more, i)
    {
      if i < |path| - 1 { assert Hop(index, path, i); }
    }
    assert Chain(index, roots, more) && more[|more| - 1] == b;
  }

  /** A set that holds the roots and every import of its members holds everything reached. */
  lemma {:induction false} ReachedStays(index: Index, roots: seq<Address>, known: set<Address>, path: seq<Address>)
    requires Chain(index, roots, path)
    requires forall a :: a in roots ==> a in known
    requires forall a, b :: a in known && Imports(index, a, b) ==> b in known
    ensures path[|path| - 1] in known
  {
    if |path| > 1 {
      var init := path[..|path| - 1];
      forall i: nat | i < |init| - 1
        ensures Hop(index, init, i)
      {
        assert Hop(index, path, i);
      }
      ReachedStays(index, roots, known, init);
      assert Hop(index, path, |path| - 2);
    }
  }

  /** Everything reached is in the map, with the module the index has for it, and nothing else. */
  ghost predicate Closure(index: Index, roots: seq<Address>, deps: map<Address, Module>) {
    && (forall a :: a in deps <==> Reached(index, roots, a))
    && (forall a :: a in deps ==> Usable(index, a) && index[a].value == deps[a])
  }

  /** What is resolved is reached and right, and whatever is still missing is queued. */
  ghost predicate Working(index: Index, roots: seq<Address>, deps: map<Address, Module>, queue: seq<Address>) {
    && (forall a :: a in queue ==> Reached(index, roots, a))
    && (forall a :: a in deps ==> Reached(index, roots, a) && Usable(index, a) && index[a].value == deps[a])
    && (forall a :: a in roots ==> a in deps || a in queue)
    && (forall a, b :: a in deps && Imports(index, a, b) ==> b in deps || b in queue)
  }

  lemma StartWorks(index: Index, roots: seq<Address>)
    ensures Working(index, roots, map[], roots)
  {
    forall a | a in roots ensures Reached(index, roots, a) { ReachedRoot(index, roots, a); }
  }

  lemma PopKeeps(index: Index, roots: seq<Address>, deps: map<Address, Module>, queue: seq<Address>)
    requires queue != [] && Working(index, roots, deps, queue)
    ensures Reached(index, roots, queue[|queue| - 1])
    ensures queue[|queue| - 1] in deps ==> Working(index, roots, deps, queue[..|queue| - 1])
  {
    hide Reached, Imports, Usable;
    assert queue == queue[..|queue| - 1] + [queue[|queue| - 1]];
  }

  lemma AddKeeps(index: Index, roots: seq<Address>, deps: map<Address, Module>, queue: seq<Address>)
    requires queue != [] && Working(index, roots, deps, queue)
    requires queue[|queue| - 1] !in deps && Usable(index, queue[|queue| - 1])
    ensures var addr := queue[|queue| - 1];
            var dep := index[addr].value;
            Working(index, roots, deps[addr := dep], queue[..|queue| - 1] + NotYet(dep.imports, deps))
  {
    hide Reached;
    var addr, rest := queue[|queue| - 1], queue[..|queue| - 1];
    assert queue == rest + [addr];
    var dep := index[addr].value;
    forall b | b in dep.imports ensures Reached(index, roots, b) { ReachedNext(index, roots, addr, b); }
  }

  lemma DoneCloses(index: Index, roots: seq<Address>, deps: map<Address, Module>)
    requires Working(index, roots, deps, [])
    ensures Closure(index, roots, deps)
  {
    forall a | Reached(index, roots, a)
      ensures a in deps
    {
      var path :| Chain(index, roots, path) && path[|path| - 1] == a;
      ReachedStays(index, roots, deps.Keys, path);
    }
  }

  /** Resolve the transitive dependencies from a worklist. It fails exactly when something that
      is reached is missing or does not decode. */
  method ResolveDepModules(index: Index, roots: seq<Address>) returns (r: Option<map<Address, Module>>)
    ensures r.Some? <==> forall a :: Reached(index, roots, a) ==> Usable(index, a)
    ensures r.Some? ==> Closure(index, roots, r.value)
  {
    hide Working, Reached, NotYet;
    var deps: map<Address, Module> := map[];
    var queue := roots;
    StartWorks(index, roots);
    while queue != []
      invariant Working(index, roots, deps, queue)
      decreases |index.Keys - deps.Keys|, |queue|
    {
      PopKeeps(index, roots, deps, queue);
      var addr := queue[|queue| - 1];
      if addr in deps {
        queue := queue[..|queue| - 1];
        continue;
      }
      if addr !in index || index[addr].None? {
        return None;
      }
      AddKeeps(index, roots, deps, queue);
      OneFewer(index, deps, addr, index[addr].value);
      queue := queue[..|queue| - 1] + NotYet(index[addr].value.imports, deps);
      deps := deps[addr := index[addr].value];
    }
    DoneCloses(index, roots, deps);
    return Some(deps);
  }

  lemma OneFewer(index: Index, deps: map<Address, Module>, a: Address, m: Module)
    requires a in index && a !in deps
    ensures |index.Keys - deps[a := m].Keys| < |index.Keys - deps.Keys|
  {
    var before, after := index.Keys - deps.Keys, index.Keys - deps[a := m].Keys;
    assert after == before - {a};
  }

  /** The imports not resolved yet. */
  function NotYet(imports: seq<Address>, deps: map<Address, Module>): (r: seq<Address>)
    ensures forall a :: a in r <==> a in imports && a !in deps
  {
    if imports == [] then []
    else
      assert imports == [imports[0]] + imports[1..];
      (if imports[0] in deps then [] else [imports[0]]) + NotYet(imports[1..], deps)
  }
}
