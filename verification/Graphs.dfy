/** Depth-first cycle detection, in the two forms the compiler and the verifier use. */
module Graphs {
  import opened MeowTypes

  /** Successor lists; only edges between keys count. */
  type Graph<T> = map<T, seq<T>>

  predicate Edge<T(==)>(g: Graph<T>, a: T, b: T) {
    a in g && b in g && b in g[a]
  }

  predicate IsPath<T(==)>(g: Graph<T>, p: seq<T>) {
    |p| >= 1 && forall i | 0 <= i < |p| - 1 :: Edge(g, p[i], p[i + 1])
  }

  ghost predicate IsCycle<T>(g: Graph<T>, p: seq<T>) {
    |p| >= 2 && IsPath(g, p) && p[0] == p[|p| - 1]
  }

  ghost predicate Cyclic<T(!new)>(g: Graph<T>) {
    exists p :: IsCycle(g, p)
  }

  /** Every edge goes to an earlier element. */
  ghost predicate Ordered<T(!new)>(g: Graph<T>, order: seq<T>) {
    forall i, b | 0 <= i < |order| && Edge(g, order[i], b) :: b in order[..i]
  }

  ghost function FirstIndex<T>(order: seq<T>, a: T): (i: nat)
    requires a in order
    ensures i < |order| && order[i] == a && a !in order[..i]
  {
    if order[0] == a then 0
    else
      assert order == [order[0]] + order[1..];
      var i := FirstIndex(order[1..], a) + 1;
      assert order[..i] == [order[0]] + order[1..][..i - 1];
      i
  }

  lemma {:induction false} PathDescends<T(!new)>(g: Graph<T>, order: seq<T>, p: seq<T>, k: nat)
    requires Ordered(g, order) && IsPath(g, p) && p[0] in order && k < |p|
    ensures p[k] in order && FirstIndex(order, p[k]) + k <= FirstIndex(order, p[0])
  {
    if k > 0 {
      PathDescends(g, order, p, k - 1);
      var i := FirstIndex(order, p[k - 1]);
      assert Edge(g, p[k - 1], p[k - 1 + 1]);
      assert p[k] in order[..i];
      var j :| 0 <= j < i && order[..i][j] == p[k];
      assert order[j] == p[k] && order[j] in order[..j + 1];
    }
  }

  /** An order in which every node follows its successors rules cycles out. */
  lemma OrderedAcyclic<T(!new)>(g: Graph<T>, order: seq<T>)
    requires Ordered(g, order) && forall a | a in g :: a in order
    ensures !Cyclic(g)
  {
    forall p | IsCycle(g, p) ensures false {
      assert Edge(g, p[0], p[0 + 1]);
      PathDescends(g, order, p, |p| - 1);
    }
  }

  /** The nodes being visited form a path that leads to `next`. */
  ghost predicate Stacked<T(!new)>(g: Graph<T>, stack: seq<T>, visiting: set<T>, next: T) {
    IsPath(g, stack + [next]) && forall a :: a in visiting <==> a in stack
  }

  /** An edge back into the stack closes a cycle. */
  lemma BackEdge<T(!new)>(g: Graph<T>, stack: seq<T>, t: T)
    requires stack != [] && IsPath(g, stack) && Edge(g, stack[|stack| - 1], t) && t in stack
    ensures Cyclic(g)
  {
    var k :| 0 <= k < |stack| && stack[k] == t;
    var p := stack[k..] + [t];
    forall i | 0 <= i < |p| - 1 ensures Edge(g, p[i], p[i + 1]) {
      if i < |p| - 2 {
        assert Edge(g, stack[k + i], stack[k + i + 1]);
      }
    }
    assert IsCycle(g, p);
  }

  lemma StackGrows<T>(g: Graph<T>, stack: seq<T>, next: T, t: T)
    requires IsPath(g, stack + [next]) && Edge(g, next, t)
    ensures IsPath(g, stack + [next] + [t])
  {
    var p := stack + [next] + [t];
    forall i | 0 <= i < |p| - 1 ensures Edge(g, p[i], p[i + 1]) {
      if i < |stack| {
        assert Edge(g, (stack + [next])[i], (stack + [next])[i + 1]);
      }
    }
  }

  ghost predicate SameElements<T(!new)>(order: seq<T>, nodes: set<T>) {
    forall a :: a in nodes <==> a in order
  }

  lemma OrderGrows<T(!new)>(g: Graph<T>, order: seq<T>, a: T)
    requires Ordered(g, order) && forall b | Edge(g, a, b) :: b in order
    ensures Ordered(g, order + [a])
  {
    var order' := order + [a];
    forall i, b | 0 <= i < |order'| && Edge(g, order'[i], b) ensures b in order'[..i] {
      if i < |order| {
        assert order'[..i] == order[..i];
      } else {
        assert order'[..i] == order;
      }
    }
  }

  /** `struct_dfs`: report every edge back into the current path, and go on. */
  method ReportingDfs<T(==, !new)>(g: Graph<T>, name: T, visiting: set<T>, visited0: set<T>, errors0: seq<T>,
                                   ghost stack: seq<T>, ghost order0: seq<T>)
    returns (visited: set<T>, errors: seq<T>, ghost order: seq<T>)
    requires name in g && name !in visiting && visiting <= g.Keys
    requires Stacked(g, stack, visiting, name)
    requires errors0 == [] ==> Ordered(g, order0) && SameElements(order0, visited0)
    ensures visited0 <= visited && name in visited
    ensures errors == [] ==> errors0 == [] && Ordered(g, order) && SameElements(order, visited)
    ensures errors == errors0 || Cyclic(g)
    decreases g.Keys - visiting
  {
    var path := visiting + {name};
    visited, errors, order := visited0, errors0, order0;
    var i := 0;
    while i < |g[name]|
      invariant 0 <= i <= |g[name]|
      invariant visited0 <= visited
      invariant errors == [] ==> errors0 == [] && Ordered(g, order) && SameElements(order, visited)
      invariant errors == [] ==> forall j | 0 <= j < i && g[name][j] in g :: g[name][j] in visited
      invariant errors == errors0 || Cyclic(g)
    {
      var t := g[name][i];
      if t in g {
        assert Edge(g, name, t);
        if t in path {
          errors := errors + [t];
          BackEdge(g, stack + [name], t);
        } else if t !in visited {
          StackGrows(g, stack, name, t);
          visited, errors, order := ReportingDfs(g, t, path, visited, errors, stack + [name], order);
        }
      }
      i := i + 1;
    }
    if errors == [] {
      OrderGrows(g, order, name);
    }
    visited, order := visited + {name}, order + [name];
  }

  /** `check_struct_cycles` over any root list that covers the nodes: an error exactly when
      the graph has a cycle. */
  method ReportCycles<T(==, !new)>(g: Graph<T>, roots: seq<T>) returns (errors: seq<T>)
    requires forall a :: a in roots <==> a in g
    ensures errors != [] <==> Cyclic(g)
  {
    var visited: set<T> := {};
    errors := [];
    ghost var order: seq<T> := [];
    var i := 0;
    while i < |roots|
      invariant 0 <= i <= |roots|
      invariant errors == [] ==> Ordered(g, order) && SameElements(order, visited)
      invariant forall j | 0 <= j < i :: roots[j] in visited
      invariant errors == [] || Cyclic(g)
    {
      if roots[i] !in visited {
        visited, errors, order := ReportingDfs(g, roots[i], {}, visited, errors, [], order);
      }
      i := i + 1;
    }
    if errors == [] {
      OrderedAcyclic(g, order);
    }
  }

  /** `dfs_module_cycle`: stop at the first edge back into the current path. */
  method StoppingDfs<T(==, !new)>(g: Graph<T>, name: T, inStack0: set<T>, visited0: set<T>,
                                  ghost stack: seq<T>, ghost order0: seq<T>)
    returns (found: Option<T>, visited: set<T>, ghost order: seq<T>)
    requires name in g && name !in visited0 && inStack0 <= visited0 <= g.Keys
    requires Stacked(g, stack, inStack0, name)
    requires Ordered(g, order0) && SameElements(order0, visited0 - inStack0)
    ensures found.Some? ==> Cyclic(g)
    ensures found.None? ==>
      && visited0 + {name} <= visited <= g.Keys
      && Ordered(g, order) && SameElements(order, visited - inStack0)
    decreases g.Keys - visited0
  {
    var inStack := inStack0 + {name};
    visited, order := visited0 + {name}, order0;
    assert visited - inStack == visited0 - inStack0;
    var i := 0;
    while i < |g[name]|
      invariant 0 <= i <= |g[name]|
      invariant visited0 + {name} <= visited <= g.Keys
      invariant Ordered(g, order) && SameElements(order, visited - inStack)
      invariant forall j | 0 <= j < i && g[name][j] in g :: g[name][j] in visited - inStack
    {
      var t := g[name][i];
      if t in g {
        assert Edge(g, name, t);
        if t !in visited {
          StackGrows(g, stack, name, t);
          var c;
          c, visited, order := StoppingDfs(g, t, inStack, visited, stack + [name], order);
          if c.Some? {
            return c, visited, order;
          }
        } else if t in inStack {
          BackEdge(g, stack + [name], t);
          return Some(t), visited, order;
        }
      }
      i := i + 1;
    }
    OrderGrows(g, order, name);
    order := order + [name];
    found := None;
  }

  /** `detect_module_dep_cycles`: fails exactly when the graph has a cycle; `visited` is shared
      by all roots. */
  method FindCycle<T(==, !new)>(g: Graph<T>, roots: seq<T>) returns (found: Option<T>)
    requires forall a :: a in roots <==> a in g
    ensures found.Some? <==> Cyclic(g)
  {
    var visited: set<T> := {};
    ghost var order: seq<T> := [];
    var i := 0;
    while i < |roots|
      invariant 0 <= i <= |roots|
      invariant visited <= g.Keys
      invariant Ordered(g, order) && SameElements(order, visited)
      invariant forall j | 0 <= j < i :: roots[j] in visited
    {
      if roots[i] !in visited {
        assert visited - {} == visited;
        found, visited, order := StoppingDfs(g, roots[i], {}, visited, [], order);
        if found.Some? {
          return;
        }
        assert visited - {} == visited;
      }
      i := i + 1;
    }
    OrderedAcyclic(g, order);
    found := None;
  }
}
