/** The input objects of a transaction: gas coin, dependencies before the modules that import
    them, the module called, and the arguments. */
module Inputs {
  import opened MeowTypes
  import opened Ledger
  import opened Deps
  import opened Graphs

  function ImportsOf(o: Object): (r: seq<Address>) {
    if o.content.ModuleCode? then o.content.code.imports else []
  }

  /** The store as the dependency walk sees it: every object, with its module if it is one. */
  function IndexOf(s: Store): (index: Index) {
    map a | a in s :: if s[a].content.ModuleCode? then Some(s[a].content.code) else None
  }

  datatype Walk = Walk(list: seq<Object>, seen: set<Address>)

  /** Depth first, each address once, a module after what it imports. */
  function Gather(s: Store, imports: seq<Address>, seen: set<Address>): (r: Walk)
    ensures seen <= r.seen
    decreases |s.Keys - seen|, |imports|
  {
    if imports == [] then Walk([], seen)
    else
      var a, rest := imports[0], imports[1..];
      if a in seen then Gather(s, rest, seen)
      else if a !in s then
        Fewer(s, seen, seen + {a});
        Gather(s, rest, seen + {a})
      else
        FewerBy(s, seen, a);
        var inner := Gather(s, ImportsOf(s[a]), seen + {a});
        Fewer(s, seen, inner.seen);
        var more := Gather(s, rest, inner.seen);
        Walk(inner.list + [s[a]] + more.list, more.seen)
  }

  lemma Fewer(s: Store, seen: set<Address>, more: set<Address>)
    requires seen <= more
    ensures |s.Keys - more| <= |s.Keys - seen|
  {
    Subset(s.Keys - more, s.Keys - seen);
  }

  lemma FewerBy(s: Store, seen: set<Address>, a: Address)
    requires a in s && a !in seen
    ensures |s.Keys - (seen + {a})| < |s.Keys - seen|
  {
    assert s.Keys - (seen + {a}) == (s.Keys - seen) - {a};
  }

  lemma {:induction false} Subset(a: set<Address>, b: set<Address>)
    requires a <= b
    ensures |a| <= |b|
  {
    if a != {} {
      var x :| x in a;
      Subset(a - {x}, b - {x});
    }
  }

  function ArgObjects(args: seq<Input>, s: Store): (r: seq<Object>) {
    if args == [] then []
    else
      var init, last := ArgObjects(args[..|args| - 1], s), args[|args| - 1];
      if last.ObjectArg? && last.ref.addr in s then init + [s[last.ref.addr]] else init
  }

  function Lookup(s: Store, a: Address): (r: seq<Object>) {
    if a in s then [s[a]] else []
  }

  /** Everything the executor needs for a transaction; what is missing is left out. */
  function CollectInputs(t: Tx, s: Store): (r: seq<Object>) {
    Lookup(s, t.gasCoin.addr) +
    match t.kind
    case MeowCall(mod, _, args) =>
      (if mod in s then Gather(s, ImportsOf(s[mod]), {mod}).list + [s[mod]] else []) + ArgObjects(args, s)
    case ModulePublish(code) => Gather(s, code.imports, {}).list
  }

  // ------------------------------------------------------------------ as it is done

  /** One more import of the list. */
  lemma GatherStep(s: Store, imports: seq<Address>, i: nat, seen: set<Address>)
    requires i < |imports|
    ensures var a, w := imports[i], Gather(s, imports[i..], seen);
            && (a in seen ==> w == Gather(s, imports[i + 1..], seen))
            && (a !in seen && a !in s ==> w == Gather(s, imports[i + 1..], seen + {a}))
            && (a !in seen && a in s ==>
                  var inner := Gather(s, ImportsOf(s[a]), seen + {a});
                  var more := Gather(s, imports[i + 1..], inner.seen);
                  w == Walk(inner.list + [s[a]] + more.list, more.seen))
  {
    assert imports[i..][0] == imports[i] && imports[i..][1..] == imports[i + 1..];
  }

  lemma GatherEnd(s: Store, seen: set<Address>)
    ensures Gather(s, [], seen) == Walk([], seen)
  {
  }

  class Collector {
    const store: Store
    var inputs: seq<Object>
    var seen: set<Address>

    constructor (store: Store, seen: set<Address>)
      ensures this.store == store && this.seen == seen && inputs == []
    {
      this.store, this.seen, inputs := store, seen, [];
    }

    /** Visit the imports of a module: for each new one, first its own imports, then itself. */
    method Visit(imports: seq<Address>)
      modifies this
      ensures inputs == old(inputs) + Gather(store, imports, old(seen)).list
      ensures seen == Gather(store, imports, old(seen)).seen
      decreases Unseen(store, seen), 1
    {
      hide Gather, ImportsOf, Ahead, Unseen;
      ghost var all := Gather(store, imports, seen);
      ghost var done: seq<Object> := [];
      AheadStart(store, imports, seen);
      for i := 0 to |imports|
        invariant Unseen(store, seen) <= Unseen(store, old(seen))
        invariant inputs == old(inputs) + done
        invariant Ahead(store, imports, i, done, seen, all)
      {
        var a := imports[i];
        AheadNext(store, imports, i, done, seen, all);
        if a !in seen {
          ghost var more := VisitNew(a);
          assert old(inputs) + (done + more) == (old(inputs) + done) + more;
          done := done + more;
        }
      }
      AheadEnd(store, imports, done, seen, all);
    }

    /** A new import: mark it, then its own imports, then itself. */
    method VisitNew(a: Address) returns (ghost more: seq<Object>)
      requires a !in seen
      modifies this
      ensures inputs == old(inputs) + more && Unseen(store, seen) <= Unseen(store, old(seen))
      ensures more == One(store, a, old(seen)).list && seen == One(store, a, old(seen)).seen
      decreases Unseen(store, seen), 0
    {
      hide Gather, ImportsOf, Unseen;
      UnseenFewer(store, seen, a);
      more := [];
      seen := seen + {a};
      if a in store {
        ghost var before, marked := inputs, seen;
        Visit(ImportsOf(store[a]));
        UnseenAfter(store, ImportsOf(store[a]), marked);
        more := Gather(store, ImportsOf(store[a]), marked).list + [store[a]];
        inputs := inputs + [store[a]];
        assert inputs == before + more;
      }
    }
  }

  /** How many live objects have not been seen. */
  function Unseen(s: Store, seen: set<Address>): (n: nat) {
    |s.Keys - seen|
  }

  lemma UnseenFewer(s: Store, seen: set<Address>, a: Address)
    requires a !in seen
    ensures Unseen(s, seen + {a}) <= Unseen(s, seen)
    ensures a in s ==> Unseen(s, seen + {a}) < Unseen(s, seen)
  {
    Fewer(s, seen, seen + {a});
    if a in s { FewerBy(s, seen, a); }
  }

  lemma UnseenAfter(s: Store, imports: seq<Address>, seen: set<Address>)
    ensures Unseen(s, Gather(s, imports, seen).seen) <= Unseen(s, seen)
  {
    hide Gather;
    Fewer(s, seen, Gather(s, imports, seen).seen);
  }

  /** What one new import adds to the walk. */
  function One(s: Store, a: Address, seen: set<Address>): (w: Walk) {
    if a !in s then Walk([], seen + {a})
    else
      var inner := Gather(s, ImportsOf(s[a]), seen + {a});
      Walk(inner.list + [s[a]], inner.seen)
  }

  /** The walk is what has been listed and the walk over the imports that are left. */
  ghost predicate Ahead(s: Store, imports: seq<Address>, i: nat, done: seq<Object>, seen: set<Address>, all: Walk)
    requires i <= |imports|
  {
    var rest := Gather(s, imports[i..], seen);
    all == Walk(done + rest.list, rest.seen)
  }

  lemma AheadStart(s: Store, imports: seq<Address>, seen: set<Address>)
    ensures Ahead(s, imports, 0, [], seen, Gather(s, imports, seen))
  {
    hide Gather;
    assert imports[0..] == imports && [] + Gather(s, imports, seen).list == Gather(s, imports, seen).list;
  }

  lemma AheadNext(s: Store, imports: seq<Address>, i: nat, done: seq<Object>, seen: set<Address>, all: Walk)
    requires i < |imports| && Ahead(s, imports, i, done, seen, all)
    ensures imports[i] in seen ==> Ahead(s, imports, i + 1, done, seen, all)
    ensures imports[i] !in seen ==>
              var w := One(s, imports[i], seen);
              Ahead(s, imports, i + 1, done + w.list, w.seen, all)
  {
    hide Gather, ImportsOf;
    var a := imports[i];
    GatherStep(s, imports, i, seen);
    if a !in seen {
      var w := One(s, a, seen);
      var more := Gather(s, imports[i + 1..], w.seen);
      if a in s {
        assert done + (w.list + more.list) == (done + w.list) + more.list;
      } else {
        assert done + [] == done;
      }
    }
  }

  lemma AheadEnd(s: Store, imports: seq<Address>, done: seq<Object>, seen: set<Address>, all: Walk)
    requires Ahead(s, imports, |imports|, done, seen, all)
    ensures all == Walk(done, seen)
  {
    assert imports[|imports|..] == [];
    GatherEnd(s, seen);
  }

  /** The inputs are pushed onto one list as they are found. */
  method CollectInputsSync(t: Tx, s: Store) returns (r: seq<Object>)
    ensures r == CollectInputs(t, s)
  {
    hide Gather;
    var c := new Collector(s, {});
    if t.gasCoin.addr in s {
      c.inputs := [s[t.gasCoin.addr]];
    }
    match t.kind
    case MeowCall(mod, _, args) =>
      if mod in s {
        c.seen := {mod};
        c.Visit(ImportsOf(s[mod]));
        c.inputs := c.inputs + [s[mod]];
      }
      r := c.inputs;
      for i := 0 to |args|
        invariant r == c.inputs + ArgObjects(args[..i], s)
      {
        assert args[..i + 1][..i] == args[..i];
        if args[i].ObjectArg? && args[i].ref.addr in s {
          r := r + [s[args[i].ref.addr]];
        }
      }
      assert args[..|args|] == args;
    case ModulePublish(code) =>
      c.Visit(code.imports);
      r := c.inputs;
  }

  // -------------------------------------------------------- exactly what is reached

  lemma ImportsIndexed(s: Store, a: Address, b: Address)
    ensures Imports(IndexOf(s), a, b) <==> a in s && b in ImportsOf(s[a])
  {
  }

  /** Reached from some roots, or from an import of one of them. */
  lemma ReachedFrom(index: Index, roots: seq<Address>, more: seq<Address>, a: Address)
    requires Reached(index, more, a) && forall b :: b in more ==> Reached(index, roots, b)
    ensures Reached(index, roots, a)
  {
    var path :| Chain(index, more, path) && path[|path| - 1] == a;
    ReachedAlong(index, roots, more, path);
  }

  lemma {:induction false} ReachedAlong(index: Index, roots: seq<Address>, more: seq<Address>, path: seq<Address>)
    requires Chain(index, more, path) && forall b :: b in more ==> Reached(index, roots, b)
    ensures Reached(index, roots, path[|path| - 1])
  {
    hide Reached;
    if |path| > 1 {
      var init := path[..|path| - 1];
      forall i: nat | i < |init| - 1 ensures Hop(index, init, i) { assert Hop(index, path, i); }
      ReachedAlong(index, roots, more, init);
      assert Hop(index, path, |path| - 2);
      ReachedNext(index, roots, path[|path| - 2], path[|path| - 1]);
    }
  }

  /** The walk sees every import it is given. */
  lemma {:induction false} GatherCovers(s: Store, imports: seq<Address>, seen: set<Address>, b: Address)
    requires b in imports
    ensures b in Gather(s, imports, seen).seen
    decreases |s.Keys - seen|, |imports|
  {
    hide Gather, ImportsOf;
    var x, rest := imports[0], imports[1..];
    assert imports == [x] + rest && imports[0..] == imports && imports[1..] == rest;
    GatherStep(s, imports, 0, seen);
    if b in rest && x !in seen {
      var next := if x in s then Gather(s, ImportsOf(s[x]), seen + {x}).seen else seen + {x};
      Fewer(s, seen, next);
      GatherCovers(s, rest, next, b);
    } else if b in rest {
      GatherCovers(s, rest, seen, b);
    }
  }

  /** An import of `o` has been seen, if the walk lists `o`. */
  ghost predicate Closes(w: Walk, o: Object, b: Address) {
    o in w.list && b in ImportsOf(o) ==> b in w.seen
  }

  lemma ClosesJoined(inner: Walk, x: Object, more: Walk, o: Object, b: Address)
    requires Closes(inner, o, b) && Closes(more, o, b) && inner.seen <= more.seen
    requires b in ImportsOf(x) ==> b in inner.seen
    ensures Closes(Walk(inner.list + [x] + more.list, more.seen), o, b)
  {
  }

  /** The walk closes over imports. */
  lemma {:induction false} GatherCloses(s: Store, imports: seq<Address>, seen: set<Address>, o: Object, b: Address)
    ensures Closes(Gather(s, imports, seen), o, b)
    decreases |s.Keys - seen|, |imports|
  {
    if imports == [] {
      GatherEnd(s, seen);
    } else {
      var x, rest := imports[0], imports[1..];
      assert imports[0..] == imports && imports[1..] == rest;
      GatherStep(s, imports, 0, seen);
      if x in seen {
        GatherCloses(s, rest, seen, o, b);
      } else if x !in s {
        Fewer(s, seen, seen + {x});
        GatherCloses(s, rest, seen + {x}, o, b);
      } else {
        FewerBy(s, seen, x);
        var inner := Gather(s, ImportsOf(s[x]), seen + {x});
        Fewer(s, seen, inner.seen);
        GatherCloses(s, ImportsOf(s[x]), seen + {x}, o, b);
        GatherCloses(s, rest, inner.seen, o, b);
        if b in ImportsOf(s[x]) { GatherCovers(s, ImportsOf(s[x]), seen + {x}, b); }
        ClosesJoined(inner, s[x], Gather(s, rest, inner.seen), o, b);
      }
    }
  }

  /** Everything new that the walk sees is reached from the imports. */
  lemma {:induction false} GatherReaches(s: Store, imports: seq<Address>, seen: set<Address>, a: Address)
    requires a in Gather(s, imports, seen).seen && a !in seen
    ensures Reached(IndexOf(s), imports, a)
    decreases |s.Keys - seen|, |imports|
  {
    hide Gather, Reached, IndexOf, ImportsOf;
    if imports == [] {
      GatherEnd(s, seen);
    } else {
      var x, rest, index := imports[0], imports[1..], IndexOf(s);
      assert imports == [x] + rest && imports[0..] == imports && imports[1..] == rest;
      GatherStep(s, imports, 0, seen);
      ReachedRoot(index, imports, x);
      forall b | b in rest ensures Reached(index, imports, b) { ReachedRoot(index, imports, b); }
      if x in seen {
        GatherReaches(s, rest, seen, a);
        ReachedFrom(index, imports, rest, a);
      } else if a != x {
        if x !in s {
          Fewer(s, seen, seen + {x});
          GatherReaches(s, rest, seen + {x}, a);
          ReachedFrom(index, imports, rest, a);
        } else {
          FewerBy(s, seen, x);
          var inner := Gather(s, ImportsOf(s[x]), seen + {x});
          Fewer(s, seen, inner.seen);
          if a in inner.seen {
            GatherReaches(s, ImportsOf(s[x]), seen + {x}, a);
            forall b | b in ImportsOf(s[x]) ensures Reached(index, imports, b) {
              ImportsIndexed(s, x, b);
              ReachedNext(index, imports, x, b);
            }
            ReachedFrom(index, imports, ImportsOf(s[x]), a);
          } else {
            GatherReaches(s, rest, inner.seen, a);
            ReachedFrom(index, imports, rest, a);
          }
        }
      }
    }
  }

  /** The walk lists the live objects among what it newly sees, and nothing else. */
  lemma {:induction false} GatherLists(s: Store, imports: seq<Address>, seen: set<Address>, a: Address, o: Object)
    requires Keyed(s)
    ensures var w := Gather(s, imports, seen);
            && (a in w.seen && a !in seen && a in s ==> s[a] in w.list)
            && (o in w.list ==> o.addr in w.seen && o.addr !in seen && o.addr in s && s[o.addr] == o)
    decreases |s.Keys - seen|, |imports|
  {
    if imports == [] {
      GatherEnd(s, seen);
    } else {
      var x, rest := imports[0], imports[1..];
      assert imports[0..] == imports && imports[1..] == rest;
      GatherStep(s, imports, 0, seen);
      if x in seen {
        GatherLists(s, rest, seen, a, o);
      } else if x !in s {
        Fewer(s, seen, seen + {x});
        GatherLists(s, rest, seen + {x}, a, o);
      } else {
        FewerBy(s, seen, x);
        var inner := Gather(s, ImportsOf(s[x]), seen + {x});
        Fewer(s, seen, inner.seen);
        GatherLists(s, ImportsOf(s[x]), seen + {x}, a, o);
        GatherLists(s, rest, inner.seen, a, o);
      }
    }
  }

  /** The modules collected for a call are exactly the live objects that imports reach from the
      module called. */
  lemma CollectsReached(s: Store, mod: Address, a: Address)
    requires Keyed(s) && mod in s
    ensures (a in s && Reached(IndexOf(s), [mod], a)) <==>
            exists o :: o in Gather(s, ImportsOf(s[mod]), {mod}).list + [s[mod]] && o.addr == a
  {
    hide Gather, IndexOf, Reached;
    var w, index := Gather(s, ImportsOf(s[mod]), {mod}), IndexOf(s);
    ReachedRoot(index, [mod], mod);
    forall b | b in ImportsOf(s[mod]) ensures Reached(index, [mod], b) {
      ImportsIndexed(s, mod, b);
      ReachedNext(index, [mod], mod, b);
    }
    if a in s && Reached(index, [mod], a) {
      forall x, y | x in w.seen && Imports(index, x, y) ensures y in w.seen {
        ImportsIndexed(s, x, y);
        if x == mod {
          GatherCovers(s, ImportsOf(s[mod]), {mod}, y);
        } else {
          GatherLists(s, ImportsOf(s[mod]), {mod}, x, s[x]);
          GatherCloses(s, ImportsOf(s[mod]), {mod}, s[x], y);
        }
      }
      ReachedKnown(index, [mod], w.seen, a);
      GatherLists(s, ImportsOf(s[mod]), {mod}, a, s[a]);
      assert s[a] in w.list + [s[mod]];
    }
    forall o | o in w.list + [s[mod]]
      ensures o.addr in s && Reached(index, [mod], o.addr)
    {
      if o in w.list {
        GatherLists(s, ImportsOf(s[mod]), {mod}, mod, o);
        GatherReaches(s, ImportsOf(s[mod]), {mod}, o.addr);
        ReachedFrom(index, [mod], ImportsOf(s[mod]), o.addr);
      }
    }
  }

  /** So for a publication, from the imports of the module published. */
  lemma GathersReached(s: Store, imports: seq<Address>, a: Address)
    requires Keyed(s)
    ensures (a in s && Reached(IndexOf(s), imports, a)) <==> exists o :: o in Gather(s, imports, {}).list && o.addr == a
  {
    hide Gather, IndexOf, Reached;
    var w, index := Gather(s, imports, {}), IndexOf(s);
    if a in s && Reached(index, imports, a) {
      forall b | b in imports ensures b in w.seen {
        GatherCovers(s, imports, {}, b);
      }
      forall x, y | x in w.seen && Imports(index, x, y) ensures y in w.seen {
        ImportsIndexed(s, x, y);
        GatherLists(s, imports, {}, x, s[x]);
        GatherCloses(s, imports, {}, s[x], y);
      }
      ReachedKnown(index, imports, w.seen, a);
      GatherLists(s, imports, {}, a, s[a]);
    }
    forall o | o in w.list ensures o.addr in s && Reached(index, imports, o.addr) {
      GatherLists(s, imports, {}, o.addr, o);
      GatherReaches(s, imports, {}, o.addr);
    }
  }

  /** What a transaction needs: its gas coin, what it refers to, and every module that imports reach from
      the one it calls, or from the imports of the one it publishes. */
  ghost predicate Needs(t: Tx, s: Store, a: Address) {
    || a == t.gasCoin.addr
    || (t.kind.MeowCall? &&
        ((t.kind.mod in s && Reached(IndexOf(s), [t.kind.mod], a))
         || exists i | 0 <= i < |t.kind.args| :: t.kind.args[i].ObjectArg? && t.kind.args[i].ref.addr == a))
    || (t.kind.ModulePublish? && Reached(IndexOf(s), t.kind.code.imports, a))
  }

  lemma {:induction false} ArgObjectsAre(args: seq<Input>, s: Store, o: Object)
    requires Keyed(s)
    ensures o in ArgObjects(args, s) <==>
            o.addr in s && s[o.addr] == o && exists i | 0 <= i < |args| :: args[i].ObjectArg? && args[i].ref.addr == o.addr
  {
    if args != [] {
      var k := |args| - 1;
      var init := args[..k];
      ArgObjectsAre(init, s, o);
      if i :| 0 <= i < |args| && args[i].ObjectArg? && args[i].ref.addr == o.addr {
        if i < k { assert init[i] == args[i]; }
      }
      if i :| 0 <= i < |init| && init[i].ObjectArg? && init[i].ref.addr == o.addr {
        assert args[i] == init[i];
      }
    }
  }

  lemma GatherLive(s: Store, imports: seq<Address>, seen: set<Address>, o: Object)
    requires Keyed(s) && o in Gather(s, imports, seen).list
    ensures o.addr in s && s[o.addr] == o
  {
    hide Gather;
    GatherLists(s, imports, seen, o.addr, o);
  }

  /** The inputs of a transaction are exactly the live objects it needs. */
  lemma InputsExactly(t: Tx, s: Store, o: Object)
    requires Keyed(s)
    ensures o in CollectInputs(t, s) <==> o.addr in s && s[o.addr] == o && Needs(t, s, o.addr)
  {
    hide Gather, IndexOf, Reached, ArgObjects;
    match t.kind
    case MeowCall(mod, _, args) =>
      ArgObjectsAre(args, s, o);
      if mod in s {
        var w := Gather(s, ImportsOf(s[mod]), {mod}).list + [s[mod]];
        CollectsReached(s, mod, o.addr);
        forall x | x in w ensures x.addr in s && s[x.addr] == x {
          if x in Gather(s, ImportsOf(s[mod]), {mod}).list { GatherLive(s, ImportsOf(s[mod]), {mod}, x); }
        }
      }
    case ModulePublish(code) =>
      GathersReached(s, code.imports, o.addr);
      forall x | x in Gather(s, code.imports, {}).list ensures x.addr in s && s[x.addr] == x {
        GatherLive(s, code.imports, {}, x);
      }
  }

  lemma ReachedKnown(index: Index, roots: seq<Address>, known: set<Address>, a: Address)
    requires Reached(index, roots, a) && (forall b :: b in roots ==> b in known)
    requires forall x, y :: x in known && Imports(index, x, y) ==> y in known
    ensures a in known
  {
    var path :| Chain(index, roots, path) && path[|path| - 1] == a;
    ReachedStays(index, roots, known, path);
  }

  // ------------------------------------------------------------------------- order

  /** Imports go down a rank, so there is no cycle. */
  ghost predicate Ranked(s: Store, rank: Address -> nat) {
    forall a, b :: a in s && b in ImportsOf(s[a]) && b in s ==> rank(b) < rank(a)
  }

  /** Live imports of a module at place `i` come before it, or were listed before. */
  ghost predicate AfterImports(s: Store, list: seq<Object>, before: set<Address>, i: nat)
    requires i < |list|
  {
    forall b :: b in ImportsOf(list[i]) && b in s ==> b in before || exists j :: 0 <= j < i && list[j].addr == b
  }

  ghost predicate InOrder(s: Store, list: seq<Object>, before: set<Address>) {
    forall i {:trigger AfterImports(s, list, before, i)} :: 0 <= i < |list| ==> AfterImports(s, list, before, i)
  }

  ghost function Listed(list: seq<Object>): (r: set<Address>) {
    set i | 0 <= i < |list| :: list[i].addr
  }

  lemma ListedConcat(a: seq<Object>, b: seq<Object>)
    ensures Listed(a + b) == Listed(a) + Listed(b)
  {
    forall x
      ensures x in Listed(a + b) <==> x in Listed(a) + Listed(b)
    {
      if x in Listed(a) { var i :| 0 <= i < |a| && a[i].addr == x; assert (a + b)[i].addr == x; }
      if x in Listed(b) { var i :| 0 <= i < |b| && b[i].addr == x; assert (a + b)[|a| + i].addr == x; }
    }
  }

  lemma InOrderConcat(s: Store, a: seq<Object>, b: seq<Object>, before: set<Address>)
    requires InOrder(s, a, before) && InOrder(s, b, before + Listed(a))
    ensures InOrder(s, a + b, before)
  {
    forall i: nat | i < |a + b|
      ensures AfterImports(s, a + b, before, i)
    {
      if i < |a| {
        assert AfterImports(s, a, before, i);
        forall x | x in ImportsOf((a + b)[i]) && x in s && x !in before
          ensures exists j :: 0 <= j < i && (a + b)[j].addr == x
        {
          var j :| 0 <= j < i && a[j].addr == x;
          assert (a + b)[j].addr == x;
        }
      } else {
        assert AfterImports(s, b, before + Listed(a), i - |a|);
        forall x | x in ImportsOf((a + b)[i]) && x in s && x !in before
          ensures exists j :: 0 <= j < i && (a + b)[j].addr == x
        {
          if x in Listed(a) {
            var j :| 0 <= j < |a| && a[j].addr == x;
            assert (a + b)[j].addr == x;
          } else {
            var j :| 0 <= j < i - |a| && b[j].addr == x;
            assert (a + b)[|a| + j].addr == x;
          }
        }
      }
    }
  }

  /** The live ones among `imports` are known. */
  ghost predicate Covered(s: Store, imports: seq<Address>, known: set<Address>) {
    forall b :: b in imports && b in s ==> b in known
  }

  /** What has been seen is listed, or waits for its imports at rank `top` or above. */
  ghost predicate Waits(s: Store, rank: Address -> nat, seen: set<Address>, known: set<Address>, top: nat) {
    forall x :: x in seen && x in s ==> x in known || rank(x) >= top
  }

  ghost predicate Below(s: Store, rank: Address -> nat, imports: seq<Address>, top: nat) {
    forall b :: b in imports && b in s ==> rank(b) < top
  }

  /** What a walk from rank `top` leaves behind. */
  ghost predicate Settled(
    s: Store, rank: Address -> nat, imports: seq<Address>, w: Walk, before: set<Address>, top: nat)
  {
    && InOrder(s, w.list, before)
    && Covered(s, imports, before + Listed(w.list))
    && Waits(s, rank, w.seen, before + Listed(w.list), top)
  }

  /** Going into the imports of `x`, which is itself seen but still waiting. */
  lemma Descend(s: Store, rank: Address -> nat, x: Address, seen: set<Address>, before: set<Address>, top: nat)
    requires Ranked(s, rank) && x in s && rank(x) < top && Waits(s, rank, seen, before, top)
    ensures Below(s, rank, ImportsOf(s[x]), rank(x)) && Waits(s, rank, seen + {x}, before, rank(x))
  {
  }

  /** Coming back: the walk over the imports, then `x`. */
  lemma Ascend(
    s: Store, rank: Address -> nat, x: Address, seen: set<Address>, inner: Walk, before: set<Address>, top: nat)
    requires Keyed(s) && x in s && Waits(s, rank, seen, before, top)
    requires Settled(s, rank, ImportsOf(s[x]), inner, before, rank(x))
    requires forall y :: y in inner.seen && y in s ==> y in seen + {x} || y in Listed(inner.list)
    ensures InOrder(s, inner.list + [s[x]], before)
    ensures x in Listed(inner.list + [s[x]])
    ensures Waits(s, rank, inner.seen, before + Listed(inner.list + [s[x]]), top)
  {
    hide InOrder, Listed;
    OneInOrder(s, s[x], before + Listed(inner.list));
    InOrderConcat(s, inner.list, [s[x]], before);
    ListedConcat(inner.list, [s[x]]);
    ListedOne(s[x]);
  }

  lemma SettledJoined(
    s: Store, rank: Address -> nat, x: Address, rest: seq<Address>, first: seq<Object>, more: Walk,
    before: set<Address>, top: nat)
    requires InOrder(s, first, before) && x in Listed(first)
    requires Settled(s, rank, rest, more, before + Listed(first), top)
    ensures Settled(s, rank, [x] + rest, Walk(first + more.list, more.seen), before, top)
  {
    hide InOrder, Listed;
    InOrderConcat(s, first, more.list, before);
    ListedConcat(first, more.list);
  }

  /** What is newly seen and live is listed. */
  lemma SeenListed(s: Store, imports: seq<Address>, seen: set<Address>)
    requires Keyed(s)
    ensures var w := Gather(s, imports, seen);
            forall y :: y in w.seen && y in s ==> y in seen || y in Listed(w.list)
  {
    hide Gather;
    var w := Gather(s, imports, seen);
    forall y | y in w.seen && y in s && y !in seen ensures y in Listed(w.list) {
      GatherLists(s, imports, seen, y, s[y]);
      var i :| 0 <= i < |w.list| && w.list[i] == s[y];
    }
  }

  /** On acyclic imports the walk lists dependencies first. `before` is what is listed already. */
  lemma {:induction false} GatherOrders(
    s: Store, rank: Address -> nat, imports: seq<Address>, seen: set<Address>, before: set<Address>, top: nat)
    requires Keyed(s) && Ranked(s, rank) && Below(s, rank, imports, top) && Waits(s, rank, seen, before, top)
    ensures Settled(s, rank, imports, Gather(s, imports, seen), before, top)
    decreases |s.Keys - seen|, |imports|
  {
    hide Gather, ImportsOf, InOrder, Listed, Ranked, Below, Waits, Settled, Keyed;
    if imports == [] {
      GatherEnd(s, seen);
      SettledNone(s, rank, seen, before, top);
    } else {
      var x, rest := imports[0], imports[1..];
      assert imports == [x] + rest && imports[0..] == imports && imports[1..] == rest;
      BelowSplit(s, rank, x, rest, top);
      if x in s && x !in seen {
        OrdersNext(s, rank, x, rest, seen, before, top);
      } else {
        GatherStep(s, imports, 0, seen);
        Fewer(s, seen, seen + {x});
        assert x in seen ==> seen + {x} == seen;
        WaitsMore(s, rank, x, seen, before, top);
        GatherOrders(s, rank, rest, seen + {x}, before, top);
        SettledKnown(s, rank, x, rest, Gather(s, rest, seen + {x}), before, top);
      }
    }
  }

  lemma SettledNone(s: Store, rank: Address -> nat, seen: set<Address>, before: set<Address>, top: nat)
    requires Waits(s, rank, seen, before, top)
    ensures Settled(s, rank, [], Walk([], seen), before, top)
  {
    assert before + Listed([]) == before;
  }

  lemma BelowSplit(s: Store, rank: Address -> nat, x: Address, rest: seq<Address>, top: nat)
    requires Below(s, rank, [x] + rest, top)
    ensures Below(s, rank, rest, top) && (x in s ==> rank(x) < top)
  {
    assert x in [x] + rest;
  }

  lemma WaitsMore(s: Store, rank: Address -> nat, x: Address, seen: set<Address>, before: set<Address>, top: nat)
    requires Waits(s, rank, seen, before, top) && (x !in s || x in seen)
    ensures Waits(s, rank, seen + {x}, before, top)
  {
  }

  /** An import that is missing, or seen and below `top`, needs no place of its own. */
  lemma SettledKnown(
    s: Store, rank: Address -> nat, x: Address, rest: seq<Address>, w: Walk, before: set<Address>, top: nat)
    requires Settled(s, rank, rest, w, before, top) && x in w.seen && (x in s ==> rank(x) < top)
    ensures Settled(s, rank, [x] + rest, w, before, top)
  {
    hide InOrder, Listed;
  }

  lemma {:induction false} OrdersNext(
    s: Store, rank: Address -> nat, x: Address, rest: seq<Address>, seen: set<Address>, before: set<Address>,
    top: nat)
    requires Keyed(s) && Ranked(s, rank) && Below(s, rank, rest, top) && Waits(s, rank, seen, before, top)
    requires x in s && x !in seen && rank(x) < top
    ensures Settled(s, rank, [x] + rest, Gather(s, [x] + rest, seen), before, top)
    decreases |s.Keys - seen|, |rest| + 1, 0
  {
    hide Gather, ImportsOf, InOrder, Listed, Ranked, Below, Waits, Settled, Keyed;
    var all := [x] + rest;
    assert all[0..] == all && all[1..] == rest;
    GatherStep(s, all, 0, seen);
    FewerBy(s, seen, x);
    var inner := Gather(s, ImportsOf(s[x]), seen + {x});
    Fewer(s, seen, inner.seen);
    Descend(s, rank, x, seen, before, top);
    GatherOrders(s, rank, ImportsOf(s[x]), seen + {x}, before, rank(x));
    SeenListed(s, ImportsOf(s[x]), seen + {x});
    Ascend(s, rank, x, seen, inner, before, top);
    var first := inner.list + [s[x]];
    GatherOrders(s, rank, rest, inner.seen, before + Listed(first), top);
    SettledJoined(s, rank, x, rest, first, Gather(s, rest, inner.seen), before, top);
  }

  lemma OneInOrder(s: Store, o: Object, before: set<Address>)
    requires forall b :: b in ImportsOf(o) && b in s ==> b in before
    ensures InOrder(s, [o], before)
  {
    assert AfterImports(s, [o], before, 0);
  }

  lemma ListedOne(o: Object)
    ensures Listed([o]) == {o.addr}
  {
    assert [o][0].addr in Listed([o]);
  }

  /** Who imports whom among the live objects. */
  function StoreGraph(s: Store): (g: Graph<Address>) {
    map a | a in s :: ImportsOf(s[a])
  }

  predicate Leads(g: Graph<Address>, a: Address, among: set<Address>) {
    exists b :: b in among && Edge(g, a, b)
  }

  /** Without cycles, following edges inside a set of nodes ends at one that leads to none of them. */
  lemma {:induction false} SinkAhead(g: Graph<Address>, among: set<Address>, path: seq<Address>) returns (sink: Address)
    requires !Cyclic(g) && IsPath(g, path) && forall a :: a in path ==> a in among
    ensures sink in among && !Leads(g, sink, among)
    decreases among - set a | a in path
  {
    sink := path[|path| - 1];
    if Leads(g, sink, among) {
      var b :| b in among && Edge(g, sink, b);
      if b in path { BackEdge(g, path, b); }
      StackGrows(g, path[..|path| - 1], sink, b);
      assert path[..|path| - 1] + [sink] == path;
      assert forall a :: a in path + [b] <==> a in path || a == b;
      assert b in among - set a | a in path;
      sink := SinkAhead(g, among, path + [b]);
    }
  }

  /** A ranking of the nodes in which every edge goes down. */
  ghost predicate Downwards(g: Graph<Address>, among: set<Address>, rank: Address -> nat) {
    && (forall a :: a in among ==> rank(a) < |among|)
    && (forall a, b :: a in among && b in among && Edge(g, a, b) ==> rank(b) < rank(a))
  }

  lemma {:induction false} AcyclicDescends(g: Graph<Address>, among: set<Address>) returns (rank: Address -> nat)
    requires !Cyclic(g)
    ensures Downwards(g, among, rank)
    decreases |among|
  {
    rank := _ => 0;
    if among != {} {
      var start :| start in among;
      var sink := SinkAhead(g, among, [start]);
      var rest := AcyclicDescends(g, among - {sink});
      rank := a => if a == sink then 0 else rest(a) + 1;
    }
  }

  lemma Acyclic(s: Store) returns (rank: Address -> nat)
    requires !Cyclic(StoreGraph(s))
    ensures Ranked(s, rank) && forall a :: a in s ==> rank(a) < |s.Keys|
  {
    rank := AcyclicDescends(StoreGraph(s), s.Keys);
    forall a, b | a in s && b in ImportsOf(s[a]) && b in s
      ensures rank(b) < rank(a)
    {
      assert Edge(StoreGraph(s), a, b);
    }
  }

  /** Without import cycles, dependencies come before the modules that import them. */
  lemma DependenciesFirst(s: Store, imports: seq<Address>)
    requires Keyed(s) && !Cyclic(StoreGraph(s))
    ensures InOrder(s, Gather(s, imports, {}).list, {})
  {
    hide Gather, InOrder, Cyclic;
    var rank := Acyclic(s);
    GatherOrders(s, rank, imports, {}, {}, |s.Keys|);
  }

  /** So they do for a call, with the module called last. */
  lemma CalledLast(s: Store, mod: Address)
    requires Keyed(s) && !Cyclic(StoreGraph(s)) && mod in s
    ensures InOrder(s, Gather(s, ImportsOf(s[mod]), {mod}).list + [s[mod]], {})
  {
    hide Gather, InOrder, Listed, Cyclic;
    var rank := Acyclic(s);
    Descend(s, rank, mod, {}, {}, rank(mod) + 1);
    assert {} + {mod} == {mod};
    GatherOrders(s, rank, ImportsOf(s[mod]), {mod}, {}, rank(mod));
    SeenListed(s, ImportsOf(s[mod]), {mod});
    Ascend(s, rank, mod, {}, Gather(s, ImportsOf(s[mod]), {mod}), {}, rank(mod) + 1);
  }

  /** No module is collected twice. */
  lemma {:induction false} GatherOnce(s: Store, imports: seq<Address>, seen: set<Address>)
    requires Keyed(s)
    ensures NoDuplicates(Gather(s, imports, seen).list)
    decreases |s.Keys - seen|, |imports|
  {
    if imports == [] {
      GatherEnd(s, seen);
    } else {
      var x, rest := imports[0], imports[1..];
      assert imports[0..] == imports && imports[1..] == rest;
      GatherStep(s, imports, 0, seen);
      if x in seen {
        GatherOnce(s, rest, seen);
      } else if x !in s {
        Fewer(s, seen, seen + {x});
        GatherOnce(s, rest, seen + {x});
      } else {
        FewerBy(s, seen, x);
        var inner := Gather(s, ImportsOf(s[x]), seen + {x});
        Fewer(s, seen, inner.seen);
        GatherOnce(s, ImportsOf(s[x]), seen + {x});
        GatherOnce(s, rest, inner.seen);
        var more := Gather(s, rest, inner.seen);
        forall o | o in inner.list ensures o != s[x] && o !in more.list {
          GatherLists(s, ImportsOf(s[x]), seen + {x}, x, o);
          GatherLists(s, rest, inner.seen, x, o);
        }
        GatherLists(s, rest, inner.seen, x, s[x]);
        OnceJoined(inner.list, s[x], more.list);
      }
    }
  }

  lemma OnceJoined(a: seq<Object>, x: Object, b: seq<Object>)
    requires NoDuplicates(a) && NoDuplicates(b) && x !in b
    requires forall o :: o in a ==> o != x && o !in b
    ensures NoDuplicates(a + [x] + b)
  {
    forall i, j | 0 <= i < j < |a + [x] + b| ensures (a + [x] + b)[i] != (a + [x] + b)[j] {
      if i < |a| { assert a[i] in a; }
      if j > |a| { assert b[j - |a| - 1] in b; }
    }
  }

  // ------------------------------------------------------------- fetching beforehand

  ghost predicate Agrees(cache: Store, s: Store) {
    forall a :: a in cache ==> a in s && cache[a] == s[a]
  }

  /** The cache holds every live object that imports reach. */
  ghost predicate Holds(cache: Store, s: Store, roots: seq<Address>) {
    forall a :: Reached(IndexOf(s), roots, a) && a in s ==> a in cache
  }

  /** Whatever was seen is fetched, and what it imports was seen or is queued. */
  ghost predicate Fetching(cache: Store, s: Store, roots: seq<Address>, queue: seq<Address>, seen: set<Address>) {
    && Agrees(cache, s)
    && (forall a :: a in seen && a in s ==> a in cache)
    && (forall a :: a in roots ==> a in seen || a in queue)
    && (forall a, b :: a in seen && Imports(IndexOf(s), a, b) ==> b in seen || b in queue)
  }

  lemma FetchKeeps(cache: Store, s: Store, roots: seq<Address>, queue: seq<Address>, seen: set<Address>, x: Address)
    requires Fetching(cache, s, roots, queue + [x], seen)
    ensures x in seen ==> Fetching(cache, s, roots, queue, seen)
    ensures x in s ==> Fetching(cache[x := s[x]], s, roots, queue + ImportsOf(s[x]), seen + {x})
    ensures x !in s ==> Fetching(cache, s, roots, queue, seen + {x})
  {
  }

  lemma FetchEnds(cache: Store, s: Store, roots: seq<Address>, seen: set<Address>)
    requires Fetching(cache, s, roots, [], seen)
    ensures Holds(cache, s, roots)
  {
    hide IndexOf, Reached;
    forall a | Reached(IndexOf(s), roots, a) && a in s ensures a in cache {
      ReachedKnown(IndexOf(s), roots, seen, a);
    }
  }

  /** Fetch the modules that imports reach from some seeds. */
  method FetchModules(s: Store, seeds: seq<Address>, cache: Store) returns (r: Store)
    requires Agrees(cache, s)
    ensures Agrees(r, s) && cache.Keys <= r.Keys && Holds(r, s, seeds)
  {
    r := cache;
    var queue, seen := seeds, {};
    assert Fetching(r, s, seeds, queue, seen);
    while queue != []
      invariant Agrees(r, s) && cache.Keys <= r.Keys
      invariant Fetching(r, s, seeds, queue, seen)
      decreases |s.Keys - seen|, |queue|
    {
      var x := queue[|queue| - 1];
      assert queue == queue[..|queue| - 1] + [x];
      queue := queue[..|queue| - 1];
      FetchKeeps(r, s, seeds, queue, seen, x);
      if x in seen { continue; }
      Fewer(s, seen, seen + {x});
      if x in s {
        FewerBy(s, seen, x);
        queue := queue + ImportsOf(s[x]);
        r := r[x := s[x]];
      }
      seen := seen + {x};
    }
    FetchEnds(r, s, seeds, seen);
  }

  lemma HoldsBelow(cache: Store, s: Store, roots: seq<Address>, more: seq<Address>)
    requires Holds(cache, s, roots) && forall b :: b in more ==> Reached(IndexOf(s), roots, b)
    ensures Holds(cache, s, more)
  {
    hide IndexOf, Reached;
    forall a | Reached(IndexOf(s), more, a) && a in s ensures a in cache {
      ReachedFrom(IndexOf(s), roots, more, a);
    }
  }

  lemma HoldsImports(cache: Store, s: Store, roots: seq<Address>, x: Address)
    requires Holds(cache, s, roots) && x in roots && x in s
    ensures x in cache && Holds(cache, s, ImportsOf(s[x]))
  {
    hide IndexOf, Reached;
    ReachedRoot(IndexOf(s), roots, x);
    forall b | b in ImportsOf(s[x]) ensures Reached(IndexOf(s), roots, b) {
      ImportsIndexed(s, x, b);
      ReachedNext(IndexOf(s), roots, x, b);
    }
    HoldsBelow(cache, s, roots, ImportsOf(s[x]));
  }

  lemma HoldsRest(cache: Store, s: Store, roots: seq<Address>)
    requires Holds(cache, s, roots) && roots != []
    ensures Holds(cache, s, roots[1..])
  {
    hide IndexOf, Reached;
    forall b | b in roots[1..] ensures Reached(IndexOf(s), roots, b) { ReachedRoot(IndexOf(s), roots, b); }
    HoldsBelow(cache, s, roots, roots[1..]);
  }

  /** The walk over the cache is the walk over the store. */
  lemma {:induction false} GatherCached(cache: Store, s: Store, imports: seq<Address>, seen: set<Address>)
    requires Agrees(cache, s) && Holds(cache, s, imports)
    ensures Gather(cache, imports, seen) == Gather(s, imports, seen)
    decreases |s.Keys - seen|, |imports|
  {
    if imports == [] {
      GatherEnd(cache, seen);
      GatherEnd(s, seen);
    } else {
      var x, rest := imports[0], imports[1..];
      assert imports[0..] == imports && imports[1..] == rest;
      GatherStep(s, imports, 0, seen);
      GatherStep(cache, imports, 0, seen);
      HoldsRest(cache, s, imports);
      if x in seen {
        GatherCached(cache, s, rest, seen);
      } else if x !in s {
        Fewer(s, seen, seen + {x});
        GatherCached(cache, s, rest, seen + {x});
      } else {
        HoldsImports(cache, s, imports, x);
        FewerBy(s, seen, x);
        var inner := Gather(s, ImportsOf(s[x]), seen + {x});
        Fewer(s, seen, inner.seen);
        GatherCached(cache, s, ImportsOf(s[x]), seen + {x});
        GatherCached(cache, s, rest, inner.seen);
      }
    }
  }

  lemma {:induction false} ArgsCached(cache: Store, s: Store, args: seq<Input>)
    requires Agrees(cache, s)
    requires forall i :: 0 <= i < |args| && args[i].ObjectArg? && args[i].ref.addr in s ==> args[i].ref.addr in cache
    ensures ArgObjects(args, cache) == ArgObjects(args, s)
  {
    if args != [] { ArgsCached(cache, s, args[..|args| - 1]); }
  }

  lemma HoldsMore(cache: Store, more: Store, s: Store, roots: seq<Address>)
    requires Holds(cache, s, roots) && cache.Keys <= more.Keys
    ensures Holds(more, s, roots)
  {
    hide Reached, IndexOf;
  }

  /** Fetching on demand into a cache first, and collecting from the cache, gives the inputs that
      collecting from the whole store gives. */
  method CollectInputsAsync(t: Tx, s: Store) returns (r: seq<Object>)
    ensures r == CollectInputs(t, s)
  {
    hide Gather, Holds, ArgObjects;
    var cache: Store := map[];
    if t.gasCoin.addr in s {
      cache := cache[t.gasCoin.addr := s[t.gasCoin.addr]];
    }
    match t.kind
    case MeowCall(mod, _, args) =>
      cache := FetchModules(s, [mod], cache);
      ghost var fetched := cache;
      for i := 0 to |args|
        invariant Agrees(cache, s) && fetched.Keys <= cache.Keys
        invariant forall j :: 0 <= j < i && args[j].ObjectArg? && args[j].ref.addr in s ==> args[j].ref.addr in cache
      {
        if args[i].ObjectArg? && args[i].ref.addr in s {
          cache := cache[args[i].ref.addr := s[args[i].ref.addr]];
        }
      }
      HoldsMore(fetched, cache, s, [mod]);
      ArgsCached(cache, s, args);
      if mod in s {
        HoldsImports(cache, s, [mod], mod);
        GatherCached(cache, s, ImportsOf(s[mod]), {mod});
      }
      r := CollectInputsSync(t, cache);
    case ModulePublish(code) =>
      cache := FetchModules(s, code.imports, cache);
      GatherCached(cache, s, code.imports, {});
      r := CollectInputsSync(t, cache);
  }
}
