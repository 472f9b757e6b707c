/** Catching up from a list of pulled blocks while the chain prunes behind its head. */
module CatchUp {
  import opened MeowTypes
  import opened Ledger
  import opened Chain

  /** The first block of each hash, in order. */
  function Firsts(p: Protocol, bs: seq<Block>, seen: set<Digest>): (r: seq<Block>)
    ensures forall b :: b in r ==> b in bs && p.headerHash(b.header) !in seen
  {
    if bs == [] then []
    else if p.headerHash(bs[0].header) in seen then Firsts(p, bs[1..], seen)
    else [bs[0]] + Firsts(p, bs[1..], seen + {p.headerHash(bs[0].header)})
  }

  /** Offer blocks to the chain one after another. */
  function ApplyAll(p: Protocol, c: ChainValue, bs: seq<Block>, now: nat): (d: ChainValue)
    requires HasHead(c)
    ensures HasHead(d) && d.difficulty == c.difficulty && d.depth == c.depth
  {
    if bs == [] then c
    else ApplyBlock(p, ApplyAll(p, c, bs[..|bs| - 1], now), bs[|bs| - 1], now)
  }

  lemma {:induction false} ApplyAllKeeps(p: Protocol, c: ChainValue, anchor: Digest, bs: seq<Block>, now: nat)
    requires Collisionless(p) && Faithful(p, c, anchor)
    ensures Faithful(p, ApplyAll(p, c, bs, now), anchor)
  {
    hide Collisionless, Faithful, ApplyBlock;
    FaithfulHasHead(p, c, anchor);
    if bs != [] {
      ApplyAllKeeps(p, c, anchor, bs[..|bs| - 1], now);
      ApplyKeeps(p, ApplyAll(p, c, bs[..|bs| - 1], now), anchor, bs[|bs| - 1], now);
    }
  }

  ghost predicate Knows(c: ChainValue, h: Digest, b: Block, s: Store)
  {
    h in c.blocks && h in c.snapshots && c.blocks[h] == b && c.snapshots[h] == s
  }

  /** A block stays known while only blocks at most one above it arrive. */
  lemma StaysKnown(p: Protocol, c: ChainValue, b: Block, now: nat, h: Digest)
    requires HasHead(c) && c.depth >= 1
    requires h in c.blocks
    requires b.header.height <= c.blocks[h].header.height + 1
    ensures Knows(ApplyBlock(p, c, b, now), h, c.blocks[h], c.snapshots[h])
  {
    hide WellFormed, Replay, StructureError;
  }

  lemma {:induction false} AllStayKnown(p: Protocol, c: ChainValue, bs: seq<Block>, now: nat, h: Digest)
    requires HasHead(c) && c.depth >= 1
    requires h in c.blocks
    requires forall i :: 0 <= i < |bs| ==> bs[i].header.height <= c.blocks[h].header.height + 1
    ensures Knows(ApplyAll(p, c, bs, now), h, c.blocks[h], c.snapshots[h])
  {
    hide ApplyBlock;
    if bs != [] {
      AllStayKnown(p, c, bs[..|bs| - 1], now, h);
      StaysKnown(p, ApplyAll(p, c, bs[..|bs| - 1], now), bs[|bs| - 1], now, h);
    }
  }

  lemma {:induction false} ApplyAllSplit(p: Protocol, c: ChainValue, xs: seq<Block>, ys: seq<Block>, now: nat)
    requires HasHead(c)
    ensures ApplyAll(p, c, xs + ys, now) == ApplyAll(p, ApplyAll(p, c, xs, now), ys, now)
  {
    hide ApplyBlock;
    if ys == [] {
      assert xs + ys == xs;
    } else {
      assert (xs + ys)[..|xs + ys| - 1] == xs + ys[..|ys| - 1];
      ApplyAllSplit(p, c, xs, ys[..|ys| - 1], now);
    }
  }

  ghost predicate SortedByHeight(bs: seq<Block>) {
    forall i, j :: 0 <= i < j < |bs| ==> bs[i].header.height <= bs[j].header.height
  }

  /** The block passes every check on a parent with this header and store. */
  ghost predicate ValidOn(
    p: Protocol, b: Block, parent: Header, s: Store, difficulty: nat, now: nat, t: Store)
  {
    && WellFormed(p, b, difficulty)
    && TimeAllows(b, now)
    && b.header.parent == p.headerHash(parent)
    && b.header.height == parent.height + 1
    && b.header.timestamp > parent.timestamp
    && (forall i :: 0 <= i < |b.txs| ==> p.signedOk(b.txs[i]))
    && Replay(p, b, s) == Ok(t)
  }

  /** `path` picks pulled blocks, each valid on the one before it and the first one valid on a
      block the chain knows; `stores` holds the store before and after each of them. */
  ghost predicate Joined(
    p: Protocol, c: ChainValue, bs: seq<Block>, now: nat, path: seq<nat>, stores: seq<Store>)
  {
    && |path| > 0 && |stores| == |path| + 1
    && (forall i :: 0 <= i < |path| ==> path[i] < |bs|)
    && bs[path[0]].header.parent in c.blocks && bs[path[0]].header.parent in c.snapshots
    && stores[0] == c.snapshots[bs[path[0]].header.parent]
    && (forall i {:trigger HopValid(p, c, bs, now, path, stores, i)} :: 0 <= i < |path| ==>
          HopValid(p, c, bs, now, path, stores, i))
  }

  ghost predicate HopValid(
    p: Protocol, c: ChainValue, bs: seq<Block>, now: nat, path: seq<nat>, stores: seq<Store>, i: nat)
    requires i < |path| && |stores| == |path| + 1
    requires forall k :: 0 <= k < |path| ==> path[k] < |bs|
    requires bs[path[0]].header.parent in c.blocks
  {
    ValidOn(p, bs[path[i]],
            if i == 0 then c.blocks[bs[path[0]].header.parent].header else bs[path[i - 1]].header,
            stores[i], c.difficulty, now, stores[i + 1])
  }

  lemma JoinedPrefix(
    p: Protocol, c: ChainValue, bs: seq<Block>, now: nat, path: seq<nat>, stores: seq<Store>)
    requires Joined(p, c, bs, now, path, stores) && |path| > 1
    ensures Joined(p, c, bs, now, path[..|path| - 1], stores[..|path|])
  {
    hide ValidOn;
    var init, before := path[..|path| - 1], stores[..|path|];
    forall i: nat | i < |init|
      ensures HopValid(p, c, bs, now, init, before, i)
    {
      assert HopValid(p, c, bs, now, path, stores, i);
    }
  }

  lemma KnowsAgain(
    p: Protocol, c: ChainValue, anchor: Digest, b: Block, parent: Block, s: Store, now: nat, t: Store)
    requires Collisionless(p) && Faithful(p, c, anchor)
    requires Knows(c, b.header.parent, parent, s)
    requires ValidOn(p, b, parent.header, s, c.difficulty, now, t)
    ensures var d := ApplyBlock(p, c, b, now);
            var h := p.headerHash(b.header);
            && h in d.blocks && h in d.snapshots
            && d.blocks[h].header == b.header && d.snapshots[h] == t
            && b.header.height <= HeadHeight(d)
  {
    hide Collisionless, WellFormed, Replay, Judge;
    var h := p.headerHash(b.header);
    if h in c.blocks {
      HeaderHashInjective(p, c.blocks[h].header, b.header);
      assert LinkedAt(p, c, h);
      ReplayKeyed(p, b, s);
      assert p.stateRoot(c.snapshots[h]) == p.stateRoot(t);
      StateRootInjective(p, c.snapshots[h], t);
      assert Judge(p, c, b, now).Err? by { KnownRefused(p, c, b, now); }
    } else {
      JudgeExact(p, c, b, now, t);
    }
  }

  lemma KnownRefused(p: Protocol, c: ChainValue, b: Block, now: nat)
    requires HasHead(c) && p.headerHash(b.header) in c.blocks
    ensures Judge(p, c, b, now) == Err(AlreadyKnown)
  {
  }

  /** A parent known after `m` blocks is still known when its child's turn comes. */
  lemma ParentWaits(p: Protocol, c: ChainValue, bs: seq<Block>, now: nat, m: nat, n: nat, h: Digest)
    requires HasHead(c) && c.depth >= 1
    requires SortedByHeight(bs) && m <= n < |bs|
    requires h in ApplyAll(p, c, bs[..m], now).blocks
    requires bs[n].header.height == ApplyAll(p, c, bs[..m], now).blocks[h].header.height + 1
    ensures var d := ApplyAll(p, c, bs[..m], now);
            Knows(ApplyAll(p, c, bs[..n], now), h, d.blocks[h], d.snapshots[h])
  {
    hide ApplyBlock, ApplyAll;
    assert bs[..m] + bs[m..n] == bs[..n];
    ApplyAllSplit(p, c, bs[..m], bs[m..n], now);
    AllStayKnown(p, ApplyAll(p, c, bs[..m], now), bs[m..n], now, h);
  }

  lemma LastHop(
    p: Protocol, c: ChainValue, bs: seq<Block>, now: nat, path: seq<nat>, stores: seq<Store>, parent: Header)
    requires SortedByHeight(bs)
    requires Joined(p, c, bs, now, path, stores)
    requires parent == if |path| == 1 then c.blocks[bs[path[0]].header.parent].header else bs[path[|path| - 2]].header
    ensures var last := bs[path[|path| - 1]];
            && ValidOn(p, last, parent, stores[|path| - 1], c.difficulty, now, stores[|path|])
            && last.header.parent == p.headerHash(parent)
            && last.header.height == parent.height + 1
            && (|path| > 1 ==> path[|path| - 2] < path[|path| - 1])
  {
    hide WellFormed, Replay;
    assert HopValid(p, c, bs, now, path, stores, |path| - 1);
  }

  lemma {:induction false} ParentKnown(
    p: Protocol, c: ChainValue, anchor: Digest, bs: seq<Block>, now: nat, path: seq<nat>, stores: seq<Store>)
    requires Collisionless(p) && Faithful(p, c, anchor) && c.depth >= 1
    requires SortedByHeight(bs)
    requires Joined(p, c, bs, now, path, stores)
    ensures HasHead(c) && ParentReady(p, c, bs, now, path, stores)
    decreases |path|, 0
  {
    hide Collisionless, Faithful, ApplyBlock, ApplyAll, ValidOn, HopValid;
    FaithfulHasHead(p, c, anchor);
    if |path| == 1 {
      FirstWaits(p, c, bs, now, path, stores);
    } else {
      JoinedPrefix(p, c, bs, now, path, stores);
      LastArrives(p, c, anchor, bs, now, path[..|path| - 1], stores[..|path|]);
      NextWaits(p, c, bs, now, path, stores);
    }
  }

  /** The first block of a path hangs on a block the chain knows from the start. */
  lemma FirstWaits(p: Protocol, c: ChainValue, bs: seq<Block>, now: nat, path: seq<nat>, stores: seq<Store>)
    requires HasHead(c) && c.depth >= 1 && SortedByHeight(bs)
    requires Joined(p, c, bs, now, path, stores) && |path| == 1
    ensures ParentReady(p, c, bs, now, path, stores)
  {
    hide ApplyBlock, ValidOn, HopValid, SortedByHeight;
    var n := path[0];
    LastHop(p, c, bs, now, path, stores, c.blocks[bs[n].header.parent].header);
    assert bs[..0] == [] && ApplyAll(p, c, bs[..0], now) == c;
    ParentWaits(p, c, bs, now, 0, n, bs[n].header.parent);
  }

  /** Any other hangs on the one before it, which has had its turn. */
  lemma NextWaits(p: Protocol, c: ChainValue, bs: seq<Block>, now: nat, path: seq<nat>, stores: seq<Store>)
    requires HasHead(c) && c.depth >= 1 && SortedByHeight(bs)
    requires Joined(p, c, bs, now, path, stores) && |path| > 1
    requires var m := path[|path| - 2];
             var d := ApplyAll(p, c, bs[..m + 1], now);
             var h := p.headerHash(bs[m].header);
             h in d.blocks && h in d.snapshots && d.blocks[h].header == bs[m].header && d.snapshots[h] == stores[|path| - 1]
    ensures ParentReady(p, c, bs, now, path, stores)
  {
    hide ApplyBlock, ValidOn, HopValid, SortedByHeight, ApplyAll;
    var m := path[|path| - 2];
    LastHop(p, c, bs, now, path, stores, bs[m].header);
    ParentWaits(p, c, bs, now, m + 1, path[|path| - 1], p.headerHash(bs[m].header));
  }

  /** When the last block of the path has its turn, its parent is known with its store. */
  ghost predicate ParentReady(
    p: Protocol, c: ChainValue, bs: seq<Block>, now: nat, path: seq<nat>, stores: seq<Store>)
    requires HasHead(c) && Joined(p, c, bs, now, path, stores)
  {
    var last := bs[path[|path| - 1]];
    var d := ApplyAll(p, c, bs[..path[|path| - 1]], now);
    && last.header.parent in d.blocks && last.header.parent in d.snapshots
    && ValidOn(p, last, d.blocks[last.header.parent].header, stores[|path| - 1], c.difficulty, now, stores[|path|])
    && d.snapshots[last.header.parent] == stores[|path| - 1]
  }

  /** Right after its turn, the last block of a joined path is known, with the store that its
      re-execution leads to. */
  lemma {:induction false} LastArrives(
    p: Protocol, c: ChainValue, anchor: Digest, bs: seq<Block>, now: nat, path: seq<nat>, stores: seq<Store>)
    requires Collisionless(p) && Faithful(p, c, anchor) && c.depth >= 1
    requires SortedByHeight(bs)
    requires Joined(p, c, bs, now, path, stores)
    ensures var last := bs[path[|path| - 1]];
            var d := ApplyAll(p, c, bs[..path[|path| - 1] + 1], now);
            var h := p.headerHash(last.header);
            && h in d.blocks && h in d.snapshots
            && d.blocks[h].header == last.header && d.snapshots[h] == stores[|path|]
            && last.header.height <= HeadHeight(d)
    decreases |path|, 1
  {
    hide Collisionless, Faithful, ApplyBlock, WellFormed, Replay;
    FaithfulHasHead(p, c, anchor);
    var n := path[|path| - 1];
    var last := bs[n];
    ParentKnown(p, c, anchor, bs, now, path, stores);
    ApplyAllKeeps(p, c, anchor, bs[..n], now);
    var d := ApplyAll(p, c, bs[..n], now);
    KnowsAgain(p, d, anchor, last, d.blocks[last.header.parent], stores[|path| - 1], now, stores[|path|]);
    assert bs[..n + 1][..|bs[..n + 1]| - 1] == bs[..n];
  }

  lemma {:induction false} HeadNeverLower(
    p: Protocol, c: ChainValue, anchor: Digest, bs: seq<Block>, now: nat)
    requires Collisionless(p) && Faithful(p, c, anchor)
    ensures HeadHeight(c) <= HeadHeight(ApplyAll(p, c, bs, now))
    ensures HeadHeight(ApplyAll(p, c, bs, now)) == HeadHeight(c)
         || exists k :: 0 <= k < |bs| && HeadHeight(ApplyAll(p, c, bs, now)) == bs[k].header.height
  {
    hide Collisionless, Faithful, Judge, WellFormed, Replay;
    FaithfulHasHead(p, c, anchor);
    if bs != [] {
      var init := bs[..|bs| - 1];
      HeadNeverLower(p, c, anchor, init, now);
      ApplyAllKeeps(p, c, anchor, init, now);
      var d := ApplyAll(p, c, init, now);
      ApplyKeeps(p, d, anchor, bs[|bs| - 1], now);
      var e := ApplyBlock(p, d, bs[|bs| - 1], now);
      if e.head == d.head {
        SameHeadHeight(p, d, bs[|bs| - 1], now);
      }
    }
  }

  lemma SameHeadHeight(p: Protocol, c: ChainValue, b: Block, now: nat)
    requires HasHead(c)
    ensures ApplyBlock(p, c, b, now).head == c.head ==> HeadHeight(ApplyBlock(p, c, b, now)) == HeadHeight(c)
    ensures ApplyBlock(p, c, b, now).head != c.head ==> HeadHeight(ApplyBlock(p, c, b, now)) == b.header.height
  {
    hide WellFormed, Replay, StructureError;
  }

  /** Catch-up: every block joined to the chain through the pulled list is known right after
      its turn with the store its re-execution leads to, whatever pruning ran in between, and
      the final head is at least as high. */
  lemma CatchesUp(
    p: Protocol, c: ChainValue, anchor: Digest, bs: seq<Block>, now: nat, path: seq<nat>, stores: seq<Store>)
    requires Collisionless(p) && Faithful(p, c, anchor) && c.depth >= 1
    requires SortedByHeight(bs)
    requires Joined(p, c, bs, now, path, stores)
    ensures var last := bs[path[|path| - 1]];
            var d := ApplyAll(p, c, bs[..path[|path| - 1] + 1], now);
            var h := p.headerHash(last.header);
            && h in d.blocks && h in d.snapshots
            && d.blocks[h].header == last.header && d.snapshots[h] == stores[|path|]
            && last.header.height <= HeadHeight(ApplyAll(p, c, bs, now))
  {
    hide Collisionless, Faithful, ApplyBlock, WellFormed, Replay;
    FaithfulHasHead(p, c, anchor);
    var n := path[|path| - 1];
    LastArrives(p, c, anchor, bs, now, path, stores);
    ApplyAllKeeps(p, c, anchor, bs[..n + 1], now);
    assert bs == bs[..n + 1] + bs[n + 1..];
    ApplyAllSplit(p, c, bs[..n + 1], bs[n + 1..], now);
    HeadNeverLower(p, ApplyAll(p, c, bs[..n + 1], now), anchor, bs[n + 1..], now);
  }

  /** A block the chain knew, or the end of a joined path with the store it leads to. */
  ghost predicate Accounted(p: Protocol, c: ChainValue, bs: seq<Block>, now: nat, h: Digest, b: Block, s: Store) {
    Knows(c, h, b, s) || exists k :: EndsAt(p, c, bs, now, k, h, b, s)
  }

  ghost predicate EndsAt(p: Protocol, c: ChainValue, bs: seq<Block>, now: nat, k: nat, h: Digest, b: Block, s: Store) {
    && k < |bs| && bs[k] == b && p.headerHash(b.header) == h
    && exists path, stores :: JoinedPath(p, c, bs, now, k, path, stores) && stores[|path|] == s
  }

  /** A block valid on an accounted one is accounted. */
  lemma JoinsOn(p: Protocol, c: ChainValue, bs: seq<Block>, now: nat, k: nat, parent: Block, s: Store, t: Store)
    requires k < |bs| && Accounted(p, c, bs, now, bs[k].header.parent, parent, s)
    requires ValidOn(p, bs[k], parent.header, s, c.difficulty, now, t)
    ensures EndsAt(p, c, bs, now, k, p.headerHash(bs[k].header), bs[k], t)
  {
    hide ValidOn;
    var h := bs[k].header.parent;
    if Knows(c, h, parent, s) {
      assert HopValid(p, c, bs, now, [k], [s, t], 0);
      assert JoinedPath(p, c, bs, now, k, [k], [s, t]) && [s, t][1] == t;
    } else {
      var m :| EndsAt(p, c, bs, now, m, h, parent, s);
      var path, stores :| JoinedPath(p, c, bs, now, m, path, stores) && stores[|path|] == s;
      JoinedFurther(p, c, bs, now, path, stores, k, t);
      assert JoinedPath(p, c, bs, now, k, path + [k], stores + [t]) && (stores + [t])[|path| + 1] == t;
    }
  }

  lemma JoinedFurther(
    p: Protocol, c: ChainValue, bs: seq<Block>, now: nat, path: seq<nat>, stores: seq<Store>, k: nat, t: Store)
    requires Joined(p, c, bs, now, path, stores) && k < |bs|
    requires ValidOn(p, bs[k], bs[path[|path| - 1]].header, stores[|path|], c.difficulty, now, t)
    ensures Joined(p, c, bs, now, path + [k], stores + [t])
  {
    hide ValidOn;
    var path', stores' := path + [k], stores + [t];
    forall i: nat | i < |path'| ensures HopValid(p, c, bs, now, path', stores', i) {
      if i < |path| { assert HopValid(p, c, bs, now, path, stores, i); }
    }
  }

  /** What one more block can add. */
  lemma AppliedOne(p: Protocol, d: ChainValue, b: Block, now: nat, h: Digest)
    requires HasHead(d) && h in ApplyBlock(p, d, b, now).blocks
    ensures var e := ApplyBlock(p, d, b, now);
            || (h in d.blocks && Knows(d, h, e.blocks[h], e.snapshots[h]))
            || (h == p.headerHash(b.header) && e.blocks[h] == b && Admissible(p, d, b, now, e.snapshots[h]))
  {
    hide WellFormed, Replay, Judge;
    var verdict := Judge(p, d, b, now);
    if verdict.Ok? { JudgeExact(p, d, b, now, verdict.value); }
  }

  /** Nothing comes in but through a joined path: every block known after the list was known
      before it or ends such a path. */
  lemma {:induction false} KnownJoins(p: Protocol, c: ChainValue, anchor: Digest, bs: seq<Block>, now: nat, n: nat, h: Digest)
    requires Collisionless(p) && Faithful(p, c, anchor) && n <= |bs|
    ensures HasHead(c)
    ensures var d := ApplyAll(p, c, bs[..n], now);
            h in d.blocks ==> Accounted(p, c, bs, now, h, d.blocks[h], d.snapshots[h])
  {
    hide Collisionless, Faithful, ApplyBlock, Accounted, Admissible;
    FaithfulHasHead(p, c, anchor);
    if n == 0 {
      assert bs[..0] == [];
      assert h in c.blocks ==> Accounted(p, c, bs, now, h, c.blocks[h], c.snapshots[h]) by {
        KnownAccounted(p, c, bs, now, h);
      }
    } else {
      assert bs[..n][..n - 1] == bs[..n - 1];
      var d, b := ApplyAll(p, c, bs[..n - 1], now), bs[n - 1];
      ApplyAllKeeps(p, c, anchor, bs[..n - 1], now);
      FaithfulHasHead(p, d, anchor);
      var e := ApplyBlock(p, d, b, now);
      if h in e.blocks {
        AppliedOne(p, d, b, now, h);
        if h in d.blocks && Knows(d, h, e.blocks[h], e.snapshots[h]) {
          KnownJoins(p, c, anchor, bs, now, n - 1, h);
        } else {
          AdmittedValid(p, d, anchor, b, now, e.snapshots[h]);
          KnownJoins(p, c, anchor, bs, now, n - 1, b.header.parent);
          JoinsOn(p, c, bs, now, n - 1, d.blocks[b.header.parent], d.snapshots[b.header.parent], e.snapshots[h]);
          EndAccounted(p, c, bs, now, n - 1, h, b, e.snapshots[h]);
        }
      }
    }
  }

  lemma KnownAccounted(p: Protocol, c: ChainValue, bs: seq<Block>, now: nat, h: Digest)
    requires HasHead(c)
    ensures h in c.blocks ==> Accounted(p, c, bs, now, h, c.blocks[h], c.snapshots[h])
  {
  }

  lemma EndAccounted(p: Protocol, c: ChainValue, bs: seq<Block>, now: nat, k: nat, h: Digest, b: Block, s: Store)
    requires EndsAt(p, c, bs, now, k, h, b, s)
    ensures Accounted(p, c, bs, now, h, b, s)
  {
  }

  lemma AdmittedValid(p: Protocol, d: ChainValue, anchor: Digest, b: Block, now: nat, t: Store)
    requires Faithful(p, d, anchor) && HasHead(d) && Admissible(p, d, b, now, t)
    ensures b.header.parent in d.blocks
    ensures ValidOn(p, b, d.blocks[b.header.parent].header, d.snapshots[b.header.parent], d.difficulty, now, t)
  {
    hide WellFormed, Replay, Linked, RootsLowest, Descends, Sealed;
  }

  /** The final head height is exactly the maximum of the old head and the blocks that are joined
      to the chain, whatever else the list holds. */
  lemma FinalHeight(p: Protocol, c: ChainValue, anchor: Digest, bs: seq<Block>, now: nat)
    requires Collisionless(p) && Faithful(p, c, anchor) && c.depth >= 1
    requires SortedByHeight(bs)
    ensures var top := HeadHeight(ApplyAll(p, c, bs, now));
            && HeadHeight(c) <= top
            && (forall k :: 0 <= k < |bs| && JoinedTo(p, c, bs, now, k) ==> bs[k].header.height <= top)
            && (top == HeadHeight(c) || exists k :: 0 <= k < |bs| && JoinedTo(p, c, bs, now, k) && top == bs[k].header.height)
  {
    hide Collisionless, Faithful, ApplyBlock, ApplyAll, WellFormed, Replay, Joined;
    FaithfulHasHead(p, c, anchor);
    HeadNeverLower(p, c, anchor, bs, now);
    forall k | 0 <= k < |bs| && JoinedTo(p, c, bs, now, k)
      ensures bs[k].header.height <= HeadHeight(ApplyAll(p, c, bs, now))
    {
      var path, stores :| JoinedPath(p, c, bs, now, k, path, stores);
      CatchesUp(p, c, anchor, bs, now, path, stores);
    }
    HeadAccounted(p, c, anchor, bs, now);
  }

  lemma HeadAccounted(p: Protocol, c: ChainValue, anchor: Digest, bs: seq<Block>, now: nat)
    requires Collisionless(p) && Faithful(p, c, anchor)
    ensures HasHead(c)
    ensures var top := HeadHeight(ApplyAll(p, c, bs, now));
            top <= HeadHeight(c) || exists k :: 0 <= k < |bs| && JoinedTo(p, c, bs, now, k) && top == bs[k].header.height
  {
    hide Collisionless, ApplyBlock, ApplyAll, WellFormed, Replay, Joined, Linked, RootsLowest, Descends, Sealed;
    FaithfulHasHead(p, c, anchor);
    assert bs[..|bs|] == bs;
    var d := ApplyAll(p, c, bs, now);
    KnownJoins(p, c, anchor, bs, now, |bs|, d.head);
    if !Knows(c, d.head, d.blocks[d.head], d.snapshots[d.head]) {
      var k :| EndsAt(p, c, bs, now, k, d.head, d.blocks[d.head], d.snapshots[d.head]);
      assert JoinedTo(p, c, bs, now, k);
    }
  }

  ghost predicate JoinedPath(
    p: Protocol, c: ChainValue, bs: seq<Block>, now: nat, k: nat, path: seq<nat>, stores: seq<Store>)
  {
    Joined(p, c, bs, now, path, stores) && |path| > 0 && path[|path| - 1] == k
  }

  ghost predicate JoinedTo(p: Protocol, c: ChainValue, bs: seq<Block>, now: nat, k: nat) {
    exists path, stores :: JoinedPath(p, c, bs, now, k, path, stores)
  }

  // ---------------------------------------------------------------- from a peer

  /** The height from which blocks are asked for. */
  function SyncFrom(c: ChainValue): (n: nat)
    requires HasHead(c)
  {
    if HeadHeight(c) < c.depth then 0 else HeadHeight(c) - c.depth
  }

  /** The list holds every block the peer keeps from this height on. */
  ghost predicate Answers(bs: seq<Block>, peer: ChainValue, from: nat) {
    forall h :: h in peer.blocks && peer.blocks[h].header.height >= from ==> peer.blocks[h] in bs
  }

  /** The block's own part of what another node checks beside replay: its signatures, and its
      time against its parent's and the clock. */
  ghost predicate Presentable(p: Protocol, b: Block, parent: Header, now: nat) {
    && TimeAllows(b, now) && b.header.timestamp > parent.timestamp
    && forall i :: 0 <= i < |b.txs| ==> p.signedOk(b.txs[i])
  }

  ghost predicate AllPresentable(p: Protocol, peer: ChainValue, path: seq<Digest>, now: nat)
    requires Path(peer, path)
  {
    forall i :: 0 < i < |path| ==> Presentable(p, peer.blocks[path[i]], peer.blocks[path[i - 1]].header, now)
  }

  /** A block both nodes keep is kept by both with the same header and, above genesis, the same
      store. */
  lemma SameMeeting(p: Protocol, c: ChainValue, anchor: Digest, d: ChainValue, anchor': Digest, h: Digest)
    requires Collisionless(p) && Faithful(p, c, anchor) && Faithful(p, d, anchor')
    requires h in c.blocks && h in d.blocks
    ensures c.blocks[h].header == d.blocks[h].header
    ensures c.blocks[h].header.height > 0 ==> c.snapshots[h] == d.snapshots[h]
  {
    hide Collisionless, WellFormed, Replay;
    HeaderHashInjective(p, c.blocks[h].header, d.blocks[h].header);
    assert SealedAt(p, c, h) && SealedAt(p, d, h);
    if c.blocks[h].header.height > 0 {
      StateRootInjective(p, c.snapshots[h], d.snapshots[h]);
    }
  }

  /** A block of the peer is valid on the one below it. */
  lemma PeerValid(p: Protocol, d: ChainValue, anchor: Digest, h: Digest, now: nat)
    requires Faithful(p, d, anchor) && h in d.blocks && d.blocks[h].header.parent in d.blocks
    requires Presentable(p, d.blocks[h], d.blocks[d.blocks[h].header.parent].header, now)
    ensures ValidOn(p, d.blocks[h], d.blocks[d.blocks[h].header.parent].header, d.snapshots[d.blocks[h].header.parent],
                    d.difficulty, now, d.snapshots[h])
  {
    hide WellFormed, Replay;
    assert LinkedAt(p, d, h) && SealedAt(p, d, h);
  }

  /** Along the peer's chain from the meeting point, every block is accounted. */
  lemma {:induction false} PeerAccounted(
    p: Protocol, c: ChainValue, anchor: Digest, d: ChainValue, anchor': Digest, bs: seq<Block>, now: nat,
    path: seq<Digest>, i: nat) returns (q: Block)
    requires Collisionless(p) && Faithful(p, c, anchor) && Faithful(p, d, anchor') && c.difficulty == d.difficulty
    requires Path(d, path) && path[0] in c.blocks && i < |path| && AllPresentable(p, d, path, now)
    requires HasHead(c) && (c.blocks[path[0]].header.height == 0 ==> c.snapshots[path[0]] == d.snapshots[path[0]])
    requires Answers(bs, d, SyncFrom(c))
    ensures q.header == d.blocks[path[i]].header && Accounted(p, c, bs, now, path[i], q, d.snapshots[path[i]])
    ensures i > 0 ==> exists k :: EndsAt(p, c, bs, now, k, path[i], d.blocks[path[i]], d.snapshots[path[i]])
  {
    hide Collisionless, Faithful, Presentable, ValidOn, Accounted, EndsAt;
    FaithfulHasHead(p, d, anchor');
    if i == 0 {
      q := c.blocks[path[0]];
      SameMeeting(p, c, anchor, d, anchor', path[0]);
      KnownAccounted(p, c, bs, now, path[0]);
    } else {
      var below := PeerAccounted(p, c, anchor, d, anchor', bs, now, path, i - 1);
      q := d.blocks[path[i]];
      HeightAt(p, c, anchor, d, anchor', path, i);
      var k :| 0 <= k < |bs| && bs[k] == q;
      PeerValid(p, d, anchor', path[i], now);
      JoinsOn(p, c, bs, now, k, below, d.snapshots[path[i - 1]], d.snapshots[path[i]]);
      HashAt(p, d, anchor', path[i]);
      EndAccounted(p, c, bs, now, k, path[i], q, d.snapshots[path[i]]);
    }
  }

  lemma HashAt(p: Protocol, d: ChainValue, anchor: Digest, h: Digest)
    requires Faithful(p, d, anchor) && h in d.blocks
    ensures p.headerHash(d.blocks[h].header) == h
  {
  }

  /** What lies above a block that is kept here is above what is asked for. */
  lemma HeightAt(p: Protocol, c: ChainValue, anchor: Digest, d: ChainValue, anchor': Digest, path: seq<Digest>, i: nat)
    requires Collisionless(p) && Faithful(p, c, anchor) && Faithful(p, d, anchor')
    requires Path(d, path) && path[0] in c.blocks && i < |path| && HasHead(c)
    ensures d.blocks[path[i]].header.height >= SyncFrom(c)
  {
    hide Collisionless, WellFormed, Replay, Linked, RootsLowest, Descends, Sealed;
    SameMeeting(p, c, anchor, d, anchor', path[0]);
    var part := path[..i + 1];
    SnapshotIsReplay(p, d, anchor', part);
  }

  /** Two nodes: if the peer's chain passes through a block kept here, then after pulling the
      peer's blocks from the lowest height kept here, the head is at least as high as the peer's. */
  lemma PeerReached(
    p: Protocol, c: ChainValue, anchor: Digest, d: ChainValue, anchor': Digest, bs: seq<Block>, now: nat,
    path: seq<Digest>)
    requires Collisionless(p) && Faithful(p, c, anchor) && Faithful(p, d, anchor')
    requires c.difficulty == d.difficulty && c.depth >= 1
    requires Path(d, path) && path[0] in c.blocks && path[|path| - 1] == d.head && AllPresentable(p, d, path, now)
    requires HasHead(c) && (c.blocks[path[0]].header.height == 0 ==> c.snapshots[path[0]] == d.snapshots[path[0]])
    requires SortedByHeight(bs) && Answers(bs, d, SyncFrom(c))
    ensures HasHead(d) && HeadHeight(d) <= HeadHeight(ApplyAll(p, c, bs, now))
  {
    hide Collisionless, Faithful, ApplyAll, Answers, AllPresentable, SortedByHeight, Joined;
    FaithfulHasHead(p, d, anchor');
    FinalHeight(p, c, anchor, bs, now);
    if |path| == 1 {
      SameMeeting(p, c, anchor, d, anchor', d.head);
      KnownBelow(p, c, anchor, d.head);
    } else {
      var _ := PeerAccounted(p, c, anchor, d, anchor', bs, now, path, |path| - 1);
      var k :| EndsAt(p, c, bs, now, k, d.head, d.blocks[d.head], d.snapshots[d.head]);
      assert JoinedTo(p, c, bs, now, k);
    }
  }

  lemma KnownBelow(p: Protocol, c: ChainValue, anchor: Digest, h: Digest)
    requires Faithful(p, c, anchor) && h in c.blocks
    ensures c.blocks[h].header.height <= HeadHeight(c)
  {
  }

  /** Depth 0 is too little: after one of two valid blocks on the head, the other is refused. */
  lemma DepthZeroLosesSibling(p: Protocol, c: ChainValue, anchor: Digest, x: Block, y: Block, now: nat, s: Store)
    requires Collisionless(p) && Faithful(p, c, anchor) && c.depth == 0
    requires x.header.parent == c.head && Admissible(p, c, x, now, s)
    requires y.header.parent == c.head && y.header != x.header
    ensures Judge(p, ApplyBlock(p, c, x, now), y, now) == Err(UnknownParent)
  {
    hide Collisionless, WellFormed, Replay;
    JudgeExact(p, c, x, now, s);
    if p.headerHash(y.header) == p.headerHash(x.header) {
      HeaderHashInjective(p, x.header, y.header);
    }
    RankAbove(p, y.header);
    if p.headerHash(y.header) in c.blocks {
      HeaderHashInjective(p, c.blocks[p.headerHash(y.header)].header, y.header);
    }
  }
}
