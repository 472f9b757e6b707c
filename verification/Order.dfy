/** Keeping order: one list is another with some elements left out. */
module Order {
  /** `places` says where each element of `a` stands in `b`, from left to right. */
  ghost predicate Embeds<T>(places: seq<nat>, a: seq<T>, b: seq<T>) {
    && |places| == |a|
    && (forall i :: 0 <= i < |a| ==> places[i] < |b| && b[places[i]] == a[i])
    && (forall i, j :: 0 <= i < j < |a| ==> places[i] < places[j])
  }

  ghost predicate Subsequence<T(!new)>(a: seq<T>, b: seq<T>) {
    exists places :: Embeds(places, a, b)
  }

  lemma Whole<T(!new)>(a: seq<T>)
    ensures Subsequence(a, a)
  {
    assert Embeds(seq(|a|, i => i), a, a);
  }

  lemma Nothing<T(!new)>(b: seq<T>)
    ensures Subsequence([], b)
  {
    assert Embeds([], [], b);
  }

  lemma Joined<T(!new)>(a: seq<T>, b: seq<T>, c: seq<T>, d: seq<T>)
    requires Subsequence(a, b) && Subsequence(c, d)
    ensures Subsequence(a + c, b + d)
  {
    var f: seq<nat> :| Embeds(f, a, b);
    var g: seq<nat> :| Embeds(g, c, d);
    var shifted: seq<nat> := seq(|g|, i requires 0 <= i < |g| => g[i] + |b|);
    var places := f + shifted;
    forall i | 0 <= i < |a + c| ensures places[i] < |b + d| && (b + d)[places[i]] == (a + c)[i] {
      if i >= |a| { assert d[g[i - |a|]] == c[i - |a|]; }
    }
    forall i, j | 0 <= i < j < |a + c| ensures places[i] < places[j] {
      if i >= |a| { assert g[i - |a|] < g[j - |a|]; }
    }
    assert Embeds(places, a + c, b + d);
  }

  lemma Through<T(!new)>(a: seq<T>, b: seq<T>, c: seq<T>)
    requires Subsequence(a, b) && Subsequence(b, c)
    ensures Subsequence(a, c)
  {
    var f: seq<nat> :| Embeds(f, a, b);
    var g: seq<nat> :| Embeds(g, b, c);
    var places: seq<nat> := seq(|f|, i requires 0 <= i < |f| && f[i] < |g| => g[f[i]]);
    assert Embeds(places, a, c);
  }
}
