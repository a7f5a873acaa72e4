/** Ranking a group-by result by value: `sort_values(ascending=False)`,
    `head(n)` and `nlargest(n)`. How ties are ordered is not modelled; only
    the non-increasing order and the kept elements are. */
module Ranking {

  import opened Grouping

  function Min(a: nat, b: nat): nat
  {
    if a <= b then a else b
  }

  /** Ordered by value, largest first. */
  predicate NonIncreasing<K>(gs: seq<Group<K>>)
  {
    forall i, j :: 0 <= i < j < |gs| ==> gs[i].total >= gs[j].total
  }

  /** Any slice of a ranked list is ranked. */
  lemma SliceRanked<K>(s: seq<Group<K>>, lo: nat, hi: nat)
    requires NonIncreasing(s) && lo <= hi <= |s|
    ensures NonIncreasing(s[lo..hi])
  {
    var r := s[lo..hi];
    forall i, j | 0 <= i < j < |r| ensures r[i].total >= r[j].total {
      assert r[i] == s[lo + i] && r[j] == s[lo + j];
    }
  }

  /** A group at least as large as the head of a ranked list can go in
      front of it. */
  lemma ConsRanked<K>(g: Group<K>, gs: seq<Group<K>>)
    requires NonIncreasing(gs)
    requires gs == [] || g.total >= gs[0].total
    ensures NonIncreasing([g] + gs)
  {
    var r := [g] + gs;
    forall i, j | 0 <= i < j < |r| ensures r[i].total >= r[j].total {
      assert r[j] == gs[j - 1];
      if i > 0 {
        assert r[i] == gs[i - 1];
      } else {
        assert gs[0].total >= gs[j - 1].total;
      }
    }
  }

  /** Dropping the head of a ranked list leaves it ranked. */
  lemma TailRanked<K>(gs: seq<Group<K>>)
    requires NonIncreasing(gs) && gs != []
    ensures NonIncreasing(gs[1..])
  {
    SliceRanked(gs, 1, |gs|);
    assert gs[1..] == gs[1..|gs|];
  }

  /** The step of `Insert` that keeps the head: `g` went into the tail, and
      the head still leads. */
  lemma InsertBehind<K>(g: Group<K>, gs: seq<Group<K>>, rest: seq<Group<K>>)
    requires NonIncreasing(gs) && gs != [] && g.total < gs[0].total
    requires NonIncreasing(rest) && |rest| == |gs|
    requires multiset(rest) == multiset(gs[1..]) + multiset{g}
    requires rest[0] == g || (gs[1..] != [] && rest[0] == gs[1..][0])
    ensures NonIncreasing([gs[0]] + rest)
    ensures multiset([gs[0]] + rest) == multiset(gs) + multiset{g}
  {
    if rest[0] != g {
      assert rest[0] == gs[1];
    }
    ConsRanked(gs[0], rest);
    assert gs == [gs[0]] + gs[1..];
    assert multiset([gs[0]] + rest) == multiset{gs[0]} + multiset(rest);
  }

  /** Puts `g` into a ranked list, before the first group of smaller value. */
  function Insert<K(==)>(g: Group<K>, gs: seq<Group<K>>): (r: seq<Group<K>>)
    requires NonIncreasing(gs)
    ensures NonIncreasing(r)
    ensures multiset(r) == multiset(gs) + multiset{g}
    ensures |r| == |gs| + 1
    ensures r[0] == g || (gs != [] && r[0] == gs[0])
  {
    if gs == [] || g.total >= gs[0].total then
      ConsRanked(g, gs);
      assert multiset([g] + gs) == multiset(gs) + multiset{g};
      [g] + gs
    else
      TailRanked(gs);
      var rest := Insert(g, gs[1..]);
      InsertBehind(g, gs, rest);
      [gs[0]] + rest
  }

  /** A descending sort of a group list: the same groups, largest first. */
  function SortDescending<K(==)>(gs: seq<Group<K>>): (r: seq<Group<K>>)
    ensures NonIncreasing(r)
    ensures multiset(r) == multiset(gs)
  {
    if gs == [] then []
    else
      assert gs == [gs[0]] + gs[1..];
      Insert(gs[0], SortDescending(gs[1..]))
  }

  /** Inserting a group adds its key; into a list with distinct keys, a
      group with a new key keeps the keys distinct. */
  lemma {:induction false} InsertKeys<K>(g: Group<K>, gs: seq<Group<K>>)
    requires NonIncreasing(gs)
    ensures KeysOf(Insert(g, gs)) == KeysOf(gs) + {g.key}
    ensures DistinctKeys(gs) && g.key !in KeysOf(gs) ==> DistinctKeys(Insert(g, gs))
  {
    var r := Insert(g, gs);
    if gs == [] || g.total >= gs[0].total {
      assert r[1..] == gs;
    } else {
      var tail := gs[1..];
      InsertKeys(g, tail);
      assert r[1..] == Insert(g, tail);
    }
  }

  /** Sorting keeps the keys, and keeps them distinct. */
  lemma {:induction false} SortKeys<K>(gs: seq<Group<K>>)
    ensures KeysOf(SortDescending(gs)) == KeysOf(gs)
    ensures DistinctKeys(gs) ==> DistinctKeys(SortDescending(gs))
  {
    if gs != [] {
      SortKeys(gs[1..]);
      InsertKeys(gs[0], SortDescending(gs[1..]));
    }
  }

  /** A prefix of a list with distinct keys has distinct keys. */
  lemma {:induction false} PrefixKeys<K>(s: seq<Group<K>>, m: nat)
    requires m <= |s|
    ensures KeysOf(s[..m]) <= KeysOf(s)
    ensures DistinctKeys(s) ==> DistinctKeys(s[..m])
  {
    if m > 0 {
      PrefixKeys(s[1..], m - 1);
      assert s[..m][1..] == s[1..][..m - 1];
    }
  }

  /** In a ranked list, everything after position `m` is at most everything
      before it. */
  lemma PrefixDominates<K>(s: seq<Group<K>>, m: nat)
    requires NonIncreasing(s) && m <= |s|
    ensures forall g, t :: g in s[m..] && t in s[..m] ==> g.total <= t.total
  {
    forall g, t | g in s[m..] && t in s[..m] ensures g.total <= t.total {
      var j :| 0 <= j < |s[m..]| && s[m..][j] == g;
      var i :| 0 <= i < m && s[..m][i] == t;
      assert s[i] == t && s[m + j] == g;
    }
  }

  /** The groups a prefix leaves out are exactly those of the rest. */
  lemma PrefixRemainder<K>(s: seq<Group<K>>, m: nat)
    requires m <= |s|
    ensures multiset(s) - multiset(s[..m]) == multiset(s[m..])
    ensures multiset(s[..m]) <= multiset(s)
  {
    assert s == s[..m] + s[m..];
  }

  /** The first `n` groups of the descending sort. The result has
      `min(n, |gs|)` groups, ranked, all taken from `gs`, and no group left
      out has a larger value than any group kept. */
  function Largest<K(==)>(n: nat, gs: seq<Group<K>>): (r: seq<Group<K>>)
    ensures |r| == Min(n, |gs|)
    ensures NonIncreasing(r)
    ensures multiset(r) <= multiset(gs)
    ensures forall g, t :: g in multiset(gs) - multiset(r) && t in r ==> g.total <= t.total
    ensures DistinctKeys(gs) ==> DistinctKeys(r)
  {
    var s := SortDescending(gs);
    assert |s| == |multiset(s)| == |gs|;
    var m := Min(n, |s|);
    SortKeys(gs);
    PrefixKeys(s, m);
    SliceRanked(s, 0, m);
    assert s[0..m] == s[..m];
    PrefixRemainder(s, m);
    PrefixDominates(s, m);
    forall g, t | g in multiset(gs) - multiset(s[..m]) && t in s[..m] ensures g.total <= t.total {
      assert g in s[m..];
    }
    s[..m]
  }

  /** A group that `Largest` leaves out is worth at most each group it keeps. */
  lemma LeftOutIsSmaller<K>(n: nat, gs: seq<Group<K>>, g: Group<K>, i: nat)
    requires g in gs && g !in Largest(n, gs)
    requires i < |Largest(n, gs)|
    ensures g.total <= Largest(n, gs)[i].total
  {
    var top := Largest(n, gs);
    assert g in multiset(gs) - multiset(top);
    assert top[i] in top;
  }

  /** Every group `Largest` keeps is one of its input groups. */
  lemma KeptIsInput<K>(n: nat, gs: seq<Group<K>>, i: nat)
    requires i < |Largest(n, gs)|
    ensures Largest(n, gs)[i] in gs
  {
    assert Largest(n, gs)[i] in multiset(gs);
  }
}
