/** `groupby(key)[col].sum()`: one group per distinct key, holding the sum of
    one column over the rows with that key. The order of the groups is not
    part of the model. */
module Grouping {

  import opened Records

  /** One row of a group-by result: a key and its summed column. */
  datatype Group<K> = Group(key: K, total: nat)

  /** No key occurs in two groups: the first group's key is not among the
      keys after it, and so on down the list (see `DistinctKeysAt`). */
  predicate DistinctKeys<K(==)>(gs: seq<Group<K>>)
  {
    gs == [] || (gs[0].key !in KeysOf(gs[1..]) && DistinctKeys(gs[1..]))
  }

  /** The keys of a group list. */
  function KeysOf<K>(gs: seq<Group<K>>): set<K>
  {
    if gs == [] then {} else {gs[0].key} + KeysOf(gs[1..])
  }

  /** The distinct keys that occur in a table. */
  function RowKeys<K>(rows: seq<Record>, key: Record -> K): set<K>
  {
    set r | r in rows :: key(r)
  }

  /** Reference definition of a group's value: the sum of `col` over the
      rows whose key is `k`. */
  function SumForKey<K(==)>(rows: seq<Record>, key: Record -> K, k: K, col: Column): nat
  {
    if rows == [] then 0
    else
      var last := rows[|rows| - 1];
      SumForKey(rows[..|rows| - 1], key, k, col) + if key(last) == k then Get(last, col) else 0
  }

  /** Every key at an index of the list is among its keys, and conversely. */
  lemma {:induction false} KeysAtIndices<K>(gs: seq<Group<K>>)
    ensures forall i :: 0 <= i < |gs| ==> gs[i].key in KeysOf(gs)
    ensures forall k :: k in KeysOf(gs) ==> exists i :: 0 <= i < |gs| && gs[i].key == k
  {
    if gs != [] {
      KeysAtIndices(gs[1..]);
      forall k | k in KeysOf(gs) ensures exists i :: 0 <= i < |gs| && gs[i].key == k {
        if k != gs[0].key {
          var j :| 0 <= j < |gs[1..]| && gs[1..][j].key == k;
          assert gs[j + 1].key == k;
        }
      }
    }
  }

  /** The sum of all group values. */
  function Totals<K>(gs: seq<Group<K>>): nat
  {
    if gs == [] then 0 else gs[0].total + Totals(gs[1..])
  }

  /** Adds `v` to the group with key `k`, or appends a new group `k` if
      there is none. */
  function Accumulate<K(==)>(gs: seq<Group<K>>, k: K, v: nat): (r: seq<Group<K>>)
    requires DistinctKeys(gs)
    ensures DistinctKeys(r)
    ensures |r| == if k in KeysOf(gs) then |gs| else |gs| + 1
    ensures KeysOf(r) == KeysOf(gs) + {k}
    ensures forall i :: 0 <= i < |gs| ==>
      r[i] == Group(gs[i].key, gs[i].total + if gs[i].key == k then v else 0)
    ensures k !in KeysOf(gs) ==> r[|gs|] == Group(k, v)
    ensures Totals(r) == Totals(gs) + v
  {
    if gs == [] then [Group(k, v)]
    else if gs[0].key == k then
      KeysAtIndices(gs[1..]);
      [Group(k, gs[0].total + v)] + gs[1..]
    else
      [gs[0]] + Accumulate(gs[1..], k, v)
  }

  /** `gs` is a group-by-sum of `col` by `key` over `rows`: one group per
      distinct key of the table, each holding the reference sum for its key,
      the values adding up to the column total. */
  ghost predicate IsGroupBySum<K>(gs: seq<Group<K>>, rows: seq<Record>, key: Record -> K, col: Column)
  {
    && DistinctKeys(gs)
    && KeysOf(gs) == RowKeys(rows, key)
    && (forall i :: 0 <= i < |gs| ==> gs[i].total == SumForKey(rows, key, gs[i].key, col))
    && Totals(gs) == ColumnSum(rows, col)
  }

  /** `groupby(key)[col].sum()`. */
  function GroupSum<K(==)>(rows: seq<Record>, key: Record -> K, col: Column): (gs: seq<Group<K>>)
    ensures IsGroupBySum(gs, rows, key, col)
  {
    if rows == [] then []
    else
      var init, last := rows[..|rows| - 1], rows[|rows| - 1];
      var prev := GroupSum(init, key, col);
      AccumulateRow(prev, init, last, key, col);
      assert rows == init + [last];
      Accumulate(prev, key(last), Get(last, col))
  }

  /** Adding one more row to a group-by-sum by `Accumulate` gives the
      group-by-sum of the longer table. */
  lemma AccumulateRow<K>(prev: seq<Group<K>>, init: seq<Record>, last: Record, key: Record -> K, col: Column)
    requires IsGroupBySum(prev, init, key, col)
    ensures IsGroupBySum(Accumulate(prev, key(last), Get(last, col)), init + [last], key, col)
  {
    var rows := init + [last];
    var k, v := key(last), Get(last, col);
    var gs := Accumulate(prev, k, v);
    assert rows[..|rows| - 1] == init;
    assert RowKeys(rows, key) == RowKeys(init, key) + {k};
    assert ColumnSum(rows, col) == ColumnSum(init, col) + v;
    forall i | 0 <= i < |gs| ensures gs[i].total == SumForKey(rows, key, gs[i].key, col) {
      if i == |prev| {
        SumForKeyAbsent(init, key, k, col);
      }
    }
  }

  /** A key that no row has sums to zero. */
  lemma {:induction false} SumForKeyAbsent<K>(rows: seq<Record>, key: Record -> K, k: K, col: Column)
    requires k !in RowKeys(rows, key)
    ensures SumForKey(rows, key, k, col) == 0
  {
    if rows != [] {
      var init := rows[..|rows| - 1];
      assert RowKeys(init, key) <= RowKeys(rows, key);
      SumForKeyAbsent(init, key, k, col);
    }
  }

  /** `DistinctKeys` stated by position: two different groups never share a
      key. */
  lemma {:induction false} DistinctKeysAt<K>(gs: seq<Group<K>>)
    requires DistinctKeys(gs)
    ensures forall i, j :: 0 <= i < j < |gs| ==> gs[i].key != gs[j].key
  {
    if gs != [] {
      DistinctKeysAt(gs[1..]);
      KeysAtIndices(gs[1..]);
      forall i, j | 0 <= i < j < |gs| ensures gs[i].key != gs[j].key {
        if i == 0 {
          assert gs[j].key == gs[1..][j - 1].key;
        } else {
          assert gs[i].key == gs[1..][i - 1].key && gs[j].key == gs[1..][j - 1].key;
        }
      }
    }
  }

  /** A group list with distinct keys has one group per key. */
  lemma {:induction false} DistinctKeysCount<K>(gs: seq<Group<K>>)
    requires DistinctKeys(gs)
    ensures |KeysOf(gs)| == |gs|
  {
    if gs != [] {
      var rest := gs[1..];
      DistinctKeysCount(rest);
      assert KeysOf(gs) == {gs[0].key} + KeysOf(rest);
      assert gs[0].key !in KeysOf(rest);
    }
  }

  /** Every group-by has exactly as many groups as the table has distinct
      keys. */
  lemma GroupCount<K>(rows: seq<Record>, key: Record -> K, col: Column)
    ensures |GroupSum(rows, key, col)| == |RowKeys(rows, key)|
  {
    DistinctKeysCount(GroupSum(rows, key, col));
  }
}
