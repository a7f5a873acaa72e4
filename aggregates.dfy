/** The fixed group-by queries over the whole table: the top ten
    (state, quarter) pairs and the top ten states by deaths, the top fifteen
    states by crashes, and the crashes per quarter. */
module Aggregates {

  import opened Records
  import opened Grouping
  import opened Ranking

  function StateOf(r: Record): string
  {
    r.state
  }

  function QuarterOf(r: Record): string
  {
    r.quarter
  }

  function StateQuarterOf(r: Record): (string, string)
  {
    (r.state, r.quarter)
  }

  /** `top` is a top-`n` table of the group-by-sum of `col` by `key`: as many
      entries as there are `n` or distinct keys, whichever is fewer; ranked
      largest first; no key twice; each entry a key of the table with its
      exact sum; and no key left out has a larger sum than any key kept. */
  ghost predicate IsTopGroups<K>(top: seq<Group<K>>, rows: seq<Record>, key: Record -> K, col: Column, n: nat)
  {
    && |top| == Min(n, |RowKeys(rows, key)|)
    && NonIncreasing(top)
    && DistinctKeys(top)
    && (forall i :: 0 <= i < |top| ==>
          top[i].key in RowKeys(rows, key) && top[i].total == SumForKey(rows, key, top[i].key, col))
    && (forall k, i :: k in RowKeys(rows, key) && k !in KeysOf(top) && 0 <= i < |top| ==>
          SumForKey(rows, key, k, col) <= top[i].total)
  }

  /** Each entry of a ranked group-by-sum is one of its groups. */
  lemma TopEntry<K>(rows: seq<Record>, key: Record -> K, col: Column, n: nat, i: nat)
    requires i < |Largest(n, GroupSum(rows, key, col))|
    ensures var t := Largest(n, GroupSum(rows, key, col))[i];
      t.key in RowKeys(rows, key) && t.total == SumForKey(rows, key, t.key, col)
  {
    var gs := GroupSum(rows, key, col);
    KeptIsInput(n, gs, i);
    var j :| 0 <= j < |gs| && gs[j] == Largest(n, gs)[i];
    KeysAtIndices(gs);
  }

  /** No key left out of a ranked group-by-sum beats a key kept. */
  lemma TopDominates<K>(rows: seq<Record>, key: Record -> K, col: Column, n: nat, k: K, i: nat)
    requires k in RowKeys(rows, key)
    requires k !in KeysOf(Largest(n, GroupSum(rows, key, col)))
    requires i < |Largest(n, GroupSum(rows, key, col))|
    ensures SumForKey(rows, key, k, col) <= Largest(n, GroupSum(rows, key, col))[i].total
  {
    var gs := GroupSum(rows, key, col);
    var top := Largest(n, gs);
    KeysAtIndices(gs);
    KeysAtIndices(top);
    var j :| 0 <= j < |gs| && gs[j].key == k;
    assert gs[j] !in top;
    LeftOutIsSmaller(n, gs, gs[j], i);
  }

  /** Ranking a group-by-sum and keeping its first `n` entries yields a
      top-`n` table. */
  lemma TopOfGroupSum<K>(rows: seq<Record>, key: Record -> K, col: Column, n: nat)
    ensures IsTopGroups(Largest(n, GroupSum(rows, key, col)), rows, key, col, n)
  {
    var top := Largest(n, GroupSum(rows, key, col));
    GroupCount(rows, key, col);
    forall i | 0 <= i < |top|
      ensures top[i].key in RowKeys(rows, key) && top[i].total == SumForKey(rows, key, top[i].key, col)
    {
      TopEntry(rows, key, col, n, i);
    }
    forall k, i | k in RowKeys(rows, key) && k !in KeysOf(top) && 0 <= i < |top|
      ensures SumForKey(rows, key, k, col) <= top[i].total
    {
      TopDominates(rows, key, col, n, k, i);
    }
  }

  /** Query 1: the ten (state, quarter) pairs with the most deaths. */
  function TopFatalStateQuarters(rows: seq<Record>): (top: seq<Group<(string, string)>>)
    ensures IsTopGroups(top, rows, StateQuarterOf, NumKilled, 10)
  {
    TopOfGroupSum(rows, StateQuarterOf, NumKilled, 10);
    Largest(10, GroupSum(rows, StateQuarterOf, NumKilled))
  }

  /** Query 2: the ten states with the most deaths. */
  function TopDeathStates(rows: seq<Record>): (top: seq<Group<string>>)
    ensures IsTopGroups(top, rows, StateOf, NumKilled, 10)
  {
    TopOfGroupSum(rows, StateOf, NumKilled, 10);
    Largest(10, GroupSum(rows, StateOf, NumKilled))
  }

  /** Query 3: the fifteen states with the most crashes. */
  function TopCrashStates(rows: seq<Record>): (top: seq<Group<string>>)
    ensures IsTopGroups(top, rows, StateOf, TotalCrashes, 15)
  {
    TopOfGroupSum(rows, StateOf, TotalCrashes, 15);
    Largest(15, GroupSum(rows, StateOf, TotalCrashes))
  }

  /** Query 5: crashes per quarter, one entry per quarter of the table; the
      entries add up to the table's crash total. */
  function CrashesByQuarter(rows: seq<Record>): (gs: seq<Group<string>>)
    ensures IsGroupBySum(gs, rows, QuarterOf, TotalCrashes)
    ensures |gs| == |RowKeys(rows, QuarterOf)|
  {
    GroupCount(rows, QuarterOf, TotalCrashes);
    GroupSum(rows, QuarterOf, TotalCrashes)
  }
}
