/** The crash-cause queries over the whole table: the totals of the five
    cause columns ranked with the "main reason" on top, and the share of
    crashes put down to faulty vehicles. */
module Causes {

  import opened Records
  import opened Grouping
  import opened Ranking
  import opened Kpis

  /** The five cause columns, in the order the query lists them. */
  const CauseColumns: seq<Column> := [SPV, DAD, PWR, FTQ, OtherFactors]

  /** The (Reason, Count) table: one row per cause column, no column twice,
      each with its total. */
  function CauseTotals(rows: seq<Record>): (t: seq<Group<Column>>)
    ensures |t| == 5
    ensures DistinctKeys(t)
    ensures forall c :: c in KeysOf(t) <==> c in CauseColumns
    ensures forall g :: g in t ==> g.total == ColumnSum(rows, g.key)
  {
    var t := seq(5, i requires 0 <= i < 5 => Group(CauseColumns[i], ColumnSum(rows, CauseColumns[i])));
    assert t[1..][1..][1..][1..][1..] == [];
    assert KeysOf(t[1..][1..][1..][1..]) == {OtherFactors};
    assert KeysOf(t[1..][1..][1..]) == {FTQ, OtherFactors};
    assert KeysOf(t[1..][1..]) == {PWR, FTQ, OtherFactors};
    assert KeysOf(t[1..]) == {DAD, PWR, FTQ, OtherFactors};
    assert KeysOf(t) == {SPV, DAD, PWR, FTQ, OtherFactors};
    assert DistinctKeys(t[1..][1..][1..][1..]);
    assert DistinctKeys(t[1..][1..][1..]);
    assert DistinctKeys(t[1..][1..]);
    assert DistinctKeys(t[1..]);
    t
  }

  /** Query 4, the table of top reasons: all five causes, each once with its
      total, largest first. */
  function TopReasons(rows: seq<Record>): (top: seq<Group<Column>>)
    ensures |top| == 5
    ensures NonIncreasing(top)
    ensures multiset(top) == multiset(CauseTotals(rows))
    ensures forall i :: 0 <= i < 5 ==> top[i].key in CauseColumns && top[i].total == ColumnSum(rows, top[i].key)
  {
    var totals := CauseTotals(rows);
    var sorted := SortDescending(totals);
    assert |sorted| == |multiset(sorted)| == 5;
    assert sorted[..5] == sorted;
    forall i | 0 <= i < 5 ensures sorted[i].key in CauseColumns && sorted[i].total == ColumnSum(rows, sorted[i].key) {
      assert sorted[i] in multiset(totals);
      var j :| 0 <= j < 5 && totals[j] == sorted[i];
    }
    Largest(5, totals)
  }

  /** Query 4, the main reason: the first entry of the ranked cause table, a
      cause column whose total no other cause column exceeds. */
  function MainReason(rows: seq<Record>): (main: Group<Column>)
    ensures main.key in CauseColumns && main.total == ColumnSum(rows, main.key)
    ensures forall c :: c in CauseColumns ==> ColumnSum(rows, c) <= main.total
  {
    var ranked := SortDescending(CauseTotals(rows));
    assert |ranked| == |multiset(ranked)| == 5;
    forall c | c in CauseColumns ensures ColumnSum(rows, c) <= ranked[0].total {
      var i :| 0 <= i < 5 && CauseColumns[i] == c;
      var g := CauseTotals(rows)[i];
      assert g in multiset(ranked);
      var j :| 0 <= j < 5 && ranked[j] == g;
    }
    assert ranked[0] in multiset(CauseTotals(rows));
    ranked[0]
  }

  /** The main reason heads the table of top reasons. */
  lemma MainReasonHeadsTopReasons(rows: seq<Record>)
    ensures MainReason(rows) == TopReasons(rows)[0]
  {
  }

  /** Query 6, the vehicle-safety table: crash counts and percentages for
      faulty vehicles and for all other causes. */
  datatype FaultShare = FaultShare(
    faultyCount: nat,
    otherCount: int,
    faultyPercentage: Rate,
    otherPercentage: Rate)

  /** `100 - p`, undefined when `p` is. */
  function Complement(p: Rate): (q: Rate)
    ensures q.Defined? <==> p.Defined?
    ensures q.Defined? ==> p.value + q.value == 100.0
  {
    match p
    case Undefined => Undefined
    case Defined(v) => Defined(100.0 - v)
  }

  /** The faulty-vehicle share. The two counts add up to the total crash
      count, each percentage is its count's share of that total, both are
      undefined when the total is zero, and otherwise they add up to 100. */
  function VehicleSafety(rows: seq<Record>): (s: FaultShare)
    ensures s.faultyCount == ColumnSum(rows, FTQ)
    ensures s.faultyCount + s.otherCount == ColumnSum(rows, TotalCrashes)
    ensures IsQuotient(s.faultyPercentage, 100.0 * s.faultyCount as real, ColumnSum(rows, TotalCrashes))
    ensures IsQuotient(s.otherPercentage, 100.0 * s.otherCount as real, ColumnSum(rows, TotalCrashes))
    ensures s.faultyPercentage.Defined? ==> s.faultyPercentage.value + s.otherPercentage.value == 100.0
  {
    var faulty, total := ColumnSum(rows, FTQ), ColumnSum(rows, TotalCrashes);
    var percentage := Percentage(faulty, total);
    var other := Complement(percentage);
    assert other.Defined? ==> other.value * total as real == 100.0 * (total - faulty) as real by {
      if other.Defined? {
        calc {
          other.value * total as real;
          (100.0 - percentage.value) * total as real;
          100.0 * total as real - percentage.value * total as real;
          100.0 * total as real - 100.0 * faulty as real;
        }
      }
    }
    FaultShare(faulty, total - faulty, percentage, other)
  }

  /** A table with 10 faulty-vehicle crashes out of 100 gives counts 10 and 90
      and percentages 10 and 90. */
  lemma VehicleSafetyExample(rows: seq<Record>)
    requires ColumnSum(rows, FTQ) == 10 && ColumnSum(rows, TotalCrashes) == 100
    ensures VehicleSafety(rows) == FaultShare(10, 90, Defined(10.0), Defined(90.0))
  {
  }
}
