/** The KPI overview: column totals over the whole table and the rates taken
    over the total crash count. */
module Kpis {

  import opened Records

  /** A quotient of two counts, kept exact. `Undefined` is what a division by
      a zero total crash count yields (the table has no crashes). */
  datatype Rate = Undefined | Defined(value: real)

  /** `q` is the exact quotient `num / den`, or undefined when `den` is zero. */
  predicate IsQuotient(q: Rate, num: real, den: nat)
  {
    if den == 0 then q.Undefined? else q.Defined? && q.value * den as real == num
  }

  /** `num / den`, undefined for a zero denominator. */
  function Ratio(num: nat, den: nat): (q: Rate)
    ensures IsQuotient(q, num as real, den)
    ensures q.Defined? ==> q.value >= 0.0
  {
    if den == 0 then Undefined else Defined(num as real / den as real)
  }

  /** `(num / den) * 100`, undefined for a zero denominator. */
  function Percentage(num: nat, den: nat): (q: Rate)
    ensures IsQuotient(q, 100.0 * num as real, den)
    ensures q.Defined? ==> q.value >= 0.0
    ensures num <= den && q.Defined? ==> q.value <= 100.0
  {
    match Ratio(num, den)
    case Undefined => Undefined
    case Defined(v) => Defined(v * 100.0)
  }

  /** The six KPIs of the overview. */
  datatype KpiSet = KpiSet(
    totalCrashes: nat,
    injuryRate: Rate,
    fatalityRate: Rate,
    speedViolationRate: Rate,
    underInfluenceRate: Rate,
    totalDeaths: nat)

  /** The KPIs of a table. Every rate is taken over the table's total crash
      count, so all four are undefined exactly when that count is zero. */
  function ComputeKpis(rows: seq<Record>): (k: KpiSet)
    ensures k.totalCrashes == ColumnSum(rows, TotalCrashes)
    ensures k.totalDeaths == ColumnSum(rows, NumKilled)
    ensures IsQuotient(k.injuryRate, ColumnSum(rows, NumInjured) as real, k.totalCrashes)
    ensures IsQuotient(k.fatalityRate, k.totalDeaths as real, k.totalCrashes)
    ensures IsQuotient(k.speedViolationRate, 100.0 * ColumnSum(rows, SPV) as real, k.totalCrashes)
    ensures IsQuotient(k.underInfluenceRate, 100.0 * ColumnSum(rows, DAD) as real, k.totalCrashes)
  {
    var crashes, killed := ColumnSum(rows, TotalCrashes), ColumnSum(rows, NumKilled);
    var injuryRate := Ratio(ColumnSum(rows, NumInjured), crashes);
    var fatalityRate := Ratio(killed, crashes);
    var speedRate := Percentage(ColumnSum(rows, SPV), crashes);
    var influenceRate := Percentage(ColumnSum(rows, DAD), crashes);
    KpiSet(crashes, injuryRate, fatalityRate, speedRate, influenceRate, killed)
  }

  /** The KPIs depend only on which rows the table holds, not on their order. */
  lemma KpisIgnoreRowOrder(a: seq<Record>, b: seq<Record>)
    requires multiset(a) == multiset(b)
    ensures ComputeKpis(a) == ComputeKpis(b)
  {
    ColumnSumPermutation(a, b, TotalCrashes);
    ColumnSumPermutation(a, b, NumInjured);
    ColumnSumPermutation(a, b, NumKilled);
    ColumnSumPermutation(a, b, SPV);
    ColumnSumPermutation(a, b, DAD);
  }

  /** With no crashes in the table every rate is undefined, the table's
      other sums notwithstanding. */
  lemma NoCrashesNoRates(rows: seq<Record>)
    requires ColumnSum(rows, TotalCrashes) == 0
    ensures var k := ComputeKpis(rows);
      k.injuryRate == k.fatalityRate == k.speedViolationRate == k.underInfluenceRate == Undefined
  {
  }
}
