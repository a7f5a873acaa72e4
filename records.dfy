/** One crash record (one row of the crash table) and the column sums over a
    sequence of them. */
module Records {

  import opened Sequences

  /** The four cause labels offered by the cause filter. The filter looks
      each label up as a column of the table, so each label is an indicator
      column of its own. */
  datatype Cause = SpeedViolation | AlcoholDrugInfluence | PoorWeather | Fatigue

  /** A row of the crash table. Every numeric column is a count, hence `nat`. */
  datatype Record = Record(
    state: string,
    quarter: string,
    numInjured: nat,
    numKilled: nat,
    totalCrashes: nat,
    totalVehiclesInvolved: nat,
    spv: nat,
    dad: nat,
    pwr: nat,
    ftq: nat,
    otherFactors: nat,
    speedViolation: nat,
    alcoholDrugInfluence: nat,
    poorWeather: nat,
    fatigue: nat)

  /** The count columns that a column sum or a group-by can read. */
  datatype Column =
    | NumInjured | NumKilled | TotalCrashes | TotalVehiclesInvolved
    | SPV | DAD | PWR | FTQ | OtherFactors

  /** The value of column `col` in row `r`. */
  function Get(r: Record, col: Column): nat
  {
    match col
    case NumInjured => r.numInjured
    case NumKilled => r.numKilled
    case TotalCrashes => r.totalCrashes
    case TotalVehiclesInvolved => r.totalVehiclesInvolved
    case SPV => r.spv
    case DAD => r.dad
    case PWR => r.pwr
    case FTQ => r.ftq
    case OtherFactors => r.otherFactors
  }

  /** The value of the indicator column named by cause `c` in row `r`. */
  function CauseIndicator(r: Record, c: Cause): nat
  {
    match c
    case SpeedViolation => r.speedViolation
    case AlcoholDrugInfluence => r.alcoholDrugInfluence
    case PoorWeather => r.poorWeather
    case Fatigue => r.fatigue
  }

  /** `rows[col].sum()`: the sum of one column over all rows. No row's
      value exceeds it, and an empty table sums to zero. */
  function ColumnSum(rows: seq<Record>, col: Column): (s: nat)
    ensures forall i :: 0 <= i < |rows| ==> Get(rows[i], col) <= s
    ensures rows == [] ==> s == 0
  {
    if rows == [] then 0
    else
      var init := rows[..|rows| - 1];
      var s := ColumnSum(init, col) + Get(rows[|rows| - 1], col);
      assert forall i :: 0 <= i < |init| ==> rows[i] == init[i];
      s
  }

  /** A column sum over a concatenation is the sum of the two parts. */
  lemma {:induction false} ColumnSumAppend(a: seq<Record>, b: seq<Record>, col: Column)
    ensures ColumnSum(a + b, col) == ColumnSum(a, col) + ColumnSum(b, col)
  {
    if b == [] {
      assert a + b == a;
    } else {
      var n := |b| - 1;
      assert (a + b)[..|a + b| - 1] == a + b[..n];
      ColumnSumAppend(a, b[..n], col);
    }
  }

  /** Taking one row out of a table lowers each column sum by that row's value. */
  lemma ColumnSumRemove(b: seq<Record>, i: nat, col: Column)
    requires i < |b|
    ensures ColumnSum(b, col) == ColumnSum(b[..i] + b[i + 1..], col) + Get(b[i], col)
  {
    assert b == b[..i] + ([b[i]] + b[i + 1..]);
    ColumnSumAppend(b[..i], [b[i]] + b[i + 1..], col);
    ColumnSumAppend([b[i]], b[i + 1..], col);
    ColumnSumAppend(b[..i], b[i + 1..], col);
    assert [b[i]][..0] == [];
  }

  /** A column sum does not depend on the order of the rows: two tables
      holding the same rows the same number of times have the same sums. */
  lemma {:induction false} ColumnSumPermutation(a: seq<Record>, b: seq<Record>, col: Column)
    requires multiset(a) == multiset(b)
    ensures ColumnSum(a, col) == ColumnSum(b, col)
    decreases |a|
  {
    if a == [] {
      assert |b| == |multiset(b)| == 0;
    } else {
      var x := a[|a| - 1];
      assert x in multiset(b);
      var i :| 0 <= i < |b| && b[i] == x;
      var rest := b[..i] + b[i + 1..];
      MultisetRemove(a, b, i);
      ColumnSumPermutation(a[..|a| - 1], rest, col);
      ColumnSumRemove(b, i, col);
    }
  }
}
