/** The by-manufacturer table: doses per day and manufacturer, turned into a
    cumulative count per manufacturer. */
module ByManufacturer {
  import opened Vaccines
  import opened Frames
  import opened Grouping

  /** A row of the table. `totalVaccinations` holds the day's doses until the
      running sum replaces them with the manufacturer's cumulative count. */
  datatype ManufacturerRow = ManufacturerRow(date: Timestamp, vaccine: Vaccine, totalVaccinations: int)

  function RowKey(r: ManufacturerRow): Key {
    Key(r.date, r.vaccine)
  }

  /** One row per key, carrying the sum over that key's group. */
  function GroupRows(recs: seq<Record>, ks: seq<Key>): (rows: seq<ManufacturerRow>)
    ensures |rows| == |ks|
    ensures forall i :: 0 <= i < |ks| ==> RowKey(rows[i]) == ks[i]
    ensures forall i :: 0 <= i < |ks| ==> rows[i].totalVaccinations == GroupSum(recs, RowKey(rows[i]))
  {
    seq(|ks|, i requires 0 <= i < |ks| => ManufacturerRow(ks[i].date, ks[i].vaccine, GroupSum(recs, ks[i])))
  }

  /** Group by date and vaccine, sum the counts, sort by date: one row for
      each (date, vaccine) pair that occurs, in date order, carrying the sum
      over its group. */
  function DailyByVaccine(recs: seq<Record>): (rows: seq<ManufacturerRow>)
    ensures forall i, j :: 0 <= i < j < |rows| ==> KeyLess(RowKey(rows[i]), RowKey(rows[j]))
    ensures forall k :: k in KeySet(recs) ==> exists i :: 0 <= i < |rows| && RowKey(rows[i]) == k
    ensures forall i :: 0 <= i < |rows| ==> RowKey(rows[i]) in KeySet(recs)
    ensures forall i :: 0 <= i < |rows| ==> rows[i].totalVaccinations == GroupSum(recs, RowKey(rows[i]))
  {
    var ks := GroupKeys(recs);
    var rows := GroupRows(recs, ks);
    assert forall k :: k in KeySet(recs) ==> exists i :: 0 <= i < |rows| && RowKey(rows[i]) == k by {
      forall k | k in KeySet(recs) ensures exists i :: 0 <= i < |rows| && RowKey(rows[i]) == k {
        var i :| 0 <= i < |ks| && ks[i] == k;
      }
    }
    rows
  }

  /** The sum of vaccine `v`'s values on the first `n` rows. */
  function VaccineSum(rows: seq<ManufacturerRow>, v: Vaccine, n: nat): int
    requires n <= |rows|
  {
    if n == 0 then 0
    else VaccineSum(rows, v, n - 1) + (if rows[n - 1].vaccine == v then rows[n - 1].totalVaccinations else 0)
  }

  /** The per-vaccine cumulative sum assigned back to the column: each
      row's value becomes the sum of its vaccine's values up to and
      including that row. */
  function Running(rows: seq<ManufacturerRow>): seq<ManufacturerRow> {
    seq(|rows|, i requires 0 <= i < |rows| =>
      rows[i].(totalVaccinations := VaccineSum(rows, rows[i].vaccine, i + 1)))
  }

  /** The column assignment, done in place with one carried total per vaccine. */
  method CumulateByVaccine(a: array<ManufacturerRow>)
    modifies a
    ensures a[..] == Running(old(a[..]))
  {
    ghost var s := a[..];
    var carried: map<Vaccine, int> := map[];
    for i := 0 to a.Length
      invariant forall v :: (if v in carried then carried[v] else 0) == VaccineSum(s, v, i)
      invariant forall j :: 0 <= j < i ==> a[j] == Running(s)[j]
      invariant forall j :: i <= j < a.Length ==> a[j] == s[j]
    {
      var v := a[i].vaccine;
      var total := (if v in carried then carried[v] else 0) + a[i].totalVaccinations;
      carried := carried[v := total];
      a[i] := a[i].(totalVaccinations := total);
    }
  }

  /** Rows of other vaccines leave `v`'s sum where it is. */
  lemma {:induction false} VaccineSumFlat(rows: seq<ManufacturerRow>, v: Vaccine, m: nat, n: nat)
    requires m <= n <= |rows|
    requires forall k :: m <= k < n ==> rows[k].vaccine != v
    ensures VaccineSum(rows, v, n) == VaccineSum(rows, v, m)
  {
    if m < n {
      VaccineSumFlat(rows, v, m, n - 1);
    }
  }

  /** With positive daily values, `v`'s sum grows, strictly over any stretch
      that holds a row of `v`. */
  lemma {:induction false} VaccineSumGrows(rows: seq<ManufacturerRow>, v: Vaccine, m: nat, n: nat)
    requires m <= n <= |rows|
    requires forall k :: 0 <= k < |rows| ==> rows[k].totalVaccinations > 0
    ensures VaccineSum(rows, v, m) <= VaccineSum(rows, v, n)
    ensures (exists k :: m <= k < n && rows[k].vaccine == v) ==> VaccineSum(rows, v, m) < VaccineSum(rows, v, n)
  {
    if m < n {
      VaccineSumGrows(rows, v, m, n - 1);
    }
  }

  /** The carry: a vaccine's first row keeps its daily value, and each later
      row adds its daily value to the running total of that vaccine's
      previous row. */
  lemma RunningCarries(rows: seq<ManufacturerRow>, i: nat, j: nat)
    requires i < j < |rows|
    requires rows[i].vaccine == rows[j].vaccine
    requires forall k :: i < k < j ==> rows[k].vaccine != rows[j].vaccine
    ensures |Running(rows)| == |rows|
    ensures Running(rows)[j].totalVaccinations == Running(rows)[i].totalVaccinations + rows[j].totalVaccinations
    ensures (forall k :: 0 <= k < i ==> rows[k].vaccine != rows[i].vaccine) ==>
      Running(rows)[i].totalVaccinations == rows[i].totalVaccinations
  {
    VaccineSumFlat(rows, rows[j].vaccine, i + 1, j);
    if forall k :: 0 <= k < i ==> rows[k].vaccine != rows[i].vaccine {
      VaccineSumFlat(rows, rows[i].vaccine, 0, i);
    }
  }

  /** With positive daily values the cumulative count of each vaccine is
      strictly increasing down the table. */
  lemma RunningStrictlyIncreasing(rows: seq<ManufacturerRow>)
    requires forall k :: 0 <= k < |rows| ==> rows[k].totalVaccinations > 0
    ensures |Running(rows)| == |rows|
    ensures forall i, j :: 0 <= i < j < |rows| && rows[i].vaccine == rows[j].vaccine ==>
      Running(rows)[i].totalVaccinations < Running(rows)[j].totalVaccinations
  {
    forall i, j | 0 <= i < j < |rows| && rows[i].vaccine == rows[j].vaccine
      ensures Running(rows)[i].totalVaccinations < Running(rows)[j].totalVaccinations
    {
      VaccineSumGrows(rows, rows[j].vaccine, i + 1, j + 1);
    }
  }

  /** Lines 39-45 together. */
  function ManufacturerTable(recs: seq<Record>): seq<ManufacturerRow> {
    Running(DailyByVaccine(recs))
  }

  /** The table as a whole: one row per (date, vaccine) pair in date order,
      and, the feed's counts being positive, a cumulative count that strictly
      increases along each vaccine's rows. */
  lemma ManufacturerTableIncreasing(recs: seq<Record>)
    requires forall r :: r in recs ==> r.vaccinated > 0
    ensures var t := ManufacturerTable(recs);
      && (forall i, j :: 0 <= i < j < |t| ==> t[i].date <= t[j].date && RowKey(t[i]) != RowKey(t[j]))
      && (forall i, j :: 0 <= i < j < |t| && t[i].vaccine == t[j].vaccine ==> t[i].totalVaccinations < t[j].totalVaccinations)
  {
    var daily := DailyByVaccine(recs);
    forall k | 0 <= k < |daily| ensures daily[k].totalVaccinations > 0 {
      GroupSumPositive(recs, RowKey(daily[k]));
    }
    RunningStrictlyIncreasing(daily);
  }
}
