/** The last steps of the national table: zero counts become missing, then
    each count column is replaced by its running sum, which skips missing
    cells. */
module NationalTotals {
  import opened Options
  import opened Frames
  import opened DosePivot
  import opened PerDate

  /** A row of the national table. A count is None where pandas holds NA. */
  datatype NationalRow = NationalRow(
    date: Timestamp,
    peopleFullyVaccinated: Option<int>, peopleVaccinated: Option<int>, totalVaccinations: Option<int>,
    vaccine: string)

  function Cell(r: NationalRow, c: Column): Option<int> {
    match c
    case PeopleFullyVaccinated => r.peopleFullyVaccinated
    case PeopleVaccinated => r.peopleVaccinated
    case TotalVaccinations => r.totalVaccinations
  }

  function MissingIfZero(x: int): Option<int> {
    if x == 0 then None else Some(x)
  }

  /** Replacing 0 by NA: a zero count becomes missing, every other
      count and column is kept. */
  function ZeroToMissing(ts: seq<DayTotals>): (rows: seq<NationalRow>)
    ensures |rows| == |ts|
    ensures forall i :: 0 <= i < |ts| ==> rows[i].date == ts[i].date && rows[i].vaccine == ts[i].vaccine
    ensures forall i, c :: 0 <= i < |ts| ==> Cell(rows[i], c) != Some(0)
    ensures forall i, c :: 0 <= i < |ts| ==> (Cell(rows[i], c).None? <==> TotalsCell(ts[i], c) == 0)
    ensures forall i, c :: 0 <= i < |ts| && TotalsCell(ts[i], c) != 0 ==> Cell(rows[i], c) == Some(TotalsCell(ts[i], c))
  {
    seq(|ts|, i requires 0 <= i < |ts| =>
      NationalRow(ts[i].date,
        MissingIfZero(ts[i].peopleFullyVaccinated), MissingIfZero(ts[i].peopleVaccinated),
        MissingIfZero(ts[i].totalVaccinations), ts[i].vaccine))
  }

  /** The sum of the present cells of column `c` on the first `n` rows. */
  function PresentSum(rows: seq<NationalRow>, c: Column, n: nat): int
    requires n <= |rows|
  {
    if n == 0 then 0
    else PresentSum(rows, c, n - 1) + (match Cell(rows[n - 1], c) case None => 0 case Some(x) => x)
  }

  function RunningCell(rows: seq<NationalRow>, c: Column, i: nat): Option<int>
    requires i < |rows|
  {
    if Cell(rows[i], c).None? then None else Some(PresentSum(rows, c, i + 1))
  }

  /** `Series.cumsum()` on each count column: a missing cell stays missing,
      a present one becomes the sum of the column's present cells up to and
      including it. */
  function Cumulative(rows: seq<NationalRow>): seq<NationalRow> {
    seq(|rows|, i requires 0 <= i < |rows| =>
      NationalRow(rows[i].date,
        RunningCell(rows, PeopleFullyVaccinated, i), RunningCell(rows, PeopleVaccinated, i),
        RunningCell(rows, TotalVaccinations, i), rows[i].vaccine))
  }

  /** The three running sums, computed in one scan with a carried total per
      column. */
  method CumulativeSums(rows: seq<NationalRow>) returns (out: seq<NationalRow>)
    ensures out == Cumulative(rows)
  {
    var fully, first, total := 0, 0, 0;
    out := [];
    for i := 0 to |rows|
      invariant |out| == i
      invariant fully == PresentSum(rows, PeopleFullyVaccinated, i)
      invariant first == PresentSum(rows, PeopleVaccinated, i)
      invariant total == PresentSum(rows, TotalVaccinations, i)
      invariant forall j :: 0 <= j < i ==> out[j] == Cumulative(rows)[j]
    {
      var r := rows[i];
      if r.peopleFullyVaccinated.Some? {
        fully := fully + r.peopleFullyVaccinated.value;
      }
      if r.peopleVaccinated.Some? {
        first := first + r.peopleVaccinated.value;
      }
      if r.totalVaccinations.Some? {
        total := total + r.totalVaccinations.value;
      }
      out := out + [NationalRow(r.date,
        if r.peopleFullyVaccinated.Some? then Some(fully) else None,
        if r.peopleVaccinated.Some? then Some(first) else None,
        if r.totalVaccinations.Some? then Some(total) else None,
        r.vaccine)];
    }
  }

  /** Missing cells add nothing to a column's running sum. */
  lemma {:induction false} PresentSumFlat(rows: seq<NationalRow>, c: Column, m: nat, n: nat)
    requires m <= n <= |rows|
    requires forall k :: m <= k < n ==> Cell(rows[k], c).None?
    ensures PresentSum(rows, c, n) == PresentSum(rows, c, m)
  {
    if m < n {
      PresentSumFlat(rows, c, m, n - 1);
    }
  }

  /** With positive present cells a column's running sum grows, strictly
      over any stretch that holds a present cell. */
  lemma {:induction false} PresentSumGrows(rows: seq<NationalRow>, c: Column, m: nat, n: nat)
    requires m <= n <= |rows|
    requires forall k :: 0 <= k < |rows| && Cell(rows[k], c).Some? ==> Cell(rows[k], c).value > 0
    ensures PresentSum(rows, c, m) <= PresentSum(rows, c, n)
    ensures (exists k :: m <= k < n && Cell(rows[k], c).Some?) ==> PresentSum(rows, c, m) < PresentSum(rows, c, n)
  {
    if m < n {
      PresentSumGrows(rows, c, m, n - 1);
    }
  }

  /** The cumulative table keeps the shape of its input: same dates, same
      vaccine lists, and exactly the same cells missing. */
  lemma CumulativeKeepsMissing(rows: seq<NationalRow>)
    ensures |Cumulative(rows)| == |rows|
    ensures forall i :: 0 <= i < |rows| ==>
      Cumulative(rows)[i].date == rows[i].date && Cumulative(rows)[i].vaccine == rows[i].vaccine
    ensures forall i, c :: 0 <= i < |rows| ==> (Cell(Cumulative(rows)[i], c).None? <==> Cell(rows[i], c).None?)
  {
  }

  /** A missing stretch does not reset the carry: a present cell's running
      sum is that of the previous present cell of its column plus its own
      value, however many missing cells lie between them; the column's
      first present cell keeps its value. */
  lemma CumulativeCarriesOverGaps(rows: seq<NationalRow>, c: Column, i: nat, j: nat)
    requires i < j < |rows|
    requires Cell(rows[i], c).Some? && Cell(rows[j], c).Some?
    requires forall k :: i < k < j ==> Cell(rows[k], c).None?
    ensures |Cumulative(rows)| == |rows|
    ensures Cell(Cumulative(rows)[j], c) == Some(Cell(Cumulative(rows)[i], c).value + Cell(rows[j], c).value)
    ensures (forall k :: 0 <= k < i ==> Cell(rows[k], c).None?) ==>
      Cell(Cumulative(rows)[i], c) == Cell(rows[i], c)
  {
    assert Cell(Cumulative(rows)[j], c) == RunningCell(rows, c, j);
    assert Cell(Cumulative(rows)[i], c) == RunningCell(rows, c, i);
    PresentSumFlat(rows, c, i + 1, j);
    if forall k :: 0 <= k < i ==> Cell(rows[k], c).None? {
      PresentSumFlat(rows, c, 0, i);
    }
  }

  /** With positive present cells no running sum is zero, and along each
      column the present running sums strictly increase. */
  lemma CumulativePositive(rows: seq<NationalRow>)
    requires forall k, c :: 0 <= k < |rows| && Cell(rows[k], c).Some? ==> Cell(rows[k], c).value > 0
    ensures |Cumulative(rows)| == |rows|
    ensures forall i, c :: 0 <= i < |rows| ==> Cell(Cumulative(rows)[i], c) != Some(0)
    ensures forall i, j, c :: 0 <= i < j < |rows| && Cell(rows[i], c).Some? && Cell(rows[j], c).Some? ==>
      Cell(Cumulative(rows)[i], c).value < Cell(Cumulative(rows)[j], c).value
  {
    forall i, c | 0 <= i < |rows| ensures Cell(Cumulative(rows)[i], c) != Some(0) {
      assert Cell(Cumulative(rows)[i], c) == RunningCell(rows, c, i);
      if Cell(rows[i], c).Some? {
        PresentSumGrows(rows, c, 0, i + 1);
      }
    }
    forall i, j, c | 0 <= i < j < |rows| && Cell(rows[i], c).Some? && Cell(rows[j], c).Some?
      ensures Cell(Cumulative(rows)[i], c).value < Cell(Cumulative(rows)[j], c).value
    {
      assert Cell(Cumulative(rows)[i], c) == RunningCell(rows, c, i);
      assert Cell(Cumulative(rows)[j], c) == RunningCell(rows, c, j);
      PresentSumGrows(rows, c, i + 1, j + 1);
    }
  }
}
