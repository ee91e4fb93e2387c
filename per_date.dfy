/** `groupby("date")` over the pivoted rows: one row per date with the
    counts summed and the vaccine names joined. */
module PerDate {
  import opened Vaccines
  import opened Frames
  import opened Grouping
  import opened NameLists
  import opened DosePivot

  /** A row of the frame grouped by date, before zeros are marked missing. */
  datatype DayTotals = DayTotals(
    date: Timestamp,
    peopleFullyVaccinated: int, peopleVaccinated: int, totalVaccinations: int,
    vaccine: string)

  function TotalsCell(t: DayTotals, c: Column): int {
    match c
    case PeopleFullyVaccinated => t.peopleFullyVaccinated
    case PeopleVaccinated => t.peopleVaccinated
    case TotalVaccinations => t.totalVaccinations
  }

  /** The dates the rows carry. */
  ghost function DateSet(rows: seq<VaccineDay>): set<Timestamp> {
    set r | r in rows :: r.date
  }

  /** The groups of `groupby("date")`: every date of the rows, once each, in
      ascending order. */
  function GroupDates(rows: seq<VaccineDay>): (ds: seq<Timestamp>)
    ensures Increasing(ds)
    ensures forall x :: x in ds <==> x in DateSet(rows)
  {
    if |rows| == 0 then []
    else
      assert DateSet(rows) == DateSet(rows[1..]) + {rows[0].date} by {
        assert forall r :: r in rows <==> r == rows[0] || r in rows[1..];
      }
      InsertDate(GroupDates(rows[1..]), rows[0].date)
  }

  /** The `sum` aggregation: column `c` summed over the rows dated `d`. */
  function DateSum(rows: seq<VaccineDay>, d: Timestamp, c: Column): int {
    if |rows| == 0 then 0
    else (if rows[0].date == d then DayCell(rows[0], c) else 0) + DateSum(rows[1..], d, c)
  }

  /** With non-negative cells, no per-date sum is negative. */
  lemma {:induction false} DateSumNonNegative(rows: seq<VaccineDay>, d: Timestamp, c: Column)
    requires forall r :: r in rows ==> DayCell(r, c) >= 0
    ensures DateSum(rows, d, c) >= 0
  {
    if |rows| > 0 {
      assert forall r :: r in rows[1..] ==> r in rows;
      DateSumNonNegative(rows[1..], d, c);
    }
  }

  /** The vaccine column of the rows dated `d`, in frame order. */
  function VaccinesOn(rows: seq<VaccineDay>, d: Timestamp): seq<Vaccine> {
    if |rows| == 0 then []
    else (if rows[0].date == d then [rows[0].vaccine] else []) + VaccinesOn(rows[1..], d)
  }

  /** The aggregated row of date `d`: each count column summed over the
      rows dated `d`, and the names of those rows joined in sorted order,
      whatever order the rows come in. */
  function TotalsOn(rows: seq<VaccineDay>, d: Timestamp): (t: DayTotals)
    ensures t.date == d
    ensures forall c :: TotalsCell(t, c) == DateSum(rows, d, c)
    ensures exists vs :: t.vaccine == JoinNames(vs) && SortedByName(vs) && multiset(vs) == multiset(VaccinesOn(rows, d))
  {
    DayTotals(d,
      DateSum(rows, d, PeopleFullyVaccinated), DateSum(rows, d, PeopleVaccinated),
      DateSum(rows, d, TotalVaccinations),
      JoinNames(SortByName(VaccinesOn(rows, d))))
  }

  function TotalsRows(rows: seq<VaccineDay>, ds: seq<Timestamp>): (out: seq<DayTotals>)
    requires Increasing(ds)
    ensures |out| == |ds|
    ensures forall i :: 0 <= i < |ds| ==> out[i].date == ds[i]
    ensures forall i, j :: 0 <= i < j < |out| ==> out[i].date < out[j].date
    ensures forall i :: 0 <= i < |ds| ==> out[i] == TotalsOn(rows, out[i].date)
  {
    seq(|ds|, i requires 0 <= i < |ds| => TotalsOn(rows, ds[i]))
  }

  /** `groupby("date").agg(...)`: one row per date that occurs, in ascending
      date order, each the aggregate of that date's rows. */
  function AggregateByDate(rows: seq<VaccineDay>): (out: seq<DayTotals>)
    ensures forall i, j :: 0 <= i < j < |out| ==> out[i].date < out[j].date
    ensures forall d :: d in DateSet(rows) ==> exists i :: 0 <= i < |out| && out[i].date == d
    ensures forall i :: 0 <= i < |out| ==> out[i].date in DateSet(rows)
    ensures forall i :: 0 <= i < |out| ==> out[i] == TotalsOn(rows, out[i].date)
  {
    var ds := GroupDates(rows);
    var out := TotalsRows(rows, ds);
    assert forall d :: d in DateSet(rows) ==> exists i :: 0 <= i < |out| && out[i].date == d by {
      forall d | d in DateSet(rows) ensures exists i :: 0 <= i < |out| && out[i].date == d {
        var i :| 0 <= i < |ds| && ds[i] == d;
      }
    }
    out
  }

  /** In key-sorted rows the vaccines of one date already come in strictly
      ascending order, and they are exactly the vaccines of that date. */
  lemma {:induction false} VaccinesOnAscending(rows: seq<VaccineDay>, d: Timestamp)
    requires forall i, j :: 0 <= i < j < |rows| ==> KeyLess(DayKey(rows[i]), DayKey(rows[j]))
    ensures StrictlySortedByName(VaccinesOn(rows, d))
    ensures forall v :: v in VaccinesOn(rows, d) <==> exists r :: r in rows && r.date == d && r.vaccine == v
  {
    if |rows| > 0 {
      var tail := rows[1..];
      assert forall i :: 0 <= i < |tail| ==> tail[i] == rows[i + 1];
      VaccinesOnAscending(tail, d);
      var rest := VaccinesOn(tail, d);
      assert forall r :: r in rows <==> r == rows[0] || r in tail;
      if rows[0].date == d {
        var vs := [rows[0].vaccine] + rest;
        assert VaccinesOn(rows, d) == vs;
        forall x | x in rest ensures Rank(rows[0].vaccine) < Rank(x) {
          var r :| r in tail && r.date == d && r.vaccine == x;
          var k :| 0 <= k < |tail| && tail[k] == r;
          assert KeyLess(DayKey(rows[0]), DayKey(rows[k + 1]));
        }
        forall i, j | 0 <= i < j < |vs| ensures Rank(vs[i]) < Rank(vs[j]) {
          assert vs[j] == rest[j - 1];
          assert vs[j] in rest;
          if i > 0 {
            assert vs[i] == rest[i - 1];
          }
        }
      } else {
        assert VaccinesOn(rows, d) == rest;
      }
    }
  }

  /** The vaccine column of the per-date frame: for key-sorted rows (the
      pivot's), the names joined are those of the date's rows, each once, in
      ascending string order. */
  lemma VaccineColumn(rows: seq<VaccineDay>, d: Timestamp)
    requires forall i, j :: 0 <= i < j < |rows| ==> KeyLess(DayKey(rows[i]), DayKey(rows[j]))
    ensures var vs := SortByName(VaccinesOn(rows, d));
      && TotalsOn(rows, d).vaccine == JoinNames(vs)
      && (forall i, j :: 0 <= i < j < |vs| ==> NameLess(DisplayName(vs[i]), DisplayName(vs[j])))
      && (forall v :: v in vs <==> exists r :: r in rows && r.date == d && r.vaccine == v)
  {
    VaccinesOnAscending(rows, d);
    var vs := VaccinesOn(rows, d);
    assert SortedByName(vs);
    SortByNameOfSorted(vs);
    forall i, j | 0 <= i < j < |vs| ensures NameLess(DisplayName(vs[i]), DisplayName(vs[j])) {
      RankIsNameOrder(vs[i], vs[j]);
    }
  }
}
