/** The first half of the national table: the records pivoted by dose
    label into one row per (date, vaccine) pair, and the single-shot
    override on those rows. */
module DosePivot {
  import opened Options
  import opened Vaccines
  import opened Frames
  import opened Grouping

  /** The feed's dose labels ("first dose", "second dose"). */
  const FirstDose: string := "Pirma dozė"
  const SecondDose: string := "Antra dozė"

  /** The name the single-shot mask compares with. It is a source name, and
      the column has already been mapped to canonical names when the mask is
      computed. */
  const SingleShotName: string := "Johnson & Johnson"

  /** A row of the pivoted frame: one (date, vaccine) pair. */
  datatype VaccineDay = VaccineDay(
    date: Timestamp, vaccine: Vaccine,
    peopleVaccinated: int, peopleFullyVaccinated: int, totalVaccinations: int)

  function DayKey(r: VaccineDay): Key {
    Key(r.date, r.vaccine)
  }

  /** The three count columns of the national table. */
  datatype Column = PeopleFullyVaccinated | PeopleVaccinated | TotalVaccinations

  function DayCell(r: VaccineDay, c: Column): int {
    match c
    case PeopleFullyVaccinated => r.peopleFullyVaccinated
    case PeopleVaccinated => r.peopleVaccinated
    case TotalVaccinations => r.totalVaccinations
  }

  // ---------------------------------------------------------------- pivot

  function PivotRows(recs: seq<Record>, ks: seq<Key>): (rows: seq<VaccineDay>)
    ensures |rows| == |ks|
    ensures forall i :: 0 <= i < |ks| ==> DayKey(rows[i]) == ks[i]
    ensures forall i :: 0 <= i < |ks| ==>
      && rows[i].peopleVaccinated == DoseSum(recs, DayKey(rows[i]), FirstDose)
      && rows[i].peopleFullyVaccinated == DoseSum(recs, DayKey(rows[i]), SecondDose)
      && rows[i].totalVaccinations == rows[i].peopleVaccinated + rows[i].peopleFullyVaccinated
  {
    seq(|ks|, i requires 0 <= i < |ks| =>
      var first := DoseSum(recs, ks[i], FirstDose);
      var second := DoseSum(recs, ks[i], SecondDose);
      VaccineDay(ks[i].date, ks[i].vaccine, first, second, first + second))
  }

  /** Group by (date, dose, vaccine), pivot the dose labels into columns with
      0 for an absent combination, rename, sort by date, and add the total:
      one row for each (date, vaccine) pair that occurs under any dose label,
      in key order, whose first- and second-dose columns are the sums over
      that pair's records with the corresponding label and whose total is
      their sum. */
  function Pivot(recs: seq<Record>): (rows: seq<VaccineDay>)
    ensures forall i, j :: 0 <= i < j < |rows| ==> KeyLess(DayKey(rows[i]), DayKey(rows[j]))
    ensures forall k :: k in KeySet(recs) ==> exists i :: 0 <= i < |rows| && DayKey(rows[i]) == k
    ensures forall i :: 0 <= i < |rows| ==> DayKey(rows[i]) in KeySet(recs)
    ensures forall i :: 0 <= i < |rows| ==>
      && rows[i].peopleVaccinated == DoseSum(recs, DayKey(rows[i]), FirstDose)
      && rows[i].peopleFullyVaccinated == DoseSum(recs, DayKey(rows[i]), SecondDose)
      && rows[i].totalVaccinations == rows[i].peopleVaccinated + rows[i].peopleFullyVaccinated
  {
    var ks := GroupKeys(recs);
    var rows := PivotRows(recs, ks);
    assert forall k :: k in KeySet(recs) ==> exists i :: 0 <= i < |rows| && DayKey(rows[i]) == k by {
      forall k | k in KeySet(recs) ensures exists i :: 0 <= i < |rows| && DayKey(rows[i]) == k {
        var i :| 0 <= i < |ks| && ks[i] == k;
      }
    }
    rows
  }

  /** Whether some record carries the dose label: the pivot has a column for
      it, and the script's later reference to that column succeeds. */
  predicate HasDoseColumn(recs: seq<Record>, dose: string) {
    exists r :: r in recs && r.doseNumber == dose
  }

  // ---------------------------------------------------------- single shot

  function SingleShotRow(r: VaccineDay, name: string): VaccineDay {
    if DisplayName(r.vaccine) == name then r.(peopleFullyVaccinated := r.peopleVaccinated) else r
  }

  /** The single-shot override: on rows whose vaccine name equals `name`, the
      fully-vaccinated count is replaced by the first-dose count. */
  function SingleShot(rows: seq<VaccineDay>, name: string): (out: seq<VaccineDay>)
    ensures |out| == |rows|
    ensures forall i :: 0 <= i < |rows| ==>
      out[i].peopleFullyVaccinated == (if DisplayName(rows[i].vaccine) == name then rows[i].peopleVaccinated else rows[i].peopleFullyVaccinated)
    ensures forall i :: 0 <= i < |rows| ==>
      out[i] == rows[i].(peopleFullyVaccinated := out[i].peopleFullyVaccinated)
  {
    seq(|rows|, i requires 0 <= i < |rows| => SingleShotRow(rows[i], name))
  }

  /** The masked overwrite, in place. */
  method OverwriteFullyVaccinated(a: array<VaccineDay>, name: string)
    modifies a
    ensures a[..] == SingleShot(old(a[..]), name)
  {
    for i := 0 to a.Length
      invariant forall j :: 0 <= j < i ==> a[j] == SingleShotRow(old(a[j]), name)
      invariant forall j :: i <= j < a.Length ==> a[j] == old(a[j])
    {
      if DisplayName(a[i].vaccine) == name {
        a[i] := a[i].(peopleFullyVaccinated := a[i].peopleVaccinated);
      }
    }
  }

  /** The mask tests a source name on a column of canonical names, so no row
      matches and the override leaves the frame as it is. */
  lemma SingleShotNeverFires(rows: seq<VaccineDay>)
    ensures SingleShot(rows, SingleShotName) == rows
  {
  }
}
