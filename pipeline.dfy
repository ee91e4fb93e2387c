/** The whole batch run: date correction, vocabulary assertion and name
    substitution, the by-manufacturer table, then the national table. */
module Pipeline {
  import opened Options
  import opened Vaccines
  import opened Frames
  import opened DateCorrection
  import opened Vocabulary
  import opened Grouping
  import opened ByManufacturer
  import opened DosePivot
  import opened NameLists
  import opened PerDate
  import opened NationalTotals

  /** How a run ends. The vocabulary assertion aborts before anything is
      written; a missing dose label makes the script fail after the
      by-manufacturer table has been written; otherwise both tables are
      produced. */
  datatype Outcome =
    | SchemaMismatch
    | DoseColumnMissing(byManufacturer: seq<ManufacturerRow>)
    | Complete(byManufacturer: seq<ManufacturerRow>, national: seq<NationalRow>)

  /** The national table from the normalised records. */
  function NationalTable(recs: seq<Record>): seq<NationalRow> {
    Cumulative(ZeroToMissing(AggregateByDate(SingleShot(Pivot(recs), SingleShotName))))
  }

  /** The run as one function of the fetched records. */
  function Process(raw: seq<RawRecord>): Outcome {
    match Normalize(CorrectAll(raw))
    case None => SchemaMismatch
    case Some(recs) =>
      if HasDoseColumn(recs, FirstDose) && HasDoseColumn(recs, SecondDose) then
        Complete(ManufacturerTable(recs), NationalTable(recs))
      else
        DoseColumnMissing(ManufacturerTable(recs))
  }

  /** The run as the script performs it, stage after stage, with the
      in-place steps done on arrays. */
  method Run(raw: seq<RawRecord>) returns (o: Outcome)
    ensures o == Process(raw)
  {
    var fixed := CorrectFeed(raw);
    var normalized := Normalize(fixed);
    if normalized.None? {
      return SchemaMismatch;
    }
    var recs := normalized.value;
    var byManufacturer := BuildManufacturerTable(recs);
    if !(HasDoseColumn(recs, FirstDose) && HasDoseColumn(recs, SecondDose)) {
      return DoseColumnMissing(byManufacturer);
    }
    var national := BuildNationalTable(recs);
    return Complete(byManufacturer, national);
  }

  /** The fetched frame, date-corrected in place. */
  method CorrectFeed(raw: seq<RawRecord>) returns (fixed: seq<RawRecord>)
    ensures fixed == CorrectAll(raw)
  {
    var feed := new RawRecord[|raw|](i requires 0 <= i < |raw| => raw[i]);
    assert feed[..] == raw;
    CorrectDates(feed);
    fixed := feed[..];
  }

  /** The by-manufacturer table: grouped, then cumulated in place. */
  method BuildManufacturerTable(recs: seq<Record>) returns (t: seq<ManufacturerRow>)
    ensures t == ManufacturerTable(recs)
  {
    var daily := DailyByVaccine(recs);
    var table := new ManufacturerRow[|daily|](i requires 0 <= i < |daily| => daily[i]);
    assert table[..] == daily;
    CumulateByVaccine(table);
    t := table[..];
  }

  /** The national table: pivoted, overridden in place, aggregated per date,
      zeros marked missing and cumulated. */
  method BuildNationalTable(recs: seq<Record>) returns (t: seq<NationalRow>)
    ensures t == NationalTable(recs)
  {
    var pivot := Pivot(recs);
    var days := new VaccineDay[|pivot|](i requires 0 <= i < |pivot| => pivot[i]);
    assert days[..] == pivot;
    OverwriteFullyVaccinated(days, SingleShotName);
    t := CumulativeSums(ZeroToMissing(AggregateByDate(days[..])));
  }

  // ------------------------------------------------------------ the feed

  /** The date correction leaves every name and dose label alone. */
  lemma CorrectionKeepsLabels(raw: seq<RawRecord>, dose: string)
    ensures SourceVocabulary(CorrectAll(raw)) == SourceVocabulary(raw)
    ensures (exists r :: r in CorrectAll(raw) && r.doseNumber == dose) <==>
      (exists r :: r in raw && r.doseNumber == dose)
  {
  }

  /** The run stops at the vocabulary assertion exactly when the set of
      source names in the feed is not the four names of the mapping. */
  lemma SchemaMismatchIff(raw: seq<RawRecord>)
    ensures Process(raw).SchemaMismatch? <==> SourceVocabulary(raw) != VaccineMapping.Keys
  {
    CorrectionKeepsLabels(raw, FirstDose);
  }

  /** An empty feed ends without any table. The script fails before the
      assertion, when it reads the date column of a frame with no columns;
      the model reports the same outcome as a failed assertion. */
  lemma EmptyFeedRejected()
    ensures Process([]).SchemaMismatch?
  {
    assert "Moderna" !in SourceVocabulary([]);
    SchemaMismatchIff([]);
  }

  /** A feed that names fewer than the four vaccines, such as a single
      Pfizer-BioNTech first dose of 2020-12-01, fails the vocabulary
      assertion, and no table is produced. */
  lemma SingleRecordFeedRejected()
    ensures Process([RawRecord(1606780800000, "Pfizer-BioNTech", FirstDose, 5)]).SchemaMismatch?
  {
    var raw := [RawRecord(1606780800000, "Pfizer-BioNTech", FirstDose, 5)];
    assert "Moderna" in VaccineMapping.Keys;
    assert "Moderna" !in SourceVocabulary(raw);
    SchemaMismatchIff(raw);
  }

  /** The substitution table touches no dose label: its keys and values are
      vaccine names. */
  lemma ReplaceKeepsDoseLabels(cell: string)
    ensures Replace(cell) == FirstDose <==> cell == FirstDose
    ensures Replace(cell) == SecondDose <==> cell == SecondDose
  {
  }

  /** A dose column exists after the substitution exactly when some record
      of the feed carries that label. */
  lemma DoseLabelKept(feed: seq<RawRecord>, recs: seq<Record>, dose: string)
    requires |recs| == |feed|
    requires forall i :: 0 <= i < |feed| ==> recs[i].doseNumber == Replace(feed[i].doseNumber)
    requires dose == FirstDose || dose == SecondDose
    ensures HasDoseColumn(recs, dose) <==> exists r :: r in feed && r.doseNumber == dose
  {
  }

  /** The run fails on the dose columns exactly when the vocabulary is
      right but no record carries one of the two dose labels. */
  lemma DoseColumnMissingIff(raw: seq<RawRecord>)
    ensures Process(raw).DoseColumnMissing? <==>
      && SourceVocabulary(raw) == VaccineMapping.Keys
      && ((forall r :: r in raw ==> r.doseNumber != FirstDose) || (forall r :: r in raw ==> r.doseNumber != SecondDose))
  {
    CorrectionKeepsLabels(raw, FirstDose);
    CorrectionKeepsLabels(raw, SecondDose);
    var fixed := CorrectAll(raw);
    if Normalize(fixed).Some? {
      DoseLabelKept(fixed, Normalize(fixed).value, FirstDose);
      DoseLabelKept(fixed, Normalize(fixed).value, SecondDose);
    }
  }

  /** A feed that names all four vaccines but holds first doses only gets
      past the assertion and then fails on the missing second-dose column,
      with the by-manufacturer table already produced. */
  lemma FirstDosesOnlyFeedFails()
    ensures Process([
      RawRecord(1606780800000, "Pfizer-BioNTech", FirstDose, 5),
      RawRecord(1609027200000, "Moderna", FirstDose, 3),
      RawRecord(1609027200000, "AstraZeneca", FirstDose, 2),
      RawRecord(1609027200000, "Johnson & Johnson", FirstDose, 1)]).DoseColumnMissing?
  {
    var raw := [
      RawRecord(1606780800000, "Pfizer-BioNTech", FirstDose, 5),
      RawRecord(1609027200000, "Moderna", FirstDose, 3),
      RawRecord(1609027200000, "AstraZeneca", FirstDose, 2),
      RawRecord(1609027200000, "Johnson & Johnson", FirstDose, 1)];
    assert SourceVocabulary(raw) == VaccineMapping.Keys by {
      assert raw[0] in raw && raw[1] in raw && raw[2] in raw && raw[3] in raw;
    }
    DoseColumnMissingIff(raw);
  }

  // ---------------------------------------------------------- the tables

  /** Normalised records keep the corrected dates and the counts, so any
      lower bound on the feed's counts holds for them too. */
  lemma NormalizedRecords(raw: seq<RawRecord>, floor: int)
    requires Normalize(CorrectAll(raw)).Some?
    requires forall x :: x in raw ==> x.vaccinated >= floor
    ensures forall r :: r in Normalize(CorrectAll(raw)).value ==> r.date >= CorrectionDate && r.vaccinated >= floor
  {
  }

  /** Every row of the by-manufacturer table carries the date of some
      record. */
  lemma ManufacturerDates(recs: seq<Record>, floor: Timestamp)
    requires forall r :: r in recs ==> r.date >= floor
    ensures forall i :: 0 <= i < |ManufacturerTable(recs)| ==> ManufacturerTable(recs)[i].date >= floor
  {
  }

  /** The by-manufacturer table of a run that gets past the assertion: dates
      no earlier than the correction date and in order, one row per (date,
      vaccine) pair, and, the feed's counts being positive, cumulative
      counts that strictly increase along each vaccine's rows. */
  lemma ByManufacturerWellFormed(raw: seq<RawRecord>)
    requires forall x :: x in raw ==> x.vaccinated > 0
    ensures !Process(raw).SchemaMismatch? ==> var t := Process(raw).byManufacturer;
      && (forall i :: 0 <= i < |t| ==> t[i].date >= CorrectionDate)
      && (forall i, j :: 0 <= i < j < |t| ==> t[i].date <= t[j].date && RowKey(t[i]) != RowKey(t[j]))
      && (forall i, j :: 0 <= i < j < |t| && t[i].vaccine == t[j].vaccine ==> t[i].totalVaccinations < t[j].totalVaccinations)
  {
    if Normalize(CorrectAll(raw)).Some? {
      var recs := Normalize(CorrectAll(raw)).value;
      NormalizedRecords(raw, 1);
      ManufacturerTableIncreasing(recs);
      ManufacturerDates(recs, CorrectionDate);
    }
  }

  /** Every cell of the pivot, after the single-shot override, is
      non-negative when the feed's counts are. */
  lemma PivotCellsNonNegative(recs: seq<Record>)
    requires forall r :: r in recs ==> r.vaccinated >= 0
    ensures forall r, c :: r in SingleShot(Pivot(recs), SingleShotName) ==> DayCell(r, c) >= 0
  {
    var rows := Pivot(recs);
    var out := SingleShot(rows, SingleShotName);
    forall r, c | r in out ensures DayCell(r, c) >= 0 {
      var i :| 0 <= i < |out| && out[i] == r;
      DoseSumsNonNegative(recs, DayKey(rows[i]));
    }
  }

  /** Rows keyed by the records carry only the records' dates. */
  lemma DatesOfKeyedRows(recs: seq<Record>, rows: seq<VaccineDay>, floor: Timestamp)
    requires forall r :: r in recs ==> r.date >= floor
    requires forall i :: 0 <= i < |rows| ==> DayKey(rows[i]) in KeySet(recs)
    ensures forall d :: d in DateSet(rows) ==> d >= floor
  {
  }

  /** Every date of the per-date totals is the date of some record. */
  lemma TotalsDates(recs: seq<Record>, floor: Timestamp)
    requires forall r :: r in recs ==> r.date >= floor
    ensures var totals := AggregateByDate(SingleShot(Pivot(recs), SingleShotName));
      forall i :: 0 <= i < |totals| ==> totals[i].date >= floor
  {
  }

  /** The per-date totals of the overridden pivot, zeros marked missing:
      every present count is positive when the feed's counts are not
      negative. */
  lemma ZerolessTotals(recs: seq<Record>)
    requires forall r :: r in recs ==> r.vaccinated >= 0
    ensures var z := ZeroToMissing(AggregateByDate(SingleShot(Pivot(recs), SingleShotName)));
      forall k, c :: 0 <= k < |z| && Cell(z[k], c).Some? ==> Cell(z[k], c).value > 0
  {
    var rows := SingleShot(Pivot(recs), SingleShotName);
    var totals := AggregateByDate(rows);
    var z := ZeroToMissing(totals);
    PivotCellsNonNegative(recs);
    forall k, c | 0 <= k < |z| && Cell(z[k], c).Some? ensures Cell(z[k], c).value > 0 {
      DateSumNonNegative(rows, totals[k].date, c);
      assert TotalsCell(totals[k], c) == DateSum(rows, totals[k].date, c);
    }
  }

  /** The national table of a complete run: dates strictly increasing and
      no earlier than the correction date, no count equal to zero, and,
      the feed's counts being non-negative, every count column strictly
      increasing over its present cells. */
  lemma NationalWellFormed(raw: seq<RawRecord>)
    requires forall x :: x in raw ==> x.vaccinated >= 0
    ensures Process(raw).Complete? ==> var t := Process(raw).national;
      && (forall i :: 0 <= i < |t| ==> t[i].date >= CorrectionDate)
      && (forall i, j :: 0 <= i < j < |t| ==> t[i].date < t[j].date)
      && (forall i, c :: 0 <= i < |t| ==> Cell(t[i], c) != Some(0))
      && (forall i, j, c :: 0 <= i < j < |t| && Cell(t[i], c).Some? && Cell(t[j], c).Some? ==>
            Cell(t[i], c).value < Cell(t[j], c).value)
  {
    if Process(raw).Complete? {
      var recs := Normalize(CorrectAll(raw)).value;
      NormalizedRecords(raw, 0);
      var z := ZeroToMissing(AggregateByDate(SingleShot(Pivot(recs), SingleShotName)));
      TotalsDates(recs, CorrectionDate);
      ZerolessTotals(recs);
      CumulativePositive(z);
      CumulativeKeepsMissing(z);
    }
  }

  /** Rows that hold exactly the keys of the records have a row for a
      (date, vaccine) pair exactly when some record has that date and
      vaccine. */
  lemma PairsOfKeyedRows(recs: seq<Record>, rows: seq<VaccineDay>, d: Timestamp, v: Vaccine)
    requires forall k :: k in KeySet(recs) ==> exists i :: 0 <= i < |rows| && DayKey(rows[i]) == k
    requires forall i :: 0 <= i < |rows| ==> DayKey(rows[i]) in KeySet(recs)
    ensures (exists row :: row in rows && row.date == d && row.vaccine == v) <==>
      (exists r :: r in recs && r.date == d && r.vaccine == v)
  {
    if exists row :: row in rows && row.date == d && row.vaccine == v {
      var row :| row in rows && row.date == d && row.vaccine == v;
      var k :| 0 <= k < |rows| && rows[k] == row;
      assert DayKey(rows[k]) in KeySet(recs);
    }
    if exists r :: r in recs && r.date == d && r.vaccine == v {
      var r :| r in recs && r.date == d && r.vaccine == v;
      assert Key(d, v) in KeySet(recs);
      var k :| 0 <= k < |rows| && DayKey(rows[k]) == Key(d, v);
      assert rows[k] in rows;
    }
  }

  /** The override keeps the pivot's keys: sorted, and exactly those of the
      records. */
  lemma OverriddenPivotKeys(recs: seq<Record>)
    ensures var rows := SingleShot(Pivot(recs), SingleShotName);
      && (forall i, j :: 0 <= i < j < |rows| ==> KeyLess(DayKey(rows[i]), DayKey(rows[j])))
      && (forall k :: k in KeySet(recs) ==> exists i :: 0 <= i < |rows| && DayKey(rows[i]) == k)
      && (forall i :: 0 <= i < |rows| ==> DayKey(rows[i]) in KeySet(recs))
  {
  }

  /** `vs` names, once each and in ascending string order of their names,
      exactly the vaccines that have a record on date `d`. */
  ghost predicate VaccinesOfDate(vs: seq<Vaccine>, recs: seq<Record>, d: Timestamp) {
    && (forall j, k :: 0 <= j < k < |vs| ==> NameLess(DisplayName(vs[j]), DisplayName(vs[k])))
    && (forall v :: v in vs <==> exists r :: r in recs && r.date == d && r.vaccine == v)
  }

  /** The vaccine list of one date of the overridden pivot. */
  lemma DayVaccineList(recs: seq<Record>, d: Timestamp)
    ensures var rows := SingleShot(Pivot(recs), SingleShotName);
      var vs := SortByName(VaccinesOn(rows, d));
      TotalsOn(rows, d).vaccine == JoinNames(vs) && VaccinesOfDate(vs, recs, d)
  {
    var rows := SingleShot(Pivot(recs), SingleShotName);
    OverriddenPivotKeys(recs);
    VaccineColumn(rows, d);
    var vs := SortByName(VaccinesOn(rows, d));
    forall v ensures v in vs <==> exists r :: r in recs && r.date == d && r.vaccine == v {
      PairsOfKeyedRows(recs, rows, d, v);
    }
  }

  /** The vaccine column of the national table: each row joins the names
      of the vaccines that have a record on that row's date, once each and
      in ascending order. */
  lemma NationalVaccineColumn(recs: seq<Record>, i: nat)
    requires i < |NationalTable(recs)|
    ensures var t := NationalTable(recs);
      exists vs :: t[i].vaccine == JoinNames(vs) && VaccinesOfDate(vs, recs, t[i].date)
  {
    var rows := SingleShot(Pivot(recs), SingleShotName);
    var totals := AggregateByDate(rows);
    CumulativeKeepsMissing(ZeroToMissing(totals));
    var d := totals[i].date;
    assert NationalTable(recs)[i].vaccine == TotalsOn(rows, d).vaccine && NationalTable(recs)[i].date == d;
    DayVaccineList(recs, d);
  }
}
