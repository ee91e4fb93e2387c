# Lithuania vaccination batch, modelled in Dafny

This project models the batch script that turns the Lithuanian
vaccination feed into two tables. The script is
`scripts/scripts/vaccinations/src/vax/batch/lithuania.py`. The feed is a
list of records `{date, vaccine_name, dose_number, vaccinated}`. The two
tables are the by-manufacturer table (cumulative doses per date and
vaccine) and the national table (cumulative first doses, second doses and
all doses per date, with the list of vaccines in use). The model follows
the stages of `main()` in order:

1. `DateCorrection`: dates before 2020-12-27 are moved to 2020-12-27.
   Dates are milliseconds since the epoch, time of day included.
2. `Vocabulary`: the feed must name exactly the four manufacturers
   (`Vaccines`). Otherwise the assertion stops the run. Names are then
   replaced by the canonical ones. The replacement is applied to every
   string cell, so to dose labels too, as `DataFrame.replace` does.
3. `Grouping` and `ByManufacturer`: sum per (date, vaccine), then a
   running sum within each vaccine. The running sum is done in place on
   an array.
4. `DosePivot`: the dose labels `Pirma dozė` (first) and `Antra dozė`
   (second) become two columns, 0 where a pair lacks a label. The total
   is their sum. Then comes the single-shot override, in place on an
   array.
5. `NameLists` and `PerDate`: one row per date, with the sum of each
   column and the vaccine names sorted and joined with `", "`.
6. `NationalTotals`: zero counts become missing. Then each column gets a
   running sum that skips missing cells.
7. `Pipeline`: the whole run. `Process` gives the outcome as a function
   of the feed, and the method `Run` performs it stage by stage.

A run ends in one of three ways (`Pipeline.Outcome`):

- `SchemaMismatch`: the vocabulary assertion failed and nothing is written.
  An empty feed also ends here (see "## Left out").
- `DoseColumnMissing`: no record carries one of the two dose labels, so
  the pivot has no column for it. The script then fails at line 65,
  after the by-manufacturer table is already written.
- `Complete`: both tables are produced.

Three behaviours of the code are kept as written:

- The single-shot override never fires. Line 68 compares the vaccine
  column with `Johnson & Johnson`, but line 38 has already turned that
  name into `Johnson&Johnson`. So people fully vaccinated with the
  single-shot vaccine are counted only under second doses. The model
  reproduces this (`DosePivot.SingleShotNeverFires`).
- A feed that names fewer than the four vaccines, such as a single
  Pfizer-BioNTech record, fails the assertion at line 37: the set of
  names must equal the four keys (`Pipeline.SingleRecordFeedRejected`).
- The code uses the Lithuanian dose labels. A feed without one of them
  fails after the first table is written (`Pipeline.FirstDosesOnlyFeedFails`).

The query filter `vaccinated>0` (line 11) is where the counts become
positive. The model takes this as a precondition of the lemmas that
need it, not as a check.

## Model

| member | source | states |
|---|---|---|
| Vaccines.Parse | scripts/scripts/vaccinations/src/vax/batch/lithuania.py:31-38 | a name is recognised exactly when it is a key of the substitution table; the manufacturer found has that source name, and its canonical name is what the replacement produces |
| Vaccines.MappingIsBijection | scripts/scripts/vaccinations/src/vax/batch/lithuania.py:31-36 | the substitution table is injective, its values are exactly the four canonical names, and each manufacturer's canonical name is the table's value for its source name |
| Vaccines.RankIsNameOrder | scripts/scripts/vaccinations/src/vax/batch/lithuania.py:40-42 | the order used for group keys is the string order of canonical names: rank u below rank v iff u's name sorts before v's |
| DateCorrection.CorrectAll | scripts/scripts/vaccinations/src/vax/batch/lithuania.py:28 | same length; every date is at least 2020-12-27; records dated on or after it are unchanged; earlier ones keep every field but get that exact date |
| DateCorrection.CorrectionIdempotent | scripts/scripts/vaccinations/src/vax/batch/lithuania.py:28 | correcting twice gives the same frame as correcting once |
| DateCorrection.CorrectDates | scripts/scripts/vaccinations/src/vax/batch/lithuania.py:28 | the masked assignment done in place leaves the array equal to the corrected frame |
| Vocabulary.Normalize | scripts/scripts/vaccinations/src/vax/batch/lithuania.py:37-38 | fails iff some record has a name outside the four keys or some key is missing from the feed; on success every record keeps date, dose label (after replacement) and count, and gets the manufacturer of its source name, whose canonical name is the table's value |
| Grouping.GroupKeys | scripts/scripts/vaccinations/src/vax/batch/lithuania.py:40-41 | the group keys are strictly sorted by (date, name), and a key is present exactly when some record has it |
| Grouping.GroupSumPositive | scripts/scripts/vaccinations/src/vax/batch/lithuania.py:40-41 | with positive counts, every group that has a record sums to a positive value |
| Grouping.DoseSumsNonNegative | scripts/scripts/vaccinations/src/vax/batch/lithuania.py:52-55 | with non-negative counts, no group sum or per-dose sum is negative |
| ByManufacturer.DailyByVaccine | scripts/scripts/vaccinations/src/vax/batch/lithuania.py:39-44 | one row per distinct (date, vaccine) pair of the records, rows strictly ordered by (date, name) so dates are non-decreasing, and each row's value is the sum of its pair's counts |
| ByManufacturer.CumulateByVaccine | scripts/scripts/vaccinations/src/vax/batch/lithuania.py:45 | the per-vaccine running sum done in place: each row's value becomes the sum of its vaccine's values up to and including that row |
| ByManufacturer.RunningCarries | scripts/scripts/vaccinations/src/vax/batch/lithuania.py:45 | a row's running total is the running total of the same vaccine's previous row plus its own value, whatever other vaccines lie between |
| ByManufacturer.RunningStrictlyIncreasing | scripts/scripts/vaccinations/src/vax/batch/lithuania.py:45 | with positive daily values, running totals strictly increase along each vaccine's rows |
| ByManufacturer.ManufacturerTableIncreasing | scripts/scripts/vaccinations/src/vax/batch/lithuania.py:39-45 | the table has distinct (date, vaccine) pairs in date order, and with positive counts each vaccine's cumulative value strictly increases |
| DosePivot.Pivot | scripts/scripts/vaccinations/src/vax/batch/lithuania.py:50-65 | one row per (date, vaccine) pair under any dose label, in key order; first-dose and second-dose columns are the sums for the two labels, 0 when absent; the total is their sum, taken before the override |
| DosePivot.SingleShot | scripts/scripts/vaccinations/src/vax/batch/lithuania.py:68-69 | rows whose vaccine name equals the mask's name get the first-dose count as fully vaccinated; every other field and row is unchanged |
| DosePivot.OverwriteFullyVaccinated | scripts/scripts/vaccinations/src/vax/batch/lithuania.py:68-69 | the masked overwrite done in place leaves the array equal to the overridden frame |
| DosePivot.SingleShotNeverFires | scripts/scripts/vaccinations/src/vax/batch/lithuania.py:68-69 | with the mask's literal name, which no canonical name equals after line 38, the override leaves the frame unchanged |
| NameLists.SortByName | scripts/scripts/vaccinations/src/vax/batch/lithuania.py:76 | the sorted list is in name order and is a permutation of its input |
| NameLists.SortByNameOfSorted | scripts/scripts/vaccinations/src/vax/batch/lithuania.py:76 | sorting a list already in name order returns it unchanged |
| PerDate.GroupDates | scripts/scripts/vaccinations/src/vax/batch/lithuania.py:72 | the date groups are strictly increasing, and a date is present exactly when some row carries it |
| PerDate.TotalsOn | scripts/scripts/vaccinations/src/vax/batch/lithuania.py:72-77 | a date's row holds, for each count column, the sum over that date's rows; its vaccine column joins a list in name order that holds the same vaccines, with the same multiplicities, as that date's rows |
| PerDate.AggregateByDate | scripts/scripts/vaccinations/src/vax/batch/lithuania.py:72-77 | one row per distinct date, dates strictly increasing, each row the totals of its date |
| PerDate.DateSumNonNegative | scripts/scripts/vaccinations/src/vax/batch/lithuania.py:72-75 | with non-negative cells no per-date sum is negative |
| PerDate.VaccinesOnAscending | scripts/scripts/vaccinations/src/vax/batch/lithuania.py:54-61 | in key-sorted rows a date's vaccines come once each in strictly ascending order, and they are exactly the vaccines of that date's rows |
| PerDate.VaccineColumn | scripts/scripts/vaccinations/src/vax/batch/lithuania.py:76 | the vaccine column joins that date's vaccine names once each, in ascending string order |
| NationalTotals.ZeroToMissing | scripts/scripts/vaccinations/src/vax/batch/lithuania.py:78 | dates and vaccine lists are kept; a cell is missing iff its count was 0; other cells keep their count; no cell holds 0 |
| NationalTotals.CumulativeSums | scripts/scripts/vaccinations/src/vax/batch/lithuania.py:81-85 | the three running sums computed in one scan equal the column-wise cumulative table |
| NationalTotals.CumulativeKeepsMissing | scripts/scripts/vaccinations/src/vax/batch/lithuania.py:81-85 | the running sums keep dates and vaccine lists, and a cell is missing after iff it was missing before |
| NationalTotals.CumulativeCarriesOverGaps | scripts/scripts/vaccinations/src/vax/batch/lithuania.py:81-85 | a present cell's running sum is the previous present cell's running sum plus its own value, across any run of missing cells; the first present cell keeps its value |
| NationalTotals.CumulativePositive | scripts/scripts/vaccinations/src/vax/batch/lithuania.py:78-85 | with positive present cells no running sum is 0, and the present running sums strictly increase down each column |
| Pipeline.Run | scripts/scripts/vaccinations/src/vax/batch/lithuania.py:25-88 | the run performed stage by stage, with the in-place steps on arrays, ends exactly as the function of the feed says |
| Pipeline.CorrectFeed | scripts/scripts/vaccinations/src/vax/batch/lithuania.py:28 | the fetched frame copied into an array and corrected in place equals the corrected frame |
| Pipeline.BuildManufacturerTable | scripts/scripts/vaccinations/src/vax/batch/lithuania.py:39-45 | grouping then cumulating in place yields the by-manufacturer table |
| Pipeline.BuildNationalTable | scripts/scripts/vaccinations/src/vax/batch/lithuania.py:50-85 | pivot, in-place override, per-date totals, zero marking and running sums yield the national table |
| Pipeline.CorrectionKeepsLabels | scripts/scripts/vaccinations/src/vax/batch/lithuania.py:28 | the date correction changes neither the set of vaccine names nor which dose labels occur |
| Pipeline.SchemaMismatchIff | scripts/scripts/vaccinations/src/vax/batch/lithuania.py:37 | the run ends in SchemaMismatch iff the feed's set of vaccine names differs from the table's four keys (the empty feed, which fails earlier at line 25, included) |
| Pipeline.EmptyFeedRejected | scripts/scripts/vaccinations/src/vax/batch/lithuania.py:23-25 | an empty feed produces no table; the failure at line 25 is reported as SchemaMismatch |
| Pipeline.SingleRecordFeedRejected | scripts/scripts/vaccinations/src/vax/batch/lithuania.py:37 | a feed holding one Pfizer-BioNTech record of 2020-12-01 is rejected by the assertion |
| Pipeline.ReplaceKeepsDoseLabels | scripts/scripts/vaccinations/src/vax/batch/lithuania.py:38 | the name substitution maps a cell to a dose label iff the cell is that label |
| Pipeline.DoseLabelKept | scripts/scripts/vaccinations/src/vax/batch/lithuania.py:38 | after the substitution a dose column exists iff some feed record carries that label |
| Pipeline.DoseColumnMissingIff | scripts/scripts/vaccinations/src/vax/batch/lithuania.py:54-65 | the run fails on the dose columns iff the vocabulary is right and one of the two dose labels occurs in no record |
| Pipeline.FirstDosesOnlyFeedFails | scripts/scripts/vaccinations/src/vax/batch/lithuania.py:65 | a feed naming all four vaccines but holding only first doses fails on the missing second-dose column |
| Pipeline.ByManufacturerWellFormed | scripts/scripts/vaccinations/src/vax/batch/lithuania.py:28-45 | with positive counts, a run past the assertion gives a by-manufacturer table with dates from 2020-12-27 on, in order, one row per pair, and cumulative values strictly increasing per vaccine |
| Pipeline.NationalWellFormed | scripts/scripts/vaccinations/src/vax/batch/lithuania.py:28-85 | with non-negative counts, a complete run's national table has strictly increasing dates from 2020-12-27 on, no count equal to 0, and present counts strictly increasing down each column |
| Pipeline.ZerolessTotals | scripts/scripts/vaccinations/src/vax/batch/lithuania.py:50-78 | with non-negative counts, every count left present after zero marking is positive |
| Pipeline.TotalsDates | scripts/scripts/vaccinations/src/vax/batch/lithuania.py:50-77 | every date of the per-date totals is at least any lower bound on the records' dates |
| Pipeline.NationalVaccineColumn | scripts/scripts/vaccinations/src/vax/batch/lithuania.py:50-77 | each national row's vaccine column joins, once each and in ascending order, the names of exactly the vaccines with a record on that date |

## Left out

- The HTTP request and the JSON envelope (lines 19-21) are network I/O. The model's input is the list of records.
- The `vaccinated>0` filter of the query (line 11) runs on the server. Lemmas that need positive or non-negative counts take it as a precondition.
- The two CSV writes (lines 47 and 94) are file I/O. A run's result is an `Outcome` value holding the tables.
- Timestamp parsing (line 25) is left to pandas. Dates are integers in milliseconds, compared as numbers.
- The `location` and `source_url` columns (lines 46, 87-88) are the constants `Frames.Location` and `Frames.SourceUrl`. They are not fields of the row types.
- The commented-out vaccine assignments (lines 90-92) are dead code.
- Exception types and messages are not modelled. An assertion failure and the failed column lookup are `Outcome` cases.
- Pivoted counts are floats in pandas after `fillna(0)`. The model keeps exact integers.
- `sort_values("date")` (lines 42 and 61) uses a sort that is not stable. Rows of one date may then come in any vaccine order. The model keeps both frames in (date, name) order. Nothing downstream depends on it. In the by-manufacturer table each vaccine has at most one row per date, so the cumulative values are the same. In the national table, line 72 groups by date again and line 76 sorts the names.
- An empty feed builds a frame without columns, and the script fails with a KeyError at line 25, before the assertion. The model folds this failure into `SchemaMismatch`, since no table is written in either case.
- Missing values in the feed's own fields are not modelled. Every record has all four fields.
- Dose columns other than the two labels are produced by the pivot and dropped by the per-date aggregation. The model never builds them. Pairs seen only under such labels still get a pivot row with 0 in both columns, as in the code.
- The model claims nothing relating people vaccinated to people fully vaccinated. The code does not enforce such a relation.
