/** The one-off correction of vaccinations the feed attributes to early
    December 2020: every date before 2020-12-27 is moved to that day. */
module DateCorrection {
  import opened Frames

  /** 2020-12-27T00:00:00 in milliseconds since the epoch. */
  const CorrectionDate: Timestamp := 1609027200000

  function Corrected(r: RawRecord): RawRecord {
    if r.date < CorrectionDate then r.(date := CorrectionDate) else r
  }

  /** The frame after the masked assignment: only dates move, and only the
      early ones, which all land on the correction date. */
  function CorrectAll(s: seq<RawRecord>): (t: seq<RawRecord>)
    ensures |t| == |s|
    ensures forall i :: 0 <= i < |s| ==> t[i].date >= CorrectionDate
    ensures forall i :: 0 <= i < |s| ==> (s[i].date >= CorrectionDate ==> t[i] == s[i])
    ensures forall i :: 0 <= i < |s| ==> (s[i].date < CorrectionDate ==> t[i] == s[i].(date := CorrectionDate))
  {
    seq(|s|, i requires 0 <= i < |s| => Corrected(s[i]))
  }

  lemma CorrectionIdempotent(s: seq<RawRecord>)
    ensures CorrectAll(CorrectAll(s)) == CorrectAll(s)
  {
  }

  /** The masked date assignment, done in place on the frame's rows. */
  method CorrectDates(a: array<RawRecord>)
    modifies a
    ensures a[..] == CorrectAll(old(a[..]))
  {
    for i := 0 to a.Length
      invariant forall j :: 0 <= j < i ==> a[j] == Corrected(old(a[j]))
      invariant forall j :: i <= j < a.Length ==> a[j] == old(a[j])
    {
      if a[i].date < CorrectionDate {
        a[i] := a[i].(date := CorrectionDate);
      }
    }
  }
}
