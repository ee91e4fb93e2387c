/** The vocabulary assertion and the name substitution: the feed must report
    exactly the four known source names, and each is then replaced by its
    canonical name. */
module Vocabulary {
  import opened Options
  import opened Vaccines
  import opened Frames

  /** The distinct vaccine names the feed reports. */
  function SourceVocabulary(raw: seq<RawRecord>): set<string> {
    set r | r in raw :: r.vaccineName
  }

  /** The substitution on one row whose vaccine name is a key of the table:
      the table is applied to every string cell, the dose label included. */
  function Mapped(r: RawRecord): (m: Record)
    requires r.vaccineName in VaccineMapping
    ensures SourceName(m.vaccine) == r.vaccineName
    ensures DisplayName(m.vaccine) == VaccineMapping[r.vaccineName]
  {
    Record(r.date, Parse(r.vaccineName).value, Replace(r.doseNumber), r.vaccinated)
  }

  /** The assertion followed by the substitution; None is the assertion
      failing, which aborts the script before anything is written. */
  function Normalize(raw: seq<RawRecord>): (r: Option<seq<Record>>)
    ensures r.None? <==>
      (exists x :: x in raw && x.vaccineName !in VaccineMapping) ||
      (exists k :: k in VaccineMapping && forall x :: x in raw ==> x.vaccineName != k)
    ensures r.Some? ==> |r.value| == |raw|
    ensures r.Some? ==> forall i :: 0 <= i < |raw| ==>
      && r.value[i].date == raw[i].date
      && SourceName(r.value[i].vaccine) == raw[i].vaccineName
      && DisplayName(r.value[i].vaccine) == VaccineMapping[raw[i].vaccineName]
      && r.value[i].doseNumber == Replace(raw[i].doseNumber)
      && r.value[i].vaccinated == raw[i].vaccinated
  {
    if SourceVocabulary(raw) == VaccineMapping.Keys then
      assert forall i :: 0 <= i < |raw| ==> raw[i].vaccineName in SourceVocabulary(raw);
      Some(seq(|raw|, i requires 0 <= i < |raw| => Mapped(raw[i])))
    else
      None
  }
}
