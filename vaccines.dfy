/** The four vaccine manufacturers of the Lithuanian feed: the names the feed
    uses, the canonical names written to the output, the substitution table
    between them, and the order in which the canonical names sort. */
module Vaccines {
  import opened Options

  datatype Vaccine = PfizerBioNTech | Moderna | OxfordAstraZeneca | JohnsonJohnson

  /** The name under which the feed reports a manufacturer. */
  function SourceName(v: Vaccine): string {
    match v
    case PfizerBioNTech => "Pfizer-BioNTech"
    case Moderna => "Moderna"
    case OxfordAstraZeneca => "AstraZeneca"
    case JohnsonJohnson => "Johnson & Johnson"
  }

  /** The canonical name the output tables carry. */
  function DisplayName(v: Vaccine): string {
    match v
    case PfizerBioNTech => "Pfizer/BioNTech"
    case Moderna => "Moderna"
    case OxfordAstraZeneca => "Oxford/AstraZeneca"
    case JohnsonJohnson => "Johnson&Johnson"
  }

  /** The script's substitution table, source name to canonical name. */
  const VaccineMapping: map<string, string> := map[
    "Pfizer-BioNTech" := "Pfizer/BioNTech",
    "Moderna" := "Moderna",
    "AstraZeneca" := "Oxford/AstraZeneca",
    "Johnson & Johnson" := "Johnson&Johnson"
  ]

  const CanonicalNames: set<string> :=
    {"Pfizer/BioNTech", "Moderna", "Oxford/AstraZeneca", "Johnson&Johnson"}

  /** DataFrame.replace with the table: a cell equal to one of its keys becomes
      that key's value, any other cell is left as it is. */
  function Replace(cell: string): string {
    if cell in VaccineMapping then VaccineMapping[cell] else cell
  }

  /** The manufacturer a source name stands for, if it is one of the table's keys. */
  function Parse(name: string): (r: Option<Vaccine>)
    ensures r.Some? <==> name in VaccineMapping
    ensures r.Some? ==> SourceName(r.value) == name && DisplayName(r.value) == Replace(name)
    ensures r.None? ==> Replace(name) == name
  {
    if name == "Pfizer-BioNTech" then Some(PfizerBioNTech)
    else if name == "Moderna" then Some(Moderna)
    else if name == "AstraZeneca" then Some(OxfordAstraZeneca)
    else if name == "Johnson & Johnson" then Some(JohnsonJohnson)
    else None
  }

  /** The table is injective and its values are exactly the four canonical
      names, each of which is the display name of one manufacturer. */
  lemma MappingIsBijection()
    ensures forall a, b :: a in VaccineMapping && b in VaccineMapping && VaccineMapping[a] == VaccineMapping[b] ==> a == b
    ensures VaccineMapping.Values == CanonicalNames
    ensures forall v :: DisplayName(v) in CanonicalNames && VaccineMapping[SourceName(v)] == DisplayName(v)
    ensures forall u, v :: DisplayName(u) == DisplayName(v) ==> u == v
  {
    forall v: Vaccine ensures DisplayName(v) in VaccineMapping.Values {
      assert VaccineMapping[SourceName(v)] == DisplayName(v);
    }
    assert CanonicalNames <= VaccineMapping.Values by {
      forall name | name in CanonicalNames ensures name in VaccineMapping.Values {
        var v :| v in [PfizerBioNTech, Moderna, OxfordAstraZeneca, JohnsonJohnson] && DisplayName(v) == name;
      }
    }
  }

  /** Position of a manufacturer in the sorted order of canonical names. */
  function Rank(v: Vaccine): nat {
    match v
    case JohnsonJohnson => 0
    case Moderna => 1
    case OxfordAstraZeneca => 2
    case PfizerBioNTech => 3
  }

  lemma RankInjective(u: Vaccine, v: Vaccine)
    ensures Rank(u) == Rank(v) ==> u == v
  {
  }

  /** Python's `<` on str: lexicographic by code point, a proper prefix first. */
  predicate NameLess(a: string, b: string) {
    if |a| == 0 then |b| > 0
    else if |b| == 0 then false
    else if a[0] != b[0] then a[0] < b[0]
    else NameLess(a[1..], b[1..])
  }

  lemma {:induction false} NameLessIrreflexive(a: string)
    ensures !NameLess(a, a)
  {
    if |a| > 0 {
      NameLessIrreflexive(a[1..]);
    }
  }

  /** Sorting manufacturers by Rank sorts their canonical names as Python does. */
  lemma RankIsNameOrder(u: Vaccine, v: Vaccine)
    ensures Rank(u) < Rank(v) <==> NameLess(DisplayName(u), DisplayName(v))
  {
    if u == v {
      NameLessIrreflexive(DisplayName(u));
    }
  }
}
