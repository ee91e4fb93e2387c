/** Lists of manufacturers as the script prints them: sorted by canonical
    name and joined with ", ". */
module NameLists {
  import opened Vaccines

  ghost predicate SortedByName(vs: seq<Vaccine>) {
    forall i, j :: 0 <= i < j < |vs| ==> Rank(vs[i]) <= Rank(vs[j])
  }

  /** Ascending by name with no name twice. */
  ghost predicate StrictlySortedByName(vs: seq<Vaccine>) {
    forall i, j :: 0 <= i < j < |vs| ==> Rank(vs[i]) < Rank(vs[j])
  }

  function InsertByName(vs: seq<Vaccine>, v: Vaccine): seq<Vaccine> {
    if |vs| == 0 || Rank(v) <= Rank(vs[0]) then [v] + vs
    else [vs[0]] + InsertByName(vs[1..], v)
  }

  lemma {:induction false} InsertByNameKeepsElements(vs: seq<Vaccine>, v: Vaccine)
    ensures multiset(InsertByName(vs, v)) == multiset(vs) + multiset{v}
  {
    if |vs| > 0 && Rank(v) > Rank(vs[0]) {
      InsertByNameKeepsElements(vs[1..], v);
      assert vs == [vs[0]] + vs[1..];
    }
  }

  lemma {:induction false} InsertByNameKeepsOrder(vs: seq<Vaccine>, v: Vaccine)
    requires SortedByName(vs)
    ensures SortedByName(InsertByName(vs, v))
  {
    if |vs| > 0 && Rank(v) > Rank(vs[0]) {
      var rest := InsertByName(vs[1..], v);
      InsertByNameKeepsOrder(vs[1..], v);
      InsertByNameKeepsElements(vs[1..], v);
      var r := [vs[0]] + rest;
      assert r == InsertByName(vs, v);
      forall i, j | 0 <= i < j < |r| ensures Rank(r[i]) <= Rank(r[j]) {
        assert r[j] == rest[j - 1];
        if i == 0 {
          assert r[j] in multiset(rest);
          if r[j] != v {
            assert r[j] in multiset(vs[1..]);
          }
        } else {
          assert r[i] == rest[i - 1];
        }
      }
    }
  }

  /** Python's `sorted` on the canonical names: a permutation of its input
      in ascending name order (RankIsNameOrder). */
  function SortByName(vs: seq<Vaccine>): (r: seq<Vaccine>)
    ensures SortedByName(r)
    ensures multiset(r) == multiset(vs)
  {
    if |vs| == 0 then []
    else
      var rest := SortByName(vs[1..]);
      InsertByNameKeepsOrder(rest, vs[0]);
      InsertByNameKeepsElements(rest, vs[0]);
      assert vs == [vs[0]] + vs[1..];
      InsertByName(rest, vs[0])
  }

  /** `", ".join(...)` of the canonical names. */
  function JoinNames(vs: seq<Vaccine>): string {
    if |vs| == 0 then ""
    else if |vs| == 1 then DisplayName(vs[0])
    else DisplayName(vs[0]) + ", " + JoinNames(vs[1..])
  }

  /** Sorting a list that is already in ascending name order changes nothing. */
  lemma {:induction false} SortByNameOfSorted(vs: seq<Vaccine>)
    requires SortedByName(vs)
    ensures SortByName(vs) == vs
  {
    if |vs| > 0 {
      SortByNameOfSorted(vs[1..]);
    }
  }
}
