/** What `groupby` does to its keys: the distinct keys of a frame, in
    ascending order, and the sum of a column over one group. */
module Grouping {
  import opened Vaccines
  import opened Frames

  /** A `(date, vaccine_name)` group key. */
  datatype Key = Key(date: Timestamp, vaccine: Vaccine)

  function KeyOf(r: Record): Key {
    Key(r.date, r.vaccine)
  }

  /** The order `groupby` sorts these keys in: by date, then by canonical
      name (RankIsNameOrder ties Rank to the names' string order). */
  predicate KeyLess(a: Key, b: Key) {
    a.date < b.date || (a.date == b.date && Rank(a.vaccine) < Rank(b.vaccine))
  }

  ghost predicate StrictlySorted(ks: seq<Key>) {
    forall i, j :: 0 <= i < j < |ks| ==> KeyLess(ks[i], ks[j])
  }

  /** Adds one key to a sorted, duplicate-free key list. */
  function InsertKey(ks: seq<Key>, k: Key): (r: seq<Key>)
    requires StrictlySorted(ks)
    ensures StrictlySorted(r)
    ensures forall x :: x in r <==> x in ks || x == k
  {
    if |ks| == 0 then [k]
    else if k == ks[0] then ks
    else if KeyLess(k, ks[0]) then [k] + ks
    else
      RankInjective(k.vaccine, ks[0].vaccine);
      var rest := InsertKey(ks[1..], k);
      assert forall x :: x in rest ==> KeyLess(ks[0], x);
      var r := [ks[0]] + rest;
      assert forall j :: 0 < j < |r| ==> r[j] == rest[j - 1] && r[j] in rest;
      r
  }

  /** The keys the records carry. */
  ghost function KeySet(recs: seq<Record>): set<Key> {
    set r | r in recs :: KeyOf(r)
  }

  /** The groups of the (date, vaccine) grouping: every key some record
      carries, once each, in ascending order. */
  function GroupKeys(recs: seq<Record>): (ks: seq<Key>)
    ensures StrictlySorted(ks)
    ensures forall x :: x in ks <==> x in KeySet(recs)
  {
    if |recs| == 0 then []
    else
      assert KeySet(recs) == KeySet(recs[1..]) + {KeyOf(recs[0])} by {
        assert forall r :: r in recs <==> r == recs[0] || r in recs[1..];
      }
      InsertKey(GroupKeys(recs[1..]), KeyOf(recs[0]))
  }

  /** `["vaccinated"].sum()` over the group with key `k`. */
  function GroupSum(recs: seq<Record>, k: Key): int {
    if |recs| == 0 then 0
    else (if KeyOf(recs[0]) == k then recs[0].vaccinated else 0) + GroupSum(recs[1..], k)
  }

  /** The sum over the group with key `k` and dose label `dose`, as the
      `(date, dose_number, vaccine_name)` grouping computes it; 0 when the
      group is empty, as the pivot's `fillna(0)` makes it. */
  function DoseSum(recs: seq<Record>, k: Key, dose: string): int {
    if |recs| == 0 then 0
    else
      (if KeyOf(recs[0]) == k && recs[0].doseNumber == dose then recs[0].vaccinated else 0)
      + DoseSum(recs[1..], k, dose)
  }

  /** With every count positive (the feed is queried with `vaccinated>0`),
      the sum over a non-empty group is positive. */
  lemma {:induction false} GroupSumPositive(recs: seq<Record>, k: Key)
    requires forall r :: r in recs ==> r.vaccinated > 0
    requires k in KeySet(recs)
    ensures GroupSum(recs, k) > 0
  {
    if KeyOf(recs[0]) == k {
      DoseSumsNonNegative(recs[1..], k);
    } else {
      assert forall r :: r in recs[1..] ==> r in recs;
      var r :| r in recs && KeyOf(r) == k;
      assert r in recs[1..];
      assert k in KeySet(recs[1..]);
      GroupSumPositive(recs[1..], k);
    }
  }

  /** With non-negative counts, no group or dose sum is negative. */
  lemma {:induction false} DoseSumsNonNegative(recs: seq<Record>, k: Key)
    requires forall r :: r in recs ==> r.vaccinated >= 0
    ensures GroupSum(recs, k) >= 0
    ensures forall dose :: DoseSum(recs, k, dose) >= 0
  {
    if |recs| > 0 {
      assert forall r :: r in recs[1..] ==> r in recs;
      DoseSumsNonNegative(recs[1..], k);
    }
  }

  ghost predicate Increasing(ds: seq<Timestamp>) {
    forall i, j :: 0 <= i < j < |ds| ==> ds[i] < ds[j]
  }

  /** Adds one date to an increasing, duplicate-free date list. */
  function InsertDate(ds: seq<Timestamp>, d: Timestamp): (r: seq<Timestamp>)
    requires Increasing(ds)
    ensures Increasing(r)
    ensures forall x :: x in r <==> x in ds || x == d
  {
    if |ds| == 0 then [d]
    else if d == ds[0] then ds
    else if d < ds[0] then [d] + ds
    else
      var rest := InsertDate(ds[1..], d);
      var r := [ds[0]] + rest;
      assert forall j :: 0 < j < |r| ==> r[j] == rest[j - 1] && r[j] in rest;
      r
  }
}
