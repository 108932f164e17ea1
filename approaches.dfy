/** Close-approach records and the two date-ordered lists built from them:
    the list the 3D viewer steps through (main.js) and the at-most-ten list
    offered on the mitigation page (mitigation.js). */
module Approaches {

  /** One close approach of an asteroid. `dateMs` is the value of the
      JavaScript Date built from close_approach_date (milliseconds since the
      epoch) and `year` is what getFullYear reports for that Date; turning
      one into the other is calendar arithmetic and is not modelled. */
  datatype Approach = Approach(dateMs: int, year: int, missKm: real, body: string)

  const FirstYear: int := 2025
  const LastYear: int := 2100
  /** The mitigation page shows at most this many approaches. */
  const MitigationListSize: nat := 10
  /** The Earth radius both pages use, in km. */
  const EarthRadiusKm: real := 6371.0

  predicate InWindow(a: Approach) {
    FirstYear <= a.year <= LastYear
  }

  /** Ascending by date; equal dates may come in either order. */
  predicate SortedByDate(s: seq<Approach>) {
    forall i, j :: 0 <= i < j < |s| ==> s[i].dateMs <= s[j].dateMs
  }

  /** The `filter` on the year window. Every in-window approach is kept as
      often as it occurs, every other one is dropped. */
  function FilterWindow(s: seq<Approach>): (r: seq<Approach>)
    ensures forall a :: multiset(r)[a] == if InWindow(a) then multiset(s)[a] else 0
    ensures forall a :: a in r <==> a in s && InWindow(a)
  {
    if s == [] then []
    else
      assert s == [s[0]] + s[1..];
      if InWindow(s[0]) then [s[0]] + FilterWindow(s[1..]) else FilterWindow(s[1..])
  }

  /** Places `a` in front of the first element that is not earlier than it. */
  function Insert(a: Approach, s: seq<Approach>): (r: seq<Approach>)
    requires SortedByDate(s)
    ensures SortedByDate(r)
    ensures multiset(r) == multiset(s) + multiset{a}
    ensures |r| == |s| + 1
    ensures r[0] == a || (s != [] && r[0] == s[0])
  {
    if s == [] || a.dateMs <= s[0].dateMs then [a] + s
    else
      assert s == [s[0]] + s[1..];
      [s[0]] + Insert(a, s[1..])
  }

  /** The `sort` by date: an insertion sort, which like Array.prototype.sort
      keeps approaches with equal dates in their input order. */
  function SortByDate(s: seq<Approach>): (r: seq<Approach>)
    ensures SortedByDate(r)
    ensures multiset(r) == multiset(s)
  {
    if s == [] then []
    else
      assert s == [s[0]] + s[1..];
      Insert(s[0], SortByDate(s[1..]))
  }

  /** The list the viewer navigates: the approaches in 2025..2100, by date. */
  function Upcoming(s: seq<Approach>): (r: seq<Approach>)
    ensures SortedByDate(r)
    ensures forall a :: multiset(r)[a] == if InWindow(a) then multiset(s)[a] else 0
    ensures forall a :: a in r <==> a in s && InWindow(a)
  {
    var r := SortByDate(FilterWindow(s));
    assert forall a :: a in r <==> a in multiset(r);
    r
  }

  /** The list the mitigation page offers: the first ten of `Upcoming`. */
  function MitigationApproaches(s: seq<Approach>): (r: seq<Approach>)
    ensures |r| <= MitigationListSize
    ensures |r| == if |Upcoming(s)| < MitigationListSize then |Upcoming(s)| else MitigationListSize
    ensures r == Upcoming(s)[..|r|]
    ensures SortedByDate(r)
    ensures forall a :: a in r ==> a in s && InWindow(a)
  {
    var u := Upcoming(s);
    if |u| <= MitigationListSize then u else u[..MitigationListSize]
  }

  /** The ten kept are the earliest: nothing left out of the mitigation list
      comes before anything in it. */
  lemma {:induction false} MitigationApproachesEarliest(s: seq<Approach>, a: Approach, b: Approach)
    requires a in MitigationApproaches(s)
    requires b in s && InWindow(b) && b !in MitigationApproaches(s)
    ensures a.dateMs <= b.dateMs
  {
    var u, r := Upcoming(s), MitigationApproaches(s);
    var i :| 0 <= i < |r| && r[i] == a;
    var j :| 0 <= j < |u| && u[j] == b;
    assert u[i] == a;
  }
}
