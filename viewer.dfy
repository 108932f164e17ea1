/** The state the 3D viewer page keeps between user events: which close
    approach is shown, the simulated date, the playback speed and the set of
    tracked potentially hazardous asteroids (PHAs). */
module Viewer {
  import opened Approaches

  type Id = string

  datatype Option<T> = None | Some(value: T)

  /** One row of the asteroid information table. */
  datatype AsteroidInfo = AsteroidInfo(id: Id, closeApproaches: seq<Approach>, orbitUncertainty: real)

  /** A sampled heliocentric position (AU) of a PHA at a Julian day. */
  datatype Position = Position(x: real, y: real, z: real, timeJd: real)

  /** The position table of one PHA. */
  datatype Pha = Pha(id: Id, positions: seq<Position>)

  const MaxTracked: nat := 5
  const MaxSpeed: int := 16
  /** The floor the impact-probability heuristic never goes below. */
  const MinProbability: real := 1e-5

  predicate IsSpeed(s: int) {
    s == 1 || s == 2 || s == 4 || s == 8 || s == 16
  }

  // ---------------------------------------------------------------------
  // Approach navigation
  // ---------------------------------------------------------------------

  /** The approach index after one press of a navigation button, for a list
      of `n` approaches. */
  function StepIndex(i: int, direction: int, n: int): (r: int)
    requires n > 0
    ensures 0 <= r < n
  {
    var j := i + direction;
    var k := if j < 0 then n - 1 else j;
    if k >= n then 0 else k
  }

  /** From a valid index, stepping is addition modulo the list length, so
      forward from the last approach gives the first and back from the first
      gives the last. */
  lemma StepIndexIsCyclic(i: int, n: int)
    requires 0 <= i < n
    ensures StepIndex(i, 1, n) == (i + 1) % n
    ensures StepIndex(i, -1, n) == (i - 1) % n
    ensures i == n - 1 ==> StepIndex(i, 1, n) == 0
    ensures i == 0 ==> StepIndex(i, -1, n) == n - 1
  {
  }

  /** Stepping forward and then back returns to where one started. */
  lemma {:induction false} StepIndexBackUndoesForward(i: int, n: int)
    requires 0 <= i < n
    ensures StepIndex(StepIndex(i, 1, n), -1, n) == i
    ensures StepIndex(StepIndex(i, -1, n), 1, n) == i
  {
    StepIndexIsCyclic(i, n);
    var f, b := StepIndex(i, 1, n), StepIndex(i, -1, n);
    StepIndexIsCyclic(f, n);
    StepIndexIsCyclic(b, n);
  }

  /** The list the navigation buttons step through; an unfocused viewer has
      none. A missing close_approach_data and an empty one both make the
      buttons do nothing, so both are the empty sequence here. */
  function Navigable(focused: Option<AsteroidInfo>): (r: seq<Approach>)
    ensures SortedByDate(r)
    ensures forall a :: a in r ==> InWindow(a)
    ensures focused.None? ==> r == []
    ensures focused.Some? ==> forall a :: a in r <==> a in focused.value.closeApproaches && InWindow(a)
    ensures focused.Some? ==> forall a ::
      multiset(r)[a] == if InWindow(a) then multiset(focused.value.closeApproaches)[a] else 0
  {
    match focused
    case None => []
    case Some(a) => Upcoming(a.closeApproaches)
  }

  // ---------------------------------------------------------------------
  // Impact probability
  // ---------------------------------------------------------------------

  function Clamp(x: real, lo: real, hi: real): (r: real)
    requires lo <= hi
    ensures lo <= r <= hi
    ensures lo <= x <= hi ==> r == x
    ensures x < lo ==> r == lo
    ensures x > hi ==> r == hi
  {
    if x < lo then lo else if x > hi then hi else x
  }

  /** The impact-probability heuristic. A zero miss distance makes the
      JavaScript quotient an infinity whose sign is that of the uncertainty,
      which the clamp turns into 1 or the floor. */
  function ImpactProbability(missKm: real, orbitUncertainty: real): (p: real)
    ensures MinProbability <= p <= 1.0
    ensures orbitUncertainty == 0.0 ==> (p == 1.0 <==> missKm < EarthRadiusKm)
    ensures orbitUncertainty == 0.0 ==> (p == MinProbability <==> missKm >= EarthRadiusKm)
    ensures orbitUncertainty > 0.0 && missKm == 0.0 ==> p == 1.0
    ensures orbitUncertainty < 0.0 && missKm == 0.0 ==> p == MinProbability
    ensures orbitUncertainty != 0.0 && missKm != 0.0 ==>
      var raw := (EarthRadiusKm / missKm) * (orbitUncertainty / 10.0);
      (raw <= MinProbability ==> p == MinProbability) &&
      (raw >= 1.0 ==> p == 1.0) &&
      (MinProbability <= raw <= 1.0 ==> p == raw)
  {
    if orbitUncertainty == 0.0 then
      (if missKm < EarthRadiusKm then 1.0 else MinProbability)
    else if missKm == 0.0 then
      (if orbitUncertainty > 0.0 then 1.0 else MinProbability)
    else
      var u := orbitUncertainty / 10.0;
      Clamp((EarthRadiusKm / missKm) * u, MinProbability, 1.0)
  }

  /** For a given positive uncertainty, a closer approach is never judged
      less likely to hit. */
  lemma ImpactProbabilityFallsWithDistance(m1: real, m2: real, u: real)
    requires 0.0 < m1 <= m2 && u > 0.0
    ensures ImpactProbability(m2, u) <= ImpactProbability(m1, u)
  {
    assert EarthRadiusKm / m2 <= EarthRadiusKm / m1 by {
      assert EarthRadiusKm / m2 * m2 == EarthRadiusKm / m1 * m1;
    }
    var x1, x2 := EarthRadiusKm / m1, EarthRadiusKm / m2;
    assert x2 * (u / 10.0) <= x1 * (u / 10.0);
  }

  /** For a given positive miss distance, a larger uncertainty is never
      judged less likely to hit. */
  lemma ImpactProbabilityGrowsWithUncertainty(m: real, u1: real, u2: real)
    requires m > 0.0 && 0.0 < u1 <= u2
    ensures ImpactProbability(m, u1) <= ImpactProbability(m, u2)
  {
    var x := EarthRadiusKm / m;
    assert x > 0.0;
    var r1, r2 := x * (u1 / 10.0), x * (u2 / 10.0);
    assert r1 <= r2;
    assert ImpactProbability(m, u1) == Clamp(r1, MinProbability, 1.0);
    assert ImpactProbability(m, u2) == Clamp(r2, MinProbability, 1.0);
  }

  // ---------------------------------------------------------------------
  // Speed button
  // ---------------------------------------------------------------------

  /** One press of the speed button. */
  function NextSpeed(s: int): (r: int)
    ensures IsSpeed(s) ==> IsSpeed(r)
    ensures 2 * s <= MaxSpeed ==> r == 2 * s
    ensures s == MaxSpeed ==> r == 1
  {
    if 2 * s > MaxSpeed then 1 else 2 * s
  }

  function PressSpeedTimes(s: int, k: nat): int
    decreases k
  {
    if k == 0 then s else PressSpeedTimes(NextSpeed(s), k - 1)
  }

  /** Five presses bring every speed back to itself, and fewer presses never
      do, so the button cycles 1, 2, 4, 8, 16. */
  lemma SpeedCycleHasPeriodFive(s: int)
    requires IsSpeed(s)
    ensures PressSpeedTimes(s, 5) == s
    ensures forall k :: 0 < k < 5 ==> PressSpeedTimes(s, k) != s
  {
  }

  // ---------------------------------------------------------------------
  // Tracked asteroids
  // ---------------------------------------------------------------------

  /** `filter(x => x !== id)` on the tracked list. */
  function Without(s: seq<Id>, id: Id): (r: seq<Id>)
    ensures |r| <= |s|
    ensures forall x :: x in r <==> x in s && x != id
    ensures forall x :: multiset(r)[x] == if x == id then 0 else multiset(s)[x]
  {
    if s == [] then []
    else
      assert s == [s[0]] + s[1..];
      if s[0] == id then Without(s[1..], id) else [s[0]] + Without(s[1..], id)
  }

  /** Removing an id keeps the remaining ids in their relative order: it
      distributes over concatenation. */
  lemma {:induction false} WithoutKeepsOrder(a: seq<Id>, b: seq<Id>, id: Id)
    ensures Without(a + b, id) == Without(a, id) + Without(b, id)
  {
    if a == [] {
      assert a + b == b;
    } else {
      assert a + b == [a[0]] + (a[1..] + b);
      WithoutKeepsOrder(a[1..], b, id);
    }
  }

  /** Removing an id that is already absent changes nothing, so removing
      it twice is the same as removing it once. */
  lemma {:induction false} WithoutIdempotent(s: seq<Id>, id: Id)
    ensures Without(Without(s, id), id) == Without(s, id)
  {
    if s != [] {
      WithoutIdempotent(s[1..], id);
    }
  }

  /** `phaData.find(p => p.id == id)`. */
  function FindPha(data: seq<Pha>, id: Id): (r: Option<Pha>)
    ensures r.Some? ==> r.value in data && r.value.id == id
    ensures r.None? <==> forall p :: p in data ==> p.id != id
  {
    if data == [] then None
    else if data[0].id == id then Some(data[0])
    else FindPha(data[1..], id)
  }

  /** The first entry with a given id is the one found. */
  lemma {:induction false} FindPhaFindsFirst(data: seq<Pha>, id: Id, k: nat)
    requires k < |data| && data[k].id == id
    requires forall j :: 0 <= j < k ==> data[j].id != id
    ensures FindPha(data, id) == Some(data[k])
  {
    if k > 0 {
      FindPhaFindsFirst(data[1..], id, k - 1);
    }
  }

  /** The ids of `ids` that have a position table in `data`. */
  function Loadable(ids: seq<Id>, data: seq<Pha>): (r: set<Id>)
    ensures forall id :: id in r <==> id in ids && FindPha(data, id).Some?
  {
    set id | id in ids && FindPha(data, id).Some?
  }

  lemma LoadableAppend(ids: seq<Id>, x: Id, data: seq<Pha>)
    ensures Loadable(ids + [x], data)
         == Loadable(ids, data) + if FindPha(data, x).Some? then {x} else {}
  {
  }

  // ---------------------------------------------------------------------
  // The page state
  // ---------------------------------------------------------------------

  class ViewerState {
    var currentApproachIndex: int
    /** The simulated date, as a JavaScript Date value. */
    var currentDate: int
    var focused: Option<AsteroidInfo>
    var playing: bool
    var speed: int
    var selectedIds: seq<Id>
    /** The scene objects of the tracked PHAs, reduced to the data each holds. */
    var phaMeshes: map<Id, Pha>

    ghost predicate Valid()
      reads this
    {
      && 0 <= currentApproachIndex
      && IsSpeed(speed)
      && |selectedIds| <= MaxTracked
      && (forall id :: id in phaMeshes ==> id in selectedIds && phaMeshes[id].id == id)
    }

    /** `Valid`, except that `pending` may still have scene objects after it
        left the tracked list: the state between the two steps of an untick. */
    ghost predicate ValidExcept(pending: Id)
      reads this
    {
      && 0 <= currentApproachIndex
      && IsSpeed(speed)
      && |selectedIds| <= MaxTracked
      && (forall id :: id in phaMeshes ==> (id in selectedIds || id == pending) && phaMeshes[id].id == id)
    }

    /** The page as loaded; `startDate` is the Date value of 1 January 2025
        in the browser's time zone. */
    constructor (startDate: int)
      ensures Valid()
      ensures currentApproachIndex == 0 && currentDate == startDate && focused == None
      ensures !playing && speed == 1 && selectedIds == [] && phaMeshes == map[]
    {
      currentApproachIndex := 0;
      currentDate := startDate;
      focused := None;
      playing := false;
      speed := 1;
      selectedIds := [];
      phaMeshes := map[];
    }

    /** Clicking a PHA that has an information row focuses it and restarts
        navigation at the first approach. */
    method Focus(a: AsteroidInfo)
      requires Valid()
      modifies this`focused, this`currentApproachIndex
      ensures Valid()
      ensures focused == Some(a) && currentApproachIndex == 0
    {
      focused := Some(a);
      currentApproachIndex := 0;
    }

    /** The previous/next buttons of the close-approach tab. */
    method JumpToCloseApproach(direction: int)
      requires Valid()
      modifies this`currentApproachIndex, this`currentDate
      ensures Valid()
      ensures var list := Navigable(focused);
        if list == [] then
          currentApproachIndex == old(currentApproachIndex) && currentDate == old(currentDate)
        else
          && currentApproachIndex == StepIndex(old(currentApproachIndex), direction, |list|)
          && currentDate == list[currentApproachIndex].dateMs
    {
      if focused.None? {
        return;
      }
      var approaches := Upcoming(focused.value.closeApproaches);
      if |approaches| == 0 {
        return;
      }
      currentApproachIndex := currentApproachIndex + direction;
      if currentApproachIndex < 0 {
        currentApproachIndex := |approaches| - 1;
      }
      if currentApproachIndex >= |approaches| {
        currentApproachIndex := 0;
      }
      currentDate := approaches[currentApproachIndex].dateMs;
    }

    method TogglePlay()
      requires Valid()
      modifies this`playing
      ensures Valid() && playing == !old(playing)
    {
      playing := !playing;
    }

    /** The speed button: double, and past the ceiling start again at 1. */
    method PressSpeed()
      requires Valid()
      modifies this`speed
      ensures Valid()
      ensures speed == NextSpeed(old(speed))
      ensures old(speed) < MaxSpeed ==> speed == 2 * old(speed)
      ensures old(speed) == MaxSpeed ==> speed == 1
    {
      speed := speed * 2;
      if speed > MaxSpeed {
        speed := 1;
      }
    }

    /** Builds the scene objects of every tracked asteroid that has none yet
        and whose position table exists; nothing else changes. */
    method CreatePhas(phaData: seq<Pha>)
      requires Valid()
      modifies this`phaMeshes
      ensures Valid()
      ensures phaMeshes.Keys == old(phaMeshes).Keys + Loadable(selectedIds, phaData)
      ensures forall id :: id in old(phaMeshes) ==> phaMeshes[id] == old(phaMeshes)[id]
      ensures forall id :: id in phaMeshes && id !in old(phaMeshes) ==> Some(phaMeshes[id]) == FindPha(phaData, id)
    {
      var i := 0;
      while i < |selectedIds|
        invariant 0 <= i <= |selectedIds|
        invariant Valid()
        invariant phaMeshes.Keys == old(phaMeshes).Keys + Loadable(selectedIds[..i], phaData)
        invariant forall id :: id in old(phaMeshes) ==> phaMeshes[id] == old(phaMeshes)[id]
        invariant forall id :: id in phaMeshes && id !in old(phaMeshes) ==> Some(phaMeshes[id]) == FindPha(phaData, id)
      {
        var id := selectedIds[i];
        assert selectedIds[..i + 1] == selectedIds[..i] + [id];
        LoadableAppend(selectedIds[..i], id, phaData);
        if id !in phaMeshes {
          var found := FindPha(phaData, id);
          if found.Some? {
            phaMeshes := phaMeshes[found.value.id := found.value];
          }
        }
        i := i + 1;
      }
      assert selectedIds[..i] == selectedIds;
    }

    /** Ticking an asteroid's checkbox: refused when five are already
        tracked, otherwise the id is appended and scene objects are built. */
    method Check(id: Id, phaData: seq<Pha>) returns (accepted: bool)
      requires Valid()
      modifies this`selectedIds, this`phaMeshes
      ensures Valid()
      ensures accepted <==> |old(selectedIds)| < MaxTracked
      ensures !accepted ==> selectedIds == old(selectedIds) && phaMeshes == old(phaMeshes)
      ensures accepted ==> selectedIds == old(selectedIds) + [id]
      ensures accepted ==> phaMeshes.Keys == old(phaMeshes).Keys + Loadable(selectedIds, phaData)
      ensures accepted ==> forall x :: x in phaMeshes && x !in old(phaMeshes) ==> Some(phaMeshes[x]) == FindPha(phaData, x)
      ensures forall x :: x in old(phaMeshes) ==> x in phaMeshes && phaMeshes[x] == old(phaMeshes)[x]
    {
      if |selectedIds| >= MaxTracked {
        return false;
      }
      selectedIds := selectedIds + [id];
      CreatePhas(phaData);
      accepted := true;
    }

    /** removePHA: only an id that has scene objects is acted on; its
        objects are dropped and it leaves the tracked list. */
    method RemovePha(id: Id)
      requires ValidExcept(id)
      modifies this`selectedIds, this`phaMeshes
      ensures Valid()
      ensures id in old(phaMeshes) ==>
        phaMeshes == old(phaMeshes) - {id} && selectedIds == Without(old(selectedIds), id)
      ensures id !in old(phaMeshes) ==>
        phaMeshes == old(phaMeshes) && selectedIds == old(selectedIds)
    {
      if id in phaMeshes {
        phaMeshes := phaMeshes - {id};
        selectedIds := Without(selectedIds, id);
      }
    }

    /** Unticking an asteroid's checkbox: the id leaves the tracked list and
        its scene objects are dropped; every other id keeps its place. */
    method Uncheck(id: Id)
      requires Valid()
      modifies this`selectedIds, this`phaMeshes
      ensures Valid()
      ensures selectedIds == Without(old(selectedIds), id)
      ensures phaMeshes == old(phaMeshes) - {id}
      ensures id !in selectedIds && id !in phaMeshes
    {
      selectedIds := Without(selectedIds, id);
      WithoutIdempotent(old(selectedIds), id);
      RemovePha(id);
    }
  }
}
