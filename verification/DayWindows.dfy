/** Minutes of day, and windows of the day that may wrap past midnight. */
module DayWindows {
  import opened Common
  import opened Integrals

  /** `divmod(x, 1440)`: the day an instant falls in, and its minute of that day. */
  function DayOf(x: real): int {
    (x / 1440.0).Floor
  }

  function Within(x: real): (w: real)
    ensures 0.0 <= w < 1440.0
  {
    x - (DayOf(x) * 1440) as real
  }

  predicate MinuteOfDay(m: int) {
    0 <= m < 1440
  }

  /** The window is open from `start` up to `stop`; one that does not start before it stops runs over midnight. */
  predicate InWindow(minute: real, start: int, stop: int) {
    if start < stop then start as real <= minute < stop as real
    else minute >= start as real || minute < stop as real
  }

  /** The overlap test: one window contains the other's start. */
  predicate Overlaps(aStart: int, aStop: int, bStart: int, bStop: int) {
    InWindow(aStart as real, bStart, bStop) || InWindow(bStart as real, aStart, aStop)
  }

  ghost predicate ShareMinute(aStart: int, aStop: int, bStart: int, bStop: int) {
    exists m: real {:trigger InWindow(m, aStart, aStop)} ::
      0.0 <= m < 1440.0 && InWindow(m, aStart, aStop) && InWindow(m, bStart, bStop)
  }

  /** The test is exact for windows that have a length. */
  lemma OverlapIsExact(aStart: int, aStop: int, bStart: int, bStop: int)
    requires MinuteOfDay(aStart) && MinuteOfDay(aStop) && MinuteOfDay(bStart) && MinuteOfDay(bStop)
    requires aStart != aStop && bStart != bStop
    ensures Overlaps(aStart, aStop, bStart, bStop) <==> ShareMinute(aStart, aStop, bStart, bStop)
  {
    if Overlaps(aStart, aStop, bStart, bStop) {
      var m := if InWindow(aStart as real, bStart, bStop) then aStart as real else bStart as real;
      assert InWindow(m, aStart, aStop) && InWindow(m, bStart, bStop);
    }
  }

  lemma WithinOfMinute(m: int)
    ensures DayOf(m as real) == m / 1440 && Within(m as real) == (m % 1440) as real
  {
    var q, r := m / 1440, m % 1440;
    assert m as real / 1440.0 == q as real + r as real / 1440.0;
  }

  /** 1 while the window is open, 0 while it is closed. */
  ghost function OpenProfile(start: int, stop: int): Profile {
    (m: int) => if InWindow(Within(m as real), start, stop) then 1.0 else 0.0
  }

  function MinutesOpen(start: int, stop: int): int {
    (stop - start) % 1440
  }

  /** A window is open for the minutes from its start to its stop, counted round the clock. */
  lemma OpenMinutes(start: int, stop: int)
    requires MinuteOfDay(start) && MinuteOfDay(stop) && start != stop
    ensures Integral(OpenProfile(start, stop), 0.0, DAY) == MinutesOpen(start, stop) as real
  {
    hide Integral, Times, OpenProfile, MinutesOpen;
    Length(start, stop);
    OpenToday(start, stop);
    var f := OpenProfile(start, stop);
    if start < stop {
      TwoLevels(f, 0.0, 1.0, start, stop);
      Levels(start, stop - start, 1440 - stop);
    } else {
      TwoLevels(f, 1.0, 0.0, stop, start);
      Levels(stop, start - stop, 1440 - start);
    }
  }

  lemma Levels(x: int, y: int, z: int)
    ensures Times(0.0, x as real) + Times(1.0, y as real) + Times(0.0, z as real) == y as real
    ensures Times(1.0, x as real) + Times(0.0, y as real) + Times(1.0, z as real) == (x + z) as real
  {
  }

  lemma OpenToday(start: int, stop: int)
    ensures forall m: int {:trigger OpenProfile(start, stop)(m)} :: 0 <= m < 1440 ==>
      OpenProfile(start, stop)(m) ==
        if start < stop then (if start <= m < stop then 1.0 else 0.0)
        else (if stop <= m < start then 0.0 else 1.0)
  {
    forall m: int | 0 <= m < 1440
      ensures OpenProfile(start, stop)(m) ==
        if start < stop then (if start <= m < stop then 1.0 else 0.0)
        else (if stop <= m < start then 0.0 else 1.0)
    {
      WithinOfMinute(m);
      assert m % 1440 == m;
    }
  }

  lemma Length(start: int, stop: int)
    requires MinuteOfDay(start) && MinuteOfDay(stop) && start != stop
    ensures MinutesOpen(start, stop) == if start < stop then stop - start else stop + 1440 - start
  {
  }

  lemma TwoLevels(f: Profile, outer: real, inner: real, lo: int, hi: int)
    requires 0 <= lo < hi < 1440
    requires forall m: int {:trigger f(m)} :: 0 <= m < 1440 ==> f(m) == if lo <= m < hi then inner else outer
    ensures Integral(f, 0.0, DAY)
         == Times(outer, lo as real) + Times(inner, (hi - lo) as real) + Times(outer, (1440 - hi) as real)
  {
    Additive(f, 0.0, lo as real, DAY);
    Additive(f, lo as real, hi as real, DAY);
    Level(f, outer, 0, lo);
    Level(f, inner, lo, hi);
    Level(f, outer, hi, 1440);
  }

  lemma Level(f: Profile, level: real, lo: int, hi: int)
    requires lo <= hi && forall m: int {:trigger f(m)} :: lo <= m < hi ==> f(m) == level
    ensures Integral(f, lo as real, hi as real) == Times(level, (hi - lo) as real)
  {
    IntegralOfConstant(f, level, lo as real, hi as real);
  }

  // --- The next edge ---------------------------------------------------------

  function Least(edges: seq<int>): (e: int)
    requires edges != []
    ensures e in edges && forall x :: x in edges ==> e <= x
  {
    if |edges| == 1 then edges[0] else
      var rest := Least(edges[1..]);
      assert edges == [edges[0]] + edges[1..];
      if edges[0] <= rest then edges[0] else rest
  }

  /** The first of the sorted edges after `within`, if today has one. */
  function FirstAfter(edges: seq<int>, within: real): (e: Option<int>)
    ensures e == None ==> forall x :: x in edges ==> x as real <= within
    ensures e.Some? ==> e.value in edges && e.value as real > within
    ensures e.Some? ==> forall x :: x in edges && x as real > within ==> e.value <= x
  {
    if edges == [] then None else
      var rest := FirstAfter(edges[1..], within);
      assert edges == [edges[0]] + edges[1..];
      if edges[0] as real > within && (rest == None || edges[0] <= rest.value) then Some(edges[0])
      else rest
  }

  /** The edge that ends the current stretch: one still to come today, or else tomorrow's earliest. */
  function NextEdge(edges: seq<int>, within: real): (e: int)
    requires edges != [] && 0.0 <= within < 1440.0
    requires forall x :: x in edges ==> MinuteOfDay(x)
    ensures within < e as real && e % 1440 in edges
  {
    match FirstAfter(edges, within)
    case Some(edge) =>
      assert MinuteOfDay(edge);
      edge
    case None =>
      assert MinuteOfDay(Least(edges));
      Least(edges) + 1440
  }

  /** The instant of the next edge after `now`. */
  function NextEdgeTime(edges: seq<int>, now: real): (t: int)
    requires edges != [] && forall x :: x in edges ==> MinuteOfDay(x)
    ensures now < t as real && t % 1440 in edges
  {
    WholeDaysDoNotMatter(DayOf(now), NextEdge(edges, Within(now)));
    DayOf(now) * 1440 + NextEdge(edges, Within(now))
  }

  lemma WholeDaysDoNotMatter(day: int, minute: int)
    ensures (day * 1440 + minute) % 1440 == minute % 1440
  {
  }

  /** Between one edge and the next no window opens or closes. */
  lemma NothingChangesBeforeNextEdge(edges: seq<int>, now: real, start: int, stop: int, m: int)
    requires edges != [] && forall x :: x in edges ==> MinuteOfDay(x)
    requires start in edges && stop in edges
    requires now.Floor <= m < NextEdgeTime(edges, now)
    ensures InWindow(Within(m as real), start, stop) <==> InWindow(Within(now), start, stop)
  {
    var day, within := DayOf(now), Within(now);
    var e := NextEdge(edges, within);
    var x := m - day * 1440;
    WithinOfMinute(m);
    WithinFloor(now);
    assert within.Floor <= x < e;
    assert MinuteOfDay(start) && MinuteOfDay(stop);
    if x < 1440 {
      DayAndRest(m, day, x);
      SameToday(edges, within, start, stop, x);
    } else {
      assert MinuteOfDay(Least(edges));
      DayAndRest(m, day + 1, x - 1440);
      SameTomorrow(edges, within, start, stop, x - 1440);
    }
  }

  lemma DayAndRest(m: int, day: int, rest: int)
    requires m == day * 1440 + rest && 0 <= rest < 1440
    ensures m % 1440 == rest
  {
  }

  lemma SameToday(edges: seq<int>, within: real, start: int, stop: int, x: int)
    requires edges != [] && 0.0 <= within < 1440.0 && forall y :: y in edges ==> MinuteOfDay(y)
    requires start in edges && stop in edges
    requires within.Floor <= x < NextEdge(edges, within)
    ensures InWindow(x as real, start, stop) <==> InWindow(within, start, stop)
  {
    SameSideOfEdge(edges, within, start, x);
    SameSideOfEdge(edges, within, stop, x);
  }

  lemma SameTomorrow(edges: seq<int>, within: real, start: int, stop: int, x: int)
    requires edges != [] && 0.0 <= within < 1440.0 && forall y :: y in edges ==> MinuteOfDay(y)
    requires start in edges && stop in edges
    requires FirstAfter(edges, within) == None && 0 <= x < Least(edges)
    ensures InWindow(x as real, start, stop) <==> InWindow(within, start, stop)
  {
  }

  lemma SameSideOfEdge(edges: seq<int>, within: real, edge: int, x: int)
    requires edges != [] && 0.0 <= within < 1440.0 && forall y :: y in edges ==> MinuteOfDay(y)
    requires edge in edges && within.Floor <= x < NextEdge(edges, within)
    ensures edge as real <= within <==> edge <= x
  {
    if edge as real <= within {
      assert edge <= within.Floor;
    }
  }

  lemma WithinFloor(now: real)
    ensures now.Floor - DayOf(now) * 1440 == Within(now).Floor
    ensures 0 <= Within(now).Floor < 1440
  {
  }

  /** Distinct instants less than a day apart fall on distinct minutes of day. */
  lemma DistinctMinutes(y: int, z: int)
    requires y != z && -1440 < z - y < 1440
    ensures y % 1440 != z % 1440
  {
  }

  lemma {:induction false} AtMostOncePerDay(seen: set<int>, edges: set<int>, from: real)
    requires forall y :: y in seen ==> from < y as real < from + 1440.0 && y % 1440 in edges
    ensures |seen| <= |edges|
  {
    if seen != {} {
      var y := Pick(seen);
      forall z | z in seen - {y} ensures z % 1440 in edges - {y % 1440} {
        assert y in seen && z in seen;
        DistinctMinutes(y, z);
      }
      AtMostOncePerDay(seen - {y}, edges - {y % 1440}, from);
    }
  }
}
