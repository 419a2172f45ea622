/** Pricing a draw of constant power over tariff windows
    (`price_energy_over_tariffs`). */
module TariffPricing {
  import opened Common
  import opened Integrals
  import opened DayWindows
  import opened Draws

  /** `activeTarif`: 0 the primary rate, 1 and 2 the rates with windows. */
  type RateIndex = i: int | 0 <= i <= 2

  datatype Rates = Rates(primary: real, second: real, third: real) {
    function At(i: RateIndex): real {
      if i == 0 then primary else if i == 1 then second else third
    }
  }

  datatype Window = Window(index: RateIndex, start: int, stop: int)

  /** What the payload table admits: minutes of day, one window per enabled rate. */
  ghost predicate WellFormed(windows: seq<Window>) {
    && |windows| <= 2
    && (|windows| == 2 ==> windows[0].index != windows[1].index)
    && forall w :: w in windows ==> w.index != 0 && MinuteOfDay(w.start) && MinuteOfDay(w.stop)
  }

  predicate HasLengths(windows: seq<Window>) {
    forall i :: 0 <= i < |windows| ==> windows[i].start != windows[i].stop
  }

  predicate Disjoint(windows: seq<Window>) {
    forall i, j :: 0 <= i < j < |windows| ==>
      !Overlaps(windows[i].start, windows[i].stop, windows[j].start, windows[j].stop)
  }

  predicate OpenAt(w: Window, minute: real) {
    InWindow(Within(minute), w.start, w.stop)
  }

  /** The rate in effect: the first window that is open, else the primary rate. */
  function IndexAt(windows: seq<Window>, minute: real): RateIndex {
    if windows == [] then 0
    else if OpenAt(windows[0], minute) then windows[0].index
    else IndexAt(windows[1..], minute)
  }

  ghost function RateProfile(rates: Rates, windows: seq<Window>): Profile {
    (m: int) => rates.At(IndexAt(windows, m as real))
  }

  ghost function ConstantPower(kwhPerMinute: real): Profile {
    (m: int) => kwhPerMinute
  }

  /** When the window model can be trusted for this minute. */
  predicate Trusted(minute: real, active: int, windows: seq<Window>) {
    HasLengths(windows) && Disjoint(windows) && IndexAt(windows, minute) == active
  }

  function Edges(windows: seq<Window>): (edges: seq<int>)
    ensures |edges| == 2 * |windows|
    ensures forall w :: w in windows ==> w.start in edges && w.stop in edges
    ensures forall e :: e in edges ==> exists w :: w in windows && (e == w.start || e == w.stop)
  {
    if windows == [] then [] else
      assert windows == [windows[0]] + windows[1..];
      [windows[0].start, windows[0].stop] + Edges(windows[1..])
  }

  // --- Rates -------------------------------------------------------------------

  /** Accepted windows never claim the same minute, so their order decides nothing. */
  lemma {:induction false} IndexIsTheOpenWindow(windows: seq<Window>, minute: real, w: Window)
    requires WellFormed(windows) && HasLengths(windows) && Disjoint(windows)
    requires w in windows && OpenAt(w, minute)
    ensures IndexAt(windows, minute) == w.index
  {
    if windows[0] != w {
      assert windows[1] == w && windows[1..] == [w];
      var v := windows[0];
      OverlapIsExact(v.start, v.stop, w.start, w.stop);
      assert !(InWindow(Within(minute), v.start, v.stop) && InWindow(Within(minute), w.start, w.stop));
    }
  }

  lemma {:induction false} IndexWhenAllClosed(windows: seq<Window>, minute: real)
    requires forall w :: w in windows ==> !OpenAt(w, minute)
    ensures IndexAt(windows, minute) == 0
  {
    if windows != [] {
      IndexWhenAllClosed(windows[1..], minute);
    }
  }

  lemma OrderDecidesNothing(windows: seq<Window>, reordered: seq<Window>, minute: real)
    requires WellFormed(windows) && HasLengths(windows) && Disjoint(windows)
    requires WellFormed(reordered) && HasLengths(reordered) && Disjoint(reordered)
    requires forall w :: w in windows <==> w in reordered
    ensures IndexAt(windows, minute) == IndexAt(reordered, minute)
  {
    if w :| w in windows && OpenAt(w, minute) {
      IndexIsTheOpenWindow(windows, minute, w);
      IndexIsTheOpenWindow(reordered, minute, w);
    } else {
      IndexWhenAllClosed(windows, minute);
      IndexWhenAllClosed(reordered, minute);
    }
  }

  lemma {:induction false} RateIsDaily(windows: seq<Window>, m: int)
    ensures IndexAt(windows, (m + 1440) as real) == IndexAt(windows, m as real)
  {
    WithinOfMinute(m);
    WithinOfMinute(m + 1440);
    assert (m + 1440) % 1440 == m % 1440;
    if windows != [] {
      RateIsDaily(windows[1..], m);
    }
  }

  lemma RateProfileDaily(rates: Rates, windows: seq<Window>)
    ensures Daily(RateProfile(rates, windows))
  {
    forall m: int ensures RateProfile(rates, windows)(m + 1440) == RateProfile(rates, windows)(m) {
      RateIsDaily(windows, m);
    }
  }

  lemma {:induction false} IndexUnchangedBeforeNextEdge(windows: seq<Window>, edges: seq<int>, now: real, m: int)
    requires edges != [] && forall e :: e in edges ==> MinuteOfDay(e)
    requires forall w :: w in windows ==> w.start in edges && w.stop in edges
    requires now.Floor <= m < NextEdgeTime(edges, now)
    ensures IndexAt(windows, m as real) == IndexAt(windows, now)
  {
    if windows != [] {
      assert windows[0] in windows;
      NothingChangesBeforeNextEdge(edges, now, windows[0].start, windows[0].stop, m);
      IndexUnchangedBeforeNextEdge(windows[1..], edges, now, m);
    }
  }

  lemma RateUntilNextEdge(rates: Rates, windows: seq<Window>, edges: seq<int>, now: real, end: real)
    requires edges != [] && forall e :: e in edges ==> MinuteOfDay(e)
    requires forall w :: w in windows ==> w.start in edges && w.stop in edges
    requires end <= NextEdgeTime(edges, now) as real
    ensures ConstantOn(RateProfile(rates, windows), rates.At(IndexAt(windows, now)), now, end)
  {
    forall m: int | now.Floor <= m && m as real < end
      ensures RateProfile(rates, windows)(m) == rates.At(IndexAt(windows, now))
    {
      IndexUnchangedBeforeNextEdge(windows, edges, now, m);
    }
  }

  // --- Whole days --------------------------------------------------------------

  function Premium(rates: Rates, w: Window): real {
    rates.At(w.index) - rates.primary
  }

  /** The rate-minutes of one day, counted window by window. */
  function WeightedRate(rates: Rates, windows: seq<Window>): real {
    if windows == [] then 1440.0 * rates.primary
    else
      WeightedRate(rates, windows[1..])
      + Times(Premium(rates, windows[0]), MinutesOpen(windows[0].start, windows[0].stop) as real)
  }

  /** `weighted_rate` is the sum of the rates of all the minutes of a day. */
  lemma {:induction false} WeightedRateIsADay(rates: Rates, windows: seq<Window>)
    requires WellFormed(windows) && HasLengths(windows) && Disjoint(windows)
    ensures Integral(RateProfile(rates, windows), 0.0, DAY) == WeightedRate(rates, windows)
  {
    if windows == [] {
      DayWithoutWindows(rates);
    } else {
      RestIsAccepted(windows);
      WeightedRateIsADay(rates, windows[1..]);
      DayWithFirstWindow(rates, windows);
      OpenMinutes(windows[0].start, windows[0].stop);
    }
  }

  lemma DayWithoutWindows(rates: Rates)
    ensures Integral(RateProfile(rates, []), 0.0, DAY) == 1440.0 * rates.primary
  {
    IntegralOfConstant(RateProfile(rates, []), rates.primary, 0.0, DAY);
  }

  lemma RestIsAccepted(windows: seq<Window>)
    requires windows != [] && WellFormed(windows) && HasLengths(windows) && Disjoint(windows)
    ensures WellFormed(windows[1..]) && HasLengths(windows[1..]) && Disjoint(windows[1..])
    ensures MinuteOfDay(windows[0].start) && MinuteOfDay(windows[0].stop) && windows[0].start != windows[0].stop
  {
    assert windows == [windows[0]] + windows[1..];
  }

  lemma DayWithFirstWindow(rates: Rates, windows: seq<Window>)
    requires windows != [] && WellFormed(windows) && HasLengths(windows) && Disjoint(windows)
    ensures Integral(RateProfile(rates, windows), 0.0, DAY)
         == Integral(RateProfile(rates, windows[1..]), 0.0, DAY)
          + Times(Premium(rates, windows[0]), Integral(OpenProfile(windows[0].start, windows[0].stop), 0.0, DAY))
  {
    FirstWindowPremiumAlways(rates, windows);
    IntegralLinear(RateProfile(rates, windows), RateProfile(rates, windows[1..]),
                   Premium(rates, windows[0]), OpenProfile(windows[0].start, windows[0].stop), 0.0, DAY);
  }

  lemma FirstWindowPremiumAlways(rates: Rates, windows: seq<Window>)
    requires windows != [] && WellFormed(windows) && HasLengths(windows) && Disjoint(windows)
    ensures forall m: int {:trigger RateProfile(rates, windows)(m)} ::
      RateProfile(rates, windows)(m) == RateProfile(rates, windows[1..])(m)
        + Times(Premium(rates, windows[0]), OpenProfile(windows[0].start, windows[0].stop)(m))
  {
    forall m: int ensures RateProfile(rates, windows)(m) == RateProfile(rates, windows[1..])(m)
        + Times(Premium(rates, windows[0]), OpenProfile(windows[0].start, windows[0].stop)(m))
    {
      FirstWindowPremium(rates, windows, m);
    }
  }

  lemma FirstWindowPremium(rates: Rates, windows: seq<Window>, m: int)
    requires windows != [] && WellFormed(windows) && HasLengths(windows) && Disjoint(windows)
    ensures RateProfile(rates, windows)(m) == RateProfile(rates, windows[1..])(m)
         + Times(Premium(rates, windows[0]), OpenProfile(windows[0].start, windows[0].stop)(m))
  {
    var w, rest := windows[0], windows[1..];
    if OpenAt(w, m as real) {
      forall v | v in rest ensures !OpenAt(v, m as real) {
        OverlapIsExact(w.start, w.stop, v.start, v.stop);
        assert !(InWindow(Within(m as real), w.start, w.stop) && InWindow(Within(m as real), v.start, v.stop));
      }
      IndexWhenAllClosed(rest, m as real);
    }
  }

  // --- The draw ----------------------------------------------------------------

  ghost function EdgeSet(windows: seq<Window>): set<int> {
    set e | e in Edges(windows)
  }

  lemma EdgesAreMinutes(windows: seq<Window>)
    requires WellFormed(windows)
    ensures forall e :: e in Edges(windows) ==> MinuteOfDay(e)
  {
  }

  /** A day of constant power uses a day's energy and costs the weighted rate. */
  lemma DayAtConstantPower(k: real, rates: Rates, windows: seq<Window>)
    requires WellFormed(windows) && HasLengths(windows) && Disjoint(windows)
    ensures Integral(ConstantPower(k), 0.0, DAY) == Times(k, 1440.0)
    ensures Integral(Spend(ConstantPower(k), RateProfile(rates, windows)), 0.0, DAY) == Times(k, WeightedRate(rates, windows))
  {
    DayOfConstant(k);
    WeightedRateIsADay(rates, windows);
    SpendAtConstantPower(k, RateProfile(rates, windows), 0.0, DAY);
  }

  lemma DayOfConstant(k: real)
    ensures Integral(ConstantPower(k), 0.0, DAY) == Times(k, 1440.0)
  {
    IntegralOfConstant(ConstantPower(k), k, 0.0, DAY);
  }

  lemma SteadyPower(k: real, a: real, b: real)
    ensures Daily(ConstantPower(k)) && ConstantOn(ConstantPower(k), k, a, b)
  {
  }

  lemma SpendAtConstantPower(k: real, rate: Profile, a: real, b: real)
    requires a <= b
    ensures Integral(Spend(ConstantPower(k), rate), a, b) == Times(k, Integral(rate, a, b))
  {
    ScaledIntegralOf(Spend(ConstantPower(k), rate), rate, k, a, b);
  }

  /** Without windows the price is flat. */
  lemma FlatPrice(k: real, rates: Rates, start: real, energy: real)
    requires k > 0.0 && energy >= 0.0
    ensures Priced(ConstantPower(k), RateProfile(rates, []), start, energy, Times(energy, rates.primary))
  {
    var width := energy / k;
    assert Times(width, k) == energy;
    FlatUntil(k, rates, start, start + width);
  }

  lemma FlatUntil(k: real, rates: Rates, start: real, t: real)
    requires start <= t
    ensures Priced(ConstantPower(k), RateProfile(rates, []), start, Times(t - start, k), Times(Times(t - start, k), rates.primary))
  {
    DrawEven(ConstantPower(k), RateProfile(rates, []), k, rates.primary, start, t);
  }

  /** While energy is left after the whole days, less than a day has been walked. */
  lemma LessThanADayWalked(k: real, start: real, now: real, drawn: real)
    requires k > 0.0 && start <= now && Integral(ConstantPower(k), start, now) == drawn < Times(k, 1440.0)
    ensures now < start + 1440.0
  {
    IntegralOfConstant(ConstantPower(k), k, start, now);
    Shorter(k, now - start, 1440.0);
  }

  lemma Shorter(k: real, width: real, bound: real)
    requires k > 0.0 && Times(k, width) < Times(k, bound)
    ensures width < bound
  {
    if width >= bound {
      TimesMonotone(bound, width, k);
    }
  }

  lemma WholeDaysPriced(k: real, rates: Rates, windows: seq<Window>, start: real, days: nat, left: real, cost: real, finish: real)
    requires WellFormed(windows) && HasLengths(windows) && Disjoint(windows)
    requires DrawnUntil(ConstantPower(k), RateProfile(rates, windows), start, left, cost, finish)
    ensures Priced(ConstantPower(k), RateProfile(rates, windows), start,
                   left + Times(days as real, Times(k, 1440.0)),
                   cost + Times(days as real, Times(k, WeightedRate(rates, windows))))
  {
    hide Integral, Times, DrawnUntil, RateProfile, WeightedRate, Spend, Daily;
    RateProfileDaily(rates, windows);
    SteadyPower(k, 0.0, 0.0);
    DayAtConstantPower(k, rates, windows);
    DrawWholeDaysMore(ConstantPower(k), RateProfile(rates, windows), start, left, cost, finish, days);
  }

  /** What the walk has drawn and spent so far, in terms of the minute-by-minute draw. */
  ghost predicate Walked(k: real, rates: Rates, windows: seq<Window>, start: real, energy: real, cost: real, at: real) {
    DrawnUntil(ConstantPower(k), RateProfile(rates, windows), start, energy, cost, at)
  }

  /** The instants of the edges the walk has stepped to. */
  ghost predicate Visited(seen: set<int>, windows: seq<Window>, start: real, now: real) {
    start <= now && forall y :: y in seen ==> start < y as real <= now && y % 1440 in EdgeSet(windows)
  }

  lemma NothingDrawn(k: real, rates: Rates, windows: seq<Window>, start: real)
    ensures Walked(k, rates, windows, start, 0.0, 0.0, start) && Visited({}, windows, start, start)
  {
    assert Times(ConstantPower(k)(start.Floor), 0.0) == 0.0;
    assert Times(Spend(ConstantPower(k), RateProfile(rates, windows))(start.Floor), 0.0) == 0.0;
  }

  lemma StepsSoFar(k: real, rates: Rates, windows: seq<Window>, start: real, now: real, energy: real, cost: real, seen: set<int>)
    requires k > 0.0 && Walked(k, rates, windows, start, energy, cost, now) && energy < Times(k, 1440.0)
    requires Visited(seen, windows, start, now)
    ensures |seen| <= |EdgeSet(windows)|
  {
    LessThanADayWalked(k, start, now, energy);
    AtMostOncePerDay(seen, EdgeSet(windows), start);
  }

  lemma VisitNext(seen: set<int>, windows: seq<Window>, start: real, now: real, edge: int) returns (more: set<int>)
    requires Visited(seen, windows, start, now) && now < edge as real && edge % 1440 in Edges(windows)
    ensures Visited(more, windows, start, edge as real) && |more| == |seen| + 1
  {
    assert edge !in seen;
    more := seen + {edge};
  }

  /** The edge the current stretch ends at, and the rate until then. */
  method NextStretch(rates: Rates, windows: seq<Window>, now: real) returns (edge: int, price: real)
    requires WellFormed(windows) && windows != []
    ensures now < edge as real && edge % 1440 in Edges(windows)
    ensures ConstantOn(RateProfile(rates, windows), price, now, edge as real)
  {
    EdgesAreMinutes(windows);
    edge := NextEdgeTime(Edges(windows), now);
    price := rates.At(IndexAt(windows, now));
    RateUntilNextEdge(rates, windows, Edges(windows), now, edge as real);
  }

  /** Draws less than a day's energy edge by edge.  However much is asked for, the
      walk takes at most one step per distinct edge and one more. */
  method WalkEdges(k: real, remainder: real, minute: real, rates: Rates, windows: seq<Window>)
    returns (cost: real, ghost at: real, ghost steps: nat)
    requires WellFormed(windows) && windows != [] && k > 0.0 && 0.0 <= remainder < Times(k, 1440.0)
    ensures Walked(k, rates, windows, minute, remainder, cost, at)
    ensures Priced(ConstantPower(k), RateProfile(rates, windows), minute, remainder, cost)
    ensures steps <= |EdgeSet(windows)| + 1
  {
    hide Integral, DrawnUntil, Times, Visited, ConstantOn, ConstantPower, RateProfile;
    cost := 0.0;
    var left, now := remainder, minute;
    ghost var seen: set<int> := {};
    at, steps := minute, 0;
    NothingDrawn(k, rates, windows, minute);
    while left > 0.0
      invariant 0.0 <= left <= remainder
      invariant Walked(k, rates, windows, minute, remainder - left, cost, at)
      invariant left > 0.0 ==> at == now && |seen| == steps
      invariant steps <= |EdgeSet(windows)| + 1
      invariant Visited(seen, windows, minute, now)
      decreases |EdgeSet(windows)| + 1 - steps
    {
      StepsSoFar(k, rates, windows, minute, now, remainder - left, cost, seen);
      var edge, price := NextStretch(rates, windows, now);
      var drawn := Min(left, Times(edge as real - now, k));
      Positive(edge as real - now, k);
      SteadyPower(k, now, edge as real);
      at := DrawStretchOn(ConstantPower(k), RateProfile(rates, windows), k, price, minute, now, edge as real,
                          remainder - left, cost, left, drawn);
      cost := cost + Times(drawn, price);
      left := left - drawn;
      seen := VisitNext(seen, windows, minute, now, edge);
      now := edge as real;
      steps := steps + 1;
    }
  }

  lemma Positive(x: real, y: real)
    requires x > 0.0 && y > 0.0
    ensures Times(x, y) > 0.0
  {
  }

  /** The cost of drawing `energy` kWh at `power` W from `minute` on, or `None` when
      the window model cannot be trusted. */
  method PriceOverTariffs(energy: real, power: real, minute: real, active: int, rates: Rates, windows: seq<Window>)
    returns (cost: Option<real>, ghost steps: nat)
    requires WellFormed(windows)
    ensures cost.Some? <==> power > 0.0 && Trusted(minute, active, windows)
    ensures cost.Some? && energy >= 0.0 ==>
      Priced(ConstantPower(power / 60000.0), RateProfile(rates, windows), minute, energy, cost.value)
    ensures steps <= |EdgeSet(windows)| + 1
  {
    hide Integral, Times, WeightedRate, DrawnUntil;
    steps := 0;
    if power <= 0.0 || !HasLengths(windows) || !Disjoint(windows) || IndexAt(windows, minute) != active {
      return None, steps;
    }
    var k := power / 60000.0;
    if windows == [] {
      if energy >= 0.0 {
        FlatPrice(k, rates, minute, energy);
      }
      return Some(Times(energy, rates.primary)), steps;
    }
    var dayEnergy := Times(k, 1440.0);
    Positive(k, 1440.0);
    var days := (energy / dayEnergy).Floor;
    var left := energy - Times(days as real, dayEnergy);
    RemainderOfDay(energy, dayEnergy);
    var wholeDays := Times(energy - left, WeightedRate(rates, windows)) / 1440.0;
    var walked;
    ghost var at;
    walked, at, steps := WalkEdges(k, left, minute, rates, windows);
    if energy >= 0.0 {
      WholeDaysPriced(k, rates, windows, minute, days, left, walked, at);
      DaysOfWeight(days as real, k, WeightedRate(rates, windows));
    }
    return Some(wholeDays + walked), steps;
  }

  lemma RemainderOfDay(energy: real, dayEnergy: real)
    requires dayEnergy > 0.0
    ensures 0.0 <= energy - Times((energy / dayEnergy).Floor as real, dayEnergy) < dayEnergy
    ensures energy >= 0.0 ==> (energy / dayEnergy).Floor >= 0
  {
    var q := energy / dayEnergy;
    assert Times(q, dayEnergy) == energy;
    if energy >= 0.0 { assert q >= 0.0; }
    Fraction(q, q.Floor as real, dayEnergy);
  }

  lemma Fraction(q: real, whole: real, unit: real)
    requires whole <= q < whole + 1.0 && unit > 0.0
    ensures 0.0 <= Times(q, unit) - Times(whole, unit) < unit
  {
    StrictlyMore(q, whole + 1.0, unit);
    assert Times(q, unit) < Times(whole + 1.0, unit);
    OneMore(whole + 1.0, unit);
    TimesMonotone(whole, q, unit);
  }

  lemma DaysOfWeight(days: real, k: real, weight: real)
    ensures Times(Times(days, Times(k, 1440.0)), weight) / 1440.0 == Times(days, Times(k, weight))
  {
  }
}
