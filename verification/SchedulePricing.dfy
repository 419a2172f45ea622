/** Pricing a draw that the charger places in its schedule windows
    (`price_energy_in_schedules`). */
module SchedulePricing {
  import opened Common
  import opened Integrals
  import opened DayWindows
  import opened Draws
  import opened TariffPricing

  /** A schedule window and the power (W) the charger draws in it. */
  datatype Schedule = Schedule(start: int, stop: int, power: real)

  ghost predicate OnTheClock(schedules: seq<Schedule>) {
    forall s :: s in schedules ==> MinuteOfDay(s.start) && MinuteOfDay(s.stop)
  }

  predicate Usable(schedules: seq<Schedule>) {
    && schedules != []
    && (forall i :: 0 <= i < |schedules| ==> schedules[i].start != schedules[i].stop && schedules[i].power > 0.0)
    && forall i, j :: 0 <= i < j < |schedules| ==>
         !Overlaps(schedules[i].start, schedules[i].stop, schedules[j].start, schedules[j].stop)
  }

  predicate RunsAt(s: Schedule, minute: real) {
    InWindow(Within(minute), s.start, s.stop)
  }

  /** The power drawn: that of the first schedule that is open, else none. */
  function PowerAt(schedules: seq<Schedule>, minute: real): real {
    if schedules == [] then 0.0
    else if RunsAt(schedules[0], minute) then schedules[0].power
    else PowerAt(schedules[1..], minute)
  }

  /** kWh per minute drawn inside the open schedules, and nothing outside them. */
  ghost function ScheduledPower(schedules: seq<Schedule>): Profile {
    (m: int) => PowerAt(schedules, m as real) / 60000.0
  }

  function ScheduleEdges(schedules: seq<Schedule>): (edges: seq<int>)
    ensures forall s :: s in schedules ==> s.start in edges && s.stop in edges
    ensures forall e :: e in edges ==> exists s :: s in schedules && (e == s.start || e == s.stop)
  {
    if schedules == [] then [] else
      assert schedules == [schedules[0]] + schedules[1..];
      [schedules[0].start, schedules[0].stop] + ScheduleEdges(schedules[1..])
  }

  // --- Power -------------------------------------------------------------------

  /** Schedules that do not overlap never claim the same minute, so their order decides nothing. */
  lemma {:induction false} PowerIsTheOpenSchedule(schedules: seq<Schedule>, minute: real, s: Schedule)
    requires OnTheClock(schedules) && Usable(schedules) && s in schedules && RunsAt(s, minute)
    ensures PowerAt(schedules, minute) == s.power
  {
    var first := schedules[0];
    if first != s {
      var j :| 0 <= j < |schedules| && schedules[j] == s;
      OverlapIsExact(first.start, first.stop, s.start, s.stop);
      assert !Overlaps(schedules[0].start, schedules[0].stop, schedules[j].start, schedules[j].stop);
      assert !(InWindow(Within(minute), first.start, first.stop) && InWindow(Within(minute), s.start, s.stop));
      assert schedules[1..][j - 1] == s;
      PowerIsTheOpenSchedule(schedules[1..], minute, s);
    }
  }

  lemma {:induction false} PowerOutsideSchedules(schedules: seq<Schedule>, minute: real)
    requires forall s :: s in schedules ==> !RunsAt(s, minute)
    ensures PowerAt(schedules, minute) == 0.0
  {
    if schedules != [] {
      PowerOutsideSchedules(schedules[1..], minute);
    }
  }

  lemma {:induction false} PowerIsNotNegative(schedules: seq<Schedule>, minute: real)
    requires forall s :: s in schedules ==> s.power > 0.0
    ensures PowerAt(schedules, minute) >= 0.0
  {
    if schedules != [] {
      PowerIsNotNegative(schedules[1..], minute);
    }
  }

  lemma {:induction false} PowerIsDaily(schedules: seq<Schedule>, m: int)
    ensures PowerAt(schedules, (m + 1440) as real) == PowerAt(schedules, m as real)
  {
    WithinOfMinute(m);
    WithinOfMinute(m + 1440);
    assert (m + 1440) % 1440 == m % 1440;
    if schedules != [] {
      PowerIsDaily(schedules[1..], m);
    }
  }

  lemma ScheduledPowerShape(schedules: seq<Schedule>)
    requires Usable(schedules)
    ensures Daily(ScheduledPower(schedules)) && NonNegative(ScheduledPower(schedules))
  {
    forall m: int ensures ScheduledPower(schedules)(m + 1440) == ScheduledPower(schedules)(m) {
      PowerIsDaily(schedules, m);
    }
    forall m: int ensures ScheduledPower(schedules)(m) >= 0.0 {
      PowerIsNotNegative(schedules, m as real);
    }
  }

  lemma {:induction false} PowerUnchangedBeforeNextEdge(schedules: seq<Schedule>, edges: seq<int>, now: real, m: int)
    requires edges != [] && forall e :: e in edges ==> MinuteOfDay(e)
    requires forall s :: s in schedules ==> s.start in edges && s.stop in edges
    requires now.Floor <= m < NextEdgeTime(edges, now)
    ensures PowerAt(schedules, m as real) == PowerAt(schedules, now)
  {
    if schedules != [] {
      assert schedules[0] in schedules;
      NothingChangesBeforeNextEdge(edges, now, schedules[0].start, schedules[0].stop, m);
      PowerUnchangedBeforeNextEdge(schedules[1..], edges, now, m);
    }
  }

  lemma PowerUntilNextEdge(schedules: seq<Schedule>, edges: seq<int>, now: real, end: real)
    requires edges != [] && forall e :: e in edges ==> MinuteOfDay(e)
    requires forall s :: s in schedules ==> s.start in edges && s.stop in edges
    requires end <= NextEdgeTime(edges, now) as real
    ensures ConstantOn(ScheduledPower(schedules), PowerAt(schedules, now) / 60000.0, now, end)
  {
    forall m: int | now.Floor <= m && m as real < end
      ensures ScheduledPower(schedules)(m) == PowerAt(schedules, now) / 60000.0
    {
      PowerUnchangedBeforeNextEdge(schedules, edges, now, m);
    }
  }

  lemma OpensOnTime(schedules: seq<Schedule>)
    requires OnTheClock(schedules) && Usable(schedules)
    ensures ScheduledPower(schedules)(schedules[0].start) == schedules[0].power / 60000.0
  {
    WithinOfMinute(schedules[0].start);
    assert schedules[0] in schedules;
    assert schedules[0].start % 1440 == schedules[0].start;
  }

  lemma FirstMinuteDraws(schedules: seq<Schedule>)
    requires OnTheClock(schedules) && Usable(schedules)
    ensures var start := schedules[0].start; Integral(ScheduledPower(schedules), start as real, (start + 1) as real) > 0.0
  {
    hide Integral, Times, ScheduledPower;
    var start, p := schedules[0].start, schedules[0].power / 60000.0;
    OpensOnTime(schedules);
    Level(ScheduledPower(schedules), p, start, start + 1);
    Positive(p, 1.0);
  }

  /** Every day draws something. */
  lemma DayDrawsSomething(schedules: seq<Schedule>)
    requires OnTheClock(schedules) && Usable(schedules)
    ensures Integral(ScheduledPower(schedules), 0.0, DAY) > 0.0
  {
    hide Integral, ScheduledPower, Daily, NonNegative;
    var f, start := ScheduledPower(schedules), schedules[0].start;
    assert schedules[0] in schedules;
    ScheduledPowerShape(schedules);
    Additive(f, 0.0, start as real, DAY);
    Additive(f, start as real, (start + 1) as real, DAY);
    IntegralNonNegative(f, 0.0, start as real);
    FirstMinuteDraws(schedules);
    IntegralNonNegative(f, (start + 1) as real, DAY);
  }

  // --- The walk ----------------------------------------------------------------

  ghost predicate Spent(rates: Rates, windows: seq<Window>, schedules: seq<Schedule>,
                        start: real, energy: real, cost: real, at: real) {
    DrawnUntil(ScheduledPower(schedules), RateProfile(rates, windows), start, energy, cost, at)
  }

  lemma NothingSpent(rates: Rates, windows: seq<Window>, schedules: seq<Schedule>, start: real)
    ensures Spent(rates, windows, schedules, start, 0.0, 0.0, start)
  {
    assert Times(ScheduledPower(schedules)(start.Floor), 0.0) == 0.0;
    assert Times(Spend(ScheduledPower(schedules), RateProfile(rates, windows))(start.Floor), 0.0) == 0.0;
  }

  /** One step of `segments`: the end of the stretch from `now`, its power and its rate. */
  method NextSegment(rates: Rates, windows: seq<Window>, schedules: seq<Schedule>, now: real, until: real)
    returns (end: real, power: real, rate: real)
    requires WellFormed(windows) && OnTheClock(schedules) && Usable(schedules) && now < until
    ensures now < end <= until && power >= 0.0
    ensures end < until ==> end.Floor > now.Floor
    ensures ConstantOn(ScheduledPower(schedules), power / 60000.0, now, end)
    ensures ConstantOn(RateProfile(rates, windows), rate, now, end)
  {
    var edges := ScheduleEdges(schedules) + Edges(windows);
    EdgesAreMinutes(windows);
    assert schedules[0] in schedules && schedules[0].start in edges;
    forall s | s in schedules ensures s.power > 0.0 {}
    var edge := NextEdgeTime(edges, now);
    end := Min(until, edge as real);
    power := PowerAt(schedules, now);
    rate := rates.At(IndexAt(windows, now));
    PowerIsNotNegative(schedules, now);
    PowerUntilNextEdge(schedules, edges, now, end);
    RateUntilNextEdge(rates, windows, edges, now, end);
  }

  /** What one day draws and costs. */
  method DrawDay(rates: Rates, windows: seq<Window>, schedules: seq<Schedule>) returns (energy: real, cost: real)
    requires WellFormed(windows) && OnTheClock(schedules) && Usable(schedules)
    ensures energy == Integral(ScheduledPower(schedules), 0.0, DAY)
    ensures cost == Integral(Spend(ScheduledPower(schedules), RateProfile(rates, windows)), 0.0, DAY)
  {
    hide Integral, Times, ConstantOn, ScheduledPower, RateProfile;
    energy, cost := 0.0, 0.0;
    var now := 0.0;
    NothingSpent(rates, windows, schedules, 0.0);
    while now < DAY
      invariant 0.0 <= now <= DAY
      invariant Spent(rates, windows, schedules, 0.0, energy, cost, now)
      decreases if now < DAY then 1440 - now.Floor else 0
    {
      var end, power, rate := NextSegment(rates, windows, schedules, now, DAY);
      var drawn := Times(end - now, power / 60000.0);
      DrawEven(ScheduledPower(schedules), RateProfile(rates, windows), power / 60000.0, rate, now, end);
      DrawOn(ScheduledPower(schedules), RateProfile(rates, windows), 0.0, energy, cost, now,
             drawn, Times(drawn, rate), end);
      energy := energy + drawn;
      cost := cost + Times(drawn, rate);
      now := end;
    }
  }

  /** Draws less than a day's energy inside the next two days. */
  method DrawRemainder(remainder: real, minute: real, rates: Rates, windows: seq<Window>, schedules: seq<Schedule>)
    returns (cost: real, ghost at: real)
    requires WellFormed(windows) && OnTheClock(schedules) && Usable(schedules)
    requires 0.0 <= remainder < Integral(ScheduledPower(schedules), 0.0, DAY)
    ensures Spent(rates, windows, schedules, minute, remainder, cost, at)
    ensures Priced(ScheduledPower(schedules), RateProfile(rates, windows), minute, remainder, cost)
  {
    hide Integral, Times, ConstantOn, ScheduledPower, RateProfile, Spend;
    cost := 0.0;
    var left, now, until := remainder, minute, minute + 2.0 * DAY;
    at := minute;
    NothingSpent(rates, windows, schedules, minute);
    while now < until
      invariant minute <= now <= until && 0.0 <= left <= remainder
      invariant Spent(rates, windows, schedules, minute, remainder - left, cost, at)
      invariant left > 0.0 ==> at == now
      decreases if now < until then until.Floor - now.Floor + 1 else 0
    {
      if left <= 0.0 {
        break;
      }
      var end, power, rate := NextSegment(rates, windows, schedules, now, until);
      var drawn := Min(left, Times(end - now, power / 60000.0));
      at := DrawStretchOn(ScheduledPower(schedules), RateProfile(rates, windows), power / 60000.0, rate,
                          minute, now, end, remainder - left, cost, left, drawn);
      NotNegative(end - now, power / 60000.0);
      cost := cost + Times(drawn, rate);
      left := left - drawn;
      now := end;
    }
    if left > 0.0 {
      TwoDaysAreEnough(schedules, minute);
    }
  }

  lemma NotNegative(x: real, y: real)
    requires x >= 0.0 && y >= 0.0
    ensures Times(x, y) >= 0.0
  {
  }

  /** Two days from any instant draw twice what a day does. */
  lemma TwoDaysAreEnough(schedules: seq<Schedule>, start: real)
    requires Usable(schedules)
    ensures Integral(ScheduledPower(schedules), start, start + 2.0 * DAY) == 2.0 * Integral(ScheduledPower(schedules), 0.0, DAY)
  {
    ScheduledPowerShape(schedules);
    WholeDays(ScheduledPower(schedules), start, 2);
  }

  /** The cost of drawing `energy` kWh only inside the schedule windows, or `None` when
      the schedules or the tariffs cannot be trusted. */
  method PriceInSchedules(energy: real, minute: real, active: int, rates: Rates, windows: seq<Window>, schedules: seq<Schedule>)
    returns (cost: Option<real>, ghost finish: real)
    requires WellFormed(windows) && OnTheClock(schedules)
    ensures cost.Some? <==> Usable(schedules) && Trusted(minute, active, windows)
    ensures cost.Some? && energy >= 0.0 ==>
      DrawnUntil(ScheduledPower(schedules), RateProfile(rates, windows), minute, energy, cost.value, finish)
  {
    hide Integral, Times, ScheduledPower, RateProfile, Spend, DrawnUntil;
    finish := minute;
    if !Usable(schedules) {
      return None, finish;
    }
    var trial, _ := PriceOverTariffs(1.0, 60000.0, minute, active, rates, windows);
    if trial == None {
      return None, finish;
    }
    DayDrawsSomething(schedules);
    var dayEnergy, dayCost := DrawDay(rates, windows, schedules);
    var days := (energy / dayEnergy).Floor;
    var left := energy - Times(days as real, dayEnergy);
    RemainderOfDay(energy, dayEnergy);
    var walked;
    walked, finish := DrawRemainder(left, minute, rates, windows, schedules);
    if energy >= 0.0 {
      ScheduledPowerShape(schedules);
      RateProfileDaily(rates, windows);
      DrawWholeDaysMore(ScheduledPower(schedules), RateProfile(rates, windows), minute, left, walked, finish, days);
      finish := finish + days as real * DAY;
    }
    return Some(Times(days as real, dayCost) + walked), finish;
  }

  // --- What the price does and does not depend on ------------------------------

  function Lowest(rates: Rates): real {
    Min(rates.primary, Min(rates.second, rates.third))
  }

  function Highest(rates: Rates): real {
    Max(rates.primary, Max(rates.second, rates.third))
  }

  lemma RatesInRange(rates: Rates, windows: seq<Window>)
    ensures RatesWithin(RateProfile(rates, windows), Lowest(rates), Highest(rates))
  {
  }

  lemma SteadyPowerIsNotNegative(k: real)
    requires k > 0.0
    ensures NonNegative(ConstantPower(k))
  {
  }

  /** A tariff price lies between the lowest and the highest rate times the energy, and is the only price. */
  lemma TariffPriceBounds(power: real, rates: Rates, windows: seq<Window>, minute: real, energy: real, cost: real, other: real)
    requires power > 0.0
    requires Priced(ConstantPower(power / 60000.0), RateProfile(rates, windows), minute, energy, cost)
    requires Priced(ConstantPower(power / 60000.0), RateProfile(rates, windows), minute, energy, other)
    ensures Lowest(rates) * energy <= cost <= Highest(rates) * energy && cost == other
  {
    hide Integral, DrawnUntil, Priced, Lowest, Highest, RateProfile, ConstantPower, NonNegative, RatesWithin;
    RatesInRange(rates, windows);
    SteadyPowerIsNotNegative(power / 60000.0);
    PriceBounds(ConstantPower(power / 60000.0), RateProfile(rates, windows), Lowest(rates), Highest(rates), minute, energy, cost);
    PriceIsUnique(ConstantPower(power / 60000.0), RateProfile(rates, windows), Lowest(rates), Highest(rates), minute, energy, cost, other);
  }

  /** A schedule price obeys the same bounds, and is the only price. */
  lemma SchedulePriceBounds(schedules: seq<Schedule>, rates: Rates, windows: seq<Window>, minute: real, energy: real, cost: real, other: real)
    requires Usable(schedules)
    requires Priced(ScheduledPower(schedules), RateProfile(rates, windows), minute, energy, cost)
    requires Priced(ScheduledPower(schedules), RateProfile(rates, windows), minute, energy, other)
    ensures Lowest(rates) * energy <= cost <= Highest(rates) * energy && cost == other
  {
    hide Integral, DrawnUntil, Priced, Lowest, Highest, RateProfile, ScheduledPower, NonNegative, RatesWithin;
    RatesInRange(rates, windows);
    ScheduledPowerShape(schedules);
    PriceBounds(ScheduledPower(schedules), RateProfile(rates, windows), Lowest(rates), Highest(rates), minute, energy, cost);
    PriceIsUnique(ScheduledPower(schedules), RateProfile(rates, windows), Lowest(rates), Highest(rates), minute, energy, cost, other);
  }

  /** Two schedules of one power that tile the day draw that power all the time. */
  lemma TilesDrawAllDay(a: int, b: int, power: real, m: int)
    requires a != b
    ensures ScheduledPower([Schedule(a, b, power), Schedule(b, a, power)])(m) == power / 60000.0
  {
    var tiles := [Schedule(a, b, power), Schedule(b, a, power)];
    assert tiles[1..] == [Schedule(b, a, power)];
    assert PowerAt(tiles[1..], m as real) == if RunsAt(tiles[1], m as real) then power else PowerAt(tiles[1..][1..], m as real);
    assert InWindow(Within(m as real), a, b) || InWindow(Within(m as real), b, a);
  }

  lemma TilesAreUsable(a: int, b: int, power: real)
    requires a != b && power > 0.0
    ensures Usable([Schedule(a, b, power), Schedule(b, a, power)])
  {
  }

  /** ... so pricing inside them agrees with pricing over the tariffs at that power,
      for every energy, start minute and tariff set. */
  lemma TilingSchedulesPriceLikeTariffs(a: int, b: int, power: real, rates: Rates, windows: seq<Window>,
                                        minute: real, energy: real, scheduled: real, unscheduled: real)
    requires a != b && power > 0.0
    requires Priced(ScheduledPower([Schedule(a, b, power), Schedule(b, a, power)]), RateProfile(rates, windows), minute, energy, scheduled)
    requires Priced(ConstantPower(power / 60000.0), RateProfile(rates, windows), minute, energy, unscheduled)
    ensures scheduled == unscheduled
  {
    var tiles := [Schedule(a, b, power), Schedule(b, a, power)];
    forall m: int ensures ScheduledPower(tiles)(m) == ConstantPower(power / 60000.0)(m) {
      TilesDrawAllDay(a, b, power, m);
    }
    PriceExtensional(ScheduledPower(tiles), ConstantPower(power / 60000.0), RateProfile(rates, windows), minute, energy, scheduled);
    TariffPriceBounds(power, rates, windows, minute, energy, scheduled, unscheduled);
  }

  /** Both ways of pricing, asked about schedules that tile the day: they answer together, and alike. */
  method PriceTiledDay(energy: real, power: real, a: int, b: int, minute: real, active: int, rates: Rates, windows: seq<Window>)
    returns (scheduled: Option<real>, unscheduled: Option<real>)
    requires WellFormed(windows) && MinuteOfDay(a) && MinuteOfDay(b) && a != b
    ensures scheduled.Some? <==> unscheduled.Some?
    ensures energy >= 0.0 ==> scheduled == unscheduled
  {
    hide Integral, DrawnUntil, RateProfile, ConstantPower, ScheduledPower, Trusted;
    var tiles := [Schedule(a, b, power), Schedule(b, a, power)];
    if power > 0.0 {
      TilesAreUsable(a, b, power);
    } else {
      assert !Usable(tiles) by { assert tiles[0].power <= 0.0; }
    }
    ghost var finish;
    scheduled, finish := PriceInSchedules(energy, minute, active, rates, windows, tiles);
    ghost var steps;
    unscheduled, steps := PriceOverTariffs(energy, power, minute, active, rates, windows);
    if scheduled.Some? && energy >= 0.0 {
      TilingSchedulesPriceLikeTariffs(a, b, power, rates, windows, minute, energy, scheduled.value, unscheduled.value);
    }
  }
}
