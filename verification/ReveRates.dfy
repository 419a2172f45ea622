/** Which REVE rate is in effect (`active_rate_index`, `station_rate_index`). */
module ReveRates {
  import opened Common

  /** A rate: its window in minutes of day, and the weekdays it starts on (0 Sunday). */
  datatype Rate = Rate(enabled: bool, start: int, end: int, weekdays: Option<set<int>>, value: real)

  ghost predicate MinutesOfDay(rates: seq<Rate>) {
    forall r :: r in rates ==> 0 <= r.start < 1440 && 0 <= r.end < 1440
  }

  /** 1970-01-01 was a Thursday. */
  function Weekday(day: int): int {
    (day + 4) % 7
  }

  /** A window without length, or weekdays that cannot be read. */
  predicate Unknowable(r: Rate) {
    r.start == r.end || r.weekdays == None
  }

  /** The weekday on which the occurrence holding `minute` started, if one does. */
  function StartedOn(r: Rate, minute: int, weekday: int): Option<int> {
    if r.start < r.end then (if r.start <= minute < r.end then Some(weekday) else None)
    else if minute >= r.start then Some(weekday)
    else if minute < r.end then Some((weekday - 1) % 7)
    else None
  }

  function FirstRate(rates: seq<Rate>, index: nat, minute: int, weekday: int): Option<nat>
    decreases |rates|
  {
    if rates == [] then Some(0)
    else if !rates[0].enabled then FirstRate(rates[1..], index + 1, minute, weekday)
    else if Unknowable(rates[0]) then None
    else
      var started := StartedOn(rates[0], minute, weekday);
      if started.Some? && started.value in rates[0].weekdays.value then Some(index)
      else FirstRate(rates[1..], index + 1, minute, weekday)
  }

  /** `activeTarif`: 0 the base price, then the rates in order; `None` when it cannot be known. */
  function ActiveRateIndex(rates: seq<Rate>, clock: int): Option<nat> {
    FirstRate(rates, 1, clock % 86400 / 60, Weekday(clock / 86400))
  }

  // --- The calendar meaning ----------------------------------------------------------------

  function Length(r: Rate): int {
    if r.start < r.end then r.end - r.start else r.end + 1440 - r.start
  }

  /** The occurrence of the rate's window that starts on `day` holds this clock second. */
  predicate OccurrenceHolds(r: Rate, day: int, clock: int) {
    (day * 1440 + r.start) * 60 <= clock < (day * 1440 + r.start + Length(r)) * 60
  }

  /** Some day with a listed weekday has its occurrence holding the clock. */
  ghost predicate InEffect(r: Rate, clock: int) {
    r.weekdays.Some? && exists day: int {:trigger OccurrenceHolds(r, day, clock)} ::
      Weekday(day) in r.weekdays.value && OccurrenceHolds(r, day, clock)
  }

  /** Only today's or yesterday's occurrence can hold the clock. */
  lemma OnlyTodayOrYesterday(r: Rate, day: int, clock: int)
    requires 0 <= r.start < 1440 && 0 <= r.end < 1440 && r.start != r.end
    ensures OccurrenceHolds(r, day, clock) <==>
      var minute := clock % 86400 / 60;
      if day == clock / 86400 then minute >= r.start && (r.start < r.end ==> minute < r.end)
      else if day == clock / 86400 - 1 then r.start > r.end && minute < r.end
      else false
  {
    var today, second := clock / 86400, clock % 86400;
    var minute := second / 60;
    var rest := second % 60;
    assert clock == today * 86400 + minute * 60 + rest && 0 <= rest < 60 && 0 <= minute < 1440;
    if day < today - 1 {
      assert (day * 1440 + r.start + Length(r)) * 60 <= (day + 2) * 86400;
    } else if day > today {
      assert day * 86400 >= (today + 1) * 86400;
    }
  }

  lemma StartedOnIsTheOccurrence(r: Rate, clock: int)
    requires 0 <= r.start < 1440 && 0 <= r.end < 1440 && !Unknowable(r)
    ensures var started := StartedOn(r, clock % 86400 / 60, Weekday(clock / 86400));
      InEffect(r, clock) <==> started.Some? && started.value in r.weekdays.value
  {
    var today := clock / 86400;
    var started := StartedOn(r, clock % 86400 / 60, Weekday(today));
    assert (Weekday(today) - 1) % 7 == Weekday(today - 1);
    OnlyTodayOrYesterday(r, today, clock);
    OnlyTodayOrYesterday(r, today - 1, clock);
    forall day | OccurrenceHolds(r, day, clock) ensures day == today || day == today - 1 {
      OnlyTodayOrYesterday(r, day, clock);
    }
  }

  /** Enabled rates before `k` can be known and are not in effect. */
  ghost predicate NoneBefore(rates: seq<Rate>, k: int, clock: int) {
    forall j :: 0 <= j < k && j < |rates| && rates[j].enabled ==> !Unknowable(rates[j]) && !InEffect(rates[j], clock)
  }

  /** The search, rate by rate, in calendar terms. */
  lemma {:induction false} FirstRateMeaning(rates: seq<Rate>, index: nat, clock: int)
    requires MinutesOfDay(rates) && index >= 1
    ensures match FirstRate(rates, index, clock % 86400 / 60, Weekday(clock / 86400))
      case None => exists k :: 0 <= k < |rates| && rates[k].enabled && Unknowable(rates[k]) && NoneBefore(rates, k, clock)
      case Some(i) =>
        if i == 0 then NoneBefore(rates, |rates|, clock)
        else index <= i < index + |rates| && rates[i - index].enabled && !Unknowable(rates[i - index])
             && InEffect(rates[i - index], clock) && NoneBefore(rates, i - index, clock)
  {
    if rates != [] {
      assert rates[0] in rates;
      var rest := rates[1..];
      assert forall j :: 0 <= j < |rest| ==> rest[j] == rates[j + 1];
      if rates[0].enabled && !Unknowable(rates[0]) {
        StartedOnIsTheOccurrence(rates[0], clock);
      }
      FirstRateMeaning(rest, index + 1, clock);
      var minute, weekday := clock % 86400 / 60, Weekday(clock / 86400);
      var r := FirstRate(rates, index, minute, weekday);
      var passed := rates[0].enabled ==> !Unknowable(rates[0]) && !InEffect(rates[0], clock);
      if r == FirstRate(rest, index + 1, minute, weekday) && passed {
        ShiftNoneBefore(rates, clock);
        if r == None {
          var k :| 0 <= k < |rest| && rest[k].enabled && Unknowable(rest[k]) && NoneBefore(rest, k, clock);
          assert rates[k + 1] == rest[k];
        }
      }
    }
  }

  lemma ShiftNoneBefore(rates: seq<Rate>, clock: int)
    requires rates != [] && (rates[0].enabled ==> !Unknowable(rates[0]) && !InEffect(rates[0], clock))
    ensures forall k: int :: 0 <= k && NoneBefore(rates[1..], k, clock) ==> NoneBefore(rates, k + 1, clock)
  {
    forall k: int | 0 <= k && NoneBefore(rates[1..], k, clock) ensures NoneBefore(rates, k + 1, clock) {
      forall j | 0 <= j < k + 1 && j < |rates| && rates[j].enabled ensures !Unknowable(rates[j]) && !InEffect(rates[j], clock) {
        if j > 0 {
          assert rates[1..][j - 1] == rates[j];
        }
      }
    }
  }

  /** The index names the first enabled rate in effect by the calendar, and 0 when there is none. */
  lemma ActiveRateIsTheFirstInEffect(rates: seq<Rate>, clock: int, i: nat)
    requires MinutesOfDay(rates)
    ensures ActiveRateIndex(rates, clock) == Some(i) <==>
      if i == 0 then NoneBefore(rates, |rates|, clock)
      else i <= |rates| && rates[i - 1].enabled && !Unknowable(rates[i - 1]) && InEffect(rates[i - 1], clock)
           && NoneBefore(rates, i - 1, clock)
  {
    FirstRateMeaning(rates, 1, clock);
  }

  /** It is unknown exactly when an enabled rate that cannot be known comes before any match. */
  lemma ActiveRateIsUnknownExactlyWhen(rates: seq<Rate>, clock: int)
    requires MinutesOfDay(rates)
    ensures ActiveRateIndex(rates, clock) == None <==>
      exists k :: 0 <= k < |rates| && rates[k].enabled && Unknowable(rates[k]) && NoneBefore(rates, k, clock)
  {
    FirstRateMeaning(rates, 1, clock);
  }

  // --- The price the station says is in effect -------------------------------------------------

  function Hundredths(value: real): int {
    Round(value * 100.0)
  }

  /** Rate `i` applies and has this price; 0 is the base price. */
  predicate HasPrice(base: real, rates: seq<Rate>, i: int, price: int) {
    if i == 0 then Hundredths(base) == price
    else 0 < i <= |rates| && rates[i - 1].enabled && Hundredths(rates[i - 1].value) == price
  }

  function FirstWithPrice(base: real, rates: seq<Rate>, from: nat, price: int): Option<nat>
    requires from >= 1
    decreases |rates| - from
  {
    if from > |rates| then (if Hundredths(base) == price then Some(0) else None)
    else if HasPrice(base, rates, from, price) then Some(from)
    else FirstWithPrice(base, rates, from + 1, price)
  }

  /** `station_rate_index`. */
  function StationRateIndex(base: real, rates: seq<Rate>, active: real, reckoned: Option<nat>): Option<nat> {
    if reckoned.Some? && HasPrice(base, rates, reckoned.value, Hundredths(active)) then reckoned
    else FirstWithPrice(base, rates, 1, Hundredths(active))
  }

  lemma {:induction false} FirstWithPriceMeaning(base: real, rates: seq<Rate>, from: nat, price: int)
    requires from >= 1
    ensures match FirstWithPrice(base, rates, from, price)
      case None => forall j :: j == 0 || j >= from ==> !HasPrice(base, rates, j, price)
      case Some(i) => HasPrice(base, rates, i, price) && (i == 0 || i >= from)
                      && forall j :: from <= j && (i == 0 || j < i) ==> !HasPrice(base, rates, j, price)
    decreases |rates| - from
  {
    if from <= |rates| && !HasPrice(base, rates, from, price) {
      FirstWithPriceMeaning(base, rates, from + 1, price);
    }
  }

  /** The index always names a rate with the station's price: the reckoned one when it has it, else
      the first enabled rate that does, the base price last; and none only when nothing has it. */
  lemma StationRateHasThePrice(base: real, rates: seq<Rate>, active: real, reckoned: Option<nat>)
    ensures var index, price := StationRateIndex(base, rates, active, reckoned), Hundredths(active);
      && (index == None <==> forall j :: 0 <= j <= |rates| ==> !HasPrice(base, rates, j, price))
      && (index.Some? ==> HasPrice(base, rates, index.value, price))
      && (reckoned.Some? && HasPrice(base, rates, reckoned.value, price) ==> index == reckoned)
      && (index.Some? && index != reckoned ==> forall j :: 1 <= j && (index.value == 0 || j < index.value) ==> !HasPrice(base, rates, j, price))
  {
    FirstWithPriceMeaning(base, rates, 1, Hundredths(active));
  }
}
