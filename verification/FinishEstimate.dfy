/** The estimate of when a charge ends: the remaining time, the one damped finish instant
    both sensors are views of, and Time to Target read off that instant. */
module FinishEstimate {
  import opened Common

  /** The grid both estimates are stated on, in seconds. */
  const STEP: int := 300
  const NOISE_FRACTION: real := 0.03
  const SUB_MINUTE: real := 30.0
  const MAX_REMAINING: real := 2592000.0
  const DEFAULT_CORRECTION: real := 7.5

  // --- The remaining time -------------------------------------------------------------

  datatype Inputs = Inputs(
    current: Option<real>,
    target: Option<real>,
    power: Option<real>,
    capacity: Option<real>,
    correction: Option<real>)

  datatype Remaining = Seconds(seconds: real) | TargetReached | NotCharging | Unavailable

  function Loss(correction: Option<real>): real {
    if correction.Some? then correction.value else DEFAULT_CORRECTION
  }

  predicate Percentage(x: real) {
    0.0 <= x <= 100.0
  }

  function RemainingOrState(x: Inputs): Remaining {
    if x.current == None || x.target == None || x.power == None || x.capacity == None then Unavailable else
      var current, target, power, capacity := x.current.value, x.target.value, x.power.value, x.capacity.value;
      if !Percentage(current) || !Percentage(target) || capacity <= 0.0 then Unavailable else
        var missing := (target - current) * capacity / 100.0;
        if missing <= 0.0 then TargetReached
        else if power <= 0.0 then NotCharging else
          var kilowatts := power * (1.0 - Loss(x.correction) / 100.0) / 1000.0;
          if kilowatts <= 0.0 then NotCharging else
            var seconds := missing / kilowatts * 3600.0;
            if seconds > MAX_REMAINING then Unavailable else Seconds(seconds)
  }

  /** `calculate_remaining_seconds`: 0 at the target, and nothing when there is no estimate. */
  function RemainingSeconds(x: Inputs): Option<real> {
    match RemainingOrState(x)
    case Seconds(s) => Some(s)
    case TargetReached => Some(0.0)
    case _ => None
  }

  /** The battery energy, in kWh, that `seconds` at `power` watts put behind the losses. */
  function Stored(power: real, loss: real, seconds: real): real {
    power * (1.0 - loss / 100.0) / 1000.0 * (seconds / 3600.0)
  }

  /** Charging on for the estimated time stores exactly what is missing to the target. */
  lemma TheEstimateReachesTheTarget(x: Inputs)
    requires RemainingOrState(x).Seconds?
    ensures 0.0 < RemainingOrState(x).seconds <= MAX_REMAINING
    ensures x.current.value < x.target.value
    ensures Stored(x.power.value, Loss(x.correction), RemainingOrState(x).seconds) == (x.target.value - x.current.value) * x.capacity.value / 100.0
  {
    var missing := (x.target.value - x.current.value) * x.capacity.value / 100.0;
    var kilowatts := x.power.value * (1.0 - Loss(x.correction) / 100.0) / 1000.0;
    QuotientTimesDivisor(missing, kilowatts);
    PositiveQuotient(missing, kilowatts);
    NoProductBelowZero(x.target.value - x.current.value, x.capacity.value);
  }

  lemma QuotientTimesDivisor(a: real, b: real)
    requires b != 0.0
    ensures b * (a / b * 3600.0 / 3600.0) == a
  {
  }

  lemma PositiveQuotient(a: real, b: real)
    requires a > 0.0 && b > 0.0
    ensures a / b > 0.0
  {
  }

  lemma NoProductBelowZero(a: real, b: real)
    requires b > 0.0
    ensures a * b > 0.0 <==> a > 0.0
  {
    if a <= 0.0 {
      assert a * b <= 0.0;
    }
  }

  // --- The held instant ---------------------------------------------------------------

  /** How far an estimate may move from the held instant without moving it. */
  function Band(seconds: real): (r: real)
    ensures r >= 450.0
  {
    Max(STEP as real * 1.5, NOISE_FRACTION * seconds)
  }

  predicate Stale(held: Option<int>, seconds: real, now: real) {
    held == None || Abs(now + seconds - held.value as real) >= Band(seconds) || held.value as real <= now
  }

  /** The grid point an estimate is anchored on. */
  function Anchor(seconds: real, now: real): int {
    var nearest := Round((now + seconds) / STEP as real) * STEP;
    if nearest as real <= now then ((now / STEP as real).Floor + 1) * STEP else nearest
  }

  /** `_damped_finish_timestamp`: the held instant after one estimate. */
  function Damped(held: Option<int>, seconds: Option<real>, now: real): Option<int> {
    if seconds == None || seconds.value <= 0.0 then None
    else if Stale(held, seconds.value, now) then Some(Anchor(seconds.value, now))
    else held
  }

  /** An anchor is ahead of the clock and on the grid, half a step from the estimate, or
      less than a whole one where the nearest grid point is already behind. */
  lemma AnchorIsNear(seconds: real, now: real)
    requires seconds > 0.0
    ensures Anchor(seconds, now) % STEP == 0 && Anchor(seconds, now) as real > now
    ensures Abs(Anchor(seconds, now) as real - (now + seconds)) < 300.0
    ensures Abs(Anchor(seconds, now) as real - (now + seconds)) > 150.0 ==> seconds <= 150.0
  {
    var n := Round((now + seconds) / STEP as real);
    assert (n * STEP) as real == n as real * 300.0;
    var f := (now / STEP as real).Floor;
    assert ((f + 1) * STEP) as real == (f as real + 1.0) * 300.0;
  }

  /** What reaches the damper: an estimate, or a sensor that has none and forgets. */
  datatype Poll = Estimate(seconds: Option<real>, now: real) | Forget

  function After(held: Option<int>, p: Poll): Option<int> {
    match p
    case Estimate(seconds, now) => Damped(held, seconds, now)
    case Forget => None
  }

  function Held(polls: seq<Poll>): Option<int> {
    if polls == [] then None else After(Held(polls[..|polls| - 1]), polls[|polls| - 1])
  }

  lemma {:induction false} Unfold(polls: seq<Poll>, p: Poll)
    ensures Held(polls + [p]) == After(Held(polls), p)
  {
    assert (polls + [p])[..|polls|] == polls;
  }

  lemma {:induction false} AlwaysOnTheGrid(polls: seq<Poll>)
    requires Held(polls).Some?
    ensures Held(polls).value % STEP == 0
  {
    var before, last := polls[..|polls| - 1], polls[|polls| - 1];
    if Stale(Held(before), last.seconds.value, last.now) {
      AnchorIsNear(last.seconds.value, last.now);
    } else {
      AlwaysOnTheGrid(before);
    }
  }

  /** Whenever there is an estimate there is a held instant, and it is on the grid, ahead of
      the clock, and within the band of that estimate. */
  lemma TheHeldInstantIsSound(polls: seq<Poll>, seconds: real, now: real)
    requires seconds > 0.0
    ensures var h := Held(polls + [Estimate(Some(seconds), now)]);
      && h.Some? && h.value % STEP == 0 && h.value as real > now
      && Abs(h.value as real - (now + seconds)) < Max(450.0, 0.03 * seconds)
  {
    var last := Estimate(Some(seconds), now);
    Unfold(polls, last);
    AlwaysOnTheGrid(polls + [last]);
    if Stale(Held(polls), seconds, now) {
      AnchorIsNear(seconds, now);
    }
  }

  /** No estimate drops the instant, so the next session is anchored afresh. */
  lemma NoEstimateForgets(polls: seq<Poll>, p: Poll)
    requires p.Estimate? ==> p.seconds == None || p.seconds.value <= 0.0
    ensures Held(polls + [p]) == None
    ensures forall s: real, t: real :: s > 0.0 ==> After(Held(polls + [p]), Estimate(Some(s), t)) == Some(Anchor(s, t))
  {
    Unfold(polls, p);
  }

  /** An estimate of a later poll that is still within `reach` of `eta`, while `held` is ahead. */
  predicate StaysNear(p: Poll, eta: real, reach: real, held: int) {
    && p.Estimate? && p.seconds.Some? && p.seconds.value > 0.0 && (held as real) > p.now
    && Abs(p.now + p.seconds.value - eta) <= reach
  }

  /** An estimate near the one anchored on leaves the instant where it is. */
  lemma ANearEstimateMovesNothing(seconds: real, now: real, reach: real, p: Poll)
    requires seconds > 0.0 && (reach <= 150.0 || (seconds > 150.0 && reach < 300.0))
    requires StaysNear(p, now + seconds, reach, Anchor(seconds, now))
    ensures After(Some(Anchor(seconds, now)), p) == Some(Anchor(seconds, now))
  {
    hide Anchor;
    AnchorIsNear(seconds, now);
  }

  /** The instant does not move over any number of polls whose estimates stay within 150 s of
      the one it was anchored on, while it is ahead; with more than half a step to go at the
      anchoring it takes a whole step to move it. */
  lemma {:induction false} StillWhileEstimatesAreNear(polls: seq<Poll>, seconds: real, now: real, reach: real, later: seq<Poll>)
    requires seconds > 0.0 && Stale(Held(polls), seconds, now)
    requires reach <= 150.0 || (seconds > 150.0 && reach < 300.0)
    requires forall i :: 0 <= i < |later| ==> StaysNear(later[i], now + seconds, reach, Anchor(seconds, now))
    ensures Held(polls + [Estimate(Some(seconds), now)] + later) == Some(Anchor(seconds, now))
  {
    hide Held, Anchor, StaysNear;
    var start := polls + [Estimate(Some(seconds), now)];
    Unfold(polls, Estimate(Some(seconds), now));
    if later == [] {
      assert start + later == start;
    } else {
      var before, last := later[..|later| - 1], later[|later| - 1];
      assert StaysNear(last, now + seconds, reach, Anchor(seconds, now));
      assert forall i :: 0 <= i < |before| ==> before[i] == later[i];
      StillWhileEstimatesAreNear(polls, seconds, now, reach, before);
      assert start + later == (start + before) + [last];
      Unfold(start + before, last);
      ANearEstimateMovesNothing(seconds, now, reach, last);
    }
  }

  // --- Time to Target -----------------------------------------------------------------

  datatype Display = Blank | Reached | Idle | NoEstimate | UnderAMinute | Left(days: nat, hours: nat, minutes: nat)

  /** `format_duration`, for a positive count. */
  function Formatted(seconds: nat): (d: Display)
    ensures d.Left? && d.hours < 24 && d.minutes < 60
  {
    Left(seconds / 86400, seconds % 86400 / 3600, seconds % 3600 / 60)
  }

  /** The seconds a displayed duration stands for. */
  function Shown(d: Display): nat
    requires d.Left?
  {
    d.days * 86400 + d.hours * 3600 + d.minutes * 60
  }

  /** A minute count snapped onto the grid, and never down to nothing. */
  function Snapped(minutes: real): nat {
    var snapped := Round(minutes / 5.0) * 5;
    if snapped < 5 then 5 else snapped
  }

  /** `calculate_remaining_time`, with the caller's minute count in place of its own. */
  function Rendered(x: Inputs, override: Option<real>): Display {
    match RemainingOrState(x)
    case TargetReached => Reached
    case NotCharging => Idle
    case Unavailable => NoEstimate
    case Seconds(s) =>
      var minutes := if override.Some? then override.value else Round(s / 60.0) as real;
      if minutes < 1.0 then UnderAMinute else Formatted(Snapped(minutes) * 60)
  }

  /** What Time to Target shows once the damper has answered `held`. */
  function TimeLeft(x: Inputs, held: Option<int>, now: real): Display {
    var seconds := RemainingSeconds(x);
    if held == None || seconds == None || seconds.value <= SUB_MINUTE then Rendered(x, None)
    else Rendered(x, Some(Max(5.0, (held.value as real - now) / 60.0)))
  }

  lemma RoundsToZero(x: real)
    requires x >= 0.0
    ensures Round(x) == 0 <==> x <= 0.5
  {
  }

  lemma SnappedIsNear(left: real)
    requires left >= 300.0
    ensures Round(left / 60.0 / 5.0) >= 1
    ensures Abs((Round(left / 60.0 / 5.0) * 300) as real - left) <= 150.0
  {
    var n := Round(left / 60.0 / 5.0);
    assert (n * 300) as real == n as real * 300.0;
  }

  lemma FormattedIsExact(steps: nat)
    ensures Shown(Formatted(steps * 5 * 60)) == steps * 300
  {
    var n := steps * 300;
    WholeHoursDoNotMatter(n / 86400 * 24, n % 86400);
    WholeMinutes(steps * 5, n / 3600);
  }

  lemma {:induction false} WholeHoursDoNotMatter(hours: nat, rest: nat)
    ensures (hours * 3600 + rest) % 3600 == rest % 3600
  {
    if hours > 0 {
      WholeHoursDoNotMatter(hours - 1, rest);
      assert hours * 3600 + rest == ((hours - 1) * 3600 + rest) + 3600;
    }
  }

  lemma WholeMinutes(minutes: nat, hours: nat)
    requires hours == minutes * 60 / 3600
    ensures minutes * 60 % 3600 / 60 * 60 == minutes * 60 % 3600
  {
    assert minutes * 60 % 3600 == (minutes - 60 * hours) * 60;
  }

  /** The grid steps Time to Target shows with `left` seconds to the held instant. */
  function StepsShown(left: real): int {
    if left >= 300.0 then Round(left / 60.0 / 5.0) else 1
  }

  lemma StepsAreNear(left: real)
    requires left > 0.0
    ensures StepsShown(left) >= 1
    ensures left >= 150.0 ==> Abs((StepsShown(left) * 300) as real - left) <= 150.0
  {
    if left >= 300.0 {
      SnappedIsNear(left);
    }
  }

  lemma SnapsToSteps(left: real)
    requires left > 0.0
    ensures StepsShown(left) >= 1 && Snapped(Max(5.0, left / 60.0)) == StepsShown(left) * 5
  {
    StepsAreNear(left);
    if left < 300.0 {
      assert Max(5.0, left / 60.0) == 5.0;
      assert Round(1.0) == 1;
    }
  }

  lemma ProjectionIsNear(left: real)
    requires left > 0.0
    ensures var shown := Shown(Formatted(Snapped(Max(5.0, left / 60.0)) * 60));
      && shown % STEP == 0 && shown >= STEP
      && (left >= 150.0 ==> Abs(shown as real - left) <= 150.0)
      && (left < 300.0 ==> shown == STEP)
  {
    hide Formatted, Shown, Snapped, Round, Abs, Max;
    StepsAreNear(left);
    SnapsToSteps(left);
    FormattedIsExact(StepsShown(left));
    assert StepsShown(left) * 5 * 60 == StepsShown(left) * 300;
  }

  /** The two sensors are one estimate: within half a step of each other, except that Time to
      Target never shows less than one step until half a minute is left. */
  lemma TheTwoSensorsAgree(polls: seq<Poll>, x: Inputs, now: real)
    requires RemainingOrState(x).Seconds? && RemainingOrState(x).seconds > SUB_MINUTE
    ensures var h := Held(polls + [Estimate(RemainingSeconds(x), now)]);
      && h.Some? && TimeLeft(x, h, now).Left?
      && var left, shown := h.value as real - now, Shown(TimeLeft(x, h, now));
         && shown % STEP == 0 && shown >= STEP
         && (left >= 150.0 ==> Abs(shown as real - left) <= 150.0)
         && (left < 300.0 ==> shown == STEP)
  {
    hide Held, Snapped, Shown, RemainingOrState, Round;
    var s := RemainingOrState(x).seconds;
    TheHeldInstantIsSound(polls, s, now);
    ProjectionIsNear(Held(polls + [Estimate(Some(s), now)]).value as real - now);
  }

  /** Under half a minute is the only time Time to Target shows less than one step. */
  lemma UnderAMinuteExactlyWhen(x: Inputs, held: Option<int>, now: real)
    requires RemainingOrState(x).Seconds? ==> held.Some?
    ensures TimeLeft(x, held, now) == UnderAMinute <==> RemainingOrState(x).Seconds? && RemainingOrState(x).seconds <= SUB_MINUTE
  {
    if RemainingOrState(x).Seconds? {
      TheEstimateReachesTheTarget(x);
      RoundsToZero(RemainingOrState(x).seconds / 60.0);
    }
  }

  /** Asking twice at one instant gives both sensors the same answer, in either order. */
  lemma AskingTwiceChangesNothing(held: Option<int>, seconds: Option<real>, now: real)
    ensures Damped(Damped(held, seconds, now), seconds, now) == Damped(held, seconds, now)
  {
    if seconds.Some? && seconds.value > 0.0 {
      AnchorIsNear(seconds.value, now);
    }
  }

  // --- The anchor store, as the sensors use it -----------------------------------------

  /** The one store both sensors of a charger share. */
  class Anchors {
    var finishAt: Option<int>

    constructor ()
      ensures finishAt == Held([])
    {
      finishAt := None;
    }

    method DampedFinish(seconds: Option<real>, now: real) returns (held: Option<int>)
      modifies this
      ensures finishAt == held == After(old(finishAt), Estimate(seconds, now))
    {
      if seconds == None || seconds.value <= 0.0 {
        finishAt := None;
        return None;
      }
      var eta := now + seconds.value;
      held := finishAt;
      var band := Max(STEP as real * 1.5, NOISE_FRACTION * seconds.value);
      if held == None || Abs(eta - held.value as real) >= band || held.value as real <= now {
        var instant := Round(eta / STEP as real) * STEP;
        if instant as real <= now {
          instant := ((now / STEP as real).Floor + 1) * STEP;
        }
        held := Some(instant);
      }
      finishAt := held;
    }

    /** Time to Target's poll; no inputs is one of the exits that forget. */
    method TimeToTarget(inputs: Option<Inputs>, now: real) returns (shown: Display)
      modifies this
      ensures inputs == None ==> shown == Blank && finishAt == After(old(finishAt), Forget)
      ensures inputs.Some? ==> finishAt == After(old(finishAt), Estimate(RemainingSeconds(inputs.value), now))
      ensures inputs.Some? ==> shown == TimeLeft(inputs.value, finishAt, now)
    {
      if inputs == None {
        finishAt := None;
        return Blank;
      }
      var seconds := RemainingSeconds(inputs.value);
      var held := DampedFinish(seconds, now);
      var minutes: Option<real> := None;
      if held.Some? && seconds.Some? && seconds.value > SUB_MINUTE {
        minutes := Some(Max(5.0, (held.value as real - now) / 60.0));
      }
      shown := Rendered(inputs.value, minutes);
    }

    /** Charging Finish Time's poll: the held instant itself. */
    method FinishTime(inputs: Option<Inputs>, now: real) returns (stamp: Option<int>)
      modifies this
      ensures finishAt == stamp
      ensures inputs == None ==> finishAt == After(old(finishAt), Forget)
      ensures inputs.Some? ==> finishAt == After(old(finishAt), Estimate(RemainingSeconds(inputs.value), now))
    {
      if inputs == None {
        finishAt := None;
        return None;
      }
      var seconds := RemainingSeconds(inputs.value);
      stamp := DampedFinish(seconds, now);
    }
  }
}
