/** State of charge from the energy delivered: seeding from the car, reading it back,
    the energy still needed, and the comparison the SOC limit makes. */
module SocArithmetic {
  import opened Common
  import FinishEstimate
  import SocLimit

  /** The four values the user sets, as last pushed to the calculator. */
  datatype Helpers = Helpers(initial: Option<real>, capacity: Option<real>, correction: Option<real>, target: Option<real>)

  /** A correction the formulas accept. */
  predicate ValidLoss(loss: real) {
    0.0 <= loss < 100.0
  }

  /** Helpers as the number entities keep them: a positive capacity and a correction in range
      (10-160 kWh and 0-20 %), and a target percentage. */
  predicate Settled(h: Helpers) {
    && h.capacity.Some? && h.capacity.value > 0.0
    && h.correction.Some? && ValidLoss(h.correction.value)
    && (h.target.Some? ==> 0.0 <= h.target.value <= 100.0)
  }

  // --- The formulas ---------------------------------------------------------------------

  /** What reaches the battery of one kWh from the grid. */
  function Kept(loss: real): (r: real)
    ensures ValidLoss(loss) ==> 0.0 < r <= 1.0
  {
    1.0 - loss / 100.0
  }

  /** Battery energy before clamping and rounding. */
  function Total(initial: real, capacity: real, energy: real, loss: real): real {
    initial / 100.0 * capacity + energy * Kept(loss)
  }

  /** `round(x, 2)`. */
  function Hundredths(x: real): (r: real)
    ensures x - 0.005 <= r <= x + 0.005
    ensures x >= 0.0 ==> r >= 0.0
  {
    Round(x * 100.0) as real / 100.0
  }

  /** `calculate_soc_kwh`: 0 when the inputs do not validate. */
  function SocKwh(initial: real, capacity: real, energy: real, loss: real): (r: real)
    ensures r >= 0.0
  {
    if !(0.0 <= initial <= 100.0) || capacity <= 0.0 || energy < 0.0 || !ValidLoss(loss) then 0.0
    else Hundredths(Max(0.0, Min(Total(initial, capacity, energy, loss), capacity)))
  }

  /** `get_soc_kwh`. */
  function Kwh(h: Helpers, energy: real): Option<real> {
    if h.initial == None || h.capacity == None || h.correction == None then None
    else Some(SocKwh(h.initial.value, h.capacity.value, energy, h.correction.value))
  }

  function Share(kwh: real, capacity: real): real
    requires capacity != 0.0
  {
    kwh / capacity * 100.0
  }

  /** `get_soc_percent_exact`. */
  function ExactPercent(h: Helpers, energy: real): Option<real> {
    var kwh := Kwh(h, energy);
    if kwh == None || h.capacity.value == 0.0 then None
    else Some(Max(0.0, Min(100.0, Share(kwh.value, h.capacity.value))))
  }

  /** `get_soc_percent`: the whole percent shown to the user. */
  function DisplayPercent(h: Helpers, energy: real): Option<real> {
    if h.initial == None || h.capacity == None || h.correction == None || h.capacity.value == 0.0 then None
    else if h.capacity.value < 0.0 then Some(0.0)
    else Some(Round(Max(0.0, Min(Share(Kwh(h, energy).value, h.capacity.value), 100.0))) as real)
  }

  // --- Arithmetic -------------------------------------------------------------------------

  lemma ShareIsAScale(kwh: real, capacity: real)
    requires capacity > 0.0
    ensures Share(kwh, capacity) == kwh * (100.0 / capacity)
    ensures Share(kwh, capacity) * capacity == kwh * 100.0
  {
  }

  lemma ShareOfAPercentage(p: real, capacity: real)
    requires capacity > 0.0
    ensures Share(p / 100.0 * capacity, capacity) == p
  {
    ShareIsAScale(p / 100.0 * capacity, capacity);
    SameProduct(Share(p / 100.0 * capacity, capacity), p, capacity);
  }

  lemma SameProduct(a: real, b: real, c: real)
    requires c > 0.0 && a * c == b * c
    ensures a == b
  {
    assert (a - b) * c == 0.0;
  }

  lemma ShareKeepsOrder(a: real, b: real, capacity: real)
    requires capacity > 0.0
    ensures a <= b <==> Share(a, capacity) <= Share(b, capacity)
  {
    ShareIsAScale(a, capacity);
    ShareIsAScale(b, capacity);
    if Share(a, capacity) <= Share(b, capacity) {
      assert Share(a, capacity) * capacity <= Share(b, capacity) * capacity;
    } else {
      assert Share(a, capacity) * capacity > Share(b, capacity) * capacity;
    }
  }

  lemma ShareOfSomething(kwh: real, capacity: real)
    requires capacity > 0.0 && kwh >= 0.0
    ensures Share(kwh, capacity) >= 0.0
  {
    ShareKeepsOrder(0.0, kwh, capacity);
  }

  lemma ShareAdds(a: real, b: real, capacity: real)
    requires capacity > 0.0
    ensures Share(a + b, capacity) == Share(a, capacity) + Share(b, capacity)
    ensures Share(a - b, capacity) == Share(a, capacity) - Share(b, capacity)
  {
    ShareIsAScale(a, capacity);
    ShareIsAScale(b, capacity);
    ShareIsAScale(a + b, capacity);
    ShareIsAScale(a - b, capacity);
  }

  /** Half a hundredth of a kWh is half a percent over the capacity. */
  lemma ShareOfTheRounding(a: real, b: real, capacity: real)
    requires capacity > 0.0 && b - 0.005 <= a <= b + 0.005
    ensures Share(b, capacity) - 0.5 / capacity <= Share(a, capacity) <= Share(b, capacity) + 0.5 / capacity
  {
    ShareKeepsOrder(b - 0.005, a, capacity);
    ShareKeepsOrder(a, b + 0.005, capacity);
    ShareAdds(b, 0.005, capacity);
    assert Share(0.005, capacity) == 0.5 / capacity;
  }

  lemma RoundKeepsOrder(x: real, y: real)
    requires x <= y
    ensures Round(x) <= Round(y)
  {
    assert x.Floor <= y.Floor;
  }

  lemma ProductsKeepOrder(a: real, b: real, c: real)
    requires a <= b && c >= 0.0
    ensures a * c <= b * c
  {
  }

  // --- Seeding from the car -----------------------------------------------------------------

  /** The session meter, as the newest poll has it. */
  datatype Meter = NotReported | Unusable | Delivered(kwh: real)

  datatype Refusal = NoReading | OutOfRange | NoMeter | BadMeter | NoCapacity | BadCorrection | BelowZero

  datatype Seed = Refused(why: Refusal) | Anchored(percent: real)

  /** `_external_soc_anchor`: the car's reading, taken back to the start of the session. */
  function Rebased(car: Option<real>, meter: Meter, h: Helpers): Seed {
    if car == None then Refused(NoReading)
    else if !(0.0 <= car.value <= 100.0) then Refused(OutOfRange)
    else match meter
      case NotReported => Refused(NoMeter)
      case Unusable => Refused(BadMeter)
      case Delivered(d) =>
        if d == 0.0 then Anchored(car.value)
        else if h.capacity == None || h.capacity.value == 0.0 then Refused(NoCapacity)
        else if !ValidLoss(FinishEstimate.Loss(h.correction)) then Refused(BadCorrection)
        else
          var anchor := car.value - d * Kept(FinishEstimate.Loss(h.correction)) / h.capacity.value * 100.0;
          if anchor < 0.0 then Refused(BelowZero) else Anchored(anchor)
  }

  /** `_apply_value` of Initial SOC: clamped to the entity's range. */
  function Clamped(percent: real): real {
    Max(0.0, Min(100.0, percent))
  }

  function Seeded(h: Helpers, percent: real): Helpers {
    h.(initial := Some(Clamped(percent)))
  }

  /** What the battery has taken of `energy`, in percent. */
  function Gained(h: Helpers, energy: real): real
    requires Settled(h)
  {
    Share(energy * Kept(h.correction.value), h.capacity.value)
  }

  lemma GainedNothingYet(h: Helpers)
    requires Settled(h)
    ensures Gained(h, 0.0) == 0.0
  {
  }

  lemma GainedIsNotNegative(h: Helpers, energy: real)
    requires Settled(h) && energy >= 0.0
    ensures Gained(h, energy) >= 0.0
  {
    ProductsKeepOrder(0.0, energy, Kept(h.correction.value));
    ShareKeepsOrder(0.0, energy * Kept(h.correction.value), h.capacity.value);
  }

  lemma GainedAdds(h: Helpers, a: real, b: real)
    requires Settled(h)
    ensures Gained(h, a + b) == Gained(h, a) + Gained(h, b)
  {
    ShareAdds(a * Kept(h.correction.value), b * Kept(h.correction.value), h.capacity.value);
    assert (a + b) * Kept(h.correction.value) == a * Kept(h.correction.value) + b * Kept(h.correction.value);
  }

  /** Seeding succeeds exactly when the car has not taken more than it says it holds, and then
      keeps the difference. */
  lemma SeedIsTheStartOfTheSession(h: Helpers, car: real, delivered: real)
    requires Settled(h) && 0.0 <= car <= 100.0 && delivered >= 0.0
    ensures var seed := Rebased(Some(car), Delivered(delivered), h);
      seed == if car - Gained(h, delivered) < 0.0 then Refused(BelowZero) else Anchored(car - Gained(h, delivered))
    ensures car - Gained(h, delivered) <= 100.0
  {
    hide Kept;
    GainedIsNotNegative(h, delivered);
    GainedNothingYet(h);
    assert Gained(h, delivered) == delivered * Kept(h.correction.value) / h.capacity.value * 100.0;
  }

  /** A reading taken late anchors the session exactly where an immediate one would. */
  lemma LateSeedIsTheImmediateSeed(h: Helpers, car: real, early: real, late: real)
    requires Settled(h) && 0.0 <= early <= late && 0.0 <= car && car + Gained(h, late - early) <= 100.0
    ensures Rebased(Some(car + Gained(h, late - early)), Delivered(late), h) == Rebased(Some(car), Delivered(early), h)
  {
    hide Gained, Rebased, Share;
    GainedIsNotNegative(h, late - early);
    GainedAdds(h, early, late - early);
    assert early + (late - early) == late;
    SeedIsTheStartOfTheSession(h, car, early);
    SeedIsTheStartOfTheSession(h, car + Gained(h, late - early), late);
  }

  lemma GainedIsTheSame(h: Helpers, k: Helpers, energy: real)
    requires Settled(h) && Settled(k) && h.capacity == k.capacity && h.correction == k.correction
    ensures Gained(h, energy) == Gained(k, energy)
  {
  }

  /** The battery energy before rounding, as a share of the capacity. */
  lemma UnroundedShare(h: Helpers, energy: real)
    requires Settled(h) && h.initial.Some? && 0.0 <= h.initial.value <= 100.0 && energy >= 0.0
    ensures var total := Total(h.initial.value, h.capacity.value, energy, h.correction.value);
      && total >= 0.0
      && Share(total, h.capacity.value) == h.initial.value + Gained(h, energy)
      && Share(Max(0.0, Min(total, h.capacity.value)), h.capacity.value) == Min(100.0, h.initial.value + Gained(h, energy))
  {
    hide Kept;
    var capacity, loss := h.capacity.value, h.correction.value;
    var start, taken := h.initial.value / 100.0 * capacity, energy * Kept(loss);
    ShareOfAPercentage(h.initial.value, capacity);
    ShareOfAPercentage(100.0, capacity);
    ShareAdds(start, taken, capacity);
    assert Total(h.initial.value, capacity, energy, loss) == start + taken;
    assert Share(start, capacity) == h.initial.value;
    assert Share(taken, capacity) == Gained(h, energy);
    ProductsKeepOrder(0.0, h.initial.value / 100.0, capacity);
    ProductsKeepOrder(0.0, energy, Kept(loss));
    ShareKeepsOrder(Total(h.initial.value, capacity, energy, loss), capacity, capacity);
  }

  predicate Within(x: real, center: real, radius: real) {
    center - radius <= x <= center + radius
  }

  /** The exact percentage is the unrounded one, capped at full, to half a hundredth of a kWh. */
  lemma ExactPercentIsNear(h: Helpers, energy: real)
    requires Settled(h) && h.initial.Some? && 0.0 <= h.initial.value <= 100.0 && energy >= 0.0
    ensures ExactPercent(h, energy).Some?
    ensures Within(ExactPercent(h, energy).value, Min(100.0, h.initial.value + Gained(h, energy)), 0.5 / h.capacity.value)
  {
    hide Share, Hundredths, Total, Gained;
    var held := Max(0.0, Min(Total(h.initial.value, h.capacity.value, energy, h.correction.value), h.capacity.value));
    UnroundedShare(h, energy);
    ShareOfTheRounding(Hundredths(held), held, h.capacity.value);
    GainedIsNotNegative(h, energy);
    assert Kwh(h, energy) == Some(Hundredths(held));
  }

  /** Seed from the car, then let the session go on: every later reading is the car's own SOC plus
      what was delivered since, to within 0.5/capacity percent.  At the same energy it is the SOC
      the car reported. */
  lemma SeedReadsBack(h: Helpers, car: real, delivered: real, energy: real)
    requires Settled(h) && 0.0 <= car <= 100.0 && 0.0 <= delivered <= energy
    requires Rebased(Some(car), Delivered(delivered), h).Anchored?
    ensures var after := Seeded(h, Rebased(Some(car), Delivered(delivered), h).percent);
      && ExactPercent(after, energy).Some?
      && Within(ExactPercent(after, energy).value, Min(100.0, car + Gained(h, energy - delivered)), 0.5 / h.capacity.value)
    ensures energy == delivered ==> Min(100.0, car + Gained(h, energy - delivered)) == car
  {
    hide Gained, Rebased, ExactPercent, Within;
    SeedIsTheStartOfTheSession(h, car, delivered);
    var seed := Rebased(Some(car), Delivered(delivered), h).percent;
    var after := Seeded(h, seed);
    GainedAdds(h, delivered, energy - delivered);
    assert delivered + (energy - delivered) == energy;
    GainedIsTheSame(h, after, energy);
    ExactPercentIsNear(after, energy);
    GainedNothingYet(h);
  }

  // --- The energy still needed ---------------------------------------------------------------

  function TargetKwh(h: Helpers): real
    requires h.target.Some? && h.capacity.Some?
  {
    h.target.value * h.capacity.value / 100.0
  }

  /** `_remaining_grid_kwh`, once the session energy is known. */
  function EnergyToTarget(h: Helpers, energy: real): Option<real> {
    var kwh := Kwh(h, energy);
    if kwh == None || h.target == None || h.capacity.value == 0.0 then None else
      var missing := TargetKwh(h) - kwh.value;
      if missing <= 0.0 then Some(0.0)
      else if !ValidLoss(h.correction.value) then None
      else Some(missing / Kept(h.correction.value))
  }

  lemma ShareOfTheTarget(h: Helpers)
    requires Settled(h) && h.target.Some?
    ensures Share(TargetKwh(h), h.capacity.value) == h.target.value
    ensures 0.0 <= TargetKwh(h) <= h.capacity.value
  {
    assert TargetKwh(h) == h.target.value / 100.0 * h.capacity.value;
    ShareOfAPercentage(h.target.value, h.capacity.value);
    ProductsKeepOrder(0.0, h.target.value / 100.0, h.capacity.value);
    ProductsKeepOrder(h.target.value / 100.0, 1.0, h.capacity.value);
  }

  /** Nothing is needed exactly when the exact percentage has reached the target. */
  lemma NothingNeededExactlyAtTheTarget(h: Helpers, energy: real)
    requires Settled(h) && h.target.Some? && h.initial.Some?
    ensures ExactPercent(h, energy).Some? && EnergyToTarget(h, energy).Some?
    ensures EnergyToTarget(h, energy).value >= 0.0
    ensures EnergyToTarget(h, energy) == Some(0.0) <==> ExactPercent(h, energy).value >= h.target.value
  {
    hide Share, SocKwh, TargetKwh, Kept;
    var kwh := Kwh(h, energy).value;
    ShareOfTheTarget(h);
    ShareKeepsOrder(TargetKwh(h), kwh, h.capacity.value);
    ShareOfSomething(kwh, h.capacity.value);
    if TargetKwh(h) - kwh > 0.0 {
      FinishEstimate.PositiveQuotient(TargetKwh(h) - kwh, Kept(h.correction.value));
    }
  }

  /** The SOC limit sees the target reached exactly when Energy to Target is 0. */
  lemma TheLimitAndTheForecastAgree(h: Helpers, w: SocLimit.World)
    requires Settled(h) && h.initial.Some? && h.target.Some? && h.target.value > 0.0 && w.energy.Some?
    requires w.target == h.target && w.current == ExactPercent(h, w.energy.value)
    ensures SocLimit.AtTarget(w) <==> EnergyToTarget(h, w.energy.value) == Some(0.0)
  {
    hide ExactPercent, EnergyToTarget;
    NothingNeededExactlyAtTheTarget(h, w.energy.value);
  }

  lemma MoreEnergy(h: Helpers, energy: real, more: real)
    requires Settled(h) && h.initial.Some?
    ensures var before := Total(h.initial.value, h.capacity.value, energy, h.correction.value);
      Total(h.initial.value, h.capacity.value, energy + more, h.correction.value) == before + more * Kept(h.correction.value)
  {
    assert (energy + more) * Kept(h.correction.value) == energy * Kept(h.correction.value) + more * Kept(h.correction.value);
  }

  /** Delivering what Energy to Target asks for, before its display rounding, lands within a
      hundredth of a kWh of the target. */
  lemma DeliveringItReachesTheTarget(h: Helpers, energy: real)
    requires Settled(h) && h.target.Some? && h.initial.Some? && 0.0 <= h.initial.value <= 100.0 && energy >= 0.0
    requires EnergyToTarget(h, energy).Some? && EnergyToTarget(h, energy).value > 0.0
    ensures Within(Kwh(h, energy + EnergyToTarget(h, energy).value).value, TargetKwh(h), 0.01)
  {
    hide Share, Total, Hundredths;
    var needed := EnergyToTarget(h, energy).value;
    ShareOfTheTarget(h);
    UnroundedShare(h, energy);
    UnroundedShare(h, energy + needed);
    MoreEnergy(h, energy, needed);
    assert needed * Kept(h.correction.value) == TargetKwh(h) - Kwh(h, energy).value;
  }

  /** Short of the target, the exact percentage is not clamped: what is missing in percent is
      what is missing in kWh. */
  lemma MissingInPercentAndKwh(h: Helpers, energy: real)
    requires Settled(h) && h.target.Some? && h.initial.Some?
    ensures var current, kwh := ExactPercent(h, energy), Kwh(h, energy).value;
      && current.Some? && FinishEstimate.Percentage(current.value)
      && (current.value < h.target.value ==> (h.target.value - current.value) * h.capacity.value / 100.0 == TargetKwh(h) - kwh)
      && (current.value >= h.target.value ==> (h.target.value - current.value) * h.capacity.value / 100.0 <= 0.0)
  {
    hide Share, SocKwh;
    var kwh, capacity := Kwh(h, energy).value, h.capacity.value;
    var current := ExactPercent(h, energy).value;
    ShareOfSomething(kwh, capacity);
    ShareIsAScale(kwh, capacity);
    if current < h.target.value {
      assert current == Share(kwh, capacity);
      assert (h.target.value - current) * capacity == h.target.value * capacity - current * capacity;
    } else {
      ProductsKeepOrder(h.target.value - current, 0.0, capacity);
    }
  }

  lemma PowerBuys(power: real, kept: real, missing: real)
    requires power > 0.0 && kept > 0.0
    ensures power * kept / 1000.0 > 0.0
    ensures power / 1000.0 * (missing / (power * kept / 1000.0) * 3600.0 / 3600.0) == missing / kept
  {
    var kilowatts := power * kept / 1000.0;
    ProductIsPositive(power, kept);
    var hours := missing / kilowatts;
    assert hours * kilowatts == missing;
    assert hours * (power / 1000.0) * kept == missing;
  }

  lemma ProductIsPositive(a: real, b: real)
    requires a > 0.0 && b > 0.0
    ensures a * b > 0.0
  {
  }

  /** The remaining time at the measured power buys exactly Energy to Target: the two forecasts
      are one. */
  lemma TimeAndEnergyToTargetAgree(h: Helpers, energy: real, power: real)
    requires Settled(h) && h.target.Some? && h.initial.Some?
    ensures var x := FinishEstimate.Inputs(ExactPercent(h, energy), h.target, Some(power), h.capacity, h.correction);
      var remaining := FinishEstimate.RemainingOrState(x);
      && (remaining.TargetReached? <==> EnergyToTarget(h, energy) == Some(0.0))
      && (remaining.Seconds? ==> power / 1000.0 * (remaining.seconds / 3600.0) == EnergyToTarget(h, energy).value)
  {
    hide ExactPercent, Kwh, TargetKwh;
    var x := FinishEstimate.Inputs(ExactPercent(h, energy), h.target, Some(power), h.capacity, h.correction);
    NothingNeededExactlyAtTheTarget(h, energy);
    MissingInPercentAndKwh(h, energy);
    if power > 0.0 {
      PowerBuys(power, Kept(h.correction.value), (h.target.value - x.current.value) * h.capacity.value / 100.0);
    }
  }

  // --- How far the rounding reaches ------------------------------------------------------------

  lemma HundredthsKeepOrder(x: real, y: real)
    requires x <= y
    ensures Hundredths(x) <= Hundredths(y)
  {
    RoundKeepsOrder(x * 100.0, y * 100.0);
  }

  lemma SumsKeepOrder(start: real, a: real, b: real)
    requires a <= b
    ensures start + a <= start + b
  {
  }

  /** More from the grid is more in the battery, before clamping and rounding. */
  lemma TotalsKeepOrder(initial: real, capacity: real, energy: real, later: real, loss: real)
    requires ValidLoss(loss) && energy <= later
    ensures Total(initial, capacity, energy, loss) <= Total(initial, capacity, later, loss)
  {
    hide Kept;
    ProductsKeepOrder(energy, later, Kept(loss));
    SumsKeepOrder(initial / 100.0 * capacity, energy * Kept(loss), later * Kept(loss));
  }

  /** The battery figure never falls while the session meter rises. */
  lemma MoreDeliveredNeverReadsLess(h: Helpers, energy: real, later: real)
    requires Settled(h) && h.initial.Some? && 0.0 <= energy <= later
    ensures Kwh(h, energy).value <= Kwh(h, later).value <= Hundredths(h.capacity.value)
  {
    hide Hundredths, Total;
    var capacity, loss := h.capacity.value, h.correction.value;
    if 0.0 <= h.initial.value <= 100.0 {
      TotalsKeepOrder(h.initial.value, capacity, energy, later, loss);
      var now := Max(0.0, Min(Total(h.initial.value, capacity, energy, loss), capacity));
      var after := Max(0.0, Min(Total(h.initial.value, capacity, later, loss), capacity));
      HundredthsKeepOrder(now, after);
      HundredthsKeepOrder(after, capacity);
    }
  }

  /** When the limit sees the target reached, at most half a hundredth of a kWh is missing. */
  lemma TheTargetIsNeverSeenEarly(h: Helpers, energy: real)
    requires Settled(h) && h.target.Some? && h.initial.Some? && 0.0 <= h.initial.value <= 100.0 && energy >= 0.0
    requires EnergyToTarget(h, energy) == Some(0.0)
    ensures Total(h.initial.value, h.capacity.value, energy, h.correction.value) >= TargetKwh(h) - 0.005
  {
    hide Total, TargetKwh, Hundredths;
    UnroundedShare(h, energy);
    if EnergyToTarget(h, energy) == Some(0.0) && TargetKwh(h) > Kwh(h, energy).value {
      NothingNeededExactlyAtTheTarget(h, energy);
      FinishEstimate.PositiveQuotient(TargetKwh(h) - Kwh(h, energy).value, Kept(h.correction.value));
    }
  }

  /** The whole percent on display does reach it early: here with 0.4 kWh still missing. */
  lemma TheDisplayedPercentIsEarly()
    ensures var h := Helpers(Some(79.6), Some(100.0), Some(0.0), Some(80.0));
      && DisplayPercent(h, 0.0) == Some(80.0)
      && EnergyToTarget(h, 0.0) == Some(0.4)
  {
  }

  /** Some amount of energy reaches the target exactly when the rounded capacity does: a capacity
      that rounds down to the hundredth never reads as full. */
  lemma ReachableExactlyWhen(h: Helpers)
    requires Settled(h) && h.target.Some? && h.initial.Some? && 0.0 <= h.initial.value <= 100.0
    ensures (exists energy: real :: energy >= 0.0 && EnergyToTarget(h, energy) == Some(0.0)) <==> Hundredths(h.capacity.value) >= TargetKwh(h)
  {
    hide Hundredths, TargetKwh, Total;
    var full := h.capacity.value / Kept(h.correction.value);
    Filled(h);
    if Hundredths(h.capacity.value) >= TargetKwh(h) {
      assert EnergyToTarget(h, full) == Some(0.0);
    }
    forall energy: real | energy >= 0.0 && EnergyToTarget(h, energy) == Some(0.0)
      ensures Hundredths(h.capacity.value) >= TargetKwh(h)
    {
      MoreDeliveredNeverReadsLess(h, energy, energy);
      if TargetKwh(h) > Kwh(h, energy).value {
        FinishEstimate.PositiveQuotient(TargetKwh(h) - Kwh(h, energy).value, Kept(h.correction.value));
      }
    }
  }

  /** One such capacity: a target of 100 % is then never seen, however much is delivered. */
  lemma ACapacityRoundedDownIsNeverFull(energy: real)
    requires energy >= 0.0
    ensures EnergyToTarget(Helpers(Some(50.0), Some(10.004), Some(0.0), Some(100.0)), energy) != Some(0.0)
  {
    hide EnergyToTarget;
    ReachableExactlyWhen(Helpers(Some(50.0), Some(10.004), Some(0.0), Some(100.0)));
  }

  /** A whole capacity's worth behind the losses fills the battery. */
  lemma Filled(h: Helpers)
    requires Settled(h) && h.initial.Some? && 0.0 <= h.initial.value <= 100.0
    ensures h.capacity.value / Kept(h.correction.value) >= 0.0
    ensures Kwh(h, h.capacity.value / Kept(h.correction.value)) == Some(Hundredths(h.capacity.value))
  {
    hide Hundredths, Kept;
    var full := h.capacity.value / Kept(h.correction.value);
    FinishEstimate.PositiveQuotient(h.capacity.value, Kept(h.correction.value));
    assert full * Kept(h.correction.value) == h.capacity.value;
    ProductsKeepOrder(0.0, h.initial.value / 100.0, h.capacity.value);
  }
}
