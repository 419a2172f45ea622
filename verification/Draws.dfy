/** What drawing energy costs, independently of any way to compute it.

    From a start instant on, power is drawn (`draw`, kWh per minute) and paid for
    at the rate then in effect (`rate`, per kWh) until the energy is used up.
 */
module Draws {
  import opened Common
  import opened Integrals

  ghost function Spend(draw: Profile, rate: Profile): Profile {
    (m: int) => Times(draw(m), rate(m))
  }

  /** Exactly `energy` is drawn from `start` to `finish`, and it costs `cost`. */
  ghost predicate DrawnUntil(draw: Profile, rate: Profile, start: real, energy: real, cost: real, finish: real) {
    && start <= finish
    && Integral(draw, start, finish) == energy
    && Integral(Spend(draw, rate), start, finish) == cost
  }

  /** The price of `energy` drawn from `start` on. */
  ghost predicate Priced(draw: Profile, rate: Profile, start: real, energy: real, cost: real) {
    exists finish: real :: DrawnUntil(draw, rate, start, energy, cost, finish)
  }

  ghost predicate RatesWithin(rate: Profile, lo: real, hi: real) {
    forall m: int {:trigger rate(m)} :: lo <= rate(m) <= hi
  }

  lemma SpendBounds(draw: Profile, rate: Profile, lo: real, hi: real, a: real, b: real)
    requires a <= b && NonNegative(draw) && RatesWithin(rate, lo, hi)
    ensures Times(lo, Integral(draw, a, b)) <= Integral(Spend(draw, rate), a, b) <= Times(hi, Integral(draw, a, b))
  {
    ScaledIntegral(draw, lo, a, b);
    ScaledIntegral(draw, hi, a, b);
    var low: Profile := m => Times(lo, draw(m));
    var high: Profile := m => Times(hi, draw(m));
    forall m: int ensures low(m) <= Spend(draw, rate)(m) <= high(m) {
      TimesMonotone(lo, rate(m), draw(m));
      TimesMonotone(rate(m), hi, draw(m));
      assert Times(draw(m), rate(m)) == Times(rate(m), draw(m));
    }
    IntegralMonotone(low, Spend(draw, rate), a, b);
    IntegralMonotone(Spend(draw, rate), high, a, b);
    ScaledIntegralOf(low, draw, lo, a, b);
    ScaledIntegralOf(high, draw, hi, a, b);
  }

  lemma ScaledIntegral(f: Profile, c: real, a: real, b: real)
    requires a <= b
    ensures Integral((m: int) => Times(c, f(m)), a, b) == Times(c, Integral(f, a, b))
  {
    ScaledIntegralOf((m: int) => Times(c, f(m)), f, c, a, b);
  }

  lemma ScaledIntegralOf(g: Profile, f: Profile, c: real, a: real, b: real)
    requires a <= b && forall m: int {:trigger g(m)} :: g(m) == Times(c, f(m))
    ensures Integral(g, a, b) == Times(c, Integral(f, a, b))
  {
    var zero: Profile := m => 0.0;
    IntegralLinear(g, zero, c, f, a, b);
    IntegralOfConstant(zero, 0.0, a, b);
  }

  /** The price does not depend on when the last kWh is said to be drawn. */
  lemma PriceIsUnique(draw: Profile, rate: Profile, lo: real, hi: real, start: real, energy: real, c: real, d: real)
    requires NonNegative(draw) && RatesWithin(rate, lo, hi)
    requires Priced(draw, rate, start, energy, c) && Priced(draw, rate, start, energy, d)
    ensures c == d
  {
    var s: real :| DrawnUntil(draw, rate, start, energy, c, s);
    var t: real :| DrawnUntil(draw, rate, start, energy, d, t);
    var a, b := Min(s, t), Max(s, t);
    Additive(draw, start, a, b);
    Additive(Spend(draw, rate), start, a, b);
    SpendBounds(draw, rate, lo, hi, a, b);
    assert Times(lo, 0.0) == 0.0 == Times(hi, 0.0);
  }

  /** The cost lies between the lowest and the highest rate times the energy. */
  lemma PriceBounds(draw: Profile, rate: Profile, lo: real, hi: real, start: real, energy: real, cost: real)
    requires NonNegative(draw) && RatesWithin(rate, lo, hi) && Priced(draw, rate, start, energy, cost)
    ensures energy >= 0.0 && lo * energy <= cost <= hi * energy
  {
    var t: real :| DrawnUntil(draw, rate, start, energy, cost, t);
    IntegralNonNegative(draw, start, t);
    SpendBounds(draw, rate, lo, hi, start, t);
  }

  lemma DrawOn(draw: Profile, rate: Profile, start: real, e: real, c: real, middle: real, f: real, d: real, t: real)
    requires DrawnUntil(draw, rate, start, e, c, middle) && DrawnUntil(draw, rate, middle, f, d, t)
    ensures DrawnUntil(draw, rate, start, e + f, c + d, t)
  {
    Additive(draw, start, middle, t);
    Additive(Spend(draw, rate), start, middle, t);
  }

  /** Pricing two amounts in turn is pricing their sum. */
  lemma PriceSplits(draw: Profile, rate: Profile, start: real, e: real, c: real, middle: real, f: real, d: real)
    requires DrawnUntil(draw, rate, start, e, c, middle) && Priced(draw, rate, middle, f, d)
    ensures Priced(draw, rate, start, e + f, c + d)
  {
    var t: real :| DrawnUntil(draw, rate, middle, f, d, t);
    DrawOn(draw, rate, start, e, c, middle, f, d, t);
  }

  /** Pricing e + f is pricing e, and then f from the instant where e ends. */
  lemma PriceIsAdditive(draw: Profile, rate: Profile, lo: real, hi: real, start: real,
                        e: real, c: real, middle: real, f: real, d: real, cost: real)
    requires NonNegative(draw) && RatesWithin(rate, lo, hi)
    requires DrawnUntil(draw, rate, start, e, c, middle) && Priced(draw, rate, middle, f, d)
    requires Priced(draw, rate, start, e + f, cost)
    ensures cost == c + d
  {
    PriceSplits(draw, rate, start, e, c, middle, f, d);
    PriceIsUnique(draw, rate, lo, hi, start, e + f, cost, c + d);
  }

  lemma SpendIsDaily(draw: Profile, rate: Profile)
    requires Daily(draw) && Daily(rate)
    ensures Daily(Spend(draw, rate))
  {
    forall m: int ensures Spend(draw, rate)(m + 1440) == Spend(draw, rate)(m) {
      assert draw(m + 1440) == draw(m) && rate(m + 1440) == rate(m);
    }
  }

  /** Whole days cost the same wherever they start, so they can be taken out of a draw. */
  lemma DrawWholeDaysMore(draw: Profile, rate: Profile, start: real, e: real, c: real, finish: real, days: nat)
    requires Daily(draw) && Daily(rate) && DrawnUntil(draw, rate, start, e, c, finish)
    ensures DrawnUntil(draw, rate, start,
                       e + Times(days as real, Integral(draw, 0.0, DAY)),
                       c + Times(days as real, Integral(Spend(draw, rate), 0.0, DAY)),
                       finish + days as real * DAY)
  {
    SpendIsDaily(draw, rate);
    WholeDays(draw, finish, days);
    WholeDays(Spend(draw, rate), finish, days);
    DrawOn(draw, rate, start, e, c, finish, Times(days as real, Integral(draw, 0.0, DAY)),
           Times(days as real, Integral(Spend(draw, rate), 0.0, DAY)), finish + days as real * DAY);
  }

  /** Profiles that agree on every minute price alike. */
  lemma PriceExtensional(draw: Profile, draw': Profile, rate: Profile, start: real, energy: real, cost: real)
    requires forall m: int {:trigger draw(m)} {:trigger draw'(m)} :: draw(m) == draw'(m)
    requires Priced(draw, rate, start, energy, cost)
    ensures Priced(draw', rate, start, energy, cost)
  {
    var t: real :| DrawnUntil(draw, rate, start, energy, cost, t);
    IntegralExtensional(draw, draw', start, t);
    IntegralExtensional(Spend(draw, rate), Spend(draw', rate), start, t);
    assert DrawnUntil(draw', rate, start, energy, cost, t);
  }

  /** One stretch of constant power and rate, drawn until `left` is used or the stretch ends. */
  lemma DrawStretch(draw: Profile, rate: Profile, p: real, r: real, now: real, end: real, left: real, drawn: real)
    returns (t: real)
    requires now < end && left > 0.0 && p >= 0.0 && drawn == Min(left, Times(end - now, p))
    requires ConstantOn(draw, p, now, end) && ConstantOn(rate, r, now, end)
    ensures DrawnUntil(draw, rate, now, drawn, Times(drawn, r), t)
    ensures drawn < left ==> t == end
  {
    t := Reach(now, end, p, left, drawn);
    DrawEven(draw, rate, p, r, now, t);
  }

  /** ... and that stretch added to what was drawn before it. */
  lemma DrawStretchOn(draw: Profile, rate: Profile, p: real, r: real, start: real, now: real, end: real,
                      energy: real, cost: real, left: real, drawn: real)
    returns (t: real)
    requires now < end && left > 0.0 && p >= 0.0 && drawn == Min(left, Times(end - now, p))
    requires ConstantOn(draw, p, now, end) && ConstantOn(rate, r, now, end)
    requires DrawnUntil(draw, rate, start, energy, cost, now)
    ensures DrawnUntil(draw, rate, start, energy + drawn, cost + Times(drawn, r), t)
    ensures drawn < left ==> t == end
  {
    t := DrawStretch(draw, rate, p, r, now, end, left, drawn);
    DrawOn(draw, rate, start, energy, cost, now, drawn, Times(drawn, r), t);
  }

  lemma Reach(now: real, end: real, p: real, left: real, drawn: real) returns (t: real)
    requires now < end && left > 0.0 && p >= 0.0 && drawn == Min(left, Times(end - now, p))
    ensures now <= t <= end && drawn == Times(t - now, p) && (drawn < left ==> t == end)
  {
    if left <= Times(end - now, p) {
      Quotient(left, p, end - now);
      t := now + left / p;
    } else {
      t := end;
    }
  }

  lemma DrawEven(draw: Profile, rate: Profile, p: real, r: real, now: real, t: real)
    requires now <= t && ConstantOn(draw, p, now, t) && ConstantOn(rate, r, now, t)
    ensures DrawnUntil(draw, rate, now, Times(t - now, p), Times(Times(t - now, p), r), t)
  {
    IntegralOfConstant(draw, p, now, t);
    IntegralOfConstant(Spend(draw, rate), Times(p, r), now, t);
    Swap(p, r, t - now);
  }

  lemma Quotient(left: real, p: real, width: real)
    requires 0.0 < left <= Times(width, p) && p >= 0.0
    ensures p > 0.0 && 0.0 < left / p <= width && Times(left / p, p) == left
  {
    var q := left / p;
    if q > width {
      StrictlyMore(width, q, p);
    }
  }

  lemma StrictlyMore(x: real, y: real, p: real)
    requires x < y && p > 0.0
    ensures x * p < y * p
  {
    assert (y - x) * p > 0.0;
  }

  lemma Swap(p: real, r: real, width: real)
    ensures Times(p, width) == Times(width, p) && Times(Times(p, r), width) == Times(Times(width, p), r)
  {
  }
}
