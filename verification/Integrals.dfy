/** The reference meaning of pricing: adding a quantity up minute by minute.

    A profile gives a quantity (kWh drawn or money spent per minute) for every
    whole minute of time; it is constant inside the minute.  Tariff windows and
    schedules open and close on whole minutes, so this loses nothing, while the
    instants a draw starts and ends at are arbitrary reals.
 */
module Integrals {

  type Profile = int -> real

  const DAY: real := 1440.0

  /** A product with a name, so that proofs can carry it as one term. */
  function Times(x: real, y: real): real {
    x * y
  }

  /** What the profile adds up to from `a` to `b`, one minute after another. */
  ghost function Integral(f: Profile, a: real, b: real): real
    requires a <= b
    decreases b.Floor - a.Floor
  {
    if a.Floor == b.Floor then Times(f(a.Floor), b - a)
    else Times(f(a.Floor), (a.Floor + 1) as real - a) + Integral(f, (a.Floor + 1) as real, b)
  }

  /** The profile repeats every day. */
  ghost predicate Daily(f: Profile) {
    forall m: int {:trigger f(m + 1440)} :: f(m + 1440) == f(m)
  }

  ghost predicate ConstantOn(f: Profile, c: real, a: real, b: real) {
    forall m: int {:trigger f(m)} :: a.Floor <= m && m as real < b ==> f(m) == c
  }

  ghost predicate NonNegative(f: Profile) {
    forall m: int {:trigger f(m)} :: f(m) >= 0.0
  }

  lemma TimesSplit(level: real, width: real, rest: real)
    ensures Times(level, width + rest) == Times(level, width) + Times(level, rest)
  {
  }

  lemma TimesMonotone(x: real, y: real, width: real)
    requires x <= y && width >= 0.0
    ensures Times(x, width) <= Times(y, width)
  {
    assert (y - x) * width >= 0.0;
  }

  lemma TimesLinear(g: real, c: real, h: real, width: real)
    ensures Times(g + Times(c, h), width) == Times(g, width) + Times(c, Times(h, width))
  {
  }

  lemma {:induction false} Additive(f: Profile, a: real, b: real, c: real)
    requires a <= b <= c
    ensures Integral(f, a, c) == Integral(f, a, b) + Integral(f, b, c)
    decreases b.Floor - a.Floor
  {
    var e := (a.Floor + 1) as real;
    if a.Floor == b.Floor {
      var end := if b.Floor == c.Floor then c else e;
      TimesSplit(f(a.Floor), b - a, end - b);
      assert (b - a) + (end - b) == end - a;
    } else {
      Additive(f, e, b, c);
    }
  }

  lemma {:induction false} IntegralOfConstant(f: Profile, c: real, a: real, b: real)
    requires a <= b && ConstantOn(f, c, a, b)
    ensures Integral(f, a, b) == Times(c, b - a)
    decreases b.Floor - a.Floor
  {
    if a.Floor == b.Floor {
      if a < b {
        assert f(a.Floor) == c;
      }
    } else {
      var e := (a.Floor + 1) as real;
      assert f(a.Floor) == c;
      IntegralOfConstant(f, c, e, b);
      TimesSplit(c, e - a, b - e);
      assert (e - a) + (b - e) == b - a;
    }
  }

  lemma {:induction false} IntegralMonotone(f: Profile, g: Profile, a: real, b: real)
    requires a <= b
    requires forall m: int {:trigger f(m)} {:trigger g(m)} :: f(m) <= g(m)
    ensures Integral(f, a, b) <= Integral(g, a, b)
    decreases b.Floor - a.Floor
  {
    var m := a.Floor;
    if m == b.Floor {
      TimesMonotone(f(m), g(m), b - a);
    } else {
      TimesMonotone(f(m), g(m), (m + 1) as real - a);
      IntegralMonotone(f, g, (m + 1) as real, b);
    }
  }

  /** Equal profiles have equal integrals, however they are written. */
  lemma IntegralExtensional(f: Profile, g: Profile, a: real, b: real)
    requires a <= b
    requires forall m: int {:trigger f(m)} {:trigger g(m)} :: f(m) == g(m)
    ensures Integral(f, a, b) == Integral(g, a, b)
  {
    IntegralMonotone(f, g, a, b);
    IntegralMonotone(g, f, a, b);
  }

  /** Integrals are linear: a base level plus a scaled part. */
  lemma {:induction false} IntegralLinear(f: Profile, g: Profile, c: real, h: Profile, a: real, b: real)
    requires a <= b
    requires forall m: int {:trigger f(m)} :: f(m) == g(m) + Times(c, h(m))
    ensures Integral(f, a, b) == Integral(g, a, b) + Times(c, Integral(h, a, b))
    decreases b.Floor - a.Floor
  {
    var m := a.Floor;
    var e := (m + 1) as real;
    if m == b.Floor {
      TimesLinear(g(m), c, h(m), b - a);
    } else {
      TimesLinear(g(m), c, h(m), e - a);
      IntegralLinear(f, g, c, h, e, b);
      TimesSplit(c, Times(h(m), e - a), Integral(h, e, b));
    }
  }

  lemma {:induction false} ShiftDay(f: Profile, a: real, b: real)
    requires a <= b && Daily(f)
    ensures Integral(f, a + DAY, b + DAY) == Integral(f, a, b)
    decreases b.Floor - a.Floor
  {
    assert (a + DAY).Floor == a.Floor + 1440 && (b + DAY).Floor == b.Floor + 1440;
    assert f(a.Floor + 1440) == f(a.Floor);
    if a.Floor != b.Floor {
      var e := (a.Floor + 1) as real;
      ShiftDay(f, e, b);
      assert ((a + DAY).Floor + 1) as real == e + DAY;
      assert (e + DAY) - (a + DAY) == e - a;
    }
  }

  lemma {:induction false} ShiftDays(f: Profile, a: real, b: real, n: nat)
    requires a <= b && Daily(f)
    ensures Integral(f, a + n as real * DAY, b + n as real * DAY) == Integral(f, a, b)
  {
    if n > 0 {
      ShiftDays(f, a, b, n - 1);
      var p, q := a + (n - 1) as real * DAY, b + (n - 1) as real * DAY;
      ShiftDay(f, p, q);
      assert p + DAY == a + n as real * DAY && q + DAY == b + n as real * DAY;
    }
  }

  lemma OneMore(n: real, d: real)
    ensures Times(n, d) == Times(n - 1.0, d) + d
    ensures Times(0.0, d) == 0.0
  {
  }

  /** A day adds up to the same from whichever instant it is counted. */
  lemma DayFromAnywhere(f: Profile, t: real)
    requires Daily(f)
    ensures Integral(f, t, t + DAY) == Integral(f, 0.0, DAY)
  {
    if t >= 0.0 {
      Additive(f, 0.0, t, t + DAY);
      Additive(f, 0.0, DAY, t + DAY);
      ShiftDay(f, 0.0, t);
    } else {
      if t + DAY >= 0.0 {
        Additive(f, t, 0.0, t + DAY);
        Additive(f, 0.0, t + DAY, DAY);
        ShiftDay(f, t, 0.0);
      } else {
        Additive(f, t, t + DAY, 0.0);
        Additive(f, t, 0.0, DAY);
        Additive(f, t + DAY, 0.0, DAY);
        ShiftDay(f, t, 0.0);
      }
    }
  }

  lemma {:induction false} WholeDays(f: Profile, t: real, n: nat)
    requires Daily(f)
    ensures Integral(f, t, t + n as real * DAY) == Times(n as real, Integral(f, 0.0, DAY))
  {
    if n == 0 {
      assert t + n as real * DAY == t;
      OneMore(0.0, Integral(f, 0.0, DAY));
    } else {
      WholeDays(f, t, n - 1);
      var p := t + (n - 1) as real * DAY;
      assert p + DAY == t + n as real * DAY;
      Additive(f, t, p, t + n as real * DAY);
      DayFromAnywhere(f, p);
      OneMore(n as real, Integral(f, 0.0, DAY));
    }
  }

  lemma IntegralNonNegative(f: Profile, a: real, b: real)
    requires a <= b && NonNegative(f)
    ensures Integral(f, a, b) >= 0.0
  {
    var zero: Profile := (m: int) => 0.0;
    IntegralMonotone(zero, f, a, b);
    IntegralOfConstant(zero, 0.0, a, b);
  }
}
