/** Seconds and nanoseconds in 64-bit signed integers. */
module Timespec {
  import opened Common

  const NSEC_PER_SEC: int := 1_000_000_000
  const LONG_MAX: int := 0x7fff_ffff_ffff_ffff

  newtype long = x: int | -0x8000_0000_0000_0000 <= x <= 0x7fff_ffff_ffff_ffff

  const NSEC: long := 1_000_000_000

  datatype Timespec = Timespec(sec: long, nsec: long)

  /** The time in nanoseconds. */
  function Value(t: Timespec): int {
    t.sec as int * NSEC_PER_SEC + t.nsec as int
  }

  /** Less than a second of nanoseconds, and both parts on the same side of zero. */
  predicate Normal(t: Timespec) {
    && -NSEC < t.nsec < NSEC
    && (t.sec > 0 ==> t.nsec >= 0) && (t.sec < 0 ==> t.nsec <= 0)
  }

  /** Division towards zero, as C divides. */
  function Trunc(x: int, y: int): int
    requires y > 0
  {
    if x >= 0 then x / y else -((-x) / y)
  }

  /** The whole seconds packed into the nanoseconds can be carried over without overflow. */
  predicate Fits(t: Timespec) {
    -LONG_MAX - 1 <= t.sec as int + Trunc(t.nsec as int, NSEC_PER_SEC) <= LONG_MAX
  }

  /** A time has one normal form. */
  lemma NormalIsUnique(a: Timespec, b: Timespec)
    requires Normal(a) && Normal(b) && Value(a) == Value(b)
    ensures a == b
  {
  }

  lemma TruncStep(n: int)
    ensures n >= NSEC_PER_SEC ==> Trunc(n - NSEC_PER_SEC, NSEC_PER_SEC) == Trunc(n, NSEC_PER_SEC) - 1
    ensures n <= -NSEC_PER_SEC ==> Trunc(n + NSEC_PER_SEC, NSEC_PER_SEC) == Trunc(n, NSEC_PER_SEC) + 1
    ensures -NSEC_PER_SEC < n < NSEC_PER_SEC ==> Trunc(n, NSEC_PER_SEC) == 0
    ensures n >= 0 ==> Trunc(n, NSEC_PER_SEC) >= 0
    ensures n >= NSEC_PER_SEC ==> Trunc(n, NSEC_PER_SEC) >= 1
    ensures n <= 0 ==> Trunc(n, NSEC_PER_SEC) <= 0
    ensures n <= -NSEC_PER_SEC ==> Trunc(n, NSEC_PER_SEC) <= -1
  {
  }

  /** The same time in normal form. */
  method Normalise(ts: Timespec) returns (r: Timespec)
    requires Fits(ts)
    ensures Normal(r) && Value(r) == Value(ts)
  {
    hide Trunc;
    var sec, nsec := ts.sec, ts.nsec;
    ghost var whole := sec as int + Trunc(nsec as int, NSEC_PER_SEC);
    while nsec >= NSEC
      invariant Value(Timespec(sec, nsec)) == Value(ts)
      invariant sec as int + Trunc(nsec as int, NSEC_PER_SEC) == whole
      invariant nsec >= 0 || nsec == ts.nsec
    {
      TruncStep(nsec as int);
      sec := sec + 1;
      nsec := nsec - NSEC;
    }
    while nsec <= -NSEC
      invariant Value(Timespec(sec, nsec)) == Value(ts)
      invariant sec as int + Trunc(nsec as int, NSEC_PER_SEC) == whole
      invariant nsec < NSEC
    {
      TruncStep(nsec as int);
      sec := sec - 1;
      nsec := nsec + NSEC;
    }
    if nsec < 0 && sec > 0 {
      sec := sec - 1;
      nsec := NSEC - (-1 * nsec);
    } else if nsec > 0 && sec < 0 {
      sec := sec + 1;
      nsec := -NSEC - (-1 * nsec);
    }
    r := Timespec(sec, nsec);
  }

  predicate InLong(x: int) {
    -LONG_MAX - 1 <= x <= LONG_MAX
  }

  /** Whole seconds of a time that is in normal form. */
  function Seconds(v: int): int {
    Trunc(v, NSEC_PER_SEC)
  }

  lemma SecondsOf(t: Timespec)
    requires Normal(t)
    ensures Seconds(Value(t)) == t.sec as int
  {
    if t.sec >= 0 && t.nsec >= 0 {
      assert Value(t) / NSEC_PER_SEC == t.sec as int;
    } else {
      assert (-Value(t)) / NSEC_PER_SEC == -(t.sec as int);
    }
  }

  /** The sum of two times. */
  method Add(ts1: Timespec, ts2: Timespec) returns (r: Timespec)
    requires Fits(ts1) && Fits(ts2)
    requires InLong(Seconds(Value(ts1)) + Seconds(Value(ts2))) && InLong(Seconds(Value(ts1) + Value(ts2)))
    ensures Normal(r) && Value(r) == Value(ts1) + Value(ts2)
  {
    hide Seconds, Fits;
    var a := Normalise(ts1);
    var b := Normalise(ts2);
    SecondsOf(a);
    SecondsOf(b);
    var c := Timespec(a.sec + b.sec, a.nsec + b.nsec);
    FitsByValue(c);
    r := Normalise(c);
  }

  /** The difference of two times. */
  method Sub(ts1: Timespec, ts2: Timespec) returns (r: Timespec)
    requires Fits(ts1) && Fits(ts2)
    requires InLong(Seconds(Value(ts1)) - Seconds(Value(ts2))) && InLong(Seconds(Value(ts1) - Value(ts2)))
    ensures Normal(r) && Value(r) == Value(ts1) - Value(ts2)
  {
    hide Seconds, Fits;
    var a := Normalise(ts1);
    var b := Normalise(ts2);
    SecondsOf(a);
    SecondsOf(b);
    var c := Timespec(a.sec - b.sec, a.nsec - b.nsec);
    FitsByValue(c);
    r := Normalise(c);
  }

  lemma FitsByValue(t: Timespec)
    requires -2 * NSEC < t.nsec < 2 * NSEC && InLong(Seconds(Value(t)))
    ensures Fits(t)
  {
    TruncStep(t.nsec as int);
    var v := Value(t);
    if t.nsec >= NSEC {
      TruncStep(t.nsec as int - NSEC_PER_SEC);
      if t.sec >= 0 { assert v / NSEC_PER_SEC == t.sec as int + 1; }
    } else if t.nsec <= -NSEC {
      TruncStep(t.nsec as int + NSEC_PER_SEC);
      if t.sec <= 0 { assert (-v) / NSEC_PER_SEC == -(t.sec as int) + 1; }
    }
  }

  predicate Ge(a: Timespec, b: Timespec) {
    a.sec > b.sec || (a.sec == b.sec && a.nsec >= b.nsec)
  }

  predicate Lt(a: Timespec, b: Timespec) {
    a.sec < b.sec || (a.sec == b.sec && a.nsec < b.nsec)
  }

  /** Seconds and nanoseconds not below zero, with the nanoseconds up to and including a full second. */
  predicate Loose(t: Timespec) {
    t.sec >= 0 && 0 <= t.nsec <= NSEC
  }

  /** The comparison orders by value even when its right side holds a full second of nanoseconds. */
  lemma GeIsByValue(a: Timespec, b: Timespec)
    requires Normal(a) && a.sec >= 0 && a.nsec >= 0 && Loose(b)
    ensures Ge(a, b) <==> Value(a) >= Value(b)
  {
  }

  lemma LtIsByValue(a: Timespec, b: Timespec)
    requires Normal(a) && Normal(b)
    ensures Lt(a, b) <==> Value(a) < Value(b)
  {
  }

  // ---------------------------------------------------------------------------
  // Modulo
  // ---------------------------------------------------------------------------

  /** The remainder that has the sign of the divisor. */
  function FloorMod(a: int, b: int): (r: int)
    requires b != 0
    ensures b > 0 ==> 0 <= r < b
    ensures b < 0 ==> b < r <= 0
  {
    if b > 0 then a % b else -((-a) % (-b))
  }

  lemma {:induction false} ModOf(q: nat, r: nat, b: nat)
    requires b > 0
    ensures (q * b + r) % b == r % b
  {
    if q > 0 {
      ModOf(q - 1, r, b);
      var x := (q - 1) * b + r;
      assert q * b + r == x + b;
      StepMod(x, b);
    }
  }

  lemma StepMod(x: nat, b: nat)
    requires b > 0
    ensures (x + b) % b == x % b
  {
    var q := x / b;
    assert x == q * b + x % b;
    assert x + b == (q + 1) * b + x % b;
    DivUnique(x + b, b, q + 1, x % b);
  }

  /** Double a positive time; the carry only happens above a full second. */
  function Doubled(t: Timespec): (r: Timespec)
    requires Loose(t) && (t.sec as int) < LONG_MAX / 2
    ensures Loose(r) && Value(r) == 2 * Value(t)
  {
    var nsec := 2 * t.nsec;
    if nsec > NSEC then Timespec(2 * t.sec + 1, nsec - NSEC) else Timespec(2 * t.sec, nsec)
  }

  /** How far the divisor is shifted: until it exceeds `v`, or until its seconds reach half the range. */
  ghost function Top(v: int, t: Timespec): (r: Timespec)
    requires Loose(t) && Value(t) > 0
    ensures Loose(r) && Value(r) >= Value(t)
    ensures Value(r) > v || r.sec as int >= LONG_MAX / 2
    decreases v - Value(t)
  {
    if (t.sec as int) < LONG_MAX / 2 && v >= Value(t) then Top(v, Doubled(t)) else t
  }

  /** The same time without its sign. */
  function Magnitude(t: Timespec): Timespec
    requires t.sec as int >= -LONG_MAX && Normal(t)
  {
    if t.sec < 0 || t.nsec < 0 then Timespec(-t.sec, -t.nsec) else t
  }

  lemma MagnitudeIs(t: Timespec)
    requires t.sec as int >= -LONG_MAX && Normal(t)
    ensures Normal(Magnitude(t)) && Magnitude(t).sec >= 0 && Magnitude(t).nsec >= 0 && Loose(Magnitude(t))
    ensures Value(Magnitude(t)) == if Value(t) < 0 then -Value(t) else Value(t)
    ensures (t.sec < 0 || t.nsec < 0) <==> Value(t) < 0
  {
  }

  /** The shift loop. It returns how often the divisor was doubled. */
  method ShiftUp(ts1: Timespec, ts2: Timespec) returns (t: Timespec, i: nat)
    requires Normal(ts1) && ts1.sec >= 0 && ts1.nsec >= 0
    requires Loose(ts2) && Value(ts2) > 0
    ensures t == Top(Value(ts1), ts2) && Loose(t)
    ensures Value(t) == Pow2(i) * Value(ts2)
  {
    hide Value, Pow2;
    t, i := ts2, 0;
    PowZero(Value(ts2));
    while (t.sec as int) < LONG_MAX / 2 && Ge(ts1, t)
      invariant Loose(t) && Value(t) > 0
      invariant Top(Value(ts1), t) == Top(Value(ts1), ts2)
      invariant Value(t) == Pow2(i) * Value(ts2)
      decreases Value(ts1) - Value(t)
    {
      GeIsByValue(ts1, t);
      PowStep(i, Value(ts2));
      ghost var was := t;
      var nsec, sec := 2 * t.nsec, 2 * t.sec;
      if nsec > NSEC {
        nsec := nsec - NSEC;
        sec := sec + 1;
      }
      i := i + 1;
      t := Timespec(sec, nsec);
      assert t == Doubled(was);
    }
    GeIsByValue(ts1, t);
  }

  lemma PowZero(v: int)
    ensures Pow2(0) * v == v
  {
  }

  lemma PowStep(i: nat, v: int)
    ensures Pow2(i + 1) * v == 2 * (Pow2(i) * v)
  {
    assert Pow2(i + 1) == 2 * Pow2(i);
  }

  /** Half of an even positive time. */
  function Halved(t: Timespec): Timespec
    requires Loose(t)
  {
    Timespec(t.sec / 2, (t.nsec + (if t.sec % 2 == 1 then NSEC else 0)) / 2)
  }

  lemma HalvedIs(t: Timespec, half: int)
    requires Loose(t) && Value(t) == 2 * half
    ensures Loose(Halved(t)) && Value(Halved(t)) == half
  {
    var s := t.sec as int;
    assert s == 2 * (s / 2) + s % 2;
    assert t.nsec as int % 2 == 0 by {
      assert t.nsec as int == 2 * (half - s * 500_000_000);
    }
  }

  /** Where the remainder stands against twice the divisor: below, equal or above. */
  ghost predicate SameSide(a: int, b: int, c: int, d: int) {
    (a < b <==> c < d) && (a == b <==> c == d)
  }

  /** One step of the division: take the divisor away once, if possible. */
  method TakeAway(ts1: Timespec, ts2: Timespec, ghost b: int, ghost q: nat) returns (r: Timespec, ghost q': nat)
    requires Normal(ts1) && ts1.sec >= 0 && ts1.nsec >= 0 && Loose(ts2) && Fits(ts2)
    requires b >= 0 && exists k: nat :: Value(ts2) == k * b
    ensures Normal(r) && r.sec >= 0 && r.nsec >= 0
    ensures Value(r) == if Value(ts1) >= Value(ts2) then Value(ts1) - Value(ts2) else Value(ts1)
    ensures Value(ts1) + q * b == Value(r) + q' * b
  {
    hide Value, Fits, Seconds;
    GeIsByValue(ts1, ts2);
    r, q' := ts1, q;
    if Ge(ts1, ts2) {
      ghost var k: nat :| Value(ts2) == k * b;
      SubFits(ts1, ts2);
      r := Sub(ts1, ts2);
      PositiveNormal(r);
      q' := q + k;
      assert q' * b == q * b + k * b;
    }
  }

  lemma PositiveNormal(t: Timespec)
    requires Normal(t) && Value(t) >= 0
    ensures t.sec >= 0 && t.nsec >= 0
  {
  }

  lemma SubFits(a: Timespec, b: Timespec)
    requires Normal(a) && a.sec >= 0 && a.nsec >= 0 && Loose(b) && Fits(b) && Value(a) >= Value(b)
    ensures Fits(a)
    ensures InLong(Seconds(Value(a)) - Seconds(Value(b))) && InLong(Seconds(Value(a) - Value(b)))
  {
    SecondsOf(a);
    SecondsBetween(Value(b), a.sec as int);
    SecondsBetween(Value(a) - Value(b), a.sec as int);
  }

  lemma SecondsBetween(v: int, s: int)
    requires 0 <= v < (s + 1) * NSEC_PER_SEC
    ensures 0 <= Seconds(v) <= s
  {
  }

  lemma {:induction false} TopFits(v: int, t: Timespec)
    requires Loose(t) && Value(t) > 0 && Fits(t)
    ensures Fits(Top(v, t))
    decreases v - Value(t)
  {
    if (t.sec as int) < LONG_MAX / 2 && v >= Value(t) {
      LooseFits(Doubled(t));
      TopFits(v, Doubled(t));
    }
  }

  lemma LooseFits(t: Timespec)
    requires Loose(t) && (t.sec as int) < LONG_MAX
    ensures Fits(t)
  {
  }

  /** The side of twice the divisor becomes the side of the divisor after one subtraction. */
  lemma OneDown(r: int, t: int, r': int, a: int, b: int)
    requires SameSide(r, 2 * t, a, b) && t > 0 && r >= 0
    requires r' == if r >= t then r - t else r
    ensures SameSide(r', t, a, b)
  {
  }

  /** Division by repeated subtraction, from the shifted divisor back down to the divisor itself. */
  method Divide(ts1: Timespec, top: Timespec, n: nat, ghost b: int) returns (r: Timespec, t: Timespec, ghost q: nat)
    requires Normal(ts1) && ts1.sec >= 0 && ts1.nsec >= 0 && Loose(top) && Fits(top)
    requires b > 0 && Value(top) == Pow2(n) * b
    ensures Normal(r) && r.sec >= 0 && r.nsec >= 0 && Loose(t) && Fits(t)
    ensures Value(t) == b && Value(ts1) == Value(r) + q * b
    ensures SameSide(Value(r), b, Value(ts1), 2 * Value(top))
  {
    hide Value, Pow2, Fits, SameSide;
    var i := n;
    r, t, q := ts1, top, 0;
    SameSelf(Value(r), 2 * Value(t));
    while true
      invariant Normal(r) && r.sec >= 0 && r.nsec >= 0 && Loose(t) && Fits(t)
      invariant Value(t) == Pow2(i) * b && Value(ts1) == Value(r) + q * b
      invariant SameSide(Value(r), 2 * Value(t), Value(ts1), 2 * Value(top))
      decreases i
    {
      ghost var was := r;
      Positive(r);
      PowTimes(i, b);
      r, q := TakeAway(r, t, b, q);
      OneDown(Value(was), Value(t), Value(r), Value(ts1), 2 * Value(top));
      if i == 0 {
        PowZero(b);
        break;
      }
      i := i - 1;
      PowStep(i, b);
      HalvedIs(t, Pow2(i) * b);
      HalvedFits(t);
      var nsec := t.nsec;
      if t.sec % 2 == 1 {
        nsec := nsec + NSEC;
      }
      t := Timespec(t.sec / 2, nsec / 2);
    }
  }

  lemma SameSelf(a: int, b: int)
    ensures SameSide(a, b, a, b)
  {
  }

  lemma Positive(t: Timespec)
    requires t.sec >= 0 && t.nsec >= 0
    ensures Value(t) >= 0
  {
  }

  lemma PowTimes(i: nat, b: int)
    requires b > 0
    ensures Pow2(i) * b > 0
  {
    MulGrows(Pow2(i), b);
  }

  lemma HalvedFits(t: Timespec)
    requires Loose(t)
    ensures Loose(Halved(t)) ==> Fits(Halved(t))
  {
  }

  lemma NegMod(a: int, b: int)
    requires b > 0
    ensures (-a) % b == if a % b == 0 then 0 else b - a % b
  {
    var q, m := a / b, a % b;
    assert a == q * b + m;
    if m == 0 {
      assert -a == (-q) * b;
      DivUnique(-a, b, -q, 0);
    } else {
      assert -a == (-q - 1) * b + (b - m);
      DivUnique(-a, b, -q - 1, b - m);
    }
  }

  /** The last step: cross zero if the signs differ, and restore the sign. */
  function Signed(r: int, b: int, neg1: bool, neg2: bool): int {
    var x := if neg1 != neg2 && r != 0 then r - b else r;
    if neg1 then -x else x
  }

  lemma SignedIs(a: int, r: int, q: nat, b: int, neg1: bool, neg2: bool)
    requires b > 0 && r >= 0 && a == r + q * b
    ensures Signed(r, b, neg1, neg2) == FloorMod(if neg1 then -a else a, if neg2 then -b else b)
            <==> r < b || (neg1 != neg2 && r == b)
  {
    assert a == q * b + r;
    ModOf(q, r, b);
    NegMod(a, b);
    if r < b {
      DivUnique(r, b, 0, r);
    } else if r == b {
      DivUnique(r, b, 1, 0);
    }
  }

  function Abs(x: int): nat {
    if x < 0 then -x else x
  }

  /** A time that is not negative, in normal form. */
  function Of(v: nat): (t: Timespec)
    requires v / NSEC_PER_SEC <= LONG_MAX
    ensures Normal(t) && Loose(t) && Value(t) == v
  {
    Timespec((v / NSEC_PER_SEC) as long, (v % NSEC_PER_SEC) as long)
  }

  /** The shifted divisor is more than half of the dividend (or exactly half, if the signs differ). */
  ghost predicate ModWorks(v1: int, v2: int)
    requires v2 != 0 && Abs(v2) / NSEC_PER_SEC <= LONG_MAX
  {
    var top := Value(Top(Abs(v1), Of(Abs(v2))));
    Abs(v1) < 2 * top || ((v1 < 0) != (v2 < 0) && Abs(v1) == 2 * top)
  }

  lemma MagnitudeOf(t: Timespec)
    requires Normal(t) && t.sec as int >= -LONG_MAX
    ensures Abs(Value(t)) / NSEC_PER_SEC <= LONG_MAX
    ensures Magnitude(t) == Of(Abs(Value(t)))
  {
    MagnitudeIs(t);
    var m := Magnitude(t);
    assert Abs(Value(t)) / NSEC_PER_SEC == m.sec as int;
    NormalIsUnique(m, Of(Abs(Value(t))));
  }

  /** Take the divisor away once more if the signs differ, then restore the sign of the dividend. */
  method RestoreSign(r: Timespec, t: Timespec, neg1: bool, neg2: bool) returns (s: Timespec)
    requires Normal(r) && r.sec >= 0 && r.nsec >= 0 && Loose(t) && Fits(t) && Value(t) > 0
    ensures Normal(s) && Value(s) == Signed(Value(r), Value(t), neg1, neg2)
  {
    hide Fits, Seconds;
    s := r;
    Bounds(r);
    if neg1 != neg2 && (r.sec != 0 || r.nsec != 0) {
      CrossFits(r, t);
      s := Sub(r, t);
      CrossBound(s, r, t);
    }
    if neg1 {
      s := Timespec(-s.sec, -s.nsec);
    }
  }

  lemma Bounds(r: Timespec)
    requires Normal(r) && r.sec >= 0 && r.nsec >= 0
    ensures Value(r) == 0 <==> r.sec == 0 && r.nsec == 0
  {
  }

  lemma CrossFits(a: Timespec, b: Timespec)
    requires Normal(a) && a.sec >= 0 && a.nsec >= 0 && Loose(b) && Fits(b)
    ensures Fits(a)
    ensures InLong(Seconds(Value(a)) - Seconds(Value(b))) && InLong(Seconds(Value(a) - Value(b)))
  {
    SecondsOf(a);
    SecondsBetween(Value(b), LONG_MAX);
    if Value(a) >= Value(b) {
      SecondsBetween(Value(a) - Value(b), LONG_MAX);
    } else {
      SecondsBetween(Value(b) - Value(a), LONG_MAX);
    }
  }

  lemma CrossBound(s: Timespec, r: Timespec, t: Timespec)
    requires Normal(s) && Normal(r) && r.sec >= 0 && r.nsec >= 0 && Loose(t) && Fits(t)
    requires Value(s) == Value(r) - Value(t)
    ensures s.sec as int >= -LONG_MAX
  {
  }

  /**
   * The shift-and-subtract remainder, without overflow for all operands whose seconds can be negated.
   * It is the remainder with the sign of the divisor exactly when `ModWorks` holds: the shift also
   * stops when the seconds reach half of the range, and from there the dividend may be too far away.
   */
  method Mod(ts1: Timespec, ts2: Timespec) returns (r: Timespec)
    requires Fits(ts1) && Fits(ts2)
    requires Seconds(Value(ts1)) >= -LONG_MAX && Seconds(Value(ts2)) >= -LONG_MAX
    ensures Normal(r)
    ensures Value(ts2) == 0 ==> Value(r) == Value(ts1)
    ensures Value(ts2) != 0 ==> Abs(Value(ts2)) / NSEC_PER_SEC <= LONG_MAX
    ensures Value(ts2) != 0 ==>
              (Value(r) == FloorMod(Value(ts1), Value(ts2)) <==> ModWorks(Value(ts1), Value(ts2)))
  {
    hide Fits, Seconds, Top, FloorMod, Value, Magnitude, Of, Signed, SameSide;
    var a := Normalise(ts1);
    var b := Normalise(ts2);
    ZeroIs(b);
    if b.sec == 0 && b.nsec == 0 {
      return a;
    }
    SecondsOf(a);
    SecondsOf(b);
    MagnitudeIs(a);
    MagnitudeIs(b);
    MagnitudeOf(a);
    MagnitudeOf(b);
    var neg1, neg2 := a.sec < 0 || a.nsec < 0, b.sec < 0 || b.nsec < 0;
    var x, y := Magnitude(a), Magnitude(b);
    NormalFits(y);
    TopFits(Value(x), y);
    var top, i := ShiftUp(x, y);
    var rest, back, q := Divide(x, top, i, Value(y));
    r := RestoreSign(rest, back, neg1, neg2);
    Positive(rest);
    SignedIs(Value(x), Value(rest), q, Value(y), neg1, neg2);
    SideIs(Value(rest), Value(y), Value(x), 2 * Value(top));
  }

  lemma SideIs(a: int, b: int, c: int, d: int)
    requires SameSide(a, b, c, d)
    ensures a < b <==> c < d
    ensures a == b <==> c == d
  {
  }

  lemma ZeroIs(t: Timespec)
    requires Normal(t)
    ensures Value(t) == 0 <==> t.sec == 0 && t.nsec == 0
  {
  }

  lemma NormalFits(t: Timespec)
    requires Normal(t)
    ensures Fits(t)
  {
  }

  /** Where the shifting stops: at half of the range of seconds, or past it for a divisor with a fraction. */
  predicate HalfRange(b: nat, x: int) {
    if b % NSEC_PER_SEC == 0 then x >= LONG_MAX / 2 * NSEC_PER_SEC else x > LONG_MAX / 2 * NSEC_PER_SEC
  }

  /** A divisor keeps or lacks its fraction of a second while it is doubled. */
  predicate SameFraction(b: nat, t: Timespec) {
    t.nsec == 0 <==> b % NSEC_PER_SEC == 0
  }

  lemma StopsAtHalf(b: nat, t: Timespec)
    requires Loose(t) && SameFraction(b, t)
    ensures t.sec as int >= LONG_MAX / 2 <==> HalfRange(b, Value(t))
  {
  }

  lemma DoubledFraction(b: nat, t: Timespec)
    requires Loose(t) && (t.sec as int) < LONG_MAX / 2 && SameFraction(b, t)
    ensures SameFraction(b, Doubled(t))
  {
  }

  /** The shifted divisor is the first doubling that exceeds the dividend or reaches half of the range. */
  lemma {:induction false} TopIsFirst(v: int, t: Timespec, b: nat) returns (k: nat)
    requires Loose(t) && Value(t) > 0 && SameFraction(b, t)
    ensures Value(Top(v, t)) == Pow2(k) * Value(t)
    ensures Value(Top(v, t)) > v || HalfRange(b, Value(Top(v, t)))
    ensures forall j: nat :: HalfRange(b, Pow2(j) * Value(t)) ==> Value(Top(v, t)) <= Pow2(j) * Value(t)
    decreases v - Value(t)
  {
    hide Value, HalfRange, Pow2;
    StopsAtHalf(b, t);
    PowZero(Value(t));
    if (t.sec as int) < LONG_MAX / 2 && v >= Value(t) {
      DoubledFraction(b, t);
      var n := TopIsFirst(v, Doubled(t), b);
      PowStep(n, Value(t));
      PowDouble(n, Value(t));
      forall j: nat | HalfRange(b, Pow2(j) * Value(t)) ensures Value(Top(v, t)) <= Pow2(j) * Value(t) {
        if j > 0 {
          PowStep(j - 1, Value(t));
          PowDouble(j - 1, Value(t));
        }
      }
      k := n + 1;
    } else {
      k := 0;
      forall j: nat ensures Value(t) <= Pow2(j) * Value(t) { MulGrows(Pow2(j), Value(t)); }
    }
  }

  lemma PowDouble(n: nat, x: int)
    ensures Pow2(n) * (2 * x) == 2 * (Pow2(n) * x)
  {
  }

  lemma OfFraction(b: nat)
    requires b / NSEC_PER_SEC <= LONG_MAX
    ensures SameFraction(b, Of(b))
  {
  }

  /**
   * When the remainder is right, by the operands alone: no doubling of the divisor that reaches half
   * of the range may leave the dividend at or above its double (above it, if the signs differ).
   */
  lemma ModWorksExactly(v1: int, v2: int)
    requires v2 != 0 && Abs(v2) / NSEC_PER_SEC <= LONG_MAX
    ensures ModWorks(v1, v2) <==>
              forall k: nat :: HalfRange(Abs(v2), Pow2(k) * Abs(v2)) ==>
                || Abs(v1) < 2 * (Pow2(k) * Abs(v2))
                || ((v1 < 0) != (v2 < 0) && Abs(v1) == 2 * (Pow2(k) * Abs(v2)))
  {
    hide Value, HalfRange, Pow2, Top, Of, SameFraction;
    var a, b := Abs(v1), Abs(v2);
    OfFraction(b);
    var k := TopIsFirst(a, Of(b), b);
    assert Value(Of(b)) == b;
  }

  /** The remainder is right for every dividend of at most LONG_MAX - 2 seconds. */
  lemma ModWorksInRange(v1: int, v2: int)
    requires v2 != 0 && Abs(v2) / NSEC_PER_SEC <= LONG_MAX
    requires Abs(v1) / NSEC_PER_SEC <= LONG_MAX - 2
    ensures ModWorks(v1, v2)
  {
    var a, t := Abs(v1), Top(Abs(v1), Of(Abs(v2)));
    if Value(t) <= a {
      assert t.sec as int >= LONG_MAX / 2;
      assert 2 * Value(t) >= (LONG_MAX - 1) * NSEC_PER_SEC;
      assert a < (LONG_MAX - 1) * NSEC_PER_SEC;
    }
  }

  /** For a dividend of LONG_MAX - 1 seconds there are operands for which it is not. */
  lemma ModFailsAtTheEdge()
    ensures var v1, v2 := (LONG_MAX - 1) * NSEC_PER_SEC + 1, (LONG_MAX / 2) * NSEC_PER_SEC;
            Abs(v2) / NSEC_PER_SEC <= LONG_MAX && !ModWorks(v1, v2)
  {
    var v1, v2 := (LONG_MAX - 1) * NSEC_PER_SEC + 1, (LONG_MAX / 2) * NSEC_PER_SEC;
    assert v2 / NSEC_PER_SEC == LONG_MAX / 2;
    assert Of(Abs(v2)).sec as int == LONG_MAX / 2;
    assert Top(Abs(v1), Of(Abs(v2))) == Of(Abs(v2));
  }

  // ---------------------------------------------------------------------------
  // Aligning a schedule
  // ---------------------------------------------------------------------------

  /** A period given in nanoseconds is shorter than 10^10 seconds; the clock reads that much below the limit. */
  const CLOCK_MAX: int := LONG_MAX - 10_000_000_001

  /** Nanoseconds split the way C divides. */
  function Split(nsec: int): (t: Timespec)
    requires InLong(nsec)
    ensures Normal(t) && Value(t) == nsec
  {
    Timespec(Trunc(nsec, NSEC_PER_SEC) as long, (nsec - Trunc(nsec, NSEC_PER_SEC) * NSEC_PER_SEC) as long)
  }

  /** Same position within a period. */
  ghost predicate Congruent(a: int, b: int, p: int)
    requires p > 0
  {
    exists k: int :: a == b + k * p
  }

  lemma AlignedIs(s: int, n: int, p: int)
    requires p > 0
    ensures var x := s % p + (n - n % p);
            Congruent(x, s, p) && n - p < x < n + p
  {
    var k := n / p - s / p;
    assert s == (s / p) * p + s % p && n == (n / p) * p + n % p;
    assert s % p + (n - n % p) == s + k * p;
  }

  lemma PositiveMod(a: int, p: int)
    requires p > 0
    ensures FloorMod(a, p) == a % p
    ensures a >= 0 ==> 0 <= a % p <= a
  {
    if 0 <= a < p {
      DivUnique(a, p, 0, a);
    }
  }

  /** The part for a start in the past: its position in the period, from the beginning of the current period. */
  method AlignPast(first: Timespec, now: Timespec, period: Timespec) returns (start: Timespec)
    requires 0 <= now.sec as int <= CLOCK_MAX && 0 <= now.nsec < NSEC
    requires Normal(first) && InLong(Value(first)) && Normal(period) && InLong(Value(period)) && Value(period) > 0
    ensures Normal(start)
    ensures Value(start) == Value(first) % Value(period) + (Value(now) - Value(now) % Value(period))
  {
    hide Value, Fits, Seconds, ModWorks, Top, Trunc, FloorMod;
    ghost var s, n, p := Value(first), Value(now), Value(period);
    AlignFits(first, now, period);
    PositiveMod(s, p);
    Positive(now);
    PositiveMod(n, p);
    var phase := Mod(first, period);
    var over := Mod(now, period);
    RemainderFits(phase, over, now, p);
    var aligned := Sub(now, over);
    SumFits(phase, aligned, now, p);
    start := Add(phase, aligned);
  }

  /**
   * Where a periodic schedule starts. A start in the past is moved to a time at the same position
   * in the period that is less than one period away from now; a start to come is left alone.
   */
  method Align(now: Timespec, startNsec: long, periodNsec: long) returns (start: Timespec)
    requires 0 <= now.sec as int <= CLOCK_MAX && 0 <= now.nsec < NSEC
    requires periodNsec > 0
    ensures Normal(start) && Congruent(Value(start), startNsec as int, periodNsec as int)
    ensures startNsec as int >= Value(now) ==> Value(start) == startNsec as int
    ensures startNsec as int < Value(now) ==>
              Value(now) - periodNsec as int < Value(start) < Value(now) + periodNsec as int
  {
    hide Value, Split, Congruent;
    var period := Split(periodNsec as int);
    start := Split(startNsec as int);
    LtIsByValue(start, now);
    CongruentSelf(startNsec as int, periodNsec as int);
    if Lt(start, now) {
      start := AlignPast(start, now, period);
      AlignedIs(startNsec as int, Value(now), periodNsec as int);
    }
  }

  lemma CongruentSelf(a: int, p: int)
    requires p > 0
    ensures Congruent(a, a, p)
  {
    assert a == a + 0 * p;
  }

  lemma AlignFits(start: Timespec, now: Timespec, period: Timespec)
    requires Normal(start) && InLong(Value(start)) && Normal(period) && InLong(Value(period)) && Value(period) > 0
    requires 0 <= now.sec as int <= CLOCK_MAX && 0 <= now.nsec < NSEC
    ensures Fits(start) && Fits(now) && Fits(period)
    ensures Seconds(Value(start)) >= -LONG_MAX && Seconds(Value(now)) >= -LONG_MAX
    ensures Seconds(Value(period)) >= -LONG_MAX
    ensures Abs(Value(period)) / NSEC_PER_SEC <= LONG_MAX
    ensures ModWorks(Value(start), Value(period)) && ModWorks(Value(now), Value(period))
  {
    SecondsOf(start);
    SecondsOf(now);
    SecondsOf(period);
    SmallSeconds(Value(start));
    SmallSeconds(Value(period));
    assert Abs(Value(now)) / NSEC_PER_SEC == now.sec as int;
    ModWorksInRange(Value(start), Value(period));
    ModWorksInRange(Value(now), Value(period));
  }

  lemma SmallSeconds(v: int)
    requires InLong(v)
    ensures Abs(v) / NSEC_PER_SEC <= LONG_MAX - 2
    ensures -LONG_MAX <= Seconds(v) <= LONG_MAX - 2
  {
    assert Abs(v) <= LONG_MAX + 1;
    assert (LONG_MAX + 1) / NSEC_PER_SEC < LONG_MAX - 2;
    DivMonotone(Abs(v), LONG_MAX + 1);
  }

  lemma DivMonotone(x: nat, y: nat)
    requires x <= y
    ensures x / NSEC_PER_SEC <= y / NSEC_PER_SEC
  {
  }

  lemma RemainderFits(start: Timespec, over: Timespec, now: Timespec, p: int)
    requires Normal(start) && Normal(over) && 0 <= Value(start) < p && 0 <= Value(over) < p <= LONG_MAX
    requires Value(over) <= Value(now)
    requires 0 <= now.sec as int <= CLOCK_MAX && 0 <= now.nsec < NSEC
    ensures Fits(start) && Fits(over) && Fits(now)
    ensures InLong(Seconds(Value(now)) - Seconds(Value(over))) && InLong(Seconds(Value(now) - Value(over)))
  {
    SecondsBetween(Value(now), now.sec as int);
    SecondsBetween(Value(over), now.sec as int);
    SecondsBetween(Value(now) - Value(over), now.sec as int);
  }

  lemma SumFits(start: Timespec, aligned: Timespec, now: Timespec, p: int)
    requires Normal(start) && Normal(aligned) && 0 <= Value(start) < p <= LONG_MAX
    requires 0 <= Value(aligned) <= Value(now)
    requires 0 <= now.sec as int <= CLOCK_MAX && 0 <= now.nsec < NSEC
    ensures Fits(start) && Fits(aligned)
    ensures InLong(Seconds(Value(start)) + Seconds(Value(aligned))) && InLong(Seconds(Value(start) + Value(aligned)))
  {
    SmallSeconds(Value(start));
    assert Value(start) < 10_000_000_000 * NSEC_PER_SEC;
    SecondsBetween(Value(start), 9_999_999_999);
    SecondsBetween(Value(aligned), now.sec as int);
    SecondsBetween(Value(start) + Value(aligned), now.sec as int + 10_000_000_000);
  }
}
