/** The sub-tick clock: pairs of (microseconds, counter) that lie exactly on one rational clock, and
    the fixed-point reciprocal readers interpolate with. */
module FineClock {
  import opened Division

  const MILLION: nat := 1000000

  // ----- the period

  ghost predicate Divides(d: int, x: int) {
    exists k: int :: x == k * d
  }

  /** `usec` microseconds span a whole number of counter ticks. */
  predicate Whole(hz: nat, usec: nat) {
    usec * hz % MILLION == 0
  }

  lemma DividesIntro(d: int, x: int, k: int)
    requires x == k * d
    ensures Divides(d, x)
  {
  }

  lemma DividesSum(d: int, x: int, y: int, m: int)
    requires Divides(d, x) && Divides(d, y)
    ensures Divides(d, m * x + y)
  {
    var i :| x == i * d;
    var j :| y == j * d;
    assert m * x + y == m * (i * d) + j * d;
    assert m * (i * d) == (m * i) * d;
    DividesIntro(d, m * x + y, m * i + j);
  }

  /** Euclid, with the coefficients that witness the result as a combination. */
  method Gcd(hz: nat) returns (g: nat, ghost s: int, ghost t: int)
    requires hz > 0
    ensures 0 < g <= MILLION && Divides(g, hz) && Divides(g, MILLION) && g == s * hz + t * MILLION
  {
    var a: nat, b: nat := hz, MILLION;
    s, t := 1, 0;
    ghost var u: int, v: int := 0, 1;
    while b != 0
      invariant b <= MILLION && (a > 0 || b > 0) && (b == 0 ==> 0 < a <= MILLION)
      invariant a == s * hz + t * MILLION && b == u * hz + v * MILLION
      invariant forall d: int :: Divides(d, a) && Divides(d, b) ==> Divides(d, hz) && Divides(d, MILLION)
      decreases b
    {
      var r := a % b;
      ghost var q := a / b;
      Remainder(hz, a, b, q, r, s, t, u, v);
      a, b, s, t, u, v := b, r, u, v, s - q * u, t - q * v;
    }
    g := a;
    DividesIntro(g, g, 1);
    DividesIntro(g, 0, 0);
  }

  lemma Remainder(hz: int, a: int, b: int, q: int, r: int, s: int, t: int, u: int, v: int)
    requires a == q * b + r && a == s * hz + t * MILLION && b == u * hz + v * MILLION
    ensures r == (s - q * u) * hz + (t - q * v) * MILLION
    ensures forall d: int :: Divides(d, b) && Divides(d, r) ==> Divides(d, a) && Divides(d, b)
  {
    calc {
      (s - q * u) * hz + (t - q * v) * MILLION;
      s * hz + t * MILLION - (q * u * hz + q * v * MILLION);
      a - q * (u * hz + v * MILLION);
    }
    forall d: int | Divides(d, b) && Divides(d, r) ensures Divides(d, a) {
      DividesSum(d, b, r, q);
    }
  }

  lemma PeriodIsWhole(hz: nat, g: nat, p: nat, m: nat)
    requires MILLION == p * g && hz == m * g
    ensures Whole(hz, p)
  {
    assert p * hz == m * MILLION by {
      assert p * (m * g) == m * (p * g);
    }
    MultipleMod(m, MILLION);
  }

  /** Any whole number of microseconds is a multiple of the period. */
  lemma PeriodDivides(hz: nat, g: nat, p: nat, s: int, t: int, q: nat)
    requires g > 0 && p > 0 && MILLION == p * g && g == s * hz + t * MILLION && q > 0 && Whole(hz, q)
    ensures q >= p
  {
    var c := q * hz / MILLION;
    assert q * hz == c * MILLION;
    var x := s * c + q * t;
    calc {
      q * g;
      q * (s * hz + t * MILLION);
      s * (q * hz) + q * t * MILLION;
      s * (c * MILLION) + q * t * MILLION;
      { assert s * (c * MILLION) == (s * c) * MILLION; }
      x * MILLION;
      x * (p * g);
      { assert x * (p * g) == (x * p) * g; }
      (x * p) * g;
    }
    Cancel(q, x * p, g);
    NotPositive(x, p);
    if x >= 1 {
      AtLeastOnce(x, p);
    }
  }

  lemma NotPositive(x: int, p: nat)
    ensures x < 1 ==> x * p <= 0
  {
  }

  lemma Cancel(x: int, y: int, g: nat)
    requires g > 0 && x * g == y * g
    ensures x == y
  {
    if x > y {
      AtLeastOnce(x - y, g);
    } else if y > x {
      AtLeastOnce(y - x, g);
    }
  }

  ghost predicate LeastWhole(hz: nat, p: nat) {
    p > 0 && Whole(hz, p) && forall q: nat :: 0 < q < p ==> !Whole(hz, q)
  }

  /** `fine_clock_period_usec`: the least whole span when it is at most 10 microseconds, else 0. */
  method PeriodUsec(hz: nat) returns (p: nat)
    ensures p > 0 ==> hz > 0 && p <= 10 && LeastWhole(hz, p)
    ensures p == 0 && hz > 0 ==> forall q: nat :: 0 < q <= 10 ==> !Whole(hz, q)
  {
    if hz == 0 {
      return 0;
    }
    var g, s, t := Gcd(hz);
    ghost var k: int :| MILLION == k * g;
    ghost var m: int :| hz == m * g;
    Quotients(hz, g, k, m);
    p := MILLION / g;
    PeriodIsWhole(hz, g, p, m);
    forall q: nat | 0 < q && Whole(hz, q) ensures q >= p {
      PeriodDivides(hz, g, p, s, t, q);
    }
    if p > 10 {
      p := 0;
    }
  }

  lemma Quotients(hz: nat, g: nat, k: int, m: int)
    requires hz > 0 && g > 0 && MILLION == k * g && hz == m * g
    ensures k > 0 && m > 0 && MILLION / g == k
  {
    NotPositive(k, g);
    NotPositive(m, g);
    DivModUnique(MILLION, g, k, 0);
  }

  // ----- anchoring

  function Rounded(usec: nat, period: nat): nat
    requires period > 0
  {
    usec - usec % period
  }

  function AlignedCounter(hz: nat, rounded: nat): nat {
    rounded / MILLION * hz + rounded % MILLION * hz / MILLION
  }

  /** The pair lies on the clock that ticks `hz` times a second from zero. */
  predicate OnClock(hz: nat, usec: nat, counter: nat) {
    counter * MILLION == usec * hz
  }

  lemma RoundedIsWhole(hz: nat, usec: nat, period: nat)
    requires period > 0 && Whole(hz, period)
    ensures Whole(hz, Rounded(usec, period))
  {
    var k := usec / period;
    var r := Rounded(usec, period);
    assert r == k * period;
    var c := period * hz / MILLION;
    assert period * hz == c * MILLION;
    assert r * hz == (k * c) * MILLION by {
      assert (k * period) * hz == k * (period * hz);
      assert k * (c * MILLION) == (k * c) * MILLION;
    }
    MultipleMod(k * c, MILLION);
  }

  lemma AlignedIsExact(hz: nat, r: nat)
    requires Whole(hz, r)
    ensures OnClock(hz, r, AlignedCounter(hz, r))
  {
    var a, b := r / MILLION, r % MILLION;
    var c := r * hz / MILLION;
    assert r * hz == c * MILLION;
    assert r == a * MILLION + b;
    assert r * hz == (a * hz) * MILLION + b * hz by {
      assert (a * MILLION + b) * hz == a * MILLION * hz + b * hz;
      assert a * MILLION * hz == (a * hz) * MILLION;
    }
    assert b * hz == (c - a * hz) * MILLION;
    assert b * hz >= 0;
    MultipleMod(c - a * hz, MILLION);
  }

  /** The sampled counter is at most one period and 64 ticks past the rounded microseconds. */
  predicate Agrees(hz: nat, period: nat, usec: nat, counter: nat)
    requires period > 0
  {
    var aligned := AlignedCounter(hz, Rounded(usec, period));
    aligned <= counter < aligned + hz * period / MILLION + 64
  }

  /** `fine_clock_anchor`: a sample that agrees is moved back onto the exact clock, by less than one
      period; any other stands as it is. */
  method Anchor(hz: nat, period: nat, usec: nat, counter: nat) returns (u: nat, c: nat)
    requires period == 0 || Whole(hz, period)
    ensures if period > 0 && Agrees(hz, period, usec, counter)
            then OnClock(hz, u, c) && u <= usec < u + period && c <= counter
            else (u, c) == (usec, counter)
  {
    u, c := usec, counter;
    if period == 0 {
      return;
    }
    var rounded := Rounded(usec, period);
    var aligned := AlignedCounter(hz, rounded);
    var slack := hz * period / MILLION + 64;
    RoundedIsWhole(hz, usec, period);
    AlignedIsExact(hz, rounded);
    if counter >= aligned && counter - aligned < slack {
      u, c := rounded, aligned;
    }
  }

  /** The time a publication (u, c) assigns to counter value x, in microseconds. */
  function TimeAt(hz: nat, u: nat, c: nat, x: nat): real
    requires hz > 0
  {
    u as real + (x as real - c as real) * 1000000.0 / hz as real
  }

  /** All anchored publications are one clock: replacing one by another never steps it. */
  lemma RepublishingNeverSteps(hz: nat, u1: nat, c1: nat, u2: nat, c2: nat, x: nat)
    requires hz > 0 && OnClock(hz, u1, c1) && OnClock(hz, u2, c2)
    ensures TimeAt(hz, u1, c1, x) == TimeAt(hz, u2, c2, x)
  {
    OnClockTime(hz, u1, c1, x);
    OnClockTime(hz, u2, c2, x);
  }

  lemma OnClockTime(hz: nat, u: nat, c: nat, x: nat)
    requires hz > 0 && OnClock(hz, u, c)
    ensures TimeAt(hz, u, c, x) == x as real * 1000000.0 / hz as real
  {
    var h := hz as real;
    assert c as real * 1000000.0 == u as real * h by {
      assert (c * MILLION) as real == c as real * 1000000.0;
      assert (u * hz) as real == u as real * h;
    }
    assert u as real == c as real * 1000000.0 / h;
    assert (x as real - c as real) * 1000000.0 / h == x as real * 1000000.0 / h - c as real * 1000000.0 / h;
  }

  // ----- the reciprocal

  const Q32: nat := 0x1_0000_0000
  const BILLION: nat := 1000000000

  /** Nanoseconds per tick in 32.32 fixed point, truncated. */
  function NsecQ32(hz: nat): nat {
    if hz == 0 then 0 else Q32 * BILLION / hz
  }

  /** What a reader adds for `delta` ticks: the high part of the product. */
  function Interpolated(hz: nat, delta: nat): nat {
    delta * NsecQ32(hz) / Q32
  }

  /** Interpolation never runs ahead of the exact clock, and lags it by less than 1 + delta/2^32 ns
      (both sides times hz and 2^32, to stay in integers). */
  lemma InterpolationLags(hz: nat, delta: nat)
    requires hz > 0
    ensures Interpolated(hz, delta) * hz <= delta * BILLION
    ensures delta * BILLION * Q32 < Interpolated(hz, delta) * hz * Q32 + hz * (Q32 + delta)
  {
    var q := NsecQ32(hz);
    var n := Interpolated(hz, delta);
    var lost := Q32 * BILLION - q * hz;
    assert Q32 * BILLION == q * hz + Q32 * BILLION % hz;
    var cut := delta * q - n * Q32;
    assert delta * q == n * Q32 + delta * q % Q32;
    assert 0 <= lost < hz && 0 <= cut < Q32;
    calc {
      delta * BILLION * Q32;
      delta * (q * hz + lost);
      delta * q * hz + delta * lost;
      (n * Q32 + cut) * hz + delta * lost;
      n * hz * Q32 + cut * hz + delta * lost;
    }
    assert cut * hz < Q32 * hz by { MulLess(cut, Q32, hz); }
    assert 0 <= cut * hz && 0 <= delta * lost <= delta * hz by {
      MulLess2(lost, hz, delta);
      MulNonNeg(cut, hz);
      MulNonNeg(delta, lost);
    }
    Scale(n * hz, delta * BILLION);
  }

  lemma MulLess(x: nat, y: nat, h: nat)
    requires x < y && h > 0
    ensures x * h < y * h
  {
  }

  lemma MulLess2(x: nat, y: nat, d: nat)
    requires x <= y
    ensures d * x <= d * y
  {
  }

  lemma MulNonNeg(x: nat, y: nat)
    ensures 0 <= x * y
  {
  }

  lemma Scale(x: int, y: int)
    requires x * Q32 <= y * Q32
    ensures x <= y
  {
  }

  /** What a reader computes, in nanoseconds, at counter value `x` from the published pair (u, c). */
  function Reading(hz: nat, u: nat, c: nat, x: nat): nat
    requires c <= x
  {
    1000 * u + Interpolated(hz, x - c)
  }

  /** Truncation included, replacing an anchored pair by a later one never sets a reader back. */
  lemma ReadingsNeverGoBack(hz: nat, u1: nat, c1: nat, u2: nat, c2: nat, x: nat)
    requires hz > 0 && OnClock(hz, u1, c1) && OnClock(hz, u2, c2) && c1 <= c2 <= x
    ensures Reading(hz, u1, c1, x) <= Reading(hz, u2, c2, x)
  {
    var q, e := NsecQ32(hz), c2 - c1;
    var n := 1000 * (u2 - u1);
    assert n * hz == e * BILLION by {
      assert (u2 - u1) * hz == e * MILLION;
    }
    TicksWithin(hz, q, e, n);
    assert (x - c1) * q == (x - c2) * q + e * q;
    FloorPlus((x - c2) * q, n, (x - c1) * q);
  }

  lemma TicksWithin(hz: nat, q: nat, e: nat, n: int)
    requires hz > 0 && q == NsecQ32(hz) && n * hz == e * BILLION
    ensures e * q <= n * Q32
  {
    assert q * hz <= Q32 * BILLION;
    MulLess2(q * hz, Q32 * BILLION, e);
    assert e * (q * hz) == (e * q) * hz;
    assert e * (Q32 * BILLION) == (n * Q32) * hz;
    if e * q > n * Q32 {
      MulStrict(n * Q32, e * q, hz);
    }
  }

  lemma MulStrict(x: int, y: int, h: nat)
    requires x < y && h > 0
    ensures x * h < y * h
  {
  }

  lemma FloorPlus(a: nat, n: int, b: nat)
    requires b <= a + n * Q32
    ensures b / Q32 <= a / Q32 + n
  {
  }

  /** Later on the clock in microseconds is later in ticks. */
  lemma LaterInTicks(hz: nat, u1: nat, c1: nat, u2: nat, c2: nat)
    requires OnClock(hz, u1, c1) && OnClock(hz, u2, c2) && u1 <= u2
    ensures c1 <= c2
  {
    MulLess2(u1, u2, hz);
  }

  /** The published page and the values cached per frequency. */
  class Publisher {
    var hz: nat
    var period: nat
    var nsecQ32: nat
    var kernelUsec: nat
    var baseCounter: nat
    var sequence: nat

    /** The cached values are those of the cached frequency, and no update is under way. */
    ghost predicate Valid()
      reads this
    {
      && nsecQ32 == NsecQ32(hz) && sequence % 2 == 0
      && (period > 0 ==> hz > 0 && period <= 10 && LeastWhole(hz, period))
      && (period == 0 && hz > 0 ==> forall q: nat :: 0 < q <= 10 ==> !Whole(hz, q))
    }

    /** The published pair lies on the clock of the published frequency. */
    ghost predicate Anchored()
      reads this
    {
      hz > 0 && OnClock(hz, kernelUsec, baseCounter)
    }

    constructor ()
      ensures Valid() && hz == 0
    {
      hz, period, nsecQ32, kernelUsec, baseCounter, sequence := 0, 0, 0, 0, 0, 0;
    }

    /** `renew_vsyscall_info`, from the sampled pair to the published one. */
    method Renew(usec: nat, counter: nat, fineHz: nat)
      requires Valid()
      modifies this
      ensures Valid() && hz == fineHz && sequence == old(sequence) + 2
      ensures if period > 0 && Agrees(hz, period, usec, counter)
              then OnClock(hz, kernelUsec, baseCounter) && kernelUsec <= usec < kernelUsec + period
                  && baseCounter <= counter
              else (kernelUsec, baseCounter) == (usec, counter)
      ensures old(Anchored()) && Anchored() && fineHz == old(hz) && old(kernelUsec) <= kernelUsec ==>
                && old(baseCounter) <= baseCounter
                && forall x: nat :: baseCounter <= x ==>
                     Reading(hz, old(kernelUsec), old(baseCounter), x) <= Reading(hz, kernelUsec, baseCounter, x)
    {
      ghost var u1, c1, anchored := kernelUsec, baseCounter, Anchored() && fineHz == hz;
      if fineHz != hz {
        hz := fineHz;
        nsecQ32 := if fineHz != 0 then Q32 * BILLION / fineHz else 0;
        period := PeriodUsec(fineHz);
      }
      kernelUsec, baseCounter := Anchor(hz, period, usec, counter);
      sequence := sequence + 2;
      if anchored && Anchored() && u1 <= kernelUsec {
        LaterInTicks(hz, u1, c1, kernelUsec, baseCounter);
        forall x: nat | baseCounter <= x
          ensures Reading(hz, u1, c1, x) <= Reading(hz, kernelUsec, baseCounter, x)
        {
          ReadingsNeverGoBack(hz, u1, c1, kernelUsec, baseCounter, x);
        }
      }
    }
  }
}
