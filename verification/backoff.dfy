/** The exponential auth-failure window, computed in wrapping signed 64-bit arithmetic. */
module Backoff {
  const TWO_63: int := 0x8000_0000_0000_0000
  const TWO_64: int := 0x1_0000_0000_0000_0000

  /** Go's int64 and time.Duration. */
  type int64 = x: int | -TWO_63 <= x < TWO_63

  function Pow2(k: nat): (p: int)
    ensures p >= 1
  {
    if k == 0 then 1 else 2 * Pow2(k - 1)
  }

  /** The int64 congruent to x modulo 2^64. */
  function Wrap64(x: int): (r: int64)
    ensures (x - r) % TWO_64 == 0
  {
    var m := x % TWO_64;
    if m < TWO_63 then m else m - TWO_64
  }

  /** Go's `x << k` on int64. */
  function Shl64(x: int64, k: nat): int64 {
    Wrap64(x * Pow2(k))
  }

  function Min(a: int, b: int): int {
    if a <= b then a else b
  }

  /** The window engaged by the failures-th consecutive auth failure, guards included. */
  function Window(base: int64, max: int64, failures: nat): (w: int64)
    requires failures >= 1
    ensures max > 0 ==> 0 < w <= max
  {
    var backoff := Shl64(base, failures - 1);
    if failures > 32 || backoff <= 0 || backoff > max then max else backoff
  }

  /** The window the documentation promises: base, 2*base, 4*base, ... capped at max. */
  function DocumentedWindow(base: int64, max: int64, failures: nat): int
    requires failures >= 1
  {
    Min(base * Pow2(failures - 1), max)
  }

  /**
    What base and max must satisfy for the promise to be kept: the cap is reached by the 33rd failure, and no
    left shift by 1..31 that pushes a set bit of base out of 64 bits leaves a non-zero remainder below the cap.
  */
  predicate ShortWrapFree(base: int64, max: int64)
    requires base > 0
  {
    && max <= base * Pow2(32)
    && forall k :: 1 <= k <= 31 ==> SurvivesShift(base, max, k)
  }

  /** Shifting left by k loses no set bit, or everything, or leaves a remainder that is not below the cap. */
  predicate SurvivesShift(base: int64, max: int64, k: nat)
    requires k <= 64
  {
    || base < Pow2(64 - k)
    || base % Pow2(64 - k) == 0
    || base % Pow2(64 - k) * Pow2(k) >= max
  }

  lemma {:induction false} Pow2Sum(a: nat, b: nat)
    ensures Pow2(a + b) == Pow2(a) * Pow2(b)
    decreases b
  {
    if b > 0 {
      Pow2Sum(a, b - 1);
      assert Pow2(a + b) == 2 * Pow2(a + b - 1);
    } else {
      assert Pow2(0) == 1;
    }
  }

  lemma {:induction false} Pow2Monotone(a: nat, b: nat)
    requires a <= b
    ensures Pow2(a) <= Pow2(b)
    decreases b
  {
    if a < b {
      Pow2Monotone(a, b - 1);
    }
  }

  lemma Pow2Values()
    ensures Pow2(32) == 0x1_0000_0000 && Pow2(33) == 0x2_0000_0000 && Pow2(64) == TWO_64
  {
    Pow2Of16();
    Pow2Sum(16, 16);
    Pow2Sum(32, 32);
    assert Pow2(33) == 2 * Pow2(32);
  }

  lemma Pow2Of16()
    ensures Pow2(16) == 0x1_0000
  {
    Pow2Of8();
    Pow2Sum(8, 8);
  }

  lemma Pow2Of8()
    ensures Pow2(8) == 256
  {
    assert Pow2(4) == 16;
    Pow2Sum(4, 4);
  }

  // The few non-linear facts the proofs below rest on, each on its own so that the solver never mixes them.
  lemma MulLe(a: int, b: int, c: int)
    requires a <= b && 0 <= c
    ensures a * c <= b * c
  {
  }

  lemma MulLt(a: int, b: int, c: int)
    requires a < b && 0 < c
    ensures a * c < b * c
  {
  }

  lemma MulAssoc(a: int, b: int, c: int)
    ensures a * (b * c) == (a * b) * c
  {
  }

  lemma MulDistributes(a: int, b: int, c: int)
    ensures (a + b) * c == a * c + b * c && (a - b) * c == a * c - b * c
  {
  }

  /** x == q * m + r with 0 <= r < m fixes the remainder. */
  lemma RemainderUnique(x: int, q: int, r: int, m: int)
    requires m > 0 && 0 <= r < m && x == q * m + r
    ensures x % m == r
  {
    var d := x / m - q;
    MulDistributes(x / m, q, m);
    assert d * m == r - x % m;
    if d >= 1 {
      MulLe(1, d, m);
    } else if d <= -1 {
      MulLe(d, -1, m);
    }
  }

  /** The bits of base that survive a shift by k are its low 64 - k bits. */
  lemma ShiftedRemainder(base: int, k: nat)
    requires 0 <= base && k <= 64
    ensures base * Pow2(k) % TWO_64 == base % Pow2(64 - k) * Pow2(k)
  {
    PowersOf64(k);
    SplitProduct(base, Pow2(64 - k), Pow2(k));
  }

  lemma PowersOf64(k: nat)
    requires k <= 64
    ensures Pow2(64 - k) * Pow2(k) == TWO_64
  {
    Pow2Values();
    Pow2Sum(64 - k, k);
  }

  lemma SplitProduct(base: int, m: int, p: int)
    requires 0 <= base && m > 0 && p > 0
    ensures m * p > 0 && base * p % (m * p) == base % m * p
  {
    var q, r := base / m, base % m;
    MulDistributes(q * m, r, p);
    MulAssoc(q, m, p);
    MulLt(r, m, p);
    MulLe(0, r, p);
    MulLt(0, m, p);
    RemainderUnique(base * p, q, r * p, m * p);
  }

  /** For one failure count the promise breaks exactly when the surviving bits look like a short window. */
  lemma WindowExactAt(base: int64, max: int64, failures: nat)
    requires base > 0 && max > 0 && 1 <= failures <= 32
    ensures Window(base, max, failures) == DocumentedWindow(base, max, failures)
       <==> SurvivesShift(base, max, failures - 1)
  {
    var k := failures - 1;
    var m, p := Pow2(64 - k), Pow2(k);
    PowersOf64(k);
    ShiftedRemainder(base, k);
    var v, r := base * p, base % m * p;
    if base < m {
      MulLt(base, m, p);
      MulLt(0, base, p);
      SmallRemainder(v, TWO_64);
    } else {
      MulLe(m, base, p);
      MulLe(0, base % m, p);
      if base % m > 0 {
        MulLt(0, base % m, p);
      }
    }
    WindowOfProduct(base, max, failures, v, r);
  }

  lemma SmallRemainder(v: int, m: int)
    requires 0 <= v < m
    ensures v % m == v
  {
  }

  /** The guards of the code, seen from the true product v and what is left of it, r. */
  lemma WindowOfProduct(base: int64, max: int64, failures: nat, v: int, r: int)
    requires max > 0 && 1 <= failures <= 32
    requires v == base * Pow2(failures - 1) && r == v % TWO_64
    requires v > 0
    ensures Window(base, max, failures) == (if 0 < r <= max then r else max)
    ensures DocumentedWindow(base, max, failures) == (if v <= max then v else max)
  {
  }

  /**
    The code keeps its documented promise for every failure count if and only if base and max pass a check that
    looks only at the bits of base.
  */
  lemma WindowExactIff(base: int64, max: int64)
    requires base > 0 && max > 0
    ensures (forall n: nat :: n >= 1 ==> Window(base, max, n) == DocumentedWindow(base, max, n))
       <==> ShortWrapFree(base, max)
  {
    if ShortWrapFree(base, max) {
      forall n: nat | n >= 1
        ensures Window(base, max, n) == DocumentedWindow(base, max, n)
      {
        ExactWhenShortWrapFree(base, max, n);
      }
    }
    if forall n: nat :: n >= 1 ==> Window(base, max, n) == DocumentedWindow(base, max, n) {
      ExactNeedsShortWrapFree(base, max);
    }
  }

  lemma ExactNeedsShortWrapFree(base: int64, max: int64)
    requires base > 0 && max > 0
    requires forall n: nat :: n >= 1 ==> Window(base, max, n) == DocumentedWindow(base, max, n)
    ensures ShortWrapFree(base, max)
  {
    assert Window(base, max, 33) == DocumentedWindow(base, max, 33);
    forall k | 1 <= k <= 31
      ensures SurvivesShift(base, max, k)
    {
      assert Window(base, max, k + 1) == DocumentedWindow(base, max, k + 1);
      WindowExactAt(base, max, k + 1);
    }
  }

  lemma ExactWhenShortWrapFree(base: int64, max: int64, n: nat)
    requires base > 0 && max > 0 && n >= 1 && ShortWrapFree(base, max)
    ensures Window(base, max, n) == DocumentedWindow(base, max, n)
  {
    if n > 32 {
      CapReached(base, max, n);
    } else if n > 1 {
      assert SurvivesShift(base, max, n - 1);
      WindowExactAt(base, max, n);
    } else {
      FirstWindowExact(base, max);
    }
  }

  lemma CapReached(base: int64, max: int64, n: nat)
    requires base > 0 && n > 32 && max <= base * Pow2(32)
    ensures DocumentedWindow(base, max, n) == max
  {
    Pow2Monotone(32, n - 1);
    CappedByFactor(base, max, Pow2(32), Pow2(n - 1));
  }

  lemma CappedByFactor(base: int, max: int, p: int, q: int)
    requires base > 0 && p <= q && max <= base * p
    ensures Min(base * q, max) == max
  {
    MulLe(p, q, base);
  }

  lemma FirstWindowExact(base: int64, max: int64)
    requires base > 0 && max > 0
    ensures Window(base, max, 1) == DocumentedWindow(base, max, 1)
  {
    assert Pow2(0) == 1;
  }

  /** Below 2^33 ns (about 8.6 s) no bit of base can be shifted out before the counter guard applies. */
  lemma SmallBaseIsExact(base: int64, max: int64)
    requires 0 < base < 0x2_0000_0000
    requires 0 < max <= base * 0x1_0000_0000
    ensures ShortWrapFree(base, max)
  {
    Pow2Values();
    forall k | 1 <= k <= 31
      ensures SurvivesShift(base, max, k)
    {
      Pow2Monotone(33, 64 - k);
    }
  }

  /** A base divisible by 2^t is safe for every cap up to 2^(64+t) / base. */
  lemma DivisibleBaseIsExact(base: int64, max: int64, t: nat)
    requires base > 0 && 0 < max <= base * Pow2(32)
    requires base % Pow2(t) == 0
    requires base * max <= TWO_64 * Pow2(t)
    ensures ShortWrapFree(base, max)
  {
    forall k | 1 <= k <= 31
      ensures SurvivesShift(base, max, k)
    {
      if base >= Pow2(64 - k) && base % Pow2(64 - k) != 0 {
        SurvivorIsLong(base, max, t, k);
      }
    }
  }

  lemma SurvivorIsLong(base: int64, max: int64, t: nat, k: nat)
    requires base > 0 && max > 0 && k <= 64
    requires base % Pow2(t) == 0 && base * max <= TWO_64 * Pow2(t)
    requires base >= Pow2(64 - k) && base % Pow2(64 - k) != 0
    ensures base % Pow2(64 - k) * Pow2(k) >= max
  {
    DivisibleRemainder(base, t, 64 - k);
    MulLe(Pow2(t), base % Pow2(64 - k), Pow2(k));
    PowersOf64(k);
    CancelFactor(base, max, Pow2(t), Pow2(k), Pow2(64 - k));
  }

  lemma CancelFactor(base: int, max: int, a: int, p: int, m: int)
    requires base >= m > 0 && a > 0 && p > 0
    requires base * max <= (m * p) * a
    ensures a * p >= max
  {
  }

  /** A multiple of 2^t that is not a multiple of 2^j leaves at least 2^t when divided by 2^j. */
  lemma DivisibleRemainder(base: int, t: nat, j: nat)
    requires base > 0 && base % Pow2(t) == 0 && base % Pow2(j) != 0
    ensures base % Pow2(j) >= Pow2(t)
  {
    if t >= j {
      Pow2Sum(t - j, j);
      MultipleOfMultiple(base, Pow2(j), Pow2(t - j), Pow2(t));
    } else {
      Pow2Sum(j - t, t);
      RemainderIsMultiple(base, Pow2(t), Pow2(j - t), Pow2(j));
    }
  }

  lemma MultipleOfMultiple(x: int, b: int, c: int, a: int)
    requires a == c * b && a > 0 && b > 0 && x % a == 0
    ensures x % b == 0
  {
    var q := x / a;
    assert x == q * (c * b);
    MulAssoc(q, c, b);
    RemainderUnique(x, q * c, 0, b);
  }

  lemma RemainderIsMultiple(x: int, a: int, c: int, b: int)
    requires b == c * a && a > 0 && b > 0 && x % a == 0 && x % b != 0
    ensures x % b >= a
  {
    var q, s := x / a, x / b;
    var d := q - s * c;
    assert x % b == d * a by {
      assert x == q * a && x == s * b + x % b;
      MulAssoc(s, c, a);
      MulDistributes(q, s * c, a);
    }
    if d <= 0 {
      MulLe(d, 0, a);
    } else {
      MulLe(1, d, a);
    }
  }

  /** The shipped pair: 5 minutes doubling up to 1 hour. */
  const DEFAULT_BASE: int64 := 300_000_000_000
  const DEFAULT_MAX: int64 := 3_600_000_000_000

  /** Checked shift by shift: base has 39 bits, so only the shifts 26..31 lose any. */
  lemma ShippedPairIsExact()
    ensures DEFAULT_BASE == 5 * 60 * 1_000_000_000 && DEFAULT_MAX == 60 * 60 * 1_000_000_000
    ensures ShortWrapFree(DEFAULT_BASE, DEFAULT_MAX)
  {
    Pow2Values();
    forall k | 1 <= k <= 31
      ensures SurvivesShift(DEFAULT_BASE, DEFAULT_MAX, k)
    {
      if k <= 25 {
        ShippedHighPowers();
        Pow2Monotone(39, 64 - k);
      } else {
        ShippedHighPowers();
        Pow2Monotone(26, k);
        ShippedSurvivors(64 - k);
        MulLe(0x10_0000, DEFAULT_BASE % Pow2(64 - k), Pow2(k));
      }
    }
  }

  lemma ShippedHighPowers()
    ensures Pow2(26) == 0x400_0000 && Pow2(39) == 0x80_0000_0000
  {
    Pow2Values();
    assert Pow2(6) == 0x40;
    assert Pow2(13) == 0x2000;
    Pow2Sum(13, 13);
    Pow2Sum(33, 6);
  }

  /** What the shifts 26..31 leave of 5 minutes. */
  lemma ShippedSurvivors(j: nat)
    requires 33 <= j <= 38
    ensures DEFAULT_BASE % Pow2(j) >= 0x10_0000
  {
    Pow2Sum(33, j - 33);
    Pow2Values();
    SmallPowers(j - 33);
    ShippedResidues(Pow2(j - 33));
  }

  lemma {:induction false} SmallPowers(k: nat)
    requires k <= 5
    ensures Pow2(k) in {1, 2, 4, 8, 16, 32}
  {
  }

  lemma ShippedResidues(p: int)
    requires p in {1, 2, 4, 8, 16, 32}
    ensures DEFAULT_BASE % (0x2_0000_0000 * p) >= 0x10_0000
  {
  }

  /** One nanosecond past 2^33 the promise fails: the 32nd failure waits about 2 s instead of an hour. */
  lemma ShortWrapWitness()
    ensures Window(0x2_0000_0001, DEFAULT_MAX, 32) == 0x8000_0000
    ensures DocumentedWindow(0x2_0000_0001, DEFAULT_MAX, 32) == DEFAULT_MAX
    ensures !ShortWrapFree(0x2_0000_0001, DEFAULT_MAX)
  {
    Pow2Values();
    assert Pow2(32) == 2 * Pow2(31);
    WindowExactIff(0x2_0000_0001, DEFAULT_MAX);
  }

  /** The time n consecutive windows take together. */
  function WindowSum(base: int64, max: int64, n: nat): int {
    if n == 0 then 0 else WindowSum(base, max, n - 1) + Window(base, max, n)
  }

  /** How many of the first n windows are below the cap or exactly at it by doubling alone. */
  function Uncapped(base: int64, max: int64, n: nat): (m: nat)
    ensures m <= n
  {
    if n == 0 then 0
    else Uncapped(base, max, n - 1) + (if base * Pow2(n - 1) <= max then 1 else 0)
  }

  /** Doubling stops once and for all: the uncapped windows are the first ones. */
  lemma {:induction false} UncappedIsPrefix(base: int64, max: int64, n: nat)
    requires base > 0
    ensures base * Pow2(n) <= max ==> Uncapped(base, max, n) == n
  {
    if n > 0 {
      UncappedIsPrefix(base, max, n - 1);
      assert base * Pow2(n) == 2 * (base * Pow2(n - 1));
    }
  }

  /** Closed form of the total wait: a doubling phase, then the cap for every further failure. */
  function ClosedForm(base: int64, max: int64, n: nat, m: nat): int {
    base * (Pow2(m) - 1) + (n - m) * max
  }

  lemma {:induction false} WindowSumClosedForm(base: int64, max: int64, n: nat)
    requires base > 0 && max > 0 && ShortWrapFree(base, max)
    ensures WindowSum(base, max, n) == ClosedForm(base, max, n, Uncapped(base, max, n))
  {
    if n == 0 {
      assert Pow2(0) == 1;
    } else {
      WindowSumClosedForm(base, max, n - 1);
      ExactWhenShortWrapFree(base, max, n);
      UncappedIsPrefix(base, max, n - 1);
      ClosedFormStep(base, max, n, Uncapped(base, max, n - 1));
    }
  }

  /** One more window, still doubling or already at the cap. */
  lemma ClosedFormStep(base: int64, max: int64, n: nat, m: nat)
    requires n >= 1
    ensures m == n - 1 ==> ClosedForm(base, max, n, n) == ClosedForm(base, max, n - 1, m) + base * Pow2(n - 1)
    ensures ClosedForm(base, max, n, m) == ClosedForm(base, max, n - 1, m) + max
  {
  }
}
