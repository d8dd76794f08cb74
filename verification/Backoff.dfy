/** The exponential backoff between retries, on wrapping 64-bit durations. */
module Backoff {
  import opened Model

  const MILLISECOND: int := 1_000_000
  const SECOND: int := 1_000_000_000
  const MAX_BACKOFF: int := 5 * SECOND

  /** Two's-complement wrap-around to 64 bits; it commutes with sums and products. */
  function Wrap(x: int): (r: int)
    ensures -INT64_LIMIT <= r < INT64_LIMIT
    ensures -INT64_LIMIT <= x < INT64_LIMIT ==> r == x
  {
    (x + INT64_LIMIT) % UINT64_LIMIT - INT64_LIMIT
  }

  function Pow2(k: nat): (p: int)
    ensures p >= 1
  {
    if k == 0 then 1 else 2 * Pow2(k - 1)
  }

  /** `base << k` on a signed 64-bit integer. */
  function ShiftLeft(base: int, k: nat): int {
    if k >= 64 then 0 else Wrap(base * Pow2(k))
  }

  /** The delay before jitter, as the code computes it. */
  function CappedDelay(base: int, k: nat): (d: int)
    ensures 1 <= d <= MAX_BACKOFF
  {
    var d := ShiftLeft(base, k);
    if d <= 0 || d > MAX_BACKOFF then MAX_BACKOFF else d
  }

  /** The delay the backoff is meant to have: min(base * 2^k, 5s). */
  function SaturatingDelay(base: int, k: nat): int {
    var d := base * Pow2(k);
    if d > MAX_BACKOFF then MAX_BACKOFF else d
  }

  /** `backoffDelay`; `draw` stands for the random source, `rand.Int63n(n)` being any
      value below `n`. */
  method BackoffDelay(base: int, attempt: int, draw: nat) returns (delay: int)
    requires attempt >= 1
    ensures var d := CappedDelay(base, attempt - 1);
            delay == d / 2 + draw % (d / 2 + 1) && 0 <= d / 2 <= delay <= d <= MAX_BACKOFF
  {
    var d := ShiftLeft(base, attempt - 1);
    if d <= 0 || d > MAX_BACKOFF {
      d := MAX_BACKOFF;
    }
    var jitter := draw % (d / 2 + 1);
    delay := d / 2 + jitter;
  }

  // ----------------------------------------------------------- powers of two

  lemma {:induction false} Pow2Sum(a: nat, b: nat)
    ensures Pow2(a + b) == Pow2(a) * Pow2(b)
  {
    if a > 0 {
      Pow2Sum(a - 1, b);
      assert Pow2(a + b) == 2 * Pow2(a - 1 + b);
    }
  }

  lemma {:induction false} Pow2Grows(a: nat, b: nat)
    requires a <= b
    ensures Pow2(a) <= Pow2(b)
  {
    if a < b {
      Pow2Grows(a, b - 1);
    }
  }

  lemma Pow2Values()
    ensures Pow2(6) == 64 && Pow2(32) == 0x1_0000_0000 && Pow2(33) == 0x2_0000_0000
    ensures Pow2(63) == INT64_LIMIT && Pow2(64) == UINT64_LIMIT
  {
    assert Pow2(8) == 256 && Pow2(6) == 64;
    hide Pow2;
    Pow2Sum(8, 8);
    Pow2Sum(16, 16);
    Pow2Sum(32, 32);
    Pow2Next(32);
    Pow2Next(63);
  }

  lemma Pow2Next(k: nat)
    ensures Pow2(k + 1) == 2 * Pow2(k)
  {
  }

  // ------------------------------------------------ when the shift saturates

  /** The bits of `base` that survive a shift by `k` make a value under the cap although
      the product has overflowed: the one way the shifted delay can fall back. */
  predicate FallsBack(base: int, k: nat) {
    k < 64 && base * Pow2(k) >= INT64_LIMIT && 0 < (base % Pow2(64 - k)) * Pow2(k) < MAX_BACKOFF
  }

  lemma ModuloSmall(x: int, q: int, r: int)
    requires x == q * UINT64_LIMIT + r && 0 <= r < UINT64_LIMIT
    ensures x % UINT64_LIMIT == r
  {
  }

  lemma Regroup(q: int, m: int, r: int, p: int)
    ensures (q * m + r) * p == q * (m * p) + r * p
  {
  }

  lemma BelowProduct(a: int, b: int, c: int, d: int)
    requires 0 <= a < c && 0 < b <= d
    ensures 0 <= a * b < c * d
  {
    assert a * b <= a * d;
    assert a * d < c * d;
  }

  lemma SurvivingBits(base: int, k: nat)
    requires base >= 0 && k < 64
    ensures (base * Pow2(k)) % UINT64_LIMIT == (base % Pow2(64 - k)) * Pow2(k)
  {
    hide Pow2;
    var p, m := Pow2(k), Pow2(64 - k);
    Pow2Values();
    Pow2Sum(64 - k, k);
    var q, r := base / m, base % m;
    Regroup(q, m, r, p);
    BelowProduct(r, p, m, p);
    ModuloSmall(base * p, q, r * p);
  }

  lemma WrapOf(x: int)
    requires x >= INT64_LIMIT
    ensures var r := x % UINT64_LIMIT; Wrap(x) == if r < INT64_LIMIT then r else r - UINT64_LIMIT
  {
    var q, r := x / UINT64_LIMIT, x % UINT64_LIMIT;
    if r < INT64_LIMIT {
      ModuloSmall(x + INT64_LIMIT, q, r + INT64_LIMIT);
    } else {
      ModuloSmall(x + INT64_LIMIT, q + 1, r - INT64_LIMIT);
    }
  }

  lemma AtLeastBase(base: int, p: int)
    requires base >= 1 && p >= 1
    ensures base * p >= p
  {
  }

  /** For every base and every shift: the code's delay is the saturating one if and only
      if the surviving bits do not fall under the cap. */
  lemma SaturatesUnlessFallsBack(base: int, k: nat)
    requires 1 <= base < INT64_LIMIT
    ensures CappedDelay(base, k) == SaturatingDelay(base, k) <==> !FallsBack(base, k)
  {
    var x := base * Pow2(k);
    Pow2Values();
    AtLeastBase(base, Pow2(k));
    if k >= 64 {
      Pow2Grows(64, k);
    } else if x >= INT64_LIMIT {
      WrapOf(x);
      SurvivingBits(base, k);
    }
  }

  lemma MultipleOf(x: int, q: int)
    requires x == q * 0x2_0000_0000
    ensures x % UINT64_LIMIT == 0 || x % UINT64_LIMIT >= 0x2_0000_0000
  {
    var z := q - (x / UINT64_LIMIT) * 0x8000_0000;
    assert x % UINT64_LIMIT == z * 0x2_0000_0000;
  }

  lemma WideOverflow(odd: int, k: nat)
    requires 0 <= odd < 0x8000_0000 && odd * Pow2(k + 6) >= INT64_LIMIT
    ensures k >= 27
  {
    if k < 27 {
      hide Pow2;
      Pow2Values();
      Pow2Grows(k + 6, 32);
      BelowProduct(odd, Pow2(k + 6), 0x8000_0000, 0x1_0000_0000);
      assert false;
    }
  }

  lemma Associative(a: int, b: int, c: int)
    ensures a * (b * c) == a * b * c
  {
  }

  /** A base of whole milliseconds never falls back as long as it is below about 137 s:
      an overflowed value stays a multiple of 2^33 ns, and that is above the cap. */
  lemma WholeMillisecondsSaturate(ms: int, attempt: int)
    requires 1 <= ms && ms * 15_625 < 0x8000_0000 && attempt >= 1
    ensures CappedDelay(ms * MILLISECOND, attempt - 1) == SaturatingDelay(ms * MILLISECOND, attempt - 1)
  {
    hide Pow2, CappedDelay, SaturatingDelay;
    var k, base, odd := attempt - 1, ms * MILLISECOND, ms * 15_625;
    SaturatesUnlessFallsBack(base, k);
    var x := base * Pow2(k);
    if k < 64 && x >= INT64_LIMIT {
      Pow2Values();
      Pow2Sum(6, k);
      Associative(odd, 64, Pow2(k));
      WideOverflow(odd, k);
      Pow2Sum(33, k - 27);
      var q := odd * Pow2(k - 27);
      Associative(odd, Pow2(k - 27), 0x2_0000_0000);
      MultipleOf(x, q);
      SurvivingBits(base, k);
    }
  }

  /** The law fails for large bases: at 197,912,093 ms the 23rd retry waits at most about
      a quarter of the cap. */
  lemma LargeBaseFallsBack()
    ensures var base := 197_912_093 * MILLISECOND;
            CappedDelay(base, 22) == 1_342_177_280 && SaturatingDelay(base, 22) == MAX_BACKOFF
  {
    assert Pow2(11) == 2048;
    Pow2Sum(11, 11);
  }
}
