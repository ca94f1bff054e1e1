/**
 The part of IEEE 754 double arithmetic the money code relies on: every operation returns
 a double nearest to its exact result. Ties may go either way, and the range of the
 exponents is not limited; all values concerned are far from both ends of it.
 */
module Binary64 {

  const LIMIT: int := 0x20_0000_0000_0000  // 2^53

  function Two(k: nat): (p: nat)
    ensures p >= 1
  {
    if k == 0 then 1 else 2 * Two(k - 1)
  }

  lemma {:induction false} TwoSum(a: nat, b: nat)
    ensures Two(a + b) == Two(a) * Two(b)
  {
    if a > 0 { TwoSum(a - 1, b); }
  }

  lemma Powers()
    ensures Two(5) == 32 && Two(8) == 256 && Two(26) == 0x400_0000 && Two(32) == 0x1_0000_0000
  {
    assert Two(2) == 4;
    TwoSum(2, 2);
    TwoSum(1, 4);
    TwoSum(4, 4);
    TwoSum(8, 8);
    TwoSum(16, 16);
    TwoSum(8, 16);
    TwoSum(2, 24);
  }

  function Abs(x: real): real {
    if x < 0.0 then -x else x
  }

  predicate Is(x: real, m: int, k: nat) {
    -LIMIT <= m <= LIMIT && (x * Two(k) as real == m as real || x == m as real * Two(k) as real)
  }

  /** 53 significant bits. */
  ghost predicate Double(x: real) {
    exists m: int, k: nat :: Is(x, m, k)
  }

  ghost predicate Rounds(x: real, r: real) {
    Double(r) && forall s | Double(s) :: Abs(r - x) <= Abs(s - x)
  }

  /** ECMA-262 Math.round: the nearest integer, a half going up. */
  function Round(x: real): int {
    (x + 0.5).Floor
  }

  function Ceil(x: real): int {
    -(-x).Floor
  }

  lemma ExactStays(x: real, r: real)
    requires Double(x) && Rounds(x, r)
    ensures r == x
  {}

  lemma Integers(n: int)
    requires -LIMIT <= n <= LIMIT
    ensures Double(n as real) && Double(2.0 * n as real) && Double(n as real / 2.0)
  {
    assert Is(n as real, n, 0);
    assert Two(1) == 2;
    assert Is(2.0 * n as real, n, 1);
    assert Is(n as real / 2.0, n, 1);
  }

  /** Rounding never crosses a double. */
  lemma NoCrossing(x: real, r: real, h: real)
    requires Rounds(x, r) && Double(h)
    ensures (x <= h ==> r <= h) && (h <= x ==> h <= r)
  {
    assert Abs(r - x) <= Abs(h - x);
  }

  /** A double on the grid of multiples of 2^-k, at most half a step away. */
  lemma GridDouble(x: real, k: nat) returns (s: real)
    requires Abs(x) * Two(k) as real <= (LIMIT - 1) as real
    ensures Double(s) && Abs(s - x) * Two(k) as real <= 0.5
  {
    hide Two;
    var t := Two(k) as real;
    var m := (x * t + 0.5).Floor;
    s := m as real / t;
    Bounded(x, t, m);
    assert Is(s, m, k);
    Scaled(s - x, t, m as real - x * t);
  }

  /** Where the doubles are at most 2^-k apart, rounding moves a number by at most half of that. */
  lemma SmallError(x: real, r: real, k: nat)
    requires Rounds(x, r) && Abs(x) * Two(k) as real <= (LIMIT - 1) as real
    ensures Abs(r - x) * Two(k) as real <= 0.5
  {
    hide Two, Double;
    var s := GridDouble(x, k);
    assert Abs(r - x) <= Abs(s - x);
    Smaller(Abs(r - x), Abs(s - x), Two(k) as real);
  }

  lemma Smaller(a: real, b: real, t: real)
    requires a <= b && t >= 1.0
    ensures a * t <= b * t
  {}

  lemma Bounded(x: real, t: real, m: int)
    requires t >= 1.0 && Abs(x) * t <= (LIMIT - 1) as real && -0.5 <= m as real - x * t <= 0.5
    ensures -LIMIT <= m <= LIMIT
  {
    assert Abs(x * t) == Abs(x) * t;
  }

  lemma Scaled(d: real, t: real, p: real)
    requires t >= 1.0 && d * t == p && -0.5 <= p <= 0.5
    ensures Abs(d) * t <= 0.5
  {}
}
