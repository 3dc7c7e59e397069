/** Unsigned 64-bit arithmetic as the queue uses it: wrap-around is written out. */
module Arithmetic64 {

  const U64_SIZE: int := 0x1_0000_0000_0000_0000
  const U64_MAX: int := 0xFFFF_FFFF_FFFF_FFFF

  type u64 = x: int | 0 <= x <= U64_MAX

  /** `a + b` on uint64_t. */
  function Add64(a: u64, b: u64): u64 {
    (a + b) % U64_SIZE
  }

  /** `a - b` on uint64_t; a negative difference wraps round. */
  function Sub64(a: u64, b: u64): u64 {
    (a - b) % U64_SIZE
  }

  /** `a & b`, bit by bit, least significant bit first. */
  function BitAnd(a: nat, b: nat): nat {
    if a == 0 || b == 0 then 0
    else (if a % 2 == 1 && b % 2 == 1 then 1 else 0) + 2 * BitAnd(a / 2, b / 2)
  }

  function Pow2(k: nat): (p: nat)
    ensures p >= 1
  {
    if k == 0 then 1 else 2 * Pow2(k - 1)
  }

  lemma HalveMod(s: nat, p: nat)
    requires p >= 1
    ensures s % (2 * p) == s % 2 + 2 * ((s / 2) % p)
  {
    var h := s / 2;
    var q, r := h / p, h % p;
    assert s == (2 * p) * q + (2 * r + s % 2) by {
      assert 2 * (p * q) == (2 * p) * q;
    }
    ModUnique(s, 2 * p, q, 2 * r + s % 2);
  }

  lemma ModUnique(x: int, m: int, q: int, r: int)
    requires 0 <= r < m
    requires x == m * q + r
    ensures x % m == r
  {
    var d := q - x / m;
    assert m * d == x % m - r;
    MultipleGap(m, d);
  }

  lemma MultipleGap(m: nat, d: int)
    ensures d >= 1 ==> m * d >= m
    ensures d <= -1 ==> m * d + m <= 0
  {
    assert m * (d - 1) == m * d - m;
    assert m * (d + 1) == m * d + m;
  }

  /** Masking with a power of two minus one is the remainder, for every width. */
  lemma {:induction false} MaskIsRemainder(s: nat, k: nat)
    ensures BitAnd(s, Pow2(k) - 1) == s % Pow2(k)
    decreases k
  {
    if k > 0 {
      var p := Pow2(k - 1);
      var mask := Pow2(k) - 1;
      assert mask == 2 * (p - 1) + 1;
      assert mask % 2 == 1 && mask / 2 == p - 1;
      MaskIsRemainder(s / 2, k - 1);
      HalveMod(s, p);
      if s == 0 {
      } else {
        assert BitAnd(s, mask) == (if s % 2 == 1 then 1 else 0) + 2 * BitAnd(s / 2, p - 1);
      }
    }
  }

  /** Below the wrap point the wrapping difference is the ordinary one; one step
      past it, it is congruent to it, and the sentinel 2^64-1 acts as -1. */
  lemma WrappingDifference(a: u64, b: u64)
    ensures b <= a ==> Sub64(a, b) == a - b
    ensures a < b ==> Sub64(a, b) == a - b + U64_SIZE
    ensures a < U64_MAX ==> Sub64(a, U64_MAX) == a + 1
  {
  }
}
