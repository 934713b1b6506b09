/** The delays of RetryWithBackoff, in unbounded integers and in Go's int64. */
module Backoff {

  const INT64_LIMIT := 0x8000_0000_0000_0000

  function Pow2(n: nat): (p: nat)
    ensures p >= 1
  {
    if n == 0 then 1 else 2 * Pow2(n - 1)
  }

  /** Two's complement wrap-around of a 64-bit signed result. */
  function Wrap(x: int): int {
    (x + INT64_LIMIT) % (2 * INT64_LIMIT) - INT64_LIMIT
  }

  /** time.Duration(math.Pow(2, float64(i))): exact below 2^63; beyond it the language leaves
      the conversion to the platform, whose answer is overflowWord. */
  function PowWord(i: nat, overflowWord: int): int {
    if i < 63 then Pow2(i) else overflowWord
  }

  /** The delay before attempt i + 1 as the program computes it. */
  function Delay(i: nat, base: int, jitter: int, overflowWord: int): int {
    Wrap(Wrap(PowWord(i, overflowWord) * base) + jitter)
  }

  /** The delay the program means. */
  function Meant(i: nat, base: int, jitter: int): int { Pow2(i) * base + jitter }

  ghost predicate Fits(n: nat, base: int) {
    forall i: nat, jitter :: i + 1 < n && 0 <= jitter < base ==> 0 <= Meant(i, base, jitter) < INT64_LIMIT
  }

  lemma {:induction false} Pow2Grows(i: nat, j: nat)
    requires i <= j
    ensures Pow2(i) <= Pow2(j)
    decreases j
  {
    if i < j { Pow2Grows(i, j - 1); }
  }

  lemma MulGrows(a: nat, b: nat, base: nat)
    requires a <= b
    ensures a * base <= b * base
  {
  }

  /** With n attempts no delay leaves int64, whatever the jitter, exactly when
      (2^(n-2) + 1) * base <= 2^63. */
  lemma FitsIff(n: nat, base: int)
    requires n >= 2 && base > 0
    ensures Fits(n, base) <==> (Pow2(n - 2) + 1) * base <= INT64_LIMIT
  {
    assert (Pow2(n - 2) + 1) * base == Pow2(n - 2) * base + base;
    if Fits(n, base) {
      assert Meant(n - 2, base, base - 1) < INT64_LIMIT;
    }
    if (Pow2(n - 2) + 1) * base <= INT64_LIMIT {
      forall i: nat, jitter | i + 1 < n && 0 <= jitter < base
        ensures 0 <= Meant(i, base, jitter) < INT64_LIMIT
      {
        Pow2Grows(i, n - 2);
        MulGrows(Pow2(i), Pow2(n - 2), base);
        MulGrows(0, Pow2(i), base);
      }
    }
  }

  lemma {:induction false} Pow2Splits(a: nat, b: nat)
    ensures Pow2(a + b) == Pow2(a) * Pow2(b)
  {
    if b > 0 { Pow2Splits(a, b - 1); }
  }

  lemma Pow2Of63()
    ensures Pow2(63) == INT64_LIMIT
  {
    assert Pow2(8) == 0x100;
    Pow2Splits(8, 8);
    assert Pow2(16) == 0x1_0000;
    Pow2Splits(16, 16);
    assert Pow2(32) == 0x1_0000_0000;
    Pow2Splits(32, 32);
    assert Pow2(64) == 2 * Pow2(63);
  }

  lemma Pow2Beyond(n: nat)
    requires n >= 63
    ensures Pow2(n) >= INT64_LIMIT
  {
    Pow2Of63();
    Pow2Grows(63, n);
  }

  /** Below the limit the int64 computation, conversion included, gives the meant delay. */
  lemma DelayIsMeant(n: nat, base: int, i: nat, jitter: int, overflowWord: int)
    requires n >= 2 && base > 0 && (Pow2(n - 2) + 1) * base <= INT64_LIMIT
    requires i + 1 < n && 0 <= jitter < base
    ensures Delay(i, base, jitter, overflowWord) == Meant(i, base, jitter)
  {
    FitsIff(n, base);
    if i >= 63 {
      Pow2Beyond(i);
      MulGrows(INT64_LIMIT, Pow2(i), base);
      assert false;
    }
    assert 0 <= Meant(i, base, 0) < INT64_LIMIT;
    assert 0 <= Meant(i, base, jitter) < INT64_LIMIT;
  }

  /** Jitter never reorders: each delay is longer than the one before. */
  lemma DelaysIncrease(i: nat, base: int, jitter: int, next: int)
    requires 0 <= jitter < base && 0 <= next < base
    ensures Meant(i, base, jitter) < Meant(i + 1, base, next)
  {
    assert Meant(i + 1, base, next) == Pow2(i) * base + Pow2(i) * base + next;
    MulGrows(1, Pow2(i), base);
  }

  function Total(base: int, jitters: seq<int>): int {
    if jitters == [] then 0
    else Total(base, jitters[..|jitters| - 1]) + Meant(|jitters| - 1, base, jitters[|jitters| - 1])
  }

  /** The n - 1 waits of n attempts add up to (2^(n-1) - 1) * base plus the jitter. */
  lemma {:induction false} TotalBounds(base: int, jitters: seq<int>)
    requires base > 0 && forall j :: j in jitters ==> 0 <= j < base
    ensures (Pow2(|jitters|) - 1) * base <= Total(base, jitters)
            <= (Pow2(|jitters|) - 1) * base + |jitters| * (base - 1)
  {
    if jitters != [] {
      var n := |jitters| - 1;
      assert jitters[n] in jitters;
      assert forall j :: j in jitters[..n] ==> j in jitters;
      TotalBounds(base, jitters[..n]);
      assert (Pow2(n + 1) - 1) * base == (Pow2(n) - 1) * base + Pow2(n) * base;
      assert (n + 1) * (base - 1) == n * (base - 1) + (base - 1);
    }
  }
}
