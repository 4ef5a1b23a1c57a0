/** The polling interval (`internal/forge/forge.go`): a doubling in 64-bit arithmetic, capped. */
module Backoff {
  const TWO_TO_THE_32 := 0x1_0000_0000
  const TWO_TO_THE_64 := 0x1_0000_0000_0000_0000

  function Pow2(n: nat): (p: nat)
    ensures p > 0
  {
    if n == 0 then 1 else 2 * Pow2(n - 1)
  }

  // The value of a signed 64-bit integer after wrap-around.
  function Wrap(x: int): int {
    (x + TWO_TO_THE_64 / 2) % TWO_TO_THE_64 - TWO_TO_THE_64 / 2
  }

  function PollInterval(attempt: nat, lo: int, hi: int): int {
    var d := Wrap(lo * Pow2(attempt));
    if d > hi || d <= 0 then hi else d
  }

  const DEFAULT_POLL_MIN := 500_000_000
  const DEFAULT_POLL_MAX := 1_000_000_000

  function PollBounds(pollMin: int, pollMax: int): (int, int) {
    (if pollMin <= 0 then DEFAULT_POLL_MIN else pollMin, if pollMax <= 0 then DEFAULT_POLL_MAX else pollMax)
  }

  function Min(a: int, b: int): int {
    if a < b then a else b
  }

  lemma {:induction false} Pow2Splits(m: nat, n: nat)
    ensures Pow2(m + n) == Pow2(m) * Pow2(n)
  {
    if m > 0 { Pow2Splits(m - 1, n); }
  }

  lemma {:induction false} Pow2Grows(m: nat, n: nat)
    requires m <= n
    ensures Pow2(m) <= Pow2(n)
  {
    if m < n { Pow2Grows(m, n - 1); }
  }

  lemma Pow2At32And33()
    ensures Pow2(32) == TWO_TO_THE_32 && Pow2(33) == 2 * TWO_TO_THE_32
  {
    assert Pow2(8) == 256;
    Pow2Splits(8, 8);
    Pow2Splits(16, 16);
    assert Pow2(33) == 2 * Pow2(32);
  }

  // A multiple of 2^33 stays one through wrap-around.
  lemma WrapKeepsMultiples(k: int)
    ensures exists m :: Wrap(k * (2 * TWO_TO_THE_32)) == m * (2 * TWO_TO_THE_32)
  {
    var unit := 2 * TWO_TO_THE_32;
    var x := k * unit;
    var q := (x + TWO_TO_THE_64 / 2) / TWO_TO_THE_64;
    assert Wrap(x) == x - q * TWO_TO_THE_64;
    assert Wrap(x) == (k - q * 0x8000_0000) * unit;
  }

  // From the 33rd doubling on, the shifted value is 0 or too large to be taken.
  lemma LateAttemptsAreCapped(attempt: nat, lo: int, hi: int)
    requires attempt >= 33 && 0 < lo && 0 < hi <= TWO_TO_THE_32
    ensures PollInterval(attempt, lo, hi) == hi == Min(lo * Pow2(attempt), hi)
  {
    var unit := 2 * TWO_TO_THE_32;
    Pow2At32And33();
    Pow2Splits(attempt - 33, 33);
    var k := lo * Pow2(attempt - 33);
    assert lo * Pow2(attempt) == k * unit by { Associates(lo, Pow2(attempt - 33), unit); }
    WrapKeepsMultiples(k);
    var m :| Wrap(k * unit) == m * unit;
    Positive(lo, Pow2(attempt - 33));
    assert m <= 0 || m * unit >= unit;
  }

  lemma Associates(a: int, b: int, c: int)
    ensures a * (b * c) == (a * b) * c
  {}

  lemma Positive(a: int, b: int)
    requires a > 0 && b > 0
    ensures a * b > 0
  {}

  lemma ProductIsBounded(a: int, b: int, bound: int)
    requires 0 < a <= bound && 0 < b <= bound
    ensures 0 < a * b <= bound * bound
  {
    assert a * b <= a * bound <= bound * bound;
  }

  // Up to the 32nd doubling, the exact product is at most 2^64 and wraps to no positive value.
  lemma EarlyAttemptsAreExact(attempt: nat, lo: int, hi: int)
    requires attempt <= 32 && 0 < lo <= TWO_TO_THE_32 && 0 < hi <= TWO_TO_THE_32
    ensures PollInterval(attempt, lo, hi) == Min(lo * Pow2(attempt), hi)
  {
    Pow2At32And33();
    Pow2Grows(attempt, 32);
    ProductIsBounded(lo, Pow2(attempt), TWO_TO_THE_32);
  }

  ghost predicate ExactUpTo(bound: int) {
    forall attempt: nat, lo: int, hi: int | 0 < lo <= bound && 0 < hi <= bound ::
      PollInterval(attempt, lo, hi) == Min(lo * Pow2(attempt), hi)
  }

  /**
   The wrapping arithmetic computes min(lo * 2^attempt, hi), for every attempt and all positive bounds
   up to a limit, exactly when that limit is at most 2^32 nanoseconds.
   */
  lemma BackoffIsExactExactlyWhen(bound: int)
    ensures ExactUpTo(bound) <==> bound <= TWO_TO_THE_32
  {
    if bound <= TWO_TO_THE_32 {
      forall attempt: nat, lo: int, hi: int | 0 < lo <= bound && 0 < hi <= bound
        ensures PollInterval(attempt, lo, hi) == Min(lo * Pow2(attempt), hi)
      {
        if attempt <= 32 { EarlyAttemptsAreExact(attempt, lo, hi); } else { LateAttemptsAreCapped(attempt, lo, hi); }
      }
    } else {
      var lo := TWO_TO_THE_32 + 1;
      Pow2At32And33();
      assert PollInterval(32, lo, lo) == TWO_TO_THE_32;
      assert Min(lo * Pow2(32), lo) == lo;
    }
  }

  /** Within that limit the interval stays between its bounds and never shrinks. */
  lemma BackoffNeverShrinks(attempt: nat, later: nat, lo: int, hi: int)
    requires 0 < lo <= hi <= TWO_TO_THE_32 && attempt <= later
    ensures lo <= PollInterval(attempt, lo, hi) <= PollInterval(later, lo, hi) <= hi
  {
    BackoffIsExactExactlyWhen(TWO_TO_THE_32);
    Pow2Grows(attempt, later);
    assert PollInterval(attempt, lo, hi) == Min(lo * Pow2(attempt), hi);
    assert PollInterval(later, lo, hi) == Min(lo * Pow2(later), hi);
    Scales(lo, 1, Pow2(attempt));
    Scales(lo, Pow2(attempt), Pow2(later));
  }

  lemma Scales(a: int, b: int, c: int)
    requires a > 0 && b <= c
    ensures a * b <= a * c
  {}

  /** A bound that is not positive is half a second at the bottom and a second at the top, in nanoseconds. */
  lemma BoundsMean(pollMin: int, pollMax: int)
    ensures PollBounds(pollMin, pollMax).0 == if pollMin >= 1 then pollMin else 500 * 1_000_000
    ensures PollBounds(pollMin, pollMax).1 == if pollMax >= 1 then pollMax else 1000 * 1_000_000
  {}

  /** With no bounds configured: half a second, then one second for ever. */
  lemma DefaultsStayExact(attempt: nat)
    ensures var (lo, hi) := PollBounds(0, 0);
      PollInterval(attempt, lo, hi) == if attempt == 0 then lo else hi
  {
    var (lo, hi) := PollBounds(0, 0);
    BackoffIsExactExactlyWhen(TWO_TO_THE_32);
    assert PollInterval(attempt, lo, hi) == Min(lo * Pow2(attempt), hi);
    if attempt > 0 {
      Pow2Grows(1, attempt);
      Scales(lo, 2, Pow2(attempt));
    }
  }
}
