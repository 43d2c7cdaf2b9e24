/** The delay between connection attempts. */
module Backoff {

  const INT64_MAX: int := 0x7FFF_FFFF_FFFF_FFFF
  const EXACT_UP_TO: int := 0x4000_0000_0000_0000
  const MAX_EXPONENT: nat := 62

  function Min(a: int, b: int): int {
    if a < b then a else b
  }

  function Pow2(n: nat): nat {
    if n == 0 then 1 else 2 * Pow2(n - 1)
  }

  /** The doubling loop: at most `n` times, and only below the maximum. */
  function Doubled(delay: int, max: int, n: nat): int
    decreases n
  {
    if n == 0 then Min(delay, max)
    else if delay >= max then max
    else Doubled(2 * delay, max, n - 1)
  }

  function Exponent(attempts: nat): nat {
    if attempts <= 1 then 0 else if attempts - 1 < MAX_EXPONENT then attempts - 1 else MAX_EXPONENT
  }

  function Delay(initial: int, max: int, attempts: nat): int {
    Doubled(Min(initial, max), max, Exponent(attempts))
  }

  method ComputeBackoff(initial: int, max: int, attempts: nat) returns (delay: int)
    ensures delay == Delay(initial, max, attempts)
  {
    delay := Min(initial, max);
    if attempts <= 1 {
      return;
    }
    var exponent := if attempts - 1 < MAX_EXPONENT then attempts - 1 else MAX_EXPONENT;
    var i := 0;
    while i < exponent
      invariant 0 <= i <= exponent
      invariant Delay(initial, max, attempts) == Doubled(delay, max, exponent - i)
    {
      if delay >= max {
        return max;
      }
      delay := 2 * delay;
      i := i + 1;
    }
    return Min(delay, max);
  }

  /** The largest value the running delay takes. */
  function Peak(delay: int, max: int, n: nat): int
    decreases n
  {
    if n == 0 || delay >= max then delay else Peak(2 * delay, max, n - 1)
  }

  lemma {:induction false} DoubledClosedForm(delay: int, max: int, n: nat)
    requires 0 <= delay
    ensures Doubled(delay, max, n) == Min(delay * Pow2(n), max)
    decreases n
  {
    if n > 0 {
      Pow2AtLeast(n);
      if delay >= max {
        assert delay * Pow2(n) >= delay;
      } else {
        DoubledClosedForm(2 * delay, max, n - 1);
        assert 2 * delay * Pow2(n - 1) == delay * Pow2(n);
      }
    }
  }

  lemma {:induction false} Pow2AtLeast(n: nat)
    ensures Pow2(n) >= 1
    decreases n
  {
    if n > 0 {
      Pow2AtLeast(n - 1);
    }
  }

  lemma {:induction false} Pow2Grows(m: nat, n: nat)
    requires m <= n
    ensures Pow2(m) <= Pow2(n)
    decreases n
  {
    if m < n {
      Pow2Grows(m, n - 1);
    }
  }

  lemma Pow62()
    ensures Pow2(MAX_EXPONENT) == EXACT_UP_TO
  {
    assert Pow2(10) == 1024;
    Pow2Sum(10, 10);
    Pow2Sum(20, 20);
    Pow2Sum(40, 20);
    Pow2Sum(60, 2);
    assert Pow2(2) == 4;
  }

  lemma {:induction false} Pow2Sum(m: nat, n: nat)
    ensures Pow2(m + n) == Pow2(m) * Pow2(n)
    decreases m
  {
    if m > 0 {
      Pow2Sum(m - 1, n);
      assert 2 * Pow2(m - 1) * Pow2(n) == 2 * (Pow2(m - 1) * Pow2(n));
    }
  }

  lemma {:induction false} PeakBound(delay: int, max: int, n: nat)
    ensures Peak(delay, max, n) <= delay || Peak(delay, max, n) <= 2 * max - 2
    decreases n
  {
    if n > 0 && delay < max {
      PeakBound(2 * delay, max, n - 1);
    }
  }

  /** The promised delay. */
  function Promised(initial: int, max: int, attempts: nat): int
    requires attempts >= 1
  {
    Min(initial * Pow2(attempts - 1), max)
  }

  lemma ExactBelow(initial: int, max: int, attempts: nat)
    requires 0 <= initial && 0 <= max <= EXACT_UP_TO && attempts >= 1
    ensures Delay(initial, max, attempts) == Promised(initial, max, attempts)
    ensures Peak(Min(initial, max), max, Exponent(attempts)) <= INT64_MAX
  {
    var n, d := Exponent(attempts), Min(initial, max);
    DoubledClosedForm(d, max, n);
    PeakBound(d, max, n);
    Pow2AtLeast(n);
    Pow2Grows(n, attempts - 1);
    Pow62();
    CappedProduct(initial, max, Pow2(n));
    if n < attempts - 1 {
      if initial == 0 {
        assert initial * Pow2(attempts - 1) == 0 && initial * Pow2(n) == 0;
      } else {
        AtLeastFactor(initial, Pow2(n));
        AtLeastFactor(initial, Pow2(attempts - 1));
      }
    }
  }

  lemma AtLeastFactor(a: int, b: int)
    requires a >= 1 && b >= 0
    ensures a * b >= b
  {
  }

  lemma CappedProduct(initial: int, max: int, k: int)
    requires 0 <= initial && 0 <= max && k >= 1
    ensures Min(Min(initial, max) * k, max) == Min(initial * k, max)
  {
    if initial > max {
      assert max * k >= max && initial * k >= max * k;
    }
  }

  ghost predicate AlwaysExact(max: int) {
    forall initial: int, attempts: nat :: 0 <= initial && attempts >= 1 ==>
      Delay(initial, max, attempts) == Promised(initial, max, attempts)
  }

  ghost predicate NeverOverflows(max: int) {
    forall initial: int, attempts: nat :: 0 <= initial && attempts >= 1 ==>
      Peak(Min(initial, max), max, Exponent(attempts)) <= INT64_MAX
  }

  /** The delay is min(initial * 2^(attempts - 1), max) for every initial delay and attempt count exactly
      when the maximum is at most 2^62 milliseconds, and exactly then no doubling leaves the 64-bit range. */
  lemma BackoffExactIff(max: int)
    requires 0 <= max <= INT64_MAX
    ensures AlwaysExact(max) <==> max <= EXACT_UP_TO
    ensures NeverOverflows(max) <==> max <= EXACT_UP_TO
  {
    if max <= EXACT_UP_TO {
      forall initial: int, attempts: nat | 0 <= initial && attempts >= 1
        ensures Delay(initial, max, attempts) == Promised(initial, max, attempts)
        ensures Peak(Min(initial, max), max, Exponent(attempts)) <= INT64_MAX
      {
        ExactBelow(initial, max, attempts);
      }
    } else {
      FailsAbove(max);
    }
  }

  lemma FailsAbove(max: int)
    requires EXACT_UP_TO < max <= INT64_MAX
    ensures Delay(1, max, 64) != Promised(1, max, 64)
    ensures Peak(Min(max - 1, max), max, Exponent(2)) > INT64_MAX
  {
    DoubledClosedForm(1, max, MAX_EXPONENT);
    Pow62();
    assert Pow2(63) == 2 * Pow2(62);
    assert Exponent(2) == 1;
    assert Peak(max - 1, max, 1) == Peak(2 * (max - 1), max, 0);
  }
}
