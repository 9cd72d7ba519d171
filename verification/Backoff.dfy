/**
 The per-job backoff of the release scheduler (computeBackoff, internal/release/scheduler.go), with
 the wrap-around of the 64-bit shift it is computed with.
 */
module Backoffs {
  import opened Common

  const SecondNs: int := 1_000_000_000
  const MaxShift: nat := 30

  function Seconds(ns: int): int {
    ns / SecondNs
  }

  function Half(): int { 0x8000_0000_0000_0000 }

  /** The low 64 bits of x, read as a signed number: what a shift leaves in an int64. */
  function Wrap(x: int): int {
    (x + Half()) % (2 * Half()) - Half()
  }

  function Shift(attempt: int): nat {
    var shift := (if attempt < 1 then 1 else attempt) - 1;
    if shift > MaxShift then MaxShift else shift
  }

  function Product(base: int, attempt: int): int {
    base * Pow2(Shift(attempt))
  }

  function ComputeBackoff(base: int, max: int, attempt: int): int {
    var d := Wrap(Product(base, attempt));
    if d > max || d <= 0 then max else d
  }

  /** The delay as designed: the base after the first failure, then twice the delay before, capped; from the
      31st failure on it no longer grows. */
  function Designed(base: int, max: int, attempt: int): int
    decreases if attempt > 31 then 32 else attempt
  {
    if attempt <= 1 then base
    else if attempt > 31 then Designed(base, max, 31)
    else if 2 * Designed(base, max, attempt - 1) > max then max
    else 2 * Designed(base, max, attempt - 1)
  }

  lemma WrapDrops(x: int, turns: int)
    requires -Half() <= x - turns * (2 * Half()) < Half()
    ensures Wrap(x) == x - turns * (2 * Half())
  {
    assert (x + Half()) / (2 * Half()) == turns;
  }

  lemma WrapIsIdentity(x: int)
    requires 0 <= x < Half()
    ensures Wrap(x) == x
  {
    WrapDrops(x, 0);
  }

  lemma {:induction false} Pow2Positive(k: nat)
    ensures Pow2(k) >= 1
  {
    if k > 0 {
      Pow2Positive(k - 1);
    }
  }

  lemma {:induction false} Pow2Grows(a: nat, b: nat)
    requires a <= b
    ensures 1 <= Pow2(a) <= Pow2(b)
    decreases b
  {
    if a < b {
      Pow2Grows(a, b - 1);
    } else {
      Pow2Positive(a);
    }
  }

  lemma ProductGrows(base: int, fewer: int, more: int)
    requires 0 < base && fewer <= more
    ensures 0 < Product(base, fewer) <= Product(base, more)
  {
    Pow2Grows(Shift(fewer), Shift(more));
    MultiplyGrows(base, Pow2(Shift(fewer)), Pow2(Shift(more)));
  }

  lemma MultiplyGrows(base: int, a: int, b: int)
    requires 0 < base && 0 < a <= b
    ensures 0 < base * a <= base * b
  {
  }

  lemma Powers()
    ensures Pow2(23) == 0x80_0000 && Pow2(24) == 0x100_0000 && Pow2(25) == 0x200_0000
    ensures Pow2(26) == 0x400_0000 && Pow2(27) == 0x800_0000 && Pow2(28) == 0x1000_0000
    ensures Pow2(29) == 0x2000_0000 && Pow2(30) == 0x4000_0000
  {
    assert Pow2(4) == 16;
    assert Pow2(8) == 256;
    assert Pow2(12) == 4096;
    assert Pow2(16) == 0x1_0000;
    assert Pow2(20) == 0x10_0000;
  }

  lemma {:induction false} DesignedIsProduct(base: int, max: int, attempt: int)
    requires 0 < base <= max
    ensures Designed(base, max, attempt) == if Product(base, attempt) > max then max else Product(base, attempt)
    ensures 0 < Designed(base, max, attempt) <= max
    decreases if attempt > 31 then 32 else attempt
  {
    ProductGrows(base, attempt, attempt);
    if attempt > 31 {
      DesignedIsProduct(base, max, 31);
    } else if attempt > 1 {
      DesignedIsProduct(base, max, attempt - 1);
      ProductDoubles(base, attempt - 1);
    }
  }

  lemma ProductDoubles(base: int, attempt: int)
    requires 1 <= attempt <= 30
    ensures Product(base, attempt + 1) == 2 * Product(base, attempt) == base * Pow2(attempt)
  {
    assert Pow2(attempt) == 2 * Pow2(attempt - 1);
  }

  /** The first failure waits the base. */
  lemma FirstDelay(base: int, max: int, attempt: int)
    requires 0 < base <= max < Half() && attempt <= 1
    ensures ComputeBackoff(base, max, attempt) == base
  {
    WrapIsIdentity(base);
    assert Pow2(0) == 1;
    hide Wrap;
  }

  /** Each next one waits twice as long as the one before, or the cap. */
  lemma NextDelay(base: int, max: int, attempt: int)
    requires 0 < base <= max < Half() && 1 <= attempt <= 30 && base * Pow2(attempt) < Half()
    ensures var delay := ComputeBackoff(base, max, attempt);
            ComputeBackoff(base, max, attempt + 1) == if 2 * delay > max then max else 2 * delay
  {
    ProductGrows(base, attempt, attempt);
    ProductDoubles(base, attempt);
    hide Wrap, Product;
    WrapIsIdentity(Product(base, attempt));
    WrapIsIdentity(Product(base, attempt + 1));
  }

  /** From the 31st failure on the delay stays the same. */
  lemma LastDelay(base: int, max: int, attempt: int)
    requires attempt >= 31
    ensures ComputeBackoff(base, max, attempt) == ComputeBackoff(base, max, 31)
  {
    assert Product(base, attempt) == Product(base, 31);
  }

  /** Whatever the shift leaves behind, the delay is positive and within the cap. */
  lemma BackoffWithinCap(base: int, max: int, attempt: int)
    requires 0 < base <= max
    ensures 0 < ComputeBackoff(base, max, attempt) <= max
  {
  }

  /** The delay is the designed one exactly when the doubled value fits 63 bits, or what the shift
      leaves of it is still taken for an overflow. */
  lemma BackoffExactIff(base: int, max: int, attempt: int)
    requires 0 < base <= max < Half()
    ensures var d := Product(base, attempt);
            (ComputeBackoff(base, max, attempt) == Designed(base, max, attempt))
            <==> (d < Half() || Wrap(d) <= 0 || Wrap(d) >= max)
  {
    ProductGrows(base, attempt, attempt);
    DesignedIsProduct(base, max, attempt);
    hide Wrap, Product, Designed;
    if Product(base, attempt) < Half() {
      WrapIsIdentity(Product(base, attempt));
    }
  }

  /** Bases below 2^33 ns (about 8.6 s) never overflow the shift. */
  lemma SmallBaseIsExact(base: int, max: int, attempt: int)
    requires 0 < base <= max < Half() && base < 0x2_0000_0000
    ensures ComputeBackoff(base, max, attempt) == Designed(base, max, attempt)
  {
    hide ComputeBackoff, Designed, Pow2, Wrap;
    BackoffExactIff(base, max, attempt);
    ProductGrows(base, attempt, if attempt < 31 then 31 else attempt);
    Powers();
  }

  /** With the default 15 minutes and 24 hours the shift does overflow, from the 25th failure on,
      and every overflow is noticed. */
  lemma DefaultsAreExact(attempt: int)
    ensures var base, max := 900_000_000_000, 86_400_000_000_000;
            ComputeBackoff(base, max, attempt) == Designed(base, max, attempt)
  {
    var base, max := 900_000_000_000, 86_400_000_000_000;
    BackoffExactIff(base, max, attempt);
    Powers();
    hide Designed;
    if Shift(attempt) < 24 {
      ProductGrows(base, attempt, 24);
      assert Product(base, 24) == base * 0x80_0000;
    } else {
      hide ComputeBackoff, Designed, Pow2, Wrap;
      var turns :=
        if Shift(attempt) == 24 then 1
        else if Shift(attempt) == 25 then 2
        else if Shift(attempt) == 26 then 3
        else if Shift(attempt) == 27 then 7
        else if Shift(attempt) == 28 then 13
        else if Shift(attempt) == 29 then 26
        else 52;
      WrapDrops(base * Pow2(Shift(attempt)), turns);
    }
  }

  /** An overflow that goes unnoticed: with a base just above 2^34 ns (17 s) and a cap of an hour,
      the 31st failure waits about a second instead of the hour. */
  lemma UnnoticedOverflow()
    ensures var base, max := 0x4_0000_0001, 3600 * SecondNs;
            ComputeBackoff(base, max, 31) == 0x4000_0000 < base < max == Designed(base, max, 31)
  {
    DesignedIsProduct(0x4_0000_0001, 3600 * SecondNs, 31);
    hide Designed;
    Powers();
  }

  /** As long as the doubled value fits, more failures never wait less. */
  lemma BackoffMonotone(base: int, max: int, fewer: int, more: int)
    requires 0 < base <= max < Half() && fewer <= more
    requires Product(base, more) < Half()
    ensures ComputeBackoff(base, max, fewer) <= ComputeBackoff(base, max, more)
  {
    ProductGrows(base, fewer, more);
    hide Wrap, Product;
    WrapIsIdentity(Product(base, fewer));
    WrapIsIdentity(Product(base, more));
  }
}
