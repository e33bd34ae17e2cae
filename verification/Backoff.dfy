/** The reconnect backoff. Durations are nanoseconds; the jitter draw is a real in [0, 1). */
module Backoff {
  const SECOND := 1_000_000_000
  const BASE := 1 * SECOND
  const MAX_DELAY := 60 * SECOND

  function Pow2(n: nat): nat {
    if n == 0 then 1 else 2 * Pow2(n - 1)
  }

  /** The delay of the n-th attempt before jitter: doubling from BASE, capped. */
  function Ceiling(n: nat): nat
    requires n > 0
  {
    if n <= 6 then Pow2(n - 1) * SECOND else MAX_DELAY
  }

  /** Seconds of un-jittered delay over the first n attempts. */
  function TotalCeiling(n: nat): nat {
    if n == 0 then 0 else TotalCeiling(n - 1) + Ceiling(n)
  }

  class Backoff {
    var attempt: nat

    constructor ()
      ensures attempt == 0
    {
      attempt := 0;
    }

    /** A wait in the upper half of the attempt's delay. */
    method Next(jitter: real) returns (delay: int)
      requires 0.0 <= jitter < 1.0
      modifies this
      ensures attempt == old(attempt) + 1
      ensures Ceiling(attempt) <= 2 * delay && delay < Ceiling(attempt)
      ensures var drawn := Ceiling(attempt) as real * 0.5 * (1.0 + jitter); delay as real <= drawn < delay as real + 1.0
    {
      attempt := attempt + 1;
      var shift := if attempt - 1 < 6 then attempt - 1 else 6;
      assert Pow2(6) == 64 by { PowersSmall(); }
      delay := BASE * Pow2(shift);
      if delay > MAX_DELAY {
        delay := MAX_DELAY;
      }
      ghost var d := delay;
      CeilingIs(attempt, shift, d);
      var half := delay as real * 0.5;
      delay := (half + half * jitter).Floor;
      JitterBetween(half, jitter);
      assert half + half * jitter == half * (1.0 + jitter);
      FloorBetween(d / 2, d, half + half * jitter);
    }

    method Reset()
      modifies this
      ensures attempt == 0
    {
      attempt := 0;
    }
  }

  lemma PowersSmall()
    ensures Pow2(0) == 1 && Pow2(1) == 2 && Pow2(2) == 4 && Pow2(3) == 8 && Pow2(4) == 16 && Pow2(5) == 32 &&
      Pow2(6) == 64
  {
  }

  lemma CeilingIs(attempt: nat, shift: nat, d: int)
    requires attempt > 0 && shift == (if attempt - 1 < 6 then attempt - 1 else 6)
    requires d == (if BASE * Pow2(shift) > MAX_DELAY then MAX_DELAY else BASE * Pow2(shift))
    ensures d == Ceiling(attempt) && d % 2 == 0 && d > 0
  {
    PowersSmall();
  }

  lemma JitterBetween(half: real, jitter: real)
    requires 0.0 < half && 0.0 <= jitter < 1.0
    ensures half <= half + half * jitter < half + half
  {
    assert half * jitter < half * 1.0;
  }

  lemma FloorBetween(h: int, d: int, x: real)
    requires h as real <= x < d as real
    ensures h <= x.Floor < d
  {
  }

  /** The ceilings never shrink and never exceed the cap. */
  lemma CeilingsGrow(n: nat)
    requires n > 0
    ensures Ceiling(n) <= Ceiling(n + 1) <= MAX_DELAY
  {
    PowersSmall();
  }

  /** Closed form: 2^n - 1 seconds for the first six attempts, then a minute each. */
  lemma {:induction false} TotalCeilingClosed(n: nat)
    ensures TotalCeiling(n) == (if n <= 6 then Pow2(n) - 1 else 63 + 60 * (n - 6)) * SECOND
  {
    if n == 0 {
    } else {
      TotalCeilingClosed(n - 1);
      if n > 6 {
        PowersSmall();
      }
    }
  }

  function Sum(ds: seq<int>): int {
    if ds == [] then 0 else Sum(ds[..|ds| - 1]) + ds[|ds| - 1]
  }

  /** n waits drawn by Next, one after the other, total between half the closed form and all of it. */
  lemma {:induction false} TotalWaitBounds(ds: seq<int>)
    requires forall i :: 0 <= i < |ds| ==> Ceiling(i + 1) <= 2 * ds[i] && ds[i] < Ceiling(i + 1)
    ensures var s := (if |ds| <= 6 then Pow2(|ds|) - 1 else 63 + 60 * (|ds| - 6)) * SECOND;
      s <= 2 * Sum(ds) && Sum(ds) <= s && (ds != [] ==> Sum(ds) < s)
    decreases |ds|
  {
    TotalCeilingClosed(|ds|);
    if ds == [] {
    } else {
      var n := |ds| - 1;
      TotalWaitBounds(ds[..n]);
      TotalCeilingClosed(n);
    }
  }
}
