/** Waiting between retries: a `time.Duration` is a signed 64-bit number of nanoseconds, doubled at each retry. */
module Backoff {

  function Pow(base: nat, exp: nat): nat {
    if exp == 0 then 1 else base * Pow(base, exp - 1)
  }

  lemma {:induction false} PowMonotone(base: nat, e1: nat, e2: nat)
    requires 1 <= base && e1 <= e2
    ensures 1 <= Pow(base, e1) <= Pow(base, e2)
  {
    if e1 < e2 {
      PowMonotone(base, e1, e2 - 1);
    } else if e1 > 0 {
      PowMonotone(base, e1 - 1, e1 - 1);
    }
  }

  lemma {:induction false} PowAdd(base: nat, e1: nat, e2: nat)
    ensures Pow(base, e1 + e2) == Pow(base, e1) * Pow(base, e2)
  {
    if e1 > 0 {
      PowAdd(base, e1 - 1, e2);
      assert e1 + e2 - 1 == (e1 - 1) + e2;
      Regroup(base, Pow(base, e1 - 1), Pow(base, e2));
    }
  }

  lemma Regroup(a: int, b: int, c: int)
    ensures a * (b * c) == (a * b) * c
  {
  }

  lemma TwoTo62()
    ensures Pow(2, 62) == 0x4000_0000_0000_0000 && Pow(2, 63) == 0x8000_0000_0000_0000
  {
    assert Pow(2, 1) == 2 && Pow(2, 2) == 4 && Pow(2, 3) == 8 && Pow(2, 4) == 16;
    PowAdd(2, 3, 4);
    PowAdd(2, 4, 4);
    PowAdd(2, 7, 8);
    PowAdd(2, 8, 8);
    PowAdd(2, 15, 16);
    PowAdd(2, 31, 31);
    PowAdd(2, 1, 62);
  }

  const DEFAULT_DURATION := 1

  function Wrap64(x: int): int {
    (x + 0x8000_0000_0000_0000) % 0x1_0000_0000_0000_0000 - 0x8000_0000_0000_0000
  }

  /** `2*duration` */
  function Double(duration: int): int { Wrap64(2 * duration) }

  /** The waits of a handler that starts with this duration and then retries so many times; only durations above the
      default are waited for. */
  function Waits(duration: int, retries: nat): seq<int>
    decreases retries
  {
    (if duration > DEFAULT_DURATION then [duration] else [])
    + (if retries == 0 then [] else Waits(Double(duration), retries - 1))
  }

  lemma WaitsUnfold(duration: int, retries: nat)
    ensures var own := if duration > DEFAULT_DURATION then [duration] else [];
            Waits(duration, 0) == own && Waits(duration, retries + 1) == own + Waits(Double(duration), retries)
  {
  }

  /** Once the doubling has overflowed, no retry waits any more. */
  lemma {:induction false} SilentAfterOverflow(duration: int, retries: nat)
    requires duration == 0 || duration == -0x8000_0000_0000_0000
    ensures Waits(duration, retries) == []
    decreases retries
  {
    assert Double(duration) == 0;
    if retries > 0 { SilentAfterOverflow(Double(duration), retries - 1); }
  }

  lemma DoublePower(k: nat)
    requires 1 <= k <= 62
    ensures Pow(2, k) > DEFAULT_DURATION
    ensures Double(Pow(2, k)) == if k < 62 then Pow(2, k + 1) else -0x8000_0000_0000_0000
  {
    TwoTo62();
    PowMonotone(2, 1, k);
    if k < 62 { PowMonotone(2, k + 1, 62); }
  }

  /** Powers of two, one after the other. */
  function Powers(first: nat, count: nat): seq<int> { seq(count, i requires 0 <= i => Pow(2, first + i)) }

  lemma PowersOneMore(first: nat, count: nat)
    ensures Powers(first, count + 1) == [Pow(2, first)] + Powers(first + 1, count)
  {
    hide Pow;
  }

  lemma {:induction false} WaitsFrom(k: nat, retries: nat)
    requires 1 <= k <= 62
    ensures Waits(Pow(2, k), retries) == Powers(k, if k + retries <= 62 then retries + 1 else 63 - k)
    decreases retries
  {
    hide Pow, Double, Waits, Powers;
    DoublePower(k);
    var own, next := Pow(2, k), Double(Pow(2, k));
    if retries == 0 {
      WaitsUnfold(own, 0);
      PowersOneMore(k, 0);
      NoPowers(k + 1);
    } else {
      WaitsUnfold(own, retries - 1);
      if k < 62 {
        WaitsFrom(k + 1, retries - 1);
        PowersOneMore(k, if k + retries <= 62 then retries else 62 - k);
      } else {
        SilentAfterOverflow(next, retries - 1);
        PowersOneMore(62, 0);
        NoPowers(63);
      }
    }
  }

  lemma NoPowers(first: nat)
    ensures Powers(first, 0) == []
  {
  }

  /** From the default duration, the k-th retry waits exactly 2^k for k up to 62, which fits 64 bits; from the 63rd
      retry on the doubled duration has overflowed and retries follow each other without a pause. */
  lemma WaitsExactly(retries: nat)
    ensures var waits := Waits(DEFAULT_DURATION, retries);
            && |waits| == (if retries <= 62 then retries else 62)
            && forall i | 0 <= i < |waits| :: waits[i] == Pow(2, i + 1)
    ensures Pow(2, 62) < 0x8000_0000_0000_0000 == Pow(2, 63)
  {
    TwoTo62();
    FirstDouble();
    hide Pow, Double, Waits;
    if retries == 0 {
      WaitsUnfold(DEFAULT_DURATION, 0);
    } else {
      WaitsUnfold(DEFAULT_DURATION, retries - 1);
      WaitsFrom(1, retries - 1);
    }
  }

  lemma FirstDouble()
    ensures Double(DEFAULT_DURATION) == Pow(2, 1) == 2
  {
  }
}
