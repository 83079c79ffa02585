/** The retry delay of a failing ingestion job: exponential from one minute, capped by the
    interval of the job and by the tenth doubling. */
module Backoff {
  import opened Powers

  const FIRST_RETRY_SECONDS := 60

  function Min(a: int, b: int): int {
    if a <= b then a else b
  }

  /** The delay in seconds after the given number of failures in a row, before jitter. */
  function Base(failures: nat, interval: nat): nat
    requires failures >= 1
  {
    Min(FIRST_RETRY_SECONDS * Pow2(Min(failures - 1, 10)), interval)
  }

  /** The delays, in milliseconds, that a jitter factor between 0.8 and 1.2 can make of it. */
  predicate RetryDelay(ms: int, failures: nat, interval: nat)
    requires failures >= 1
  {
    800 * Base(failures, interval) <= ms <= 1200 * Base(failures, interval)
  }

  function SumBases(failures: nat, interval: nat): nat {
    if failures == 0 then 0 else SumBases(failures - 1, interval) + Base(failures, interval)
  }

  /** The base delay never decreases with the number of failures and stays between the first
      retry and the interval. */
  lemma BaseGrowsWithinBounds(a: nat, b: nat, interval: nat)
    requires 1 <= a <= b
    ensures Min(FIRST_RETRY_SECONDS, interval) <= Base(a, interval) <= Base(b, interval) <= interval
  {
    Pow2Grows(Min(a - 1, 10), Min(b - 1, 10));
    Pow2Grows(0, Min(a - 1, 10));
  }

  /** From the eleventh failure on the delay is constant. It has then reached the interval of the
      job exactly when that interval is at most 61440 s: a daily job never backs off that far. */
  lemma BaseLevelsOff(failures: nat, interval: nat)
    requires failures >= 11
    ensures Base(failures, interval) == Min(61440, interval)
    ensures (exists k: nat :: k >= 1 && Base(k, interval) == interval) <==> interval <= 61440
  {
    assert Pow2(10) == 1024 by {
      assert Pow2(5) == 32;
      assert Pow2(10) == 32 * Pow2(5);
    }
    if interval <= 61440 {
      assert Base(failures, interval) == interval;
    }
    forall k: nat | k >= 1 && Base(k, interval) == interval
      ensures interval <= 61440
    {
      Pow2Grows(Min(k - 1, 10), 10);
    }
  }

  /** While no delay is capped, the first k of them add up to 60 * (2^k - 1) seconds. */
  lemma {:induction false} SumWhileUncapped(failures: nat, interval: nat)
    requires failures <= 11 && (failures >= 1 ==> FIRST_RETRY_SECONDS * Pow2(failures - 1) <= interval)
    ensures SumBases(failures, interval) == FIRST_RETRY_SECONDS * (Pow2(failures) - 1)
  {
    if failures >= 1 {
      if failures >= 2 {
        Pow2Grows(failures - 2, failures - 1);
      }
      SumWhileUncapped(failures - 1, interval);
    }
  }

  /** In milliseconds and with nothing cut short by the interval, the delay after the k-th failure in a
      row lies between 0.8 and 1.2 times 2^(k-1) minutes; once it is cut short, between 0.8 and 1.2
      times the interval. */
  lemma RetryDelayRange(ms: int, failures: nat, interval: nat)
    requires 1 <= failures <= 11
    ensures 60 * Pow2(failures - 1) <= interval ==>
              (RetryDelay(ms, failures, interval) <==> 48000 * Pow2(failures - 1) <= ms <= 72000 * Pow2(failures - 1))
    ensures interval <= 60 * Pow2(failures - 1) ==>
              (RetryDelay(ms, failures, interval) <==> 800 * interval <= ms <= 1200 * interval)
  {
  }
}
