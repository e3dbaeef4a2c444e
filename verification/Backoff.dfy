/** Exponential backoff (src/common/exponential-backoff.ts). */
module Backoff {
  datatype BackoffOptions = BackoffOptions(initialMs: nat, maxMs: nat, maxExponent: nat)

  const DEFAULT_BACKOFF_OPTIONS := BackoffOptions(1000, 60000, 6)

  function Pow2(n: nat): (p: nat)
    ensures p >= 1
  {
    if n == 0 then 1 else 2 * Pow2(n - 1)
  }

  /** The delay before retry number `attempt`, counted from 0; negative attempts count as 0. */
  function ExponentialBackoffDelay(attempt: int, o: BackoffOptions): nat {
    var safe: nat := if attempt < 0 then 0 else attempt;
    var exponent := if safe < o.maxExponent then safe else o.maxExponent;
    var raw := o.initialMs * Pow2(exponent);
    if o.maxMs < raw then o.maxMs else raw
  }

  lemma {:induction false} Pow2Grows(a: nat, b: nat)
    requires a <= b
    ensures Pow2(a) <= Pow2(b)
    decreases b
  {
    if a < b {
      Pow2Grows(a, b - 1);
    }
  }

  lemma TimesGrows(k: nat, a: nat, b: nat)
    requires a <= b
    ensures k * a <= k * b
  {
  }

  /** Delays never shrink along a streak and never exceed the cap. */
  lemma DelayMonotone(a: int, b: int, o: BackoffOptions)
    requires a <= b
    ensures ExponentialBackoffDelay(a, o) <= ExponentialBackoffDelay(b, o) <= o.maxMs
  {
    var x: nat := if a < 0 then 0 else if a < o.maxExponent then a else o.maxExponent;
    var y: nat := if b < 0 then 0 else if b < o.maxExponent then b else o.maxExponent;
    Pow2Grows(x, y);
    TimesGrows(o.initialMs, Pow2(x), Pow2(y));
  }

  /** The delay in force after `failures` consecutive failures. */
  /** The delay starts at the initial one and doubles up to the cap; no attempt number makes it grow further. */
  lemma DelayDoubles(attempt: nat, o: BackoffOptions)
    ensures ExponentialBackoffDelay(0, o) == if o.initialMs < o.maxMs then o.initialMs else o.maxMs
    ensures attempt < o.maxExponent ==>
              var twice := 2 * ExponentialBackoffDelay(attempt, o);
              ExponentialBackoffDelay(attempt + 1, o) == if twice < o.maxMs then twice else o.maxMs
    ensures attempt >= o.maxExponent ==>
            ExponentialBackoffDelay(attempt, o) == ExponentialBackoffDelay(o.maxExponent, o)
    ensures ExponentialBackoffDelay(0 - attempt as int, o) == ExponentialBackoffDelay(0, o)
  {
    assert Pow2(0) == 1;
    if attempt < o.maxExponent {
      TimesTwice(o.initialMs, Pow2(attempt));
    }
  }

  lemma TimesTwice(k: nat, a: nat)
    ensures k * (2 * a) == 2 * (k * a)
  {
  }

  function DelayAfter(failures: nat, o: BackoffOptions): nat {
    if failures == 0 then 0 else ExponentialBackoffDelay(failures - 1, o)
  }

  predicate SaturatedAfter(failures: nat, o: BackoffOptions) {
    DelayAfter(failures, o) >= o.maxMs
  }

  predicate JustSaturatedAfter(failures: nat, o: BackoffOptions) {
    SaturatedAfter(failures, o) && (failures <= 1 || ExponentialBackoffDelay(failures - 2, o) < o.maxMs)
  }

  /** Whether a long enough streak reaches the cap at all. */
  predicate ReachesCap(o: BackoffOptions) {
    o.initialMs * Pow2(o.maxExponent) >= o.maxMs
  }

  /** The length of the streak after which the cap is first reached. */
  function FirstSaturation(o: BackoffOptions, from: nat): nat
    decreases o.maxExponent + 1 - from
  {
    if from > o.maxExponent || SaturatedAfter(from, o) then from else FirstSaturation(o, from + 1)
  }

  lemma {:induction false} FirstSaturationIsFirst(o: BackoffOptions, from: nat)
    requires o.maxMs > 0 && ReachesCap(o) && 1 <= from <= o.maxExponent + 1
    requires forall m :: 1 <= m < from ==> !SaturatedAfter(m, o)
    ensures var n := FirstSaturation(o, from);
            from <= n <= o.maxExponent + 1 && SaturatedAfter(n, o) && forall m :: 1 <= m < n ==> !SaturatedAfter(m, o)
    decreases o.maxExponent + 1 - from
  {
    if from <= o.maxExponent && !SaturatedAfter(from, o) {
      FirstSaturationIsFirst(o, from + 1);
    }
  }

  /**
   * Within one streak exactly one failure is the one that saturates, and none if the cap lies beyond
   * the largest delay.
   */
  lemma JustSaturatedOnce(failures: nat, o: BackoffOptions)
    requires failures >= 1 && o.maxMs > 0
    ensures JustSaturatedAfter(failures, o) <==> ReachesCap(o) && failures == FirstSaturation(o, 1)
  {
    if ReachesCap(o) {
      FirstSaturationIsFirst(o, 1);
      var n := FirstSaturation(o, 1);
      if failures > n {
        DelayMonotone(n - 1, failures - 2, o);
      } else if failures < n {
        assert !SaturatedAfter(failures, o);
      } else if n >= 2 {
        assert !SaturatedAfter(n - 1, o);
      }
    } else {
      DelayMonotone(failures - 1, failures - 1 + o.maxExponent, o);
    }
  }

  // ---------------------------------------------------------------- runs of failures and resets

  datatype Op = Failure | Reset

  /** Consecutive failures at the end of a run. */
  function Streak(ops: seq<Op>): nat {
    if ops == [] || ops[|ops| - 1].Reset? then 0 else 1 + Streak(ops[..|ops| - 1])
  }

  /** No reset lies between two points of a run. */
  predicate SameStreak(ops: seq<Op>, i: nat, j: nat)
    requires i <= j < |ops|
  {
    forall k :: i <= k <= j ==> ops[k].Failure?
  }

  lemma {:induction false} StreakGrows(ops: seq<Op>, i: nat, j: nat)
    requires i <= j < |ops| && SameStreak(ops, i, j)
    ensures Streak(ops[..j + 1]) == Streak(ops[..i + 1]) + (j - i)
    decreases j
  {
    if i < j {
      assert SameStreak(ops, i, j - 1);
      StreakGrows(ops, i, j - 1);
      assert ops[..j + 1][..j] == ops[..j];
    }
  }

  /**
   * Over every run of failures and resets: along a streak the delays handed out never decrease and
   * never exceed the cap, and of two failures of one streak at most one is the saturating one.
   */
  lemma StreakDelays(o: BackoffOptions, ops: seq<Op>, i: nat, j: nat)
    requires i < j < |ops| && SameStreak(ops, i, j) && o.maxMs > 0
    ensures DelayAfter(Streak(ops[..i + 1]), o) <= DelayAfter(Streak(ops[..j + 1]), o) <= o.maxMs
    ensures !(JustSaturatedAfter(Streak(ops[..i + 1]), o) && JustSaturatedAfter(Streak(ops[..j + 1]), o))
    ensures SaturatedAfter(Streak(ops[..i + 1]), o) ==> SaturatedAfter(Streak(ops[..j + 1]), o)
  {
    StreakGrows(ops, i, j);
    var a, b := Streak(ops[..i + 1]), Streak(ops[..j + 1]);
    assert a >= 1 by {
      assert ops[..i + 1][i].Failure?;
    }
    DelayMonotone(a - 1, b - 1, o);
    JustSaturatedOnce(a, o);
    JustSaturatedOnce(b, o);
  }

  class ExponentialBackoff {
    const options: BackoffOptions
    var failureCount: nat

    constructor (options: BackoffOptions)
      ensures this.options == options && failureCount == 0
    {
      this.options := options;
      failureCount := 0;
    }

    method RecordFailure() returns (delay: nat)
      modifies this
      ensures failureCount == old(failureCount) + 1 && delay == DelayAfter(failureCount, options)
    {
      failureCount := failureCount + 1;
      delay := CurrentDelay();
    }

    method Reset()
      modifies this
      ensures failureCount == 0
    {
      failureCount := 0;
    }

    function CurrentDelay(): nat
      reads this
    {
      if failureCount == 0 then 0 else ExponentialBackoffDelay(failureCount - 1, options)
    }

    predicate IsSaturated()
      reads this
    {
      CurrentDelay() >= options.maxMs
    }

    predicate JustSaturated()
      reads this
      ensures failureCount >= 1 && options.maxMs > 0 ==>
                (JustSaturated() <==> ReachesCap(options) && failureCount == FirstSaturation(options, 1))
    {
      assert failureCount >= 1 && options.maxMs > 0 ==>
               (JustSaturatedAfter(failureCount, options) <==>
                ReachesCap(options) && failureCount == FirstSaturation(options, 1)) by {
        if failureCount >= 1 && options.maxMs > 0 {
          JustSaturatedOnce(failureCount, options);
        }
      }
      if !IsSaturated() then false
      else if failureCount <= 1 then true
      else ExponentialBackoffDelay(failureCount - 2, options) < options.maxMs
    }
  }
}
