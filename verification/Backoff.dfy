/** Exponential backoff with jitter, over the reals. */
module Backoff {
  function Pow2(n: nat): (p: real)
    ensures p >= 1.0
  {
    if n == 0 then 1.0 else 2.0 * Pow2(n - 1)
  }

  datatype Strategy = Strategy(firstDelay: real, maxDelay: real, resetInterval: real, jitterRatio: real,
                               retryTimes: nat, latestGoodRun: real)
  {
    ghost predicate Valid() {
      firstDelay > 0.0 && maxDelay > 0.0 && jitterRatio >= 0.0
    }

    /** A good run long enough ago starts the count again. */
    predicate Resets(now: real) {
      latestGoodRun > 0.0 && resetInterval > 0.0 && now - latestGoodRun > resetInterval
    }
  }

  /** The n-th backoff: the first delay doubled n times, but never above the maximum. */
  function BackoffTime(first: real, max: real, n: nat): real {
    var delay := first * Pow2(n);
    if delay <= max then delay else max
  }

  /** `random` is a number in [0, 1). */
  function JitterTime(delay: real, ratio: real, random: real): real {
    delay * ratio * random
  }

  function NextDelay(s: Strategy, now: real, random: real, force: bool): (Strategy, real) {
    var n := if s.Resets(now) || force then 0 else s.retryTimes;
    var backoff := BackoffTime(s.firstDelay, s.maxDelay, n);
    (s.(retryTimes := n + 1, latestGoodRun := 0.0),
     if force then s.maxDelay else JitterTime(backoff, s.jitterRatio, random) + backoff / 2.0)
  }

  class BackoffAndJitterStrategy {
    const firstDelay: real
    const maxDelay: real
    const resetInterval: real
    const jitterRatio: real
    var retryTimes: nat
    var latestGoodRun: real

    function View(): Strategy
      reads this
    {
      Strategy(firstDelay, maxDelay, resetInterval, jitterRatio, retryTimes, latestGoodRun)
    }

    constructor (firstDelay: real, maxDelay: real, resetInterval: real, jitterRatio: real)
      ensures View() == Strategy(firstDelay, maxDelay, resetInterval, jitterRatio, 0, 0.0)
    {
      this.firstDelay, this.maxDelay := firstDelay, maxDelay;
      this.resetInterval, this.jitterRatio := resetInterval, jitterRatio;
      retryTimes, latestGoodRun := 0, 0.0;
    }

    method SetGoodRun(current: real, now: real)
      modifies this
      ensures View() == old(View()).(latestGoodRun := if current <= 0.0 then now else current)
    {
      if current <= 0.0 {
        latestGoodRun := now;
      } else {
        latestGoodRun := current;
      }
    }

    method Next(now: real, random: real, force: bool) returns (delay: real)
      modifies this
      ensures (View(), delay) == NextDelay(old(View()), now, random, force)
    {
      if latestGoodRun > 0.0 && resetInterval > 0.0 && now - latestGoodRun > resetInterval {
        retryTimes := 0;
      }
      if force {
        retryTimes := 0;
        delay := maxDelay;
      } else {
        var backoff := BackoffTime(firstDelay, maxDelay, retryTimes);
        delay := JitterTime(backoff, jitterRatio, random) + backoff / 2.0;
      }
      retryTimes := retryTimes + 1;
      latestGoodRun := 0.0;
    }
  }

  // ---------- the backoffs ----------

  lemma Scale(a: real, b: real, c: real)
    requires a <= b && c >= 0.0
    ensures c * a <= c * b && a * c <= b * c
  {
  }

  /** Backoffs are positive, bounded, never shrink, and stay at the maximum once they have reached it. */
  lemma BackoffGrows(first: real, max: real, n: nat)
    requires first > 0.0 && max > 0.0
    ensures 0.0 < BackoffTime(first, max, n) <= BackoffTime(first, max, n + 1) <= max
    ensures BackoffTime(first, max, n) == max ==> BackoffTime(first, max, n + 1) == max
    ensures BackoffTime(first, max, n + 1) < max ==> BackoffTime(first, max, n + 1) == 2.0 * BackoffTime(first, max, n)
  {
  }

  lemma {:induction false} BackoffMonotone(first: real, max: real, m: nat, n: nat)
    requires first > 0.0 && max > 0.0 && m <= n
    ensures BackoffTime(first, max, m) <= BackoffTime(first, max, n)
    decreases n - m
  {
    if m < n {
      BackoffGrows(first, max, n - 1);
      BackoffMonotone(first, max, m, n - 1);
    }
  }

  /** The maximum is reached after finitely many retries, whatever the first delay. */
  lemma BackoffSaturates(first: real, max: real) returns (n: nat)
    requires first > 0.0 && max > 0.0
    ensures BackoffTime(first, max, n) == max
  {
    assert max == first * (max / first);
    n := (max / first).Floor + 1;
    PowAbove(n);
    Scale(max / first, Pow2(n), first);
  }

  lemma {:induction false} PowAbove(n: nat)
    ensures Pow2(n) >= n as real + 1.0
  {
    if n > 0 {
      PowAbove(n - 1);
    }
  }

  // ---------- what starts the count again ----------

  /**
   * A good run that lies longer back than the interval makes the next delay a first one; a more recent one, or
   * none, lets the count go on. Either way the good run is forgotten.
   */
  lemma GoodRunResets(s: Strategy, now: real, random: real)
    ensures var (s', delay) := NextDelay(s, now, random, false);
            var long := s.latestGoodRun > 0.0 && s.resetInterval > 0.0 && s.latestGoodRun + s.resetInterval < now;
            var n := if long then 0 else s.retryTimes;
            && s' == s.(retryTimes := n + 1, latestGoodRun := 0.0)
            && delay == BackoffTime(s.firstDelay, s.maxDelay, n) * s.jitterRatio * random + BackoffTime(s.firstDelay, s.maxDelay, n) / 2.0
  {
    hide BackoffTime;
  }

  /** A forced restart waits for the maximal delay, and the next delay is the one after a first retry. */
  lemma ForcedRestart(s: Strategy, now: real, random: real)
    ensures NextDelay(s, now, random, true) == (s.(retryTimes := 1, latestGoodRun := 0.0), s.maxDelay)
  {
  }

  // ---------- a run of retries ----------

  /** One retry: the time at which it asks for a delay, and its random number. */
  datatype Retry = Retry(now: real, random: real)

  /** The delays of consecutive retries without a good run in between. */
  function Delays(s: Strategy, retries: seq<Retry>): seq<real>
    decreases |retries|
  {
    if retries == [] then [] else
      var (s', delay) := NextDelay(s, retries[0].now, retries[0].random, false);
      [delay] + Delays(s', retries[1..])
  }

  function Sum(xs: seq<real>): real {
    if xs == [] then 0.0 else xs[0] + Sum(xs[1..])
  }

  function Backoffs(first: real, max: real, from: nat, count: nat): seq<real>
    decreases count
  {
    if count == 0 then [] else [BackoffTime(first, max, from)] + Backoffs(first, max, from + 1, count - 1)
  }

  predicate UnitRandoms(retries: seq<Retry>) {
    forall i :: 0 <= i < |retries| ==> 0.0 <= retries[i].random < 1.0
  }

  lemma DelayBounds(s: Strategy, now: real, random: real)
    requires s.Valid() && s.latestGoodRun == 0.0 && s.jitterRatio == 0.5 && 0.0 <= random < 1.0
    ensures var backoff := BackoffTime(s.firstDelay, s.maxDelay, s.retryTimes);
            backoff / 2.0 <= NextDelay(s, now, random, false).1 < backoff
  {
    var backoff := BackoffTime(s.firstDelay, s.maxDelay, s.retryTimes);
    BackoffGrows(s.firstDelay, s.maxDelay, s.retryTimes);
    JitterBounds(backoff, random);
    hide BackoffTime, JitterTime;
    assert NextDelay(s, now, random, false).1 == JitterTime(backoff, s.jitterRatio, random) + backoff / 2.0;
  }

  lemma JitterBounds(backoff: real, random: real)
    requires backoff > 0.0 && 0.0 <= random < 1.0
    ensures 0.0 <= JitterTime(backoff, 0.5, random) < backoff / 2.0
  {
  }

  /** Every delay of the run lies in the upper half of its backoff, and the backoffs count on from the retries so far. */
  lemma {:induction false} DelaysBounded(s: Strategy, retries: seq<Retry>)
    requires s.Valid() && s.latestGoodRun == 0.0 && s.jitterRatio == 0.5 && UnitRandoms(retries)
    ensures |Delays(s, retries)| == |retries|
    ensures forall i :: 0 <= i < |retries| ==>
              var backoff := BackoffTime(s.firstDelay, s.maxDelay, s.retryTimes + i);
              backoff / 2.0 <= Delays(s, retries)[i] < backoff
    decreases |retries|
  {
    if retries != [] {
      DelayBounds(s, retries[0].now, retries[0].random);
      var s' := NextDelay(s, retries[0].now, retries[0].random, false).0;
      DelaysBounded(s', retries[1..]);
      forall i | 1 <= i < |retries|
        ensures var backoff := BackoffTime(s.firstDelay, s.maxDelay, s.retryTimes + i);
                backoff / 2.0 <= Delays(s, retries)[i] < backoff
      {
        assert Delays(s, retries)[i] == Delays(s', retries[1..])[i - 1];
        assert s'.retryTimes + (i - 1) == s.retryTimes + i;
      }
    }
  }

  /** The total waiting time of a run lies in the upper half of the total backoff. */
  lemma {:induction false} TotalBounded(s: Strategy, retries: seq<Retry>)
    requires s.Valid() && s.latestGoodRun == 0.0 && s.jitterRatio == 0.5 && UnitRandoms(retries)
    ensures var total := Sum(Backoffs(s.firstDelay, s.maxDelay, s.retryTimes, |retries|));
            && total / 2.0 <= Sum(Delays(s, retries)) <= total
            && (retries != [] ==> Sum(Delays(s, retries)) < total)
    decreases |retries|
  {
    if retries != [] {
      DelayBounds(s, retries[0].now, retries[0].random);
      var (s', delay) := NextDelay(s, retries[0].now, retries[0].random, false);
      TotalBounded(s', retries[1..]);
      var rest := Backoffs(s.firstDelay, s.maxDelay, s.retryTimes + 1, |retries| - 1);
      assert Backoffs(s.firstDelay, s.maxDelay, s.retryTimes, |retries|)[1..] == rest;
      assert Delays(s, retries)[1..] == Delays(s', retries[1..]);
    }
  }

  /** Until the maximum is passed the total backoff of the first n retries is geometric. */
  lemma {:induction false} TotalGeometric(first: real, max: real, from: nat, count: nat)
    requires first > 0.0 && max > 0.0
    requires count == 0 || first * Pow2(from + count - 1) <= max
    ensures Sum(Backoffs(first, max, from, count)) == first * (Pow2(from + count) - Pow2(from))
    decreases count
  {
    hide Pow2, BackoffTime;
    if count == 0 {
      assert from + count == from && Pow2(from) - Pow2(from) == 0.0;
    } else {
      var all, next, rest := Backoffs(first, max, from, count), from + 1, count - 1;
      assert all[1..] == Backoffs(first, max, next, rest);
      assert next + rest == from + count && next + rest - 1 == from + count - 1;
      TotalGeometric(first, max, next, rest);
      FirstUnsaturated(first, max, from, from + count - 1);
      DoublingSum(first, from, from + count);
      assert Sum(all) == all[0] + Sum(all[1..]);
    }
  }

  lemma FirstUnsaturated(first: real, max: real, m: nat, n: nat)
    requires first > 0.0 && m <= n && first * Pow2(n) <= max
    ensures BackoffTime(first, max, m) == first * Pow2(m)
  {
    PowMonotone(m, n);
    Scale(Pow2(m), Pow2(n), first);
  }

  lemma DoublingSum(first: real, m: nat, n: nat)
    ensures first * Pow2(m) + first * (Pow2(n) - Pow2(m + 1)) == first * (Pow2(n) - Pow2(m))
  {
  }

  lemma {:induction false} PowMonotone(m: nat, n: nat)
    requires m <= n
    ensures Pow2(m) <= Pow2(n)
    decreases n - m
  {
    if m < n {
      PowMonotone(m, n - 1);
    }
  }
}
