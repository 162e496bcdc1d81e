/**
 * The process-wide ESI rate gate: a time-of-day schedule of calls per
 * second (with an optional positive override), a minimum spacing between
 * the starts of consecutive calls, and a bounded retry of 5xx answers.
 *
 * Time is explicit: `now` is `Date.now()` in milliseconds when the gate is
 * entered; a `sleep(ms)` advances it by exactly `ms`.  HTTP answers come
 * from a status oracle: `statuses(k)` is the status of the k-th attempt.
 */
module Assist {
  import opened Common

  /** `esi_rate_intervals`: (UTC HHMM threshold, calls per second), in key order. */
  const RateIntervals: seq<(int, int)> := [(0, 20), (1059, 0), (1110, 20)]

  /** The value at the largest threshold not above `t`, or `fallback` when there is none. */
  function AtLargestThreshold(intervals: seq<(int, int)>, t: int, fallback: int): int {
    if intervals == [] then fallback
    else if intervals[|intervals| - 1].0 <= t then intervals[|intervals| - 1].1
    else AtLargestThreshold(intervals[..|intervals| - 1], t, fallback)
  }

  /** `parseInt(process.env.rate_limit_override)`: None stands for NaN. */
  function EffectiveLimit(hhmm: int, rateOverride: Option<int>): int {
    if rateOverride.Some? && rateOverride.value > 0 then rateOverride.value
    else AtLargestThreshold(RateIntervals, hhmm, RateIntervals[0].1)
  }

  /**
   * The schedule suspends calls from 10:59 to 11:09 UTC and allows 20 per
   * second at every other minute of the day, unless a positive override
   * replaces it; a NaN or non-positive override is ignored.
   */
  lemma ScheduleBands(hhmm: int, rateOverride: Option<int>)
    requires 0 <= hhmm <= 2359
    ensures rateOverride.Some? && rateOverride.value > 0 ==> EffectiveLimit(hhmm, rateOverride) == rateOverride.value
    ensures !(rateOverride.Some? && rateOverride.value > 0) ==>
              EffectiveLimit(hhmm, rateOverride) == if 1059 <= hhmm <= 1109 then 0 else 20
  {
    assert RateIntervals[..2] == [(0, 20), (1059, 0)];
    assert RateIntervals[..2][..1] == [(0, 20)];
    assert AtLargestThreshold([(0, 20)], hhmm, 20) == 20;
    assert AtLargestThreshold([(0, 20), (1059, 0)], hhmm, 20) == if hhmm >= 1059 then 0 else 20;
  }

  /** `d.getUTCHours() * 100 + d.getUTCMinutes()` for epoch milliseconds `ms`. */
  function HhmmOf(ms: nat): (t: int)
    ensures 0 <= t <= 2359 && t % 100 < 60
  {
    var minuteOfDay := (ms / 60000) % 1440;
    (minuteOfDay / 60) * 100 + minuteOfDay % 60
  }

  /** The delay before the next recomputation: `60000 - (now % 60000)`. */
  function NextRecompute(now: nat): (delay: int)
    ensures 0 < delay <= 60000
    ensures (now + delay) % 60000 == 0
  {
    60000 - now % 60000
  }

  /**
   * The scheduled limit scanned in key order, as the `for ... of` loop does:
   * start from the first entry's value and take every entry whose threshold
   * is not above `hhmm`.
   */
  method ComputeRateLimit(hhmm: int, rateOverride: Option<int>) returns (limit: int)
    ensures limit == EffectiveLimit(hhmm, rateOverride)
  {
    var calcLimit := RateIntervals[0].1;
    for k := 0 to |RateIntervals|
      invariant calcLimit == AtLargestThreshold(RateIntervals[..k], hhmm, RateIntervals[0].1)
    {
      assert RateIntervals[..k + 1][..k] == RateIntervals[..k];
      if hhmm >= RateIntervals[k].0 {
        calcLimit := RateIntervals[k].1;
      }
    }
    assert RateIntervals[..|RateIntervals|] == RateIntervals;
    if rateOverride.Some? && rateOverride.value > 0 {
      calcLimit := rateOverride.value;
    }
    limit := calcLimit;
  }

  /** Whether a call may start at `t` after one started at `last` (`1000/rate` spacing). */
  predicate SpacedAfter(last: int, t: int, rate: int) {
    (t - last) * rate > 1000
  }

  /** Every start is spaced from the one before it, the first from `last`. */
  predicate Spaced(last: int, starts: seq<int>, rate: int)
    decreases |starts|
  {
    starts == [] || (SpacedAfter(last, starts[0], rate) && Spaced(starts[0], starts[1..], rate))
  }

  lemma {:induction false} SpacedSnoc(last: int, starts: seq<int>, t: int, rate: int)
    requires Spaced(last, starts, rate)
    requires SpacedAfter(if starts == [] then last else starts[|starts| - 1], t, rate)
    ensures Spaced(last, starts + [t], rate)
    decreases |starts|
  {
    if starts != [] {
      assert (starts + [t])[1..] == starts[1..] + [t];
      SpacedSnoc(starts[0], starts[1..], t, rate);
    }
  }

  /** How many attempts `doGet` makes: it retries while the status is >= 500 and attempts remain. */
  function RetryCalls(statuses: nat -> int, from: nat, attempts: nat): (n: nat)
    ensures 1 <= n <= attempts + 1
    decreases attempts
  {
    if statuses(from) >= 500 && attempts > 0 then 1 + RetryCalls(statuses, from + 1, attempts - 1) else 1
  }

  /**
   * `doGet` makes at most `attempts + 1` calls; every call but the last got
   * a 5xx, and the last one is either not a 5xx or the final attempt.
   */
  lemma {:induction false} RetryStopsRight(statuses: nat -> int, from: nat, attempts: nat)
    ensures var n := RetryCalls(statuses, from, attempts);
            && (forall k :: from <= k < from + n - 1 ==> statuses(k) >= 500)
            && (statuses(from + n - 1) < 500 || n == attempts + 1)
    decreases attempts
  {
    if statuses(from) >= 500 && attempts > 0 {
      RetryStopsRight(statuses, from + 1, attempts - 1);
    }
  }

  /** A non-positive gap times a positive rate is not positive. */
  lemma GapSign(d: int, rate: int)
    requires rate > 0
    ensures d <= 0 ==> d * rate <= 0
    ensures d > 0 ==> d <= d * rate
  {
  }

  /** The first time in `t, t + 10, t + 20, ...` that is spaced after `last`. */
  method WaitForSlot(t0: int, last: int, rate: int) returns (t: int)
    requires rate > 0
    ensures SpacedAfter(last, t, rate) && t > last
    ensures t0 <= t && (t == t0 || !SpacedAfter(last, t - 10, rate))
  {
    t := t0;
    while !SpacedAfter(last, t, rate)
      invariant t0 <= t && (t == t0 || !SpacedAfter(last, t - 10, rate))
      decreases last + 1000 - t
    {
      GapSign(t - last, rate);
      t := t + 10;
    }
    GapSign(t - last, rate);
  }

  datatype GetResult = Waiting | Got(status: int)

  class RateGate {
    var rateLimit: int
    const rateOverride: Option<int>
    var lastCallEpoch: int
    var initialized: bool
    var limitObject: seq<(int, int)>
    /** Start times of every call issued so far. */
    var callStarts: seq<int>

    constructor (rateOverride: Option<int>)
      ensures this.rateOverride == rateOverride
      ensures rateLimit == -1 && lastCallEpoch == 0 && !initialized
      ensures limitObject == [] && callStarts == []
    {
      this.rateOverride := rateOverride;
      rateLimit := -1;
      lastCallEpoch := 0;
      initialized := false;
      limitObject := [];
      callStarts := [];
    }

    /** `doSetRateLimit`: recompute the limit; returns the delay to the next minute boundary. */
    method SetRateLimit(now: nat) returns (delay: int)
      modifies this`rateLimit
      ensures rateLimit == EffectiveLimit(HhmmOf(now), rateOverride)
      ensures delay == NextRecompute(now)
    {
      rateLimit := ComputeRateLimit(HhmmOf(now), rateOverride);
      delay := 60000 - now % 60000;
    }

    /** `clean_limit_object`: delete the keys below `now` (seconds), in key order. */
    method CleanLimitObject(now: int)
      modifies this`limitObject
      ensures limitObject == DropBelow(old(limitObject), now)
    {
      ghost var a0 := limitObject;
      var keys := KeysOf(limitObject);
      DropListedNone(a0, now);
      for i := 0 to |keys|
        invariant limitObject == DropListed(a0, now, keys[..i])
      {
        DropListedStep(a0, now, keys, i);
        if keys[i] < now {
          limitObject := Delete(limitObject, keys[i]);
        }
      }
      assert keys[..|keys|] == keys;
      assert forall i :: 0 <= i < |a0| ==> a0[i].0 == keys[i];
      DropListedAll(a0, now, keys);
    }

    /**
     * `doGet(app, url, headers, attempts)`.  With a non-positive limit no
     * call is ever issued (the source waits for the next recomputation).
     * Otherwise every attempt first waits, in 10 ms steps, until it is more
     * than `1000/rateLimit` ms after the previous start, records its start,
     * and a 5xx answer with attempts left is retried after 2 s.
     */
    method DoGet(now: int, statuses: nat -> int, attempts: nat) returns (r: GetResult, calls: nat)
      modifies this`lastCallEpoch, this`callStarts, this`initialized
      ensures initialized
      ensures old(rateLimit) <= 0 ==> r == Waiting && calls == 0 && callStarts == old(callStarts)
                                      && lastCallEpoch == old(lastCallEpoch)
      ensures old(rateLimit) > 0 ==>
                && calls == RetryCalls(statuses, 0, attempts)
                && r == Got(statuses(calls - 1))
                && |callStarts| == |old(callStarts)| + calls
                && callStarts[..|old(callStarts)|] == old(callStarts)
                && Spaced(old(lastCallEpoch), callStarts[|old(callStarts)|..], rateLimit)
                && lastCallEpoch == callStarts[|callStarts| - 1]
                && old(lastCallEpoch) < callStarts[|old(callStarts)|]
    {
      initialized := true;
      if rateLimit <= 0 {
        return Waiting, 0;
      }
      ghost var last0 := lastCallEpoch;
      ghost var starts0 := callStarts;
      ghost var issued: seq<int> := [];
      var t := now;
      var left := attempts;
      calls := 0;
      while true
        invariant 0 <= left <= attempts && calls == attempts - left
        invariant RetryCalls(statuses, 0, attempts) == calls + RetryCalls(statuses, calls, left)
        invariant callStarts == starts0 + issued && |issued| == calls
        invariant Spaced(last0, issued, rateLimit)
        invariant lastCallEpoch == if calls == 0 then last0 else issued[calls - 1]
        invariant calls > 0 ==> last0 < issued[0]
        invariant initialized && rateLimit > 0
        decreases left
      {
        // Wait in 10 ms steps until more than 1000/rateLimit ms have passed.
        t := WaitForSlot(t, lastCallEpoch, rateLimit);
        SpacedSnoc(last0, issued, t, rateLimit);
        lastCallEpoch := t;
        issued := issued + [t];
        callStarts := callStarts + [t];
        calls := calls + 1;
        var status := statuses(calls - 1);
        if status >= 500 && left > 0 {
          t := t + 2000;
          left := left - 1;
        } else {
          assert callStarts[|starts0|..] == issued;
          return Got(status), calls;
        }
      }
    }
  }
}
