/**
 * `throttle` (src/server/utils/message-protocol.ts, and the same closure in
 * server-old/server.js): a wrapper that runs its function only when at least
 * `delay` milliseconds have passed since the last call that ran. The clock
 * reading `Date.now()` is the `now` parameter; the wrapped function is
 * outside the model, so a call reports only whether it ran.
 */
module Throttling {

  /** Whether a call at `now` runs, given the time of the last call that ran. */
  predicate Runs(lastCall: int, delay: int, now: int)
  {
    !(now - lastCall < delay)
  }

  /** Which calls at the times `times` run, starting from `lastCall`. */
  function RunAll(lastCall: int, delay: int, times: seq<int>): (ran: seq<bool>)
    ensures |ran| == |times|
    decreases |times|
  {
    if times == [] then []
    else
      var now := times[0];
      var runs := Runs(lastCall, delay, now);
      [runs] + RunAll(if runs then now else lastCall, delay, times[1..])
  }

  class Throttle {
    const delay: int
    var lastCall: int

    constructor (delay: int)
      ensures this.delay == delay && lastCall == 0
    {
      this.delay := delay;
      lastCall := 0;
    }

    /** One call of the throttled function at time `now`. */
    method Call(now: int) returns (ran: bool)
      modifies this
      ensures ran <==> Runs(old(lastCall), delay, now)
      ensures lastCall == if ran then now else old(lastCall)
    {
      if now - lastCall < delay {
        return false;
      }
      lastCall := now;
      return true;
    }
  }

  /** With a non-negative delay, a call that runs is at least `delay` after the start point. */
  lemma {:induction false} RunGap(lastCall: int, delay: int, times: seq<int>, k: nat)
    requires 0 <= delay && k < |times| && RunAll(lastCall, delay, times)[k]
    ensures times[k] - lastCall >= delay
    decreases k
  {
    if k > 0 {
      var runs := Runs(lastCall, delay, times[0]);
      var next := if runs then times[0] else lastCall;
      assert RunAll(lastCall, delay, times)[k] == RunAll(next, delay, times[1..])[k - 1];
      RunGap(next, delay, times[1..], k - 1);
    }
  }

  /** Any two calls that run are at least `delay` apart: the wrapped function runs at most once per window. */
  lemma {:induction false} RunsSpaced(lastCall: int, delay: int, times: seq<int>, i: nat, j: nat)
    requires 0 <= delay && i < j < |times|
    requires RunAll(lastCall, delay, times)[i] && RunAll(lastCall, delay, times)[j]
    ensures times[j] - times[i] >= delay
    decreases i
  {
    var runs := Runs(lastCall, delay, times[0]);
    var next := if runs then times[0] else lastCall;
    assert RunAll(lastCall, delay, times)[j] == RunAll(next, delay, times[1..])[j - 1];
    if i == 0 {
      RunGap(next, delay, times[1..], j - 1);
    } else {
      assert RunAll(lastCall, delay, times)[i] == RunAll(next, delay, times[1..])[i - 1];
      RunsSpaced(next, delay, times[1..], i - 1, j - 1);
    }
  }

  /** A call that is suppressed leaves the throttle exactly as it was: the window is measured from the last run. */
  lemma SuppressedCallsDoNotExtendWindow(lastCall: int, delay: int, t1: int, t2: int)
    requires !Runs(lastCall, delay, t1)
    ensures RunAll(lastCall, delay, [t1, t2]) == [false, Runs(lastCall, delay, t2)]
  {
    assert [t1, t2][1..] == [t2];
  }
}
