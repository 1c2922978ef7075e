/**
 * The time-gated throttle (src/hooks/useThrottle.ts): a call runs only when at least `limitMs`
 * elapsed since the last call that ran; the time of that run is kept in a ref starting at 0.
 */
module Throttle {
  import opened Wrappers

  /** `fnRef.current`, `lastRun.current` and the limit of the current render. */
  datatype ThrottleState<F> = ThrottleState(fn: F, lastRun: int, limitMs: int)

  function InitialThrottle<F>(fn: F, limitMs: int): ThrottleState<F> {
    ThrottleState(fn, 0, limitMs)
  }

  /** A render installs the latest callback and limit; `lastRun` survives. */
  function RenderStep<F>(s: ThrottleState<F>, fn: F, limitMs: int): ThrottleState<F> {
    s.(fn := fn, limitMs := limitMs)
  }

  /** The gate: at least `limitMs` has elapsed since the last run. */
  predicate Elapsed<F>(s: ThrottleState<F>, now: int) {
    now - s.lastRun >= s.limitMs
  }

  /**
   * A call at `now` with `args`: either it runs the current callback on those arguments and
   * stamps `now`, or it is dropped.
   */
  function CallStep<F, A>(s: ThrottleState<F>, now: int, args: A): (ThrottleState<F>, Option<(F, A)>) {
    if Elapsed(s, now) then (s.(lastRun := now), Some((s.fn, args))) else (s, None)
  }

  /** The times at which callbacks ran for a run of calls at the given times. */
  function RunTimes<F>(s: ThrottleState<F>, times: seq<int>): seq<int>
    decreases |times|
  {
    if times == [] then []
    else if Elapsed(s, times[0]) then [times[0]] + RunTimes(s.(lastRun := times[0]), times[1..])
    else RunTimes(s, times[1..])
  }

  class Throttler<F> {
    var fn: F
    var lastRun: int
    var limitMs: int

    function State(): ThrottleState<F>
      reads this
    {
      ThrottleState(fn, lastRun, limitMs)
    }

    constructor (fn0: F, limitMs0: int)
      ensures State() == InitialThrottle(fn0, limitMs0)
    {
      fn := fn0;
      lastRun := 0;
      limitMs := limitMs0;
    }

    method Render(fn1: F, limitMs1: int)
      modifies this
      ensures State() == RenderStep(old(State()), fn1, limitMs1)
    {
      fn := fn1;
      limitMs := limitMs1;
    }

    /**
     * The throttled function called at time `now` with `args`; `ran` is the callback that was
     * invoked and the arguments it received, passed through unchanged.
     */
    method Call<A>(now: int, args: A) returns (ran: Option<(F, A)>)
      modifies this
      ensures (State(), ran) == CallStep(old(State()), now, args)
    {
      ran := None;
      if now - lastRun >= limitMs {
        lastRun := now;
        ran := Some((fn, args));
      }
    }
  }

  /**
   * A call runs exactly when the limit has elapsed, handing its own arguments to the current
   * callback; a dropped call changes nothing. The run times are those at which calls ran.
   */
  lemma CallSpec<F, A>(s: ThrottleState<F>, now: int, args: A)
    ensures CallStep(s, now, args).1.Some? <==> now - s.lastRun >= s.limitMs
    ensures CallStep(s, now, args).1.Some? ==> CallStep(s, now, args) == (s.(lastRun := now), Some((s.fn, args)))
    ensures CallStep(s, now, args).1.None? ==> CallStep(s, now, args).0 == s
    ensures RunTimes(s, [now]) == if CallStep(s, now, args).1.Some? then [now] else []
  {
    assert [now][1..] == [];
  }

  /** Since `lastRun` starts at 0, the first call runs once its time reaches the limit. */
  lemma FirstCall<F, A>(fn: F, limitMs: int, now: int, args: A)
    ensures CallStep(InitialThrottle(fn, limitMs), now, args).1 == (if now >= limitMs then Some((fn, args)) else None)
  {
  }

  /**
   * Over a run of calls with a fixed callback and limit, every run is at least `limitMs` after the
   * previous one, and the first at least `limitMs` after the initial `lastRun`.
   */
  lemma {:induction false} RunsAreSpaced<F>(s: ThrottleState<F>, times: seq<int>)
    ensures var runs := RunTimes(s, times);
            && (|runs| > 0 ==> runs[0] - s.lastRun >= s.limitMs)
            && (forall i :: 0 < i < |runs| ==> runs[i] - runs[i - 1] >= s.limitMs)
    decreases |times|
  {
    if times != [] {
      var next := if Elapsed(s, times[0]) then s.(lastRun := times[0]) else s;
      RunsAreSpaced(next, times[1..]);
      var rest := RunTimes(next, times[1..]);
      if Elapsed(s, times[0]) {
        var runs := [times[0]] + rest;
        assert RunTimes(s, times) == runs;
        forall i | 0 < i < |runs| ensures runs[i] - runs[i - 1] >= s.limitMs {
          if i > 1 {
            assert runs[i] == rest[i - 1] && runs[i - 1] == rest[i - 2];
          }
        }
      }
    }
  }
}
