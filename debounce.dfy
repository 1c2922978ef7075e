/**
 * The cancel-and-rearm debounce (src/hooks/useDebouncedCallback.ts). The returned function and
 * the delay are fixed at the first render; the callback ref is overwritten on every render and
 * read when the timer fires. `F` stands for the callback, `A` for its argument list.
 */
module Debounce {
  import opened Wrappers

  /** `fnRef.current`, the arguments of the one armed timer, and the captured delay. */
  datatype DebounceState<F, A> = DebounceState(fn: F, pending: Option<A>, delayMs: int)

  function InitialDebounce<F, A>(fn: F, delayMs: int): DebounceState<F, A> {
    DebounceState(fn, None, delayMs)
  }

  /** A render stores the latest callback; the delay of the first render stays. */
  function RenderStep<F, A>(s: DebounceState<F, A>, fn: F): DebounceState<F, A> {
    s.(fn := fn)
  }

  /** A call clears whatever timer is pending and arms one for these arguments. */
  function CallStep<F, A>(s: DebounceState<F, A>, args: A): DebounceState<F, A> {
    s.(pending := Some(args))
  }

  /** The timer fires: the callback current at that moment gets the armed arguments. */
  function FireStep<F, A>(s: DebounceState<F, A>): (r: (DebounceState<F, A>, Option<(F, A)>)) {
    if s.pending.Some? then (s.(pending := None), Some((s.fn, s.pending.value))) else (s, None)
  }

  /** A burst of calls. */
  function CallAll<F, A>(s: DebounceState<F, A>, calls: seq<A>): DebounceState<F, A>
    decreases |calls|
  {
    if calls == [] then s else CallAll(CallStep(s, calls[0]), calls[1..])
  }

  class Debouncer<F, A> {
    var fn: F
    var pending: Option<A>
    const delayMs: int

    function State(): DebounceState<F, A>
      reads this
    {
      DebounceState(fn, pending, delayMs)
    }

    constructor (fn0: F, delayMs0: int)
      ensures State() == InitialDebounce(fn0, delayMs0)
    {
      fn := fn0;
      pending := None;
      delayMs := delayMs0;
    }

    method Render(fn1: F)
      modifies this
      ensures State() == RenderStep(old(State()), fn1)
    {
      fn := fn1;
    }

    method Call(args: A)
      modifies this
      ensures State() == CallStep(old(State()), args)
    {
      // clearTimeout and the new setTimeout together replace the armed arguments
      pending := Some(args);
    }

    /** The armed timer runs out; `invoked` is the callback and the arguments it receives. */
    method TimerFires() returns (invoked: Option<(F, A)>)
      modifies this
      ensures (State(), invoked) == FireStep(old(State()))
    {
      if pending.None? {
        return None;
      }
      invoked := Some((fn, pending.value));
      pending := None;
    }
  }

  /** After any non-empty burst exactly one timer is armed, for the last call's arguments. */
  lemma {:induction false} LastCallWins<F, A>(s: DebounceState<F, A>, calls: seq<A>)
    requires |calls| > 0
    ensures CallAll(s, calls).pending == Some(calls[|calls| - 1])
    ensures CallAll(s, calls).fn == s.fn && CallAll(s, calls).delayMs == s.delayMs
    decreases |calls|
  {
    if |calls| > 1 {
      LastCallWins(CallStep(s, calls[0]), calls[1..]);
    }
  }

  /**
   * A burst, renders with new callbacks, and then the timer: the callback delivered is the one
   * of the last render and the arguments are those of the last call; nothing is armed afterwards.
   */
  lemma {:induction false} FireDeliversLatest<F, A>(s: DebounceState<F, A>, calls: seq<A>, fn: F)
    requires |calls| > 0
    ensures var fired := FireStep(RenderStep(CallAll(s, calls), fn));
            && fired.1 == Some((fn, calls[|calls| - 1]))
            && fired.0.pending == None
            && fired.0.delayMs == s.delayMs
  {
    LastCallWins(s, calls);
  }

  /** The timer does nothing when no call armed it, fires once per call, and renders keep the delay. */
  lemma NothingArmedNothingFires<F, A>(fn: F, delayMs: int, fn1: F, args: A)
    ensures FireStep(InitialDebounce<F, A>(fn, delayMs)).1 == None
    ensures RenderStep(InitialDebounce<F, A>(fn, delayMs), fn1).delayMs == delayMs
    ensures FireStep(FireStep(CallStep(InitialDebounce<F, A>(fn, delayMs), args)).0).1 == None
  {
  }
}
