/**
 * The editor's undo/redo history (`useUndoRedo` in src/app/ai-editor/page.tsx): a linear list of
 * document texts of at most 100 entries, a cursor into it, and a one-shot flag that makes the
 * push following an undo or redo a no-op.
 */
module UndoRedo {
  import opened Wrappers
  import opened Text

  const MaxHistory := 100

  /** The hook's state: the `history` array, the `index` state and the `skipNextPush` ref. */
  datatype HistoryState = HistoryState(entries: seq<string>, index: int, skipNextPush: bool)

  /** The cursor designates an entry and the length is within the cap. */
  predicate InBounds(h: HistoryState) {
    1 <= |h.entries| <= MaxHistory && 0 <= h.index < |h.entries|
  }

  function Initial(value: string): HistoryState {
    HistoryState([value], 0, false)
  }

  /** `history[index]`; outside the array JavaScript reads `undefined`. */
  function Current(h: HistoryState): Option<string> {
    if 0 <= h.index < |h.entries| then Some(h.entries[h.index]) else None
  }

  predicate CanUndo(h: HistoryState) { h.index > 0 }

  predicate CanRedo(h: HistoryState) { h.index < |h.entries| - 1 }

  /** Cut the entries after the cursor, append, and drop the oldest entry beyond the cap. */
  function PushedEntries(h: HistoryState, value: string): seq<string> {
    var kept := Slice(h.entries, 0, h.index + 1) + [value];
    if |kept| > MaxHistory then kept[1..] else kept
  }

  /** `push` exactly as written: the new index is `min(index + 1, 100)`. */
  function PushAsWritten(h: HistoryState, value: string): HistoryState {
    if h.skipNextPush then h.(skipNextPush := false)
    else HistoryState(PushedEntries(h, value), Min(h.index + 1, MaxHistory), false)
  }

  /** `push` with the index capped at 99, the last position of a full history. */
  function PushStep(h: HistoryState, value: string): HistoryState {
    if h.skipNextPush then h.(skipNextPush := false)
    else HistoryState(PushedEntries(h, value), Min(h.index + 1, MaxHistory - 1), false)
  }

  function UndoStep(h: HistoryState): HistoryState {
    if h.index > 0 then HistoryState(h.entries, h.index - 1, true) else h
  }

  function RedoStep(h: HistoryState): HistoryState {
    if h.index < |h.entries| - 1 then HistoryState(h.entries, h.index + 1, true) else h
  }

  /** `reset` replaces the history and the cursor but leaves the skip flag as it was. */
  function ResetStep(h: HistoryState, value: string): HistoryState {
    HistoryState([value], 0, h.skipNextPush)
  }

  /** Apply a run of pushes in order. */
  function PushAll(h: HistoryState, values: seq<string>): HistoryState
    decreases |values|
  {
    if values == [] then h else PushAll(PushStep(h, values[0]), values[1..])
  }

  // ---------------------------------------------------------------------------
  // The class the page uses
  // ---------------------------------------------------------------------------

  class History {
    var entries: seq<string>
    var index: int
    var skipNextPush: bool

    function State(): HistoryState
      reads this
    {
      HistoryState(entries, index, skipNextPush)
    }

    ghost predicate Valid()
      reads this
    {
      InBounds(State())
    }

    constructor (initial: string)
      ensures State() == Initial(initial) && Valid()
    {
      entries := [initial];
      index := 0;
      skipNextPush := false;
    }

    function CurrentValue(): Option<string>
      reads this
    {
      Current(State())
    }

    method Push(value: string)
      requires Valid()
      modifies this
      ensures Valid()
      ensures State() == PushStep(old(State()), value)
    {
      if skipNextPush {
        skipNextPush := false;
        return;
      }
      PushKeepsInBounds(State(), value);
      var newHistory := Slice(entries, 0, index + 1);
      newHistory := newHistory + [value];
      if |newHistory| > MaxHistory {
        newHistory := newHistory[1..];
      }
      entries := newHistory;
      index := Min(index + 1, MaxHistory - 1);
    }

    method Undo()
      requires Valid()
      modifies this
      ensures Valid()
      ensures State() == UndoStep(old(State()))
    {
      if index > 0 {
        skipNextPush := true;
        index := index - 1;
      }
    }

    method Redo()
      requires Valid()
      modifies this
      ensures Valid()
      ensures State() == RedoStep(old(State()))
    {
      if index < |entries| - 1 {
        skipNextPush := true;
        index := index + 1;
      }
    }

    method Reset(value: string)
      modifies this
      ensures Valid()
      ensures State() == ResetStep(old(State()), value)
    {
      entries := [value];
      index := 0;
    }
  }

  // ---------------------------------------------------------------------------
  // Properties
  // ---------------------------------------------------------------------------

  /**
   * A recorded push moves the cursor onto the new value, removes everything that could be redone
   * and keeps at most 100 entries; a push after undo/redo only clears the flag.
   */
  lemma PushKeepsInBounds(h: HistoryState, value: string)
    requires InBounds(h)
    ensures InBounds(PushStep(h, value))
    ensures h.skipNextPush ==> PushStep(h, value) == h.(skipNextPush := false)
    ensures !h.skipNextPush ==>
              var r := PushStep(h, value);
              && Current(r) == Some(value) && !CanRedo(r) && !r.skipNextPush
              && (h.index + 1 < MaxHistory ==> r.entries == h.entries[..h.index + 1] + [value])
              && (h.index + 1 == MaxHistory ==> r.entries == h.entries[1..] + [value])
  {
    if !h.skipNextPush {
      assert Slice(h.entries, 0, h.index + 1) == h.entries[..h.index + 1];
      if h.index + 1 == MaxHistory {
        assert h.entries[..h.index + 1] == h.entries;
        assert (h.entries + [value])[1..] == h.entries[1..] + [value];
      }
    }
  }

  /** The as-written push leaves the range: a full history at its last entry gets index 100. */
  lemma PushAsWrittenLeavesRange()
    ensures var h := HistoryState(seq(MaxHistory, k => "v"), MaxHistory - 1, false);
            && InBounds(h)
            && PushAsWritten(h, "w").index == MaxHistory
            && |PushAsWritten(h, "w").entries| == MaxHistory
            && !InBounds(PushAsWritten(h, "w"))
            && Current(PushAsWritten(h, "w")) == None
  {
    var h := HistoryState(seq(MaxHistory, k => "v"), MaxHistory - 1, false);
    assert Slice(h.entries, 0, h.index + 1) == h.entries;
  }

  /** Below the cap the two pushes agree; they differ only when the history is full. */
  lemma PushAgreesBelowCap(h: HistoryState, value: string)
    requires InBounds(h) && h.index + 1 < MaxHistory
    ensures PushAsWritten(h, value) == PushStep(h, value)
  {
  }

  lemma UndoSpec(h: HistoryState)
    requires InBounds(h)
    ensures InBounds(UndoStep(h))
    ensures CanUndo(h) ==> UndoStep(h) == HistoryState(h.entries, h.index - 1, true)
    ensures !CanUndo(h) ==> UndoStep(h) == h
  {
  }

  lemma RedoSpec(h: HistoryState)
    requires InBounds(h)
    ensures InBounds(RedoStep(h))
    ensures CanRedo(h) ==> RedoStep(h) == HistoryState(h.entries, h.index + 1, true)
    ensures !CanRedo(h) ==> RedoStep(h) == h
  {
  }

  /** Undo right after a recorded push shows again the text that was current before it. */
  lemma UndoAfterPush(h: HistoryState, value: string)
    requires InBounds(h) && !h.skipNextPush
    ensures Current(UndoStep(PushStep(h, value))) == Current(h)
    ensures CanRedo(UndoStep(PushStep(h, value)))
  {
    PushKeepsInBounds(h, value);
    var r := PushStep(h, value);
    if h.index + 1 < MaxHistory {
      assert r.entries[h.index] == h.entries[h.index];
    } else {
      assert r.entries[h.index - 1] == h.entries[h.index];
    }
  }

  /** Redo right after an undo comes back to the same entry. */
  lemma RedoAfterUndo(h: HistoryState)
    requires InBounds(h) && CanUndo(h)
    ensures RedoStep(UndoStep(h)) == h.(skipNextPush := true)
  {
  }

  /**
   * After an undo, the next push is dropped whatever its value, and the push after that is
   * recorded.
   */
  lemma SkipOnlyOnce(h: HistoryState, dropped: string, kept: string)
    requires InBounds(h) && CanUndo(h)
    ensures PushStep(UndoStep(h), dropped) == HistoryState(h.entries, h.index - 1, false)
    ensures Current(PushStep(PushStep(UndoStep(h), dropped), kept)) == Some(kept)
  {
    UndoSpec(h);
    PushKeepsInBounds(UndoStep(h), dropped);
    PushKeepsInBounds(PushStep(UndoStep(h), dropped), kept);
  }

  /** `reset` gives the initial shape again, except that the skip flag survives. */
  lemma ResetSpec(h: HistoryState, value: string)
    ensures ResetStep(h, value) == Initial(value).(skipNextPush := h.skipNextPush)
    ensures InBounds(ResetStep(h, value)) && Current(ResetStep(h, value)) == Some(value)
    ensures !CanUndo(ResetStep(h, value)) && !CanRedo(ResetStep(h, value))
  {
  }

  /** However many pushes happen, the history stays within 100 entries with a valid cursor. */
  lemma {:induction false} PushAllInBounds(h: HistoryState, values: seq<string>)
    requires InBounds(h)
    ensures InBounds(PushAll(h, values))
    ensures |PushAll(h, values).entries| <= MaxHistory
    decreases |values|
  {
    if values != [] {
      PushKeepsInBounds(h, values[0]);
      PushAllInBounds(PushStep(h, values[0]), values[1..]);
    }
  }

  /** The last `n` elements of `s`, or all of it when it is shorter. */
  function Newest(s: seq<string>, n: nat): (r: seq<string>)
    ensures |r| == Min(|s|, n)
  {
    if |s| <= n then s else s[|s| - n..]
  }

  /** Taking the newest `n` of a suffix that is itself at least `n` long is taking them of the whole. */
  lemma NewestOfSuffix(s: seq<string>, t: seq<string>, n: nat)
    requires |s| >= n
    ensures Newest(Newest(s, n) + t, n) == Newest(s + t, n)
  {
    var u := Newest(s, n) + t;
    assert u == (s + t)[|s| - n..];
    if |u| > n {
      assert u[|u| - n..] == (s + t)[|s + t| - n..];
    }
  }

  /**
   * A run of recorded pushes keeps the newest 100 of the kept entries followed by the pushed
   * values, with the cursor on the last one; an armed skip flag swallows only the first push.
   */
  lemma {:induction false} PushAllKeepsNewest(h: HistoryState, values: seq<string>)
    requires InBounds(h)
    ensures values == [] ==> PushAll(h, values) == h
    ensures h.skipNextPush && values != [] ==> PushAll(h, values) == PushAll(h.(skipNextPush := false), values[1..])
    ensures !h.skipNextPush && values != [] ==>
              var r := PushAll(h, values);
              && r.entries == Newest(h.entries[..h.index + 1] + values, MaxHistory)
              && r.index == |r.entries| - 1 && !r.skipNextPush
    decreases |values|
  {
    if !h.skipNextPush && values != [] {
      var kept := h.entries[..h.index + 1];
      var next := PushStep(h, values[0]);
      PushKeepsInBounds(h, values[0]);
      assert next.entries == Newest(kept + [values[0]], MaxHistory) by {
        if h.index + 1 == MaxHistory {
          assert kept == h.entries;
        }
      }
      assert next.index == |next.entries| - 1;
      assert kept + values == (kept + [values[0]]) + values[1..];
      if values[1..] == [] {
        assert values == [values[0]];
      } else {
        PushAllKeepsNewest(next, values[1..]);
        assert next.entries[..next.index + 1] == next.entries;
        if |kept + [values[0]]| >= MaxHistory {
          NewestOfSuffix(kept + [values[0]], values[1..], MaxHistory);
        } else {
          assert next.entries == kept + [values[0]];
        }
      }
    }
  }

  /** 150 pushes after the first render leave exactly the 100 most recent values, in order. */
  lemma ManyPushesKeepLastHundred(initial: string, values: seq<string>)
    requires |values| == 150
    ensures PushAll(Initial(initial), values).entries == values[50..]
    ensures |PushAll(Initial(initial), values).entries| == MaxHistory
    ensures Current(PushAll(Initial(initial), values)) == Some(values[149])
  {
    var h := Initial(initial);
    PushAllKeepsNewest(h, values);
    assert h.entries[..h.index + 1] == [initial];
    assert ([initial] + values)[151 - MaxHistory..] == values[50..];
  }
}
