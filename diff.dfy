/**
 * The line annotator of the version diff view (src/lib/diff.ts). The change list of a line diff is
 * an input here; each change's lines are emitted in order, typed by the change's flags and numbered
 * on the old side, the new side, or both.
 */
module Diff {
  import opened Wrappers
  import opened Text

  /** One element of the change list of a line diff: a run of text and its two flags. */
  datatype Change = Change(value: string, added: bool, removed: bool)

  datatype LineType = Added | Removed | Unchanged

  datatype DiffLine = DiffLine(kind: LineType, content: string, lineNumberOld: Option<int>, lineNumberNew: Option<int>)

  datatype DiffStats = DiffStats(addedCount: nat, removedCount: nat, unchangedCount: nat)

  datatype DiffResult = DiffResult(lines: seq<DiffLine>, stats: DiffStats)

  /** A line without its numbers: what is shown and how it is typed. */
  datatype Entry = Entry(kind: LineType, content: string)

  /** The flag test order of the annotator: `added` wins over `removed`. */
  function TypeOf(c: Change): LineType {
    if c.added then Added else if c.removed then Removed else Unchanged
  }

  /** The lines of one change: its value split on '\n', without one trailing empty piece. */
  function ChangeLines(value: string): (lines: seq<string>)
    ensures forall k :: 0 <= k < |lines| ==> '\n' !in lines[k]
  {
    SplitPartsAvoidChar(value, '\n');
    var parts := Lines(value);
    if parts[|parts| - 1] == "" then parts[..|parts| - 1] else parts
  }

  function Tagged(c: Change): (es: seq<Entry>)
    ensures |es| == |ChangeLines(c.value)|
  {
    var ls := ChangeLines(c.value);
    seq(|ls|, k requires 0 <= k < |ls| => Entry(TypeOf(c), ls[k]))
  }

  /** Every entry the change list produces, in change order. */
  function Emitted(changes: seq<Change>): seq<Entry> {
    if changes == [] then [] else Emitted(changes[..|changes| - 1]) + Tagged(changes[|changes| - 1])
  }

  function Strip(lines: seq<DiffLine>): (es: seq<Entry>)
    ensures |es| == |lines|
  {
    seq(|lines|, k requires 0 <= k < |lines| => Entry(lines[k].kind, lines[k].content))
  }

  function CountType(lines: seq<DiffLine>, t: LineType): nat {
    if lines == [] then 0
    else CountType(lines[..|lines| - 1], t) + (if lines[|lines| - 1].kind == t then 1 else 0)
  }

  /** Lines that exist in the old text: all but the added ones. */
  function OldCount(lines: seq<DiffLine>): nat {
    CountType(lines, Removed) + CountType(lines, Unchanged)
  }

  /** Lines that exist in the new text: all but the removed ones. */
  function NewCount(lines: seq<DiffLine>): nat {
    CountType(lines, Added) + CountType(lines, Unchanged)
  }

  /**
   * Line `k` has no old number iff it is added and no new number iff it is removed; otherwise its
   * number is one past the count of earlier lines on that side.
   */
  predicate Numbered(lines: seq<DiffLine>) {
    forall k :: 0 <= k < |lines| ==> NumberedAt(lines, k)
  }

  predicate NumberedAt(lines: seq<DiffLine>, k: nat)
    requires k < |lines|
  {
    && lines[k].lineNumberOld == (if lines[k].kind == Added then None else Some(1 + OldCount(lines[..k])))
    && lines[k].lineNumberNew == (if lines[k].kind == Removed then None else Some(1 + NewCount(lines[..k])))
  }

  function StatsOf(lines: seq<DiffLine>): DiffStats {
    DiffStats(CountType(lines, Added), CountType(lines, Removed), CountType(lines, Unchanged))
  }

  /** `computeDiff` over the change list of `diffLines(oldContent, newContent)`. */
  method ComputeDiff(changes: seq<Change>) returns (r: DiffResult)
    ensures Strip(r.lines) == Emitted(changes)
    ensures Numbered(r.lines)
    ensures r.stats == StatsOf(r.lines)
  {
    var lines: seq<DiffLine> := [];
    var lineNumberOld := 1;
    var lineNumberNew := 1;
    var stats := DiffStats(0, 0, 0);
    for i := 0 to |changes|
      invariant Strip(lines) == Emitted(changes[..i])
      invariant Numbered(lines)
      invariant lineNumberOld == 1 + OldCount(lines) && lineNumberNew == 1 + NewCount(lines)
      invariant stats == StatsOf(lines)
    {
      var change := changes[i];
      var changeLines := Lines(change.value);
      if changeLines[|changeLines| - 1] == "" {
        changeLines := changeLines[..|changeLines| - 1];
      }
      assert changeLines == ChangeLines(change.value);
      lines, lineNumberOld, lineNumberNew, stats := EmitLines(change, changeLines, lines, lineNumberOld, lineNumberNew, stats);
      assert changes[..i + 1][..i] == changes[..i];
    }
    assert changes[..|changes|] == changes;
    r := DiffResult(lines, stats);
  }

  /** The inner loop of `computeDiff`: push one numbered line per line of the change. */
  method EmitLines(change: Change, changeLines: seq<string>, lines0: seq<DiffLine>,
                   lineNumberOld0: int, lineNumberNew0: int, stats0: DiffStats)
    returns (lines: seq<DiffLine>, lineNumberOld: int, lineNumberNew: int, stats: DiffStats)
    requires changeLines == ChangeLines(change.value)
    requires Numbered(lines0)
    requires lineNumberOld0 == 1 + OldCount(lines0) && lineNumberNew0 == 1 + NewCount(lines0)
    requires stats0 == StatsOf(lines0)
    ensures Strip(lines) == Strip(lines0) + Tagged(change)
    ensures Numbered(lines)
    ensures lineNumberOld == 1 + OldCount(lines) && lineNumberNew == 1 + NewCount(lines)
    ensures stats == StatsOf(lines)
  {
    lines, lineNumberOld, lineNumberNew, stats := lines0, lineNumberOld0, lineNumberNew0, stats0;
    for j := 0 to |changeLines|
      invariant Strip(lines) == Strip(lines0) + Tagged(change)[..j]
      invariant Numbered(lines)
      invariant lineNumberOld == 1 + OldCount(lines) && lineNumberNew == 1 + NewCount(lines)
      invariant stats == StatsOf(lines)
    {
      var line;
      line, lineNumberOld, lineNumberNew, stats := PushLine(change, changeLines[j], lineNumberOld, lineNumberNew, stats);
      EmitStep(change, lines0, lines, j, line);
      lines := lines + [line];
    }
    assert Tagged(change)[..|changeLines|] == Tagged(change);
  }

  /** The counter of a line's type, one higher. */
  function Bump(stats: DiffStats, t: LineType): DiffStats {
    match t
    case Added => stats.(addedCount := stats.addedCount + 1)
    case Removed => stats.(removedCount := stats.removedCount + 1)
    case Unchanged => stats.(unchangedCount := stats.unchangedCount + 1)
  }

  /**
   * The body of the inner loop: the line is typed by the change's flags (`added` first) and takes
   * the current number on each side it exists on, and those counters and the stats advance.
   */
  method PushLine(change: Change, content: string, lineNumberOld0: int, lineNumberNew0: int, stats0: DiffStats)
    returns (line: DiffLine, lineNumberOld: int, lineNumberNew: int, stats: DiffStats)
    ensures line.kind == TypeOf(change) && line.content == content
    ensures line.lineNumberOld == (if line.kind == Added then None else Some(lineNumberOld0))
    ensures line.lineNumberNew == (if line.kind == Removed then None else Some(lineNumberNew0))
    ensures lineNumberOld == lineNumberOld0 + (if line.kind == Added then 0 else 1)
    ensures lineNumberNew == lineNumberNew0 + (if line.kind == Removed then 0 else 1)
    ensures stats == Bump(stats0, line.kind)
  {
    lineNumberOld, lineNumberNew, stats := lineNumberOld0, lineNumberNew0, stats0;
    if change.added {
      line := DiffLine(Added, content, None, Some(lineNumberNew));
      lineNumberNew := lineNumberNew + 1;
      stats := stats.(addedCount := stats.addedCount + 1);
    } else if change.removed {
      line := DiffLine(Removed, content, Some(lineNumberOld), None);
      lineNumberOld := lineNumberOld + 1;
      stats := stats.(removedCount := stats.removedCount + 1);
    } else {
      line := DiffLine(Unchanged, content, Some(lineNumberOld), Some(lineNumberNew));
      lineNumberOld := lineNumberOld + 1;
      lineNumberNew := lineNumberNew + 1;
      stats := stats.(unchangedCount := stats.unchangedCount + 1);
    }
  }

  /** One pass of the inner loop: the pushed line extends the entries, the numbering and the counts. */
  lemma EmitStep(change: Change, lines0: seq<DiffLine>, lines: seq<DiffLine>, j: nat, line: DiffLine)
    requires j < |Tagged(change)|
    requires Strip(lines) == Strip(lines0) + Tagged(change)[..j]
    requires Numbered(lines)
    requires line.kind == TypeOf(change) && line.content == ChangeLines(change.value)[j]
    requires line.lineNumberOld == (if line.kind == Added then None else Some(1 + OldCount(lines)))
    requires line.lineNumberNew == (if line.kind == Removed then None else Some(1 + NewCount(lines)))
    ensures Strip(lines + [line]) == Strip(lines0) + Tagged(change)[..j + 1]
    ensures Numbered(lines + [line])
    ensures OldCount(lines + [line]) == OldCount(lines) + (if line.kind == Added then 0 else 1)
    ensures NewCount(lines + [line]) == NewCount(lines) + (if line.kind == Removed then 0 else 1)
    ensures StatsOf(lines + [line]) == Bump(StatsOf(lines), line.kind)
  {
    AppendStrip(lines, line);
    assert Tagged(change)[..j + 1] == Tagged(change)[..j] + [Entry(line.kind, line.content)];
    AppendNumbered(lines, line);
    AppendCount(lines, line, Added);
    AppendCount(lines, line, Removed);
    AppendCount(lines, line, Unchanged);
  }

  lemma AppendStrip(lines: seq<DiffLine>, line: DiffLine)
    ensures Strip(lines + [line]) == Strip(lines) + [Entry(line.kind, line.content)]
  {
  }

  lemma AppendCount(lines: seq<DiffLine>, line: DiffLine, t: LineType)
    ensures CountType(lines + [line], t) == CountType(lines, t) + (if line.kind == t then 1 else 0)
  {
    assert (lines + [line])[..|lines|] == lines;
  }

  /** Appending one line numbered from the current counts keeps the numbering. */
  lemma AppendNumbered(lines: seq<DiffLine>, line: DiffLine)
    requires Numbered(lines)
    requires line.lineNumberOld == (if line.kind == Added then None else Some(1 + OldCount(lines)))
    requires line.lineNumberNew == (if line.kind == Removed then None else Some(1 + NewCount(lines)))
    ensures Numbered(lines + [line])
  {
    var all := lines + [line];
    forall k | 0 <= k < |all|
      ensures NumberedAt(all, k)
    {
      if k < |lines| {
        assert NumberedAt(lines, k);
        assert all[k] == lines[k] && all[..k] == lines[..k];
      } else {
        assert all[k] == line && all[..k] == lines;
      }
    }
  }

  // ---------------------------------------------------------------------------
  // Properties
  // ---------------------------------------------------------------------------

  lemma {:induction false} CountsCoverAll(lines: seq<DiffLine>)
    ensures CountType(lines, Added) + CountType(lines, Removed) + CountType(lines, Unchanged) == |lines|
  {
    if lines != [] {
      CountsCoverAll(lines[..|lines| - 1]);
    }
  }

  /** The three counters add up to the number of emitted lines. */
  lemma StatsTotal(r: DiffResult)
    requires r.stats == StatsOf(r.lines)
    ensures r.stats.addedCount + r.stats.removedCount + r.stats.unchangedCount == |r.lines|
  {
    CountsCoverAll(r.lines);
  }

  /** Added lines carry only a new number, removed lines only an old one, unchanged lines both. */
  lemma NumbersBySide(lines: seq<DiffLine>, k: nat)
    requires Numbered(lines) && k < |lines|
    ensures lines[k].kind == Added ==> lines[k].lineNumberOld.None? && lines[k].lineNumberNew.Some?
    ensures lines[k].kind == Removed ==> lines[k].lineNumberOld.Some? && lines[k].lineNumberNew.None?
    ensures lines[k].kind == Unchanged ==> lines[k].lineNumberOld.Some? && lines[k].lineNumberNew.Some?
  {
    assert NumberedAt(lines, k);
  }

  /** Old numbers along the non-added lines run 1, 2, 3, ...: two consecutive ones differ by one. */
  lemma {:induction false} OldNumbersConsecutive(lines: seq<DiffLine>, i: nat, j: nat)
    requires Numbered(lines) && i < j < |lines|
    requires lines[i].kind != Added && lines[j].kind != Added
    requires forall k :: i < k < j ==> lines[k].kind == Added
    ensures lines[i].lineNumberOld.Some? && lines[j].lineNumberOld.Some?
    ensures lines[j].lineNumberOld.value == lines[i].lineNumberOld.value + 1
  {
    assert NumberedAt(lines, i) && NumberedAt(lines, j);
    OldCountGap(lines, i, j);
  }

  lemma {:induction false} OldCountGap(lines: seq<DiffLine>, i: nat, j: nat)
    requires i < j <= |lines|
    requires lines[i].kind != Added
    requires forall k :: i < k < j ==> lines[k].kind == Added
    ensures OldCount(lines[..j]) == OldCount(lines[..i]) + 1
    decreases j - i
  {
    var p := lines[..j];
    assert p[..j - 1] == lines[..j - 1];
    if j == i + 1 {
    } else {
      OldCountGap(lines, i, j - 1);
    }
  }

  /** The first old-side line is number 1 and the first new-side line is number 1. */
  lemma FirstNumbersAreOne(lines: seq<DiffLine>)
    requires Numbered(lines) && |lines| > 0
    ensures lines[0].kind != Added ==> lines[0].lineNumberOld == Some(1)
    ensures lines[0].kind != Removed ==> lines[0].lineNumberNew == Some(1)
  {
    assert NumberedAt(lines, 0);
    assert lines[..0] == [];
  }

  /** A change whose value is empty, or exactly "\n"'s worth of one empty line, emits nothing. */
  lemma EmptyChangeEmitsNothing()
    ensures ChangeLines("") == []
    ensures |ChangeLines("\n")| == 1 && ChangeLines("\n")[0] == ""
  {
    assert IndexOf("", "\n") == -1;
    assert OccursAt("\n", "\n", 0);
    IndexOfIs("\n", "\n", 0);
    assert ("\n")[1..] == "";
  }

  /** The lines of a change and the '\n' the split removed give back the change's value. */
  lemma ChangeLinesRoundTrip(value: string)
    ensures var ls := ChangeLines(value);
            value == if |ls| < |Lines(value)| then (if ls == [] then "" else Unlines(ls) + "\n") else Unlines(ls)
  {
    var parts := Lines(value);
    JoinSplit(value, "\n");
    if parts[|parts| - 1] == "" {
      DropEmptyLast(parts);
    }
  }

  /** Joining lines that end in one empty line is joining the others and adding a '\n'. */
  lemma DropEmptyLast(parts: seq<string>)
    requires |parts| >= 1 && parts[|parts| - 1] == ""
    ensures var ls := parts[..|parts| - 1];
            Unlines(parts) == if ls == [] then "" else Unlines(ls) + "\n"
  {
    var ls := parts[..|parts| - 1];
    if ls == [] {
      assert parts == [""];
    } else {
      assert parts == ls + [""];
      JoinAppend(ls, [""], "\n");
    }
  }

  /** Without any flagged change, every line is unchanged and nothing is counted added or removed. */
  lemma {:induction false} UnflaggedIsUnchanged(changes: seq<Change>)
    requires forall k :: 0 <= k < |changes| ==> !changes[k].added && !changes[k].removed
    ensures forall k :: 0 <= k < |Emitted(changes)| ==> Emitted(changes)[k].kind == Unchanged
  {
    if changes != [] {
      var last := changes[|changes| - 1];
      UnflaggedIsUnchanged(changes[..|changes| - 1]);
      assert TypeOf(last) == Unchanged;
      assert forall k :: 0 <= k < |Tagged(last)| ==> Tagged(last)[k].kind == Unchanged;
    }
  }

  lemma {:induction false} CountAbsentType(lines: seq<DiffLine>, t: LineType)
    requires forall k :: 0 <= k < |lines| ==> lines[k].kind != t
    ensures CountType(lines, t) == 0
  {
    if lines != [] {
      CountAbsentType(lines[..|lines| - 1], t);
    }
  }

  /** The annotator's result for an unflagged change list: all unchanged, zero added and removed. */
  lemma {:induction false} UnflaggedStats(changes: seq<Change>, r: DiffResult)
    requires forall k :: 0 <= k < |changes| ==> !changes[k].added && !changes[k].removed
    requires Strip(r.lines) == Emitted(changes) && r.stats == StatsOf(r.lines)
    ensures forall k :: 0 <= k < |r.lines| ==> r.lines[k].kind == Unchanged
    ensures r.stats.addedCount == 0 && r.stats.removedCount == 0 && r.stats.unchangedCount == |r.lines|
  {
    UnflaggedIsUnchanged(changes);
    forall k | 0 <= k < |r.lines| ensures r.lines[k].kind == Unchanged {
      assert Strip(r.lines)[k] == Entry(r.lines[k].kind, r.lines[k].content);
    }
    CountAbsentType(r.lines, Added);
    CountAbsentType(r.lines, Removed);
    CountsCoverAll(r.lines);
  }
}
