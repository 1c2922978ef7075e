/**
 * The comparison dialog (src/components/DiffModal.tsx): it loads two versions, orders them older
 * to newer, diffs them, numbers the changed lines for navigation and splits the lines into an
 * old and a new panel. The line-level differ that produces the change list is a parameter.
 */
module DiffModal {
  import opened Wrappers
  import opened Versions
  import opened Diff

  datatype ViewMode = Split | Unified

  /** The version with the smaller number is the older one; on a tie the second is. */
  function Order(a: Version, b: Version): (pair: (Version, Version)) {
    if a.versionNumber < b.versionNumber then (a, b) else (b, a)
  }

  lemma OrderSpec(a: Version, b: Version)
    ensures Order(a, b).0.versionNumber <= Order(a, b).1.versionNumber
    ensures {Order(a, b).0, Order(a, b).1} == {a, b}
    ensures a.versionNumber == b.versionNumber ==> Order(a, b) == (b, a)
    ensures Order(a, b).0.versionNumber < Order(a, b).1.versionNumber ==> Order(a, b) == Order(b, a)
  {
  }

  predicate Changed(line: DiffLine) {
    line.kind != Unchanged
  }

  /** The indices below `n` of lines that are added or removed, in increasing order. */
  function ChangeIndicesUpTo(lines: seq<DiffLine>, n: nat): (r: seq<int>)
    requires n <= |lines|
    ensures forall k :: 0 <= k < |r| ==> 0 <= r[k] < n && Changed(lines[r[k]])
    ensures forall i, j :: 0 <= i < j < |r| ==> r[i] < r[j]
    ensures forall i :: 0 <= i < n && Changed(lines[i]) ==> i in r
  {
    if n == 0 then []
    else ChangeIndicesUpTo(lines, n - 1) + (if Changed(lines[n - 1]) then [n - 1] else [])
  }

  /** `changeLineIndices`. */
  function ChangeLineIndices(lines: seq<DiffLine>): seq<int> {
    ChangeIndicesUpTo(lines, |lines|)
  }

  /** The earlier prefixes of the index list are prefixes of the later ones. */
  lemma {:induction false} ChangeIndicesPrefix(lines: seq<DiffLine>, m: nat, n: nat)
    requires m <= n <= |lines|
    ensures ChangeIndicesUpTo(lines, m) <= ChangeIndicesUpTo(lines, n)
    decreases n - m
  {
    if m < n {
      ChangeIndicesPrefix(lines, m, n - 1);
    }
  }

  /** The number of changed lines below `n`. */
  function ChangesBefore(lines: seq<DiffLine>, n: nat): nat
    requires n <= |lines|
  {
    if n == 0 then 0 else ChangesBefore(lines, n - 1) + (if Changed(lines[n - 1]) then 1 else 0)
  }

  /** That count is the length of the index list up to `n`. */
  lemma {:induction false} ChangesBeforeIsCount(lines: seq<DiffLine>, n: nat)
    requires n <= |lines|
    ensures ChangesBefore(lines, n) == |ChangeIndicesUpTo(lines, n)|
  {
    if n > 0 {
      ChangesBeforeIsCount(lines, n - 1);
    }
  }

  /**
   * `lineToChangeIndex`: a counter that starts at -1 is bumped at every changed line, whose entry
   * is the new count; unchanged lines get -1.
   */
  method LineToChangeIndex(lines: seq<DiffLine>) returns (r: seq<int>)
    ensures |r| == |lines|
    ensures forall i :: 0 <= i < |lines| && !Changed(lines[i]) ==> r[i] == -1
    ensures forall i :: 0 <= i < |lines| && Changed(lines[i]) ==> r[i] == ChangesBefore(lines, i)
  {
    var changeCounter := -1;
    r := [];
    for i := 0 to |lines|
      invariant |r| == i
      invariant changeCounter == ChangesBefore(lines, i) - 1
      invariant forall k :: 0 <= k < i && !Changed(lines[k]) ==> r[k] == -1
      invariant forall k :: 0 <= k < i && Changed(lines[k]) ==> r[k] == ChangesBefore(lines, k)
    {
      if lines[i].kind != Unchanged {
        changeCounter := changeCounter + 1;
        r := r + [changeCounter];
      } else {
        r := r + [-1];
      }
    }
  }

  /**
   * The numbers given to changed lines index `changeLineIndices` at exactly that line, so the
   * changed lines get 0, 1, ..., k - 1 in order with k the number of changes.
   */
  lemma ChangeNumberIsInverse(lines: seq<DiffLine>, i: nat)
    requires i < |lines| && Changed(lines[i])
    ensures ChangesBefore(lines, i) < |ChangeLineIndices(lines)|
    ensures ChangeLineIndices(lines)[ChangesBefore(lines, i)] == i
  {
    ChangesBeforeIsCount(lines, i);
    ChangeIndicesPrefix(lines, i + 1, |lines|);
    assert ChangeIndicesUpTo(lines, i + 1) == ChangeIndicesUpTo(lines, i) + [i];
  }

  /** `Math.min(current + 1, len - 1)`. */
  function NextChange(current: int, count: nat): int {
    Min(current + 1, count - 1)
  }

  /** `Math.max(current - 1, 0)`. */
  function PrevChange(current: int): int {
    Max(current - 1, 0)
  }

  /** The navigation steps by one and stops at both ends. */
  lemma NavigationSpec(current: int, count: nat)
    requires count > 0 && 0 <= current < count
    ensures 0 <= NextChange(current, count) < count && 0 <= PrevChange(current) < count
    ensures current < count - 1 ==> NextChange(current, count) == current + 1
    ensures current == count - 1 ==> NextChange(current, count) == current
    ensures current > 0 ==> PrevChange(current) == current - 1
    ensures current == 0 ==> PrevChange(current) == 0
  {
  }

  /** The old panel: `lines.filter(l => l.type !== 'added')`. */
  function LeftPanel(lines: seq<DiffLine>): (left: seq<DiffLine>)
    ensures forall l :: l in left <==> l in lines && l.kind != Added
  {
    if lines == [] then []
    else LeftPanel(lines[..|lines| - 1]) + (if lines[|lines| - 1].kind != Added then [lines[|lines| - 1]] else [])
  }

  /** The new panel: `lines.filter(l => l.type !== 'removed')`. */
  function RightPanel(lines: seq<DiffLine>): (right: seq<DiffLine>)
    ensures forall l :: l in right <==> l in lines && l.kind != Removed
  {
    if lines == [] then []
    else RightPanel(lines[..|lines| - 1]) + (if lines[|lines| - 1].kind != Removed then [lines[|lines| - 1]] else [])
  }

  lemma {:induction false} LeftPanelAppend(a: seq<DiffLine>, b: seq<DiffLine>)
    ensures LeftPanel(a + b) == LeftPanel(a) + LeftPanel(b)
  {
    if b == [] {
      assert a + b == a;
    } else {
      var c := b[..|b| - 1];
      assert (a + b)[..|a + b| - 1] == a + c;
      assert (a + b)[|a + b| - 1] == b[|b| - 1];
      LeftPanelAppend(a, c);
    }
  }

  lemma {:induction false} RightPanelAppend(a: seq<DiffLine>, b: seq<DiffLine>)
    ensures RightPanel(a + b) == RightPanel(a) + RightPanel(b)
  {
    if b == [] {
      assert a + b == a;
    } else {
      var c := b[..|b| - 1];
      assert (a + b)[..|a + b| - 1] == a + c;
      assert (a + b)[|a + b| - 1] == b[|b| - 1];
      RightPanelAppend(a, c);
    }
  }

  /**
   * Both panels keep the diff's line order: each distributes over concatenation and keeps or
   * drops a single line by its type.
   */
  lemma PanelsKeepOrder(a: seq<DiffLine>, b: seq<DiffLine>)
    ensures LeftPanel(a + b) == LeftPanel(a) + LeftPanel(b)
    ensures RightPanel(a + b) == RightPanel(a) + RightPanel(b)
    ensures forall l :: LeftPanel([l]) == if l.kind != Added then [l] else []
    ensures forall l :: RightPanel([l]) == if l.kind != Removed then [l] else []
  {
    LeftPanelAppend(a, b);
    RightPanelAppend(a, b);
    forall l ensures LeftPanel([l]) == if l.kind != Added then [l] else [] {
      assert [l][..0] == [];
    }
    forall l ensures RightPanel([l]) == if l.kind != Removed then [l] else [] {
      assert [l][..0] == [];
    }
  }

  /** Each panel holds as many lines as its side of the diff has. */
  lemma {:induction false} PanelSizes(lines: seq<DiffLine>)
    ensures |LeftPanel(lines)| == CountType(lines, Removed) + CountType(lines, Unchanged)
    ensures |RightPanel(lines)| == CountType(lines, Added) + CountType(lines, Unchanged)
  {
    if lines != [] {
      PanelSizes(lines[..|lines| - 1]);
    }
  }

  function LinePrefix(kind: LineType): (prefix: string)
    ensures |prefix| == 1
    ensures kind == Added <==> prefix == "+"
    ensures kind == Removed <==> prefix == "-"
    ensures kind == Unchanged <==> prefix == " "
  {
    match kind
    case Added => "+"
    case Removed => "-"
    case Unchanged => " "
  }

  /** The fields of the modal, in the order the class declares them. */
  datatype ModalState = ModalState(
    versionA: Option<Version>, versionB: Option<Version>, diffResult: Option<DiffResult>,
    isLoading: bool, viewMode: ViewMode, currentChangeIndex: int)

  class Modal {
    var versionA: Option<Version>
    var versionB: Option<Version>
    var diffResult: Option<DiffResult>
    var isLoading: bool
    var viewMode: ViewMode
    var currentChangeIndex: int

    function State(): ModalState
      reads this
    {
      ModalState(versionA, versionB, diffResult, isLoading, viewMode, currentChangeIndex)
    }

    constructor ()
      ensures State() == ModalState(None, None, None, true, Split, 0)
    {
      versionA, versionB, diffResult := None, None, None;
      isLoading := true;
      viewMode := Split;
      currentChangeIndex := 0;
    }

    function ChangeCount(): nat
      reads this
    {
      if diffResult.Some? then |ChangeLineIndices(diffResult.value.lines)| else 0
    }

    /**
     * The load effect: fetch both versions; if either lookup fails nothing but the spinner
     * changes. Otherwise order them and diff the older content against the newer one, `lineDiff`
     * being the line-level differ applied to (old text, new text).
     */
    method Load(store: VersionStore, versionIdA: string, versionIdB: string,
                lineDiff: (string, string) -> seq<Change>)
      modifies this
      ensures !isLoading && viewMode == old(viewMode) && currentChangeIndex == old(currentChangeIndex)
      ensures var a := store.Find(versionIdA);
              var b := store.Find(versionIdB);
              && (a.None? || b.None? ==>
                    versionA == old(versionA) && versionB == old(versionB) && diffResult == old(diffResult))
              && (a.Some? && b.Some? ==>
                    && versionA.Some? && versionB.Some? && diffResult.Some?
                    && (versionA.value, versionB.value) == Order(a.value, b.value)
                    && Strip(diffResult.value.lines) == Emitted(lineDiff(versionA.value.content, versionB.value.content))
                    && Numbered(diffResult.value.lines)
                    && diffResult.value.stats == StatsOf(diffResult.value.lines))
    {
      isLoading := true;
      var a := store.GetVersionContent(versionIdA);
      var b := store.GetVersionContent(versionIdB);
      if a.Ok? && b.Ok? {
        var pair := Order(a.value, b.value);
        versionA := Some(pair.0);
        versionB := Some(pair.1);
        var result := ComputeDiff(lineDiff(pair.0.content, pair.1.content));
        diffResult := Some(result);
      }
      isLoading := false;
    }

    /** The down arrow, shown only when there are changes. */
    method GoToNextChange()
      requires ChangeCount() > 0
      modifies this
      ensures State() == old(State()).(currentChangeIndex := NextChange(old(currentChangeIndex), old(ChangeCount())))
    {
      currentChangeIndex := Min(currentChangeIndex + 1, ChangeCount() - 1);
    }

    /** The up arrow. */
    method GoToPrevChange()
      requires ChangeCount() > 0
      modifies this
      ensures State() == old(State()).(currentChangeIndex := PrevChange(old(currentChangeIndex)))
    {
      currentChangeIndex := Max(currentChangeIndex - 1, 0);
    }

    method SetViewMode(mode: ViewMode)
      modifies this
      ensures State() == old(State()).(viewMode := mode)
    {
      viewMode := mode;
    }
  }
}
