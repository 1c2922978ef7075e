/**
 * The executor of the AI editing tools (src/lib/execute-function.ts). It applies one tool call to the
 * current document text, seen as `content.split('\n')` with 1-based inclusive line numbers, and
 * answers `{ success, newContent?, error? }`; a bad range is reported, never clamped.
 */
module ExecuteFunction {
  import opened Wrappers
  import opened Text

  /**
   * The arguments of a tool call, one field per argument name the five tools read.
   * A tool ignores the fields that are not its own.
   */
  datatype Args = Args(
    startLine: int, endLine: int, newContent: string,
    oldString: string, newString: string, occurrence: string,
    lineNumber: int, content: string, position: string)

  /** The executor's answer `{ success, newContent?, error? }`. */
  datatype ExecResult = ExecResult(success: bool, newContent: Option<string>, error: Option<string>)

  function Failure(message: string): ExecResult {
    ExecResult(false, None, Some(message))
  }

  function Success(content: string): ExecResult {
    ExecResult(true, Some(content), None)
  }

  const UpdateByLineName := "update_doc_by_line"
  const UpdateByReplaceName := "update_doc_by_replace"
  const InsertAtLineName := "insert_at_line"
  const DeleteLinesName := "delete_lines"
  const AppendName := "append_to_document"
  const UnknownFunctionPrefix := "Unknown function: "

  predicate IsToolName(name: string) {
    name in {UpdateByLineName, UpdateByReplaceName, InsertAtLineName, DeleteLinesName, AppendName}
  }

  /** The guard shared by `update_doc_by_line` and `delete_lines`. */
  predicate BadRange(lineCount: int, startLine: int, endLine: int) {
    startLine < 1 || endLine > lineCount || startLine > endLine
  }

  function RangeError(startLine: int, endLine: int, lineCount: int): string {
    "Invalid line range: " + IntToString(startLine) + "-" + IntToString(endLine)
      + ". Document has " + IntToString(lineCount) + " lines."
  }

  function UpdateByLine(startLine: int, endLine: int, newLine: string, current: string): ExecResult {
    var lines := Lines(current);
    if BadRange(|lines|, startLine, endLine) then
      Failure(RangeError(startLine, endLine, |lines|))
    else
      Success(Unlines(lines[..startLine - 1] + [newLine] + lines[endLine..]))
  }

  function UpdateByReplace(oldString: string, newString: string, occurrence: string, current: string): ExecResult {
    if !Contains(current, oldString) then
      Failure("Text \"" + oldString + "\" not found in document")
    else if occurrence == "first" then
      Success(ReplaceFirst(current, oldString, newString))
    else if occurrence == "last" then
      assert OccursAt(current, oldString, IndexOf(current, oldString));
      var lastIndex := LastIndexOf(current, oldString);
      Success(current[..lastIndex] + newString + current[lastIndex + |oldString|..])
    else
      Success(ReplaceAll(current, oldString, newString))
  }

  /** Where `insert_at_line` puts the new line: before line `n` or else after it. */
  function InsertIndex(lineNumber: int, position: string): int {
    if position == "before" then lineNumber - 1 else lineNumber
  }

  function InsertAtLine(lineNumber: int, content: string, position: string, current: string): ExecResult {
    var lines := Lines(current);
    if lineNumber < 1 || lineNumber > |lines| then
      Failure("Invalid line number: " + IntToString(lineNumber) + ". Document has "
        + IntToString(|lines|) + " lines.")
    else
      var i := InsertIndex(lineNumber, position);
      Success(Unlines(lines[..i] + [content] + lines[i..]))
  }

  function DeleteLines(startLine: int, endLine: int, current: string): ExecResult {
    var lines := Lines(current);
    if BadRange(|lines|, startLine, endLine) then
      Failure(RangeError(startLine, endLine, |lines|))
    else
      Success(Unlines(lines[..startLine - 1] + lines[endLine..]))
  }

  function AppendToDocument(content: string, current: string): ExecResult {
    Success(if |current| > 0 then current + "\n" + content else content)
  }

  /** `executeFunctionCall(functionName, args, currentContent)`. */
  function ExecuteFunctionCall(name: string, args: Args, current: string): (r: ExecResult)
    ensures r.success <==> r.newContent.Some?
    ensures r.success <==> r.error.None?
  {
    if name == UpdateByLineName then UpdateByLine(args.startLine, args.endLine, args.newContent, current)
    else if name == UpdateByReplaceName then
      UpdateByReplace(args.oldString, args.newString, args.occurrence, current)
    else if name == InsertAtLineName then InsertAtLine(args.lineNumber, args.content, args.position, current)
    else if name == DeleteLinesName then DeleteLines(args.startLine, args.endLine, current)
    else if name == AppendName then AppendToDocument(args.content, current)
    else Failure(UnknownFunctionPrefix + name)
  }

  // ---------------------------------------------------------------------------
  // Properties of the five tools
  // ---------------------------------------------------------------------------

  /** Joining lines that hold no '\n' and splitting again gives the same lines. */
  lemma LinesOfUnlines(lines: seq<string>)
    requires |lines| >= 1
    requires forall k :: 0 <= k < |lines| ==> '\n' !in lines[k]
    ensures Lines(Unlines(lines)) == lines
  {
    SplitJoin(lines, '\n');
  }

  lemma LinesAvoidNewline(current: string)
    ensures forall k :: 0 <= k < |Lines(current)| ==> '\n' !in Lines(current)[k]
  {
    SplitPartsAvoidChar(current, '\n');
  }

  /**
   * `update_doc_by_line` fails, with no new content, exactly on a bad range; otherwise lines
   * `start..end` are replaced by the one new line and every other line keeps its place.
   */
  lemma UpdateByLineSpec(args: Args, current: string)
    ensures var r := ExecuteFunctionCall(UpdateByLineName, args, current);
            var lines, s, e := Lines(current), args.startLine, args.endLine;
            && (!r.success <==> BadRange(|lines|, s, e))
            && (!r.success ==> r.newContent == None && r.error == Some(RangeError(s, e, |lines|)))
            && (r.success ==> r.newContent == Some(Unlines(lines[..s - 1] + [args.newContent] + lines[e..])))
            && (r.success && '\n' !in args.newContent ==>
                  var out := Lines(r.newContent.value);
                  && out == lines[..s - 1] + [args.newContent] + lines[e..]
                  && |out| == |lines| - (e - s)
                  && out[..s - 1] == lines[..s - 1]
                  && out[s - 1] == args.newContent
                  && out[s..] == lines[e..])
  {
    var lines, s, e := Lines(current), args.startLine, args.endLine;
    if !BadRange(|lines|, s, e) && '\n' !in args.newContent {
      var out := lines[..s - 1] + [args.newContent] + lines[e..];
      LinesAvoidNewline(current);
      assert forall k :: 0 <= k < |out| ==> '\n' !in out[k] by {
        forall k | 0 <= k < |out| ensures '\n' !in out[k] {
          if k < s - 1 { assert out[k] == lines[k]; }
          else if k > s - 1 { assert out[k] == lines[e + k - s]; }
        }
      }
      LinesOfUnlines(out);
      assert out[s..] == lines[e..];
    }
  }

  /**
   * `delete_lines` fails exactly on a bad range; otherwise the prefix before `start` and the suffix
   * after `end` remain, `len - (end - start + 1)` lines in all (deleting every line leaves "").
   */
  lemma DeleteLinesSpec(args: Args, current: string)
    ensures var r := ExecuteFunctionCall(DeleteLinesName, args, current);
            var lines, s, e := Lines(current), args.startLine, args.endLine;
            && (!r.success <==> BadRange(|lines|, s, e))
            && (!r.success ==> r.newContent == None && r.error == Some(RangeError(s, e, |lines|)))
            && (r.success ==>
                  var kept := lines[..s - 1] + lines[e..];
                  && |kept| == |lines| - (e - s + 1)
                  && (kept == [] ==> r.newContent == Some(""))
                  && (kept != [] ==> Lines(r.newContent.value) == kept))
  {
    var lines, s, e := Lines(current), args.startLine, args.endLine;
    if !BadRange(|lines|, s, e) {
      var kept := lines[..s - 1] + lines[e..];
      if kept != [] {
        LinesAvoidNewline(current);
        assert forall k :: 0 <= k < |kept| ==> '\n' !in kept[k] by {
          forall k | 0 <= k < |kept| ensures '\n' !in kept[k] {
            if k < s - 1 { assert kept[k] == lines[k]; }
            else { assert kept[k] == lines[e + k - (s - 1)]; }
          }
        }
        LinesOfUnlines(kept);
      }
    }
  }

  /**
   * `insert_at_line` fails exactly when the line number is outside `1..len`; otherwise it puts the
   * new line at index `line - 1` ("before") or `line` (any other position), giving `len + 1` lines.
   */
  lemma InsertAtLineSpec(args: Args, current: string)
    ensures var r := ExecuteFunctionCall(InsertAtLineName, args, current);
            var lines, n := Lines(current), args.lineNumber;
            var i := if args.position == "before" then n - 1 else n;
            && (!r.success <==> n < 1 || n > |lines|)
            && (!r.success ==> r.newContent == None)
            && (r.success ==> 0 <= i <= |lines| && r.newContent == Some(Unlines(lines[..i] + [args.content] + lines[i..])))
            && (r.success && '\n' !in args.content ==>
                  var out := Lines(r.newContent.value);
                  && |out| == |lines| + 1
                  && out[..i] == lines[..i]
                  && out[i] == args.content
                  && out[i + 1..] == lines[i..])
  {
    var lines, n := Lines(current), args.lineNumber;
    var i := InsertIndex(n, args.position);
    if 1 <= n <= |lines| && '\n' !in args.content {
      LinesAvoidNewline(current);
      InsertIntoLines(lines, i, args.content);
    }
  }

  /** Inserting a line without a newline into lines without one reads back as that line list. */
  lemma InsertIntoLines(lines: seq<string>, i: nat, x: string)
    requires i <= |lines| && '\n' !in x
    requires forall k :: 0 <= k < |lines| ==> '\n' !in lines[k]
    ensures var out := Lines(Unlines(lines[..i] + [x] + lines[i..]));
            && |out| == |lines| + 1 && out[..i] == lines[..i] && out[i] == x && out[i + 1..] == lines[i..]
  {
    var out := lines[..i] + [x] + lines[i..];
    forall k | 0 <= k < |out| ensures '\n' !in out[k] {
      if k < i { assert out[k] == lines[k]; }
      else if k > i { assert out[k] == lines[k - 1]; }
    }
    LinesOfUnlines(out);
    assert out[i + 1..] == lines[i..];
  }

  /** `update_doc_by_replace` fails, quoting `old_string`, exactly when it occurs nowhere. */
  lemma UpdateByReplaceFailsIff(args: Args, current: string)
    ensures var r := ExecuteFunctionCall(UpdateByReplaceName, args, current);
            && (!r.success <==> forall j :: !OccursAt(current, args.oldString, j))
            && (!r.success ==> r.error == Some("Text \"" + args.oldString + "\" not found in document"))
  {
    if Contains(current, args.oldString) {
      assert OccursAt(current, args.oldString, IndexOf(current, args.oldString));
    }
  }

  /** With occurrence "first" only the leftmost occurrence of `old_string` is rewritten. */
  lemma UpdateByReplaceFirst(args: Args, current: string, i: int)
    requires args.occurrence == "first"
    requires OccursAt(current, args.oldString, i)
    requires forall j :: 0 <= j < i ==> !OccursAt(current, args.oldString, j)
    ensures ExecuteFunctionCall(UpdateByReplaceName, args, current)
            == Success(current[..i] + args.newString + current[i + |args.oldString|..])
  {
    IndexOfIs(current, args.oldString, i);
  }

  /** With occurrence "last" only the rightmost occurrence of `old_string` is rewritten. */
  lemma UpdateByReplaceLast(args: Args, current: string, i: int)
    requires args.occurrence == "last"
    requires OccursAt(current, args.oldString, i)
    requires forall j :: i < j ==> !OccursAt(current, args.oldString, j)
    ensures ExecuteFunctionCall(UpdateByReplaceName, args, current)
            == Success(current[..i] + args.newString + current[i + |args.oldString|..])
  {
    assert LastIndexOf(current, args.oldString) == i;
  }

  /**
   * Any other occurrence value rewrites every occurrence: the result is the document split on
   * `old_string` and joined with `new_string`.
   */
  lemma UpdateByReplaceAll(args: Args, current: string)
    requires args.occurrence != "first" && args.occurrence != "last"
    requires args.oldString != [] && Contains(current, args.oldString)
    ensures ExecuteFunctionCall(UpdateByReplaceName, args, current)
            == Success(Join(Split(current, args.oldString), args.newString))
  {
    ReplaceAllIsSplitJoin(current, args.oldString, args.newString);
  }

  /** Replacing every occurrence of a string by itself leaves the document as it was. */
  lemma ReplaceAllByItselfIsIdentity(current: string, target: string)
    requires target != [] && Contains(current, target)
    ensures ExecuteFunctionCall(UpdateByReplaceName, Args(0, 0, "", target, target, "all", 0, "", ""), current)
            == Success(current)
  {
    ReplaceAllSelf(current, target);
  }

  /** `append_to_document` never fails; it adds a '\n' separator unless the document is empty. */
  lemma AppendSpec(args: Args, current: string)
    ensures var r := ExecuteFunctionCall(AppendName, args, current);
            && r.success
            && (current == [] ==> r.newContent == Some(args.content))
            && (current != [] ==> r.newContent == Some(current + "\n" + args.content))
            && (current != [] ==> Lines(r.newContent.value) == Lines(current) + Lines(args.content))
  {
    if current != [] {
      LinesOfAppend(current, args.content);
    }
  }

  /** The lines of `a + "\n" + b` are the lines of `a` followed by the lines of `b`. */
  lemma LinesOfAppend(a: string, b: string)
    ensures Lines(a + "\n" + b) == Lines(a) + Lines(b)
  {
    var la, lb := Lines(a), Lines(b);
    LinesAvoidNewline(a);
    LinesAvoidNewline(b);
    ConcatAvoids(la, lb, '\n');
    JoinSplit(a, "\n");
    JoinSplit(b, "\n");
    JoinAppend(la, lb, "\n");
    assert Unlines(la + lb) == a + "\n" + b;
    LinesOfUnlines(la + lb);
  }

  lemma ConcatAvoids(xs: seq<string>, ys: seq<string>, c: char)
    requires forall k :: 0 <= k < |xs| ==> c !in xs[k]
    requires forall k :: 0 <= k < |ys| ==> c !in ys[k]
    ensures forall k :: 0 <= k < |xs + ys| ==> c !in (xs + ys)[k]
  {
    forall k | 0 <= k < |xs + ys| ensures c !in (xs + ys)[k] {
      if k >= |xs| {
        assert (xs + ys)[k] == ys[k - |xs|];
      }
    }
  }

  /** A name that is none of the five tools fails with an error that quotes the name. */
  lemma UnknownFunctionSpec(name: string, args: Args, current: string)
    requires !IsToolName(name)
    ensures var r := ExecuteFunctionCall(name, args, current);
            && !r.success && r.newContent == None
            && r.error == Some(UnknownFunctionPrefix + name)
            && OccursAt(r.error.value, name, |UnknownFunctionPrefix|)
  {
    var msg := UnknownFunctionPrefix + name;
    assert msg[|UnknownFunctionPrefix|..|UnknownFunctionPrefix| + |name|] == name;
  }

  /** An inverted range (start 5, end 3) fails on every document and yields no content. */
  lemma InvertedRangeAlwaysFails(current: string, args: Args)
    requires args.startLine == 5 && args.endLine == 3
    ensures !ExecuteFunctionCall(UpdateByLineName, args, current).success
    ensures ExecuteFunctionCall(UpdateByLineName, args, current).newContent == None
    ensures !ExecuteFunctionCall(DeleteLinesName, args, current).success
  {
  }

  /** Deleting line 2 of "line1\nline2\nline3" gives "line1\nline3". */
  lemma DeleteMiddleLineExample()
    ensures ExecuteFunctionCall(DeleteLinesName, Args(2, 2, "", "", "", "", 0, "", ""), "line1\nline2\nline3")
            == Success("line1\nline3")
  {
    var lines := ["line1", "line2", "line3"];
    ThreeLines();
    DeleteFromLines(lines, 2, 2);
    assert lines[..1] + lines[2..] == ["line1", "line3"];
  }

  lemma ThreeLines()
    ensures Unlines(["line1", "line2", "line3"]) == "line1\nline2\nline3"
    ensures Unlines(["line1", "line3"]) == "line1\nline3"
    ensures forall k :: 0 <= k < 3 ==> '\n' !in ["line1", "line2", "line3"][k]
  {
    JoinCons("line1", ["line2", "line3"], "\n");
    JoinCons("line2", ["line3"], "\n");
    JoinCons("line1", ["line3"], "\n");
  }

  /** Deleting a good range of a document given by its lines joins the lines that remain. */
  lemma DeleteFromLines(lines: seq<string>, s: int, e: int)
    requires |lines| >= 1 && forall k :: 0 <= k < |lines| ==> '\n' !in lines[k]
    requires 1 <= s <= e <= |lines|
    ensures DeleteLines(s, e, Unlines(lines)) == Success(Unlines(lines[..s - 1] + lines[e..]))
  {
    LinesOfUnlines(lines);
  }

  /** Appending "footer" gives "footer" on an empty document and "body\nfooter" on "body". */
  lemma AppendExamples()
    ensures ExecuteFunctionCall(AppendName, Args(0, 0, "", "", "", "", 0, "footer", ""), "")
            == Success("footer")
    ensures ExecuteFunctionCall(AppendName, Args(0, 0, "", "", "", "", 0, "footer", ""), "body")
            == Success("body\nfooter")
  {
    assert "body" + "\n" + "footer" == "body\nfooter";
  }
}
