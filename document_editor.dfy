/**
 * The two text computations of the editor component (src/components/DocumentEditor.tsx): the
 * cursor's line and column, and the number of lines the gutter shows.
 */
module DocumentEditor {
  import opened Wrappers
  import opened Text

  datatype Position = Position(line: int, col: int)

  /** `value.substring(0, k)`: the bound is clamped into the string. */
  function Before(value: string, k: int): string {
    value[..SliceBound(Max(k, 0), |value|)]
  }

  /** `getCursorPosition`: split the text before the cursor into lines; a missing start reads as 0. */
  function CursorPosition(value: string, selectionStart: Option<int>): Position {
    var lines := Lines(Before(value, selectionStart.GetOr(0)));
    Position(|lines|, |lines[|lines| - 1]|)
  }

  /** The gutter's line count, with a missing content read as empty. */
  function LineCount(content: Option<string>): int {
    |Lines(content.GetOr(""))|
  }

  /**
   * The line is one more than the newlines before the cursor, and the column counts the
   * characters back to the last newline before it (or to the start).
   */
  lemma CursorPositionSpec(value: string, selectionStart: Option<int>)
    ensures var before := Before(value, selectionStart.GetOr(0));
            var pos := CursorPosition(value, selectionStart);
            && pos.line == CountChar(before, '\n') + 1
            && 0 <= pos.col <= |before|
            && '\n' !in before[|before| - pos.col..]
            && (pos.col == |before| || before[|before| - pos.col - 1] == '\n')
  {
    var before := Before(value, selectionStart.GetOr(0));
    LinesShape(before);
  }

  /** A text has one line more than newlines, the last line being what follows the last newline. */
  lemma LinesShape(s: string)
    ensures |Lines(s)| == CountChar(s, '\n') + 1
    ensures IsLastPiece(s, '\n', Lines(s)[|Lines(s)| - 1])
  {
    assert "\n" == ['\n'];
    var lines := Split(s, ['\n']);
    assert Lines(s) == lines;
    SplitCount(s, '\n');
    LastLine(s, '\n');
  }

  /** `last` is what follows the last `c` in `s` (or all of `s` when there is none). */
  predicate IsLastPiece(s: string, c: char, last: string) {
    && |last| <= |s|
    && s[|s| - |last|..] == last
    && c !in last
    && (|last| == |s| || s[|s| - |last| - 1] == c)
  }

  /** The last part of a split is the tail of the text after the last separator. */
  lemma {:induction false} LastLine(s: string, c: char)
    ensures var parts := Split(s, [c]);
            IsLastPiece(s, c, parts[|parts| - 1])
    decreases |s|
  {
    var i := IndexOf(s, [c]);
    if i < 0 {
      NoSeparator(s, c);
    } else {
      OccursAtChar(s, c, i);
      var rest := s[i + 1..];
      var parts := Split(rest, [c]);
      var whole := Split(s, [c]);
      assert whole == [s[..i]] + parts;
      assert whole[|whole| - 1] == parts[|parts| - 1];
      LastLine(rest, c);
      TailAfter(s, c, i, parts[|parts| - 1]);
    }
  }

  lemma NoSeparator(s: string, c: char)
    requires IndexOf(s, [c]) < 0
    ensures Split(s, [c]) == [s] && IsLastPiece(s, c, s)
  {
    forall j | 0 <= j < |s| ensures s[j] != c {
      OccursAtChar(s, c, j);
    }
    assert s[|s| - |s|..] == s;
  }

  /** A last piece of the text after a separator at `i` is a last piece of the whole text. */
  lemma TailAfter(s: string, c: char, i: nat, last: string)
    requires i < |s| && s[i] == c
    requires IsLastPiece(s[i + 1..], c, last)
    ensures IsLastPiece(s, c, last)
  {
    assert s[|s| - |last|..] == s[i + 1..][|s| - i - 1 - |last|..];
    if |last| < |s| - i - 1 {
      assert s[|s| - |last| - 1] == s[i + 1..][|s| - i - 1 - |last| - 1];
    }
  }

  /** A missing cursor start is the top-left corner; the line count is the newlines plus one. */
  lemma EditorExamples(value: string, content: Option<string>)
    ensures CursorPosition(value, None) == Position(1, 0)
    ensures LineCount(content) >= 1
    ensures LineCount(content) == CountChar(content.GetOr(""), '\n') + 1
    ensures LineCount(None) == 1
  {
    assert Before(value, 0) == [];
    assert "\n" == ['\n'];
    SplitCount(content.GetOr(""), '\n');
    SplitCount("", '\n');
  }
}
