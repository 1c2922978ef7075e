/**
 * The JavaScript string operations the editor relies on, over `string = seq<char>`:
 * `indexOf`, `lastIndexOf`, `includes`, `split`/`join` with a non-empty separator,
 * `replace`/`replaceAll` with a string pattern, `trim`, `startsWith`, array `slice`,
 * and the decimal rendering of integers used in template literals.
 */
module Text {
  import opened Wrappers

  /** `p` occurs in `s` starting at index `i`. */
  predicate OccursAt(s: string, p: string, i: int) {
    0 <= i && i + |p| <= |s| && s[i..i + |p|] == p
  }

  /** `s.indexOf(p, k)`: the first occurrence at or after `k`, or -1. */
  function IndexOfFrom(s: string, p: string, k: nat): (i: int)
    requires k <= |s|
    ensures i == -1 || (k <= i <= |s| && OccursAt(s, p, i))
    ensures i == -1 ==> forall j :: k <= j ==> !OccursAt(s, p, j)
    ensures i >= 0 ==> forall j :: k <= j < i ==> !OccursAt(s, p, j)
    decreases |s| - k
  {
    if OccursAt(s, p, k) then k
    else if k == |s| then -1
    else IndexOfFrom(s, p, k + 1)
  }

  /** `s.indexOf(p)`: the least index where `p` occurs, or -1 when it occurs nowhere. */
  function IndexOf(s: string, p: string): (i: int)
    ensures i == -1 || OccursAt(s, p, i)
    ensures i == -1 <==> forall j :: !OccursAt(s, p, j)
    ensures forall j :: 0 <= j < i ==> !OccursAt(s, p, j)
  {
    IndexOfFrom(s, p, 0)
  }

  /** `s.includes(p)`. */
  predicate Contains(s: string, p: string) {
    IndexOf(s, p) >= 0
  }

  /** `s.lastIndexOf(p)` searching backwards from `k`. */
  function LastIndexOfFrom(s: string, p: string, k: nat): (i: int)
    requires k <= |s|
    ensures i == -1 || (0 <= i <= k && OccursAt(s, p, i))
    ensures i == -1 ==> forall j :: j <= k ==> !OccursAt(s, p, j)
    ensures i >= 0 ==> forall j :: i < j <= k ==> !OccursAt(s, p, j)
    decreases k
  {
    if OccursAt(s, p, k) then k
    else if k == 0 then -1
    else LastIndexOfFrom(s, p, k - 1)
  }

  /** `s.lastIndexOf(p)`: the greatest index where `p` occurs, or -1. */
  function LastIndexOf(s: string, p: string): (i: int)
    ensures i == -1 || OccursAt(s, p, i)
    ensures i == -1 <==> forall j :: !OccursAt(s, p, j)
    ensures forall j :: i < j ==> !OccursAt(s, p, j)
  {
    LastIndexOfFrom(s, p, |s|)
  }

  /** `s.split(sep)` for a non-empty separator. */
  function Split(s: string, sep: string): (parts: seq<string>)
    requires sep != []
    ensures |parts| >= 1
    decreases |s|
  {
    var i := IndexOf(s, sep);
    if i < 0 then [s] else [s[..i]] + Split(s[i + |sep|..], sep)
  }

  /** `parts.join(sep)`. */
  function Join(parts: seq<string>, sep: string): string
    decreases |parts|
  {
    if |parts| == 0 then ""
    else if |parts| == 1 then parts[0]
    else parts[0] + sep + Join(parts[1..], sep)
  }

  /** The lines of a text as `content.split('\n')` gives them. */
  function Lines(content: string): (lines: seq<string>)
    ensures |lines| >= 1
  {
    Split(content, "\n")
  }

  /** `lines.join('\n')`. */
  function Unlines(lines: seq<string>): string {
    Join(lines, "\n")
  }

  /** `s.replace(p, r)` with a string pattern: only the first occurrence is rewritten. */
  function ReplaceFirst(s: string, p: string, r: string): string {
    var i := IndexOf(s, p);
    if i < 0 then s else s[..i] + r + s[i + |p|..]
  }

  /** `s.replaceAll("", r)`: `r` before every character and at the end. */
  function InterleaveAll(s: string, r: string): string {
    if s == [] then r else r + [s[0]] + InterleaveAll(s[1..], r)
  }

  /** `s.replaceAll(p, r)` with a string pattern: every non-overlapping occurrence, left to right. */
  function ReplaceAll(s: string, p: string, r: string): string
    decreases |s|
  {
    if p == [] then InterleaveAll(s, r)
    else
      var i := IndexOf(s, p);
      if i < 0 then s else s[..i] + r + ReplaceAll(s[i + |p|..], p, r)
  }

  /** `s.startsWith(p)`. */
  predicate StartsWith(s: string, p: string) {
    |p| <= |s| && s[..|p|] == p
  }

  /** The characters `String.prototype.trim` removes (ECMAScript WhiteSpace and LineTerminator). */
  predicate IsJsWhitespace(ch: char) {
    ch == ' ' || ch == '\t' || ch == '\n' || ch == '\r' || ch == '\U{B}' || ch == '\U{C}'
    || ch == '\U{A0}' || ch == '\U{1680}' || ('\U{2000}' <= ch <= '\U{200A}')
    || ch == '\U{2028}' || ch == '\U{2029}' || ch == '\U{202F}' || ch == '\U{205F}'
    || ch == '\U{3000}' || ch == '\U{FEFF}'
  }

  function TrimStart(s: string): (t: string)
    ensures |t| <= |s| && t == s[|s| - |t|..]
    ensures t == [] || !IsJsWhitespace(t[0])
    ensures forall k :: 0 <= k < |s| - |t| ==> IsJsWhitespace(s[k])
  {
    if s != [] && IsJsWhitespace(s[0]) then TrimStart(s[1..]) else s
  }

  function TrimEnd(s: string): (t: string)
    ensures |t| <= |s| && t == s[..|t|]
    ensures t == [] || !IsJsWhitespace(t[|t| - 1])
    ensures forall k :: |t| <= k < |s| ==> IsJsWhitespace(s[k])
  {
    if s != [] && IsJsWhitespace(s[|s| - 1]) then TrimEnd(s[..|s| - 1]) else s
  }

  /** `s.trim()`. */
  function Trim(s: string): string {
    TrimEnd(TrimStart(s))
  }

  /** How `slice` reads one bound: a negative bound counts back from the end; both are clamped. */
  function SliceBound(i: int, n: nat): (k: nat)
    ensures k <= n
    ensures i >= 0 ==> k == Min(i, n)
    ensures i < 0 ==> k == Max(n + i, 0)
  {
    if i < 0 then Max(n + i, 0) else Min(i, n)
  }

  /** A JavaScript array or string `slice(a, b)`. */
  function Slice<T>(s: seq<T>, a: int, b: int): (r: seq<T>)
    ensures 0 <= a <= b ==> r == s[Min(a, |s|)..Min(b, |s|)]
    ensures b >= 0 && b <= a ==> r == []
  {
    var lo := SliceBound(a, |s|);
    var hi := Max(lo, SliceBound(b, |s|));
    s[lo..hi]
  }

  predicate IsDigit(ch: char) {
    '0' <= ch <= '9'
  }

  function DigitChar(d: nat): (ch: char)
    requires d < 10
    ensures IsDigit(ch) && ch as int - '0' as int == d
  {
    (48 + d) as char
  }

  /** The decimal rendering of a natural number, as a template literal prints it. */
  function NatToString(n: nat): (s: string)
    ensures |s| >= 1
    ensures forall k :: 0 <= k < |s| ==> IsDigit(s[k])
    decreases n
  {
    if n < 10 then [DigitChar(n)] else NatToString(n / 10) + [DigitChar(n % 10)]
  }

  /** The decimal rendering of an integer, with a leading '-' when negative. */
  function IntToString(n: int): string {
    if n < 0 then "-" + NatToString(-n) else NatToString(n)
  }

  /** Reads a string of decimal digits back as a number. */
  function ParseNat(s: string): nat
    requires forall k :: 0 <= k < |s| ==> IsDigit(s[k])
  {
    if s == [] then 0
    else
      assert IsDigit(s[|s| - 1]);
      ParseNat(s[..|s| - 1]) * 10 + (s[|s| - 1] as int - '0' as int)
  }

  /** An ASCII upper-casing of one character. */
  function ToUpperAscii(ch: char): char {
    if 'a' <= ch <= 'z' then (ch as int - 32) as char else ch
  }

  /** The number of occurrences of the character `c` in `s`. */
  function CountChar(s: string, c: char): nat {
    if s == [] then 0 else (if s[0] == c then 1 else 0) + CountChar(s[1..], c)
  }

  // ---------------------------------------------------------------------------
  // Lemmas
  // ---------------------------------------------------------------------------

  /** Any occurrence that has no earlier occurrence is the one `indexOf` finds. */
  lemma IndexOfIs(s: string, p: string, i: int)
    requires OccursAt(s, p, i)
    requires forall j :: 0 <= j < i ==> !OccursAt(s, p, j)
    ensures IndexOf(s, p) == i
  {
  }

  /** A one-character pattern occurs exactly where that character is. */
  lemma OccursAtChar(s: string, c: char, j: int)
    ensures OccursAt(s, [c], j) <==> 0 <= j < |s| && s[j] == c
  {
    if 0 <= j < |s| {
      assert s[j..j + 1] == [s[j]];
    }
  }

  lemma NoCharNoOccurrence(s: string, c: char)
    requires c !in s
    ensures IndexOf(s, [c]) == -1
  {
    forall j ensures !OccursAt(s, [c], j) {
      OccursAtChar(s, c, j);
    }
  }

  /** Splitting on a character: the first part runs up to its first occurrence `i`. */
  lemma SplitAtChar(s: string, c: char, i: nat)
    requires i < |s| && s[i] == c && c !in s[..i]
    ensures Split(s, [c]) == [s[..i]] + Split(s[i + 1..], [c])
  {
    OccursAtChar(s, c, i);
    forall j | 0 <= j < i ensures !OccursAt(s, [c], j) {
      OccursAtChar(s, c, j);
      assert s[j] == s[..i][j];
    }
    IndexOfIs(s, [c], i);
  }

  /** `join(split(s)) == s` for every separator: splitting loses nothing. */
  lemma {:induction false} JoinSplit(s: string, sep: string)
    requires sep != []
    ensures Join(Split(s, sep), sep) == s
    decreases |s|
  {
    var i := IndexOf(s, sep);
    if i >= 0 {
      var rest := s[i + |sep|..];
      var tail := Split(rest, sep);
      assert Split(s, sep) == [s[..i]] + tail;
      calc {
        Join(Split(s, sep), sep);
        { JoinCons(s[..i], tail, sep); }
        s[..i] + sep + Join(tail, sep);
        { JoinSplit(rest, sep); }
        s[..i] + sep + rest;
        { assert s[i..i + |sep|] == sep; assert s == s[..i] + s[i..i + |sep|] + rest; }
        s;
      }
    }
  }

  lemma JoinCons(head: string, tail: seq<string>, sep: string)
    requires |tail| >= 1
    ensures Join([head] + tail, sep) == head + sep + Join(tail, sep)
  {
    assert ([head] + tail)[1..] == tail;
  }

  /** Joining two non-empty lists is joining each and putting one separator between. */
  lemma {:induction false} JoinAppend(a: seq<string>, b: seq<string>, sep: string)
    requires |a| >= 1 && |b| >= 1
    ensures Join(a + b, sep) == Join(a, sep) + sep + Join(b, sep)
    decreases |a|
  {
    if |a| == 1 {
      JoinCons(a[0], b, sep);
      assert a + b == [a[0]] + b;
    } else {
      JoinAppend(a[1..], b, sep);
      assert a + b == [a[0]] + (a[1..] + b);
      JoinCons(a[0], a[1..] + b, sep);
      JoinCons(a[0], a[1..], sep);
      assert a == [a[0]] + a[1..];
    }
  }

  /** No part produced by splitting on `c` contains `c`. */
  lemma {:induction false} SplitPartsAvoidChar(s: string, c: char)
    ensures forall k :: 0 <= k < |Split(s, [c])| ==> c !in Split(s, [c])[k]
    decreases |s|
  {
    var i := IndexOf(s, [c]);
    if i < 0 {
      forall j | 0 <= j < |s| ensures s[j] != c {
        OccursAtChar(s, c, j);
      }
    } else {
      var rest := s[i + 1..];
      SplitPartsAvoidChar(rest, c);
      forall j | 0 <= j < i ensures s[..i][j] != c {
        OccursAtChar(s, c, j);
      }
      assert Split(s, [c]) == [s[..i]] + Split(rest, [c]);
    }
  }

  /** Splitting a join on a character none of the parts contains gives the parts back. */
  lemma {:induction false} SplitJoin(parts: seq<string>, c: char)
    requires |parts| >= 1
    requires forall k :: 0 <= k < |parts| ==> c !in parts[k]
    ensures Split(Join(parts, [c]), [c]) == parts
    decreases |parts|
  {
    if |parts| == 1 {
      NoCharNoOccurrence(parts[0], c);
    } else {
      var rest := Join(parts[1..], [c]);
      var s := parts[0] + [c] + rest;
      assert Join(parts, [c]) == s;
      var n := |parts[0]|;
      assert s[..n] == parts[0] && s[n] == c && s[n + 1..] == rest;
      SplitAtChar(s, c, n);
      SplitJoin(parts[1..], c);
      assert parts == [parts[0]] + parts[1..];
    }
  }

  /** The number of lines is one more than the number of `c` separators. */
  lemma {:induction false} SplitCount(s: string, c: char)
    ensures |Split(s, [c])| == CountChar(s, c) + 1
    decreases |s|
  {
    var i := IndexOf(s, [c]);
    if i < 0 {
      forall j | 0 <= j < |s| ensures s[j] != c {
        OccursAtChar(s, c, j);
      }
      CountAbsent(s, c);
    } else {
      var rest := s[i + 1..];
      assert Split(s, [c]) == [s[..i]] + Split(rest, [c]);
      SplitCount(rest, c);
      OccursAtChar(s, c, i);
      forall j | 0 <= j < i ensures s[..i][j] != c {
        OccursAtChar(s, c, j);
      }
      CountAbsent(s[..i], c);
      var tail := [c] + rest;
      assert s == s[..i] + tail;
      CountConcat(s[..i], tail, c);
      assert tail[1..] == rest;
      assert CountChar(tail, c) == 1 + CountChar(rest, c);
    }
  }

  lemma {:induction false} CountAbsent(s: string, c: char)
    requires forall j :: 0 <= j < |s| ==> s[j] != c
    ensures CountChar(s, c) == 0
  {
    if s != [] {
      CountAbsent(s[1..], c);
    }
  }

  lemma {:induction false} CountConcat(a: string, b: string, c: char)
    ensures CountChar(a + b, c) == CountChar(a, c) + CountChar(b, c)
  {
    if a == [] {
      assert a + b == b;
    } else {
      assert (a + b)[0] == a[0];
      assert (a + b)[1..] == a[1..] + b;
      CountConcat(a[1..], b, c);
    }
  }

  /** `replaceAll` with a non-empty pattern is `split(p).join(r)`. */
  lemma {:induction false} ReplaceAllIsSplitJoin(s: string, p: string, r: string)
    requires p != []
    ensures ReplaceAll(s, p, r) == Join(Split(s, p), r)
    decreases |s|
  {
    var i := IndexOf(s, p);
    if i >= 0 {
      var rest := s[i + |p|..];
      ReplaceAllIsSplitJoin(rest, p, r);
      var tail := Split(rest, p);
      assert Split(s, p) == [s[..i]] + tail;
      assert ([s[..i]] + tail)[1..] == tail;
    }
  }

  /** Replacing every occurrence of a pattern by itself changes nothing. */
  lemma ReplaceAllSelf(s: string, p: string)
    requires p != []
    ensures ReplaceAll(s, p, p) == s
  {
    ReplaceAllIsSplitJoin(s, p, p);
    JoinSplit(s, p);
  }

  /** A text that does not trim to nothing neither starts nor ends with whitespace after trimming. */
  lemma TrimEnds(s: string)
    ensures var t := Trim(s);
            t != [] ==> !IsJsWhitespace(t[0]) && !IsJsWhitespace(t[|t| - 1])
  {
    var u := TrimStart(s);
    var t := TrimEnd(u);
    if t != [] {
      assert t[0] == u[0];
    }
  }

  /** `trim` yields "" exactly when every character is whitespace. */
  lemma TrimEmptyIff(s: string)
    ensures Trim(s) == [] <==> forall k :: 0 <= k < |s| ==> IsJsWhitespace(s[k])
  {
    var u := TrimStart(s);
    if u != [] {
      assert u[0] == s[|s| - |u|];
    }
  }

  /** The decimal rendering can be read back, so distinct numbers render differently. */
  lemma {:induction false} ParseNatToString(n: nat)
    ensures ParseNat(NatToString(n)) == n
    decreases n
  {
    if n >= 10 {
      ParseNatToString(n / 10);
      var s := NatToString(n);
      assert s[..|s| - 1] == NatToString(n / 10);
    }
  }

  lemma NatToStringInjective(a: nat, b: nat)
    requires NatToString(a) == NatToString(b)
    ensures a == b
  {
    ParseNatToString(a);
    ParseNatToString(b);
  }
}
