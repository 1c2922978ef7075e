/**
 * What the presence badge shows (src/components/PresenceIndicator.tsx): a connecting state, or up
 * to five avatars with initials, an overflow badge and a count label.
 */
module PresenceIndicator {
  import opened Wrappers
  import opened Text
  import opened Collaboration

  const MaxAvatars := 5
  const CountSuffix := " orang lagi di sini"

  datatype Avatar = Avatar(userId: string, title: string, color: string, initials: string)

  datatype PresenceView =
    | Connecting
    | Live(avatars: seq<Avatar>, overflow: Option<string>, countLabel: Option<string>)

  /** `w[0]` for every word; an empty word reads `undefined`, which `join('')` prints as nothing. */
  function Heads(words: seq<string>): seq<string> {
    if words == [] then [] else [if words[0] == [] then [] else [words[0][0]]] + Heads(words[1..])
  }

  /** The words that contribute a letter. */
  function NonEmptyWords(words: seq<string>): (r: seq<string>)
    ensures forall k :: 0 <= k < |r| ==> r[k] != []
  {
    if words == [] then [] else (if words[0] != [] then [words[0]] else []) + NonEmptyWords(words[1..])
  }

  /** The concatenation of a list of strings, `join('')`. */
  function Concat(parts: seq<string>): string {
    if parts == [] then [] else parts[0] + Concat(parts[1..])
  }

  function UpperAscii(s: string): (r: string)
    ensures |r| == |s| && forall k :: 0 <= k < |s| ==> r[k] == ToUpperAscii(s[k])
  {
    if s == [] then [] else [ToUpperAscii(s[0])] + UpperAscii(s[1..])
  }

  /** `getInitials`: split on spaces, take first letters, upper-case them, keep two. */
  function Initials(name: string): (initials: string)
    ensures |initials| <= 2
  {
    Slice(UpperAscii(Concat(Heads(Split(name, " ")))), 0, 2)
  }

  /** `+{n - 5}` when there are more than five collaborators. */
  function Overflow(n: nat): Option<string> {
    if n > MaxAvatars then Some("+" + NatToString(n - MaxAvatars)) else None
  }

  function CountLabel(n: nat): Option<string> {
    if n == 0 then None
    else if n == 1 then Some("1 orang lagi di sini")
    else Some(NatToString(n) + CountSuffix)
  }

  function AvatarOf(user: Presence): Avatar {
    Avatar(user.userId, user.displayName, user.color, Initials(user.displayName))
  }

  function PresenceViewOf(collaborators: seq<Presence>, isConnected: bool): PresenceView {
    if !isConnected then Connecting
    else
      var shown := Slice(collaborators, 0, MaxAvatars);
      Live(seq(|shown|, k requires 0 <= k < |shown| => AvatarOf(shown[k])),
           Overflow(|collaborators|), CountLabel(|collaborators|))
  }

  /** The first letters of the concatenated heads are exactly the first letters of the non-empty words. */
  lemma {:induction false} HeadsAreFirstLetters(words: seq<string>)
    ensures var letters := Concat(Heads(words));
            var ws := NonEmptyWords(words);
            |letters| == |ws| && forall k :: 0 <= k < |ws| ==> letters[k] == ws[k][0]
  {
    if words != [] {
      HeadsAreFirstLetters(words[1..]);
    }
  }

  /**
   * The initials are the upper-cased first letters of the first two non-empty words, in order;
   * empty words (from repeated spaces) contribute nothing.
   */
  lemma InitialsSpec(name: string)
    ensures var ws := NonEmptyWords(Split(name, " "));
            && |Initials(name)| == Min(|ws|, 2)
            && forall k :: 0 <= k < |Initials(name)| ==> Initials(name)[k] == ToUpperAscii(ws[k][0])
  {
    HeadsAreFirstLetters(Split(name, " "));
  }

  /** Disconnected shows only the connecting state; connected shows the first five and the badges. */
  lemma PresenceViewSpec(collaborators: seq<Presence>, isConnected: bool)
    ensures !isConnected ==> PresenceViewOf(collaborators, isConnected) == Connecting
    ensures isConnected ==>
              var v := PresenceViewOf(collaborators, isConnected);
              var n := |collaborators|;
              && |v.avatars| == Min(n, MaxAvatars)
              && (forall k :: 0 <= k < |v.avatars| ==> v.avatars[k] == AvatarOf(collaborators[k]))
              && (v.overflow.Some? <==> n > MaxAvatars)
              && (n > MaxAvatars ==> v.overflow == Some("+" + NatToString(n - MaxAvatars)))
              && (v.countLabel.None? <==> n == 0)
              && (n == 1 ==> v.countLabel == Some("1 orang lagi di sini"))
              && (n > 1 ==> v.countLabel == Some(NatToString(n) + CountSuffix))
  {
  }

  /** A double space makes an empty word, which is skipped; a single word gives one letter. */
  lemma InitialsExamples()
    ensures Initials("ada  lovelace") == "AL"
    ensures Initials("bob") == "B"
    ensures Initials("") == ""
  {
    InitialsOfTwoWords();
    InitialsOfOneWord();
    InitialsOfEmpty();
  }

  lemma InitialsOfTwoWords()
    ensures Initials("ada  lovelace") == "AL"
  {
    assert "ada  lovelace" == "ada" + "  " + "lovelace";
    SplitDoubleSpace("ada", "lovelace");
    InitialsAroundEmptyWord("ada  lovelace", "ada", "lovelace");
    assert [ToUpperAscii('a'), ToUpperAscii('l')] == "AL";
  }

  /** Two words around an empty one give the two first letters, upper-cased. */
  lemma InitialsAroundEmptyWord(name: string, a: string, b: string)
    requires a != [] && b != [] && Split(name, " ") == [a, "", b]
    ensures Initials(name) == [ToUpperAscii(a[0]), ToUpperAscii(b[0])]
  {
    var words := [a, "", b];
    assert words[1..] == ["", b] && words[1..][1..] == [b] && [b][1..] == [];
    assert Heads([b]) == [[b[0]]];
    assert Heads(["", b]) == [[]] + [[b[0]]];
    assert Heads(words) == [[a[0]], [], [b[0]]];
    var hs := Heads(words);
    assert hs[1..] == [[], [b[0]]] && hs[1..][1..] == [[b[0]]] && [[b[0]]][1..] == [];
    assert Concat([[b[0]]]) == [b[0]];
    assert Concat(hs) == [a[0], b[0]];
  }

  lemma InitialsOfOneWord()
    ensures Initials("bob") == "B"
  {
    assert " " == [' '];
    NoCharNoOccurrence("bob", ' ');
    assert Split("bob", " ") == ["bob"];
  }

  lemma InitialsOfEmpty()
    ensures Initials("") == ""
  {
    assert " " == [' '];
    assert Split("", " ") == [""];
  }

  /** Two space-free words around a double space split into the words and one empty piece. */
  lemma SplitDoubleSpace(a: string, b: string)
    requires ' ' !in a && ' ' !in b
    ensures Split(a + "  " + b, " ") == [a, "", b]
  {
    var words := [a, "", b];
    assert words[1..] == ["", b] && ["", b][1..] == [b];
    assert Join([b], [' ']) == b;
    assert Join(["", b], [' ']) == "" + [' '] + b;
    assert Join(words, [' ']) == a + [' '] + ("" + [' '] + b);
    assert a + [' '] + ("" + [' '] + b) == a + "  " + b;
    assert " " == [' '];
    SplitJoin(words, ' ');
  }
}
