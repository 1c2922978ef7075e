/**
 * Presence and typing bookkeeping of a shared document (src/hooks/useCollaboration.ts). The
 * realtime channel is abstract: its presence syncs, broadcasts, subscription status and typing
 * timers arrive as events, and what the hook publishes is appended to an outbox.
 */
module Collaboration {
  import opened Wrappers

  const Palette: seq<string> := ["#FF6B6B", "#4ECDC4", "#45B7D1", "#96CEB4", "#FFEAA7", "#DDA0DD", "#98D8C8", "#F7DC6F"]
  const TypingTimeoutMs := 2000

  datatype Cursor = Cursor(line: int, col: int)

  /** A roster entry; `lastSeen` is the join time in milliseconds. */
  datatype Presence = Presence(userId: string, displayName: string, color: string, cursor: Option<Cursor>, lastSeen: int)

  /** What the hook publishes on the channel. */
  datatype Outgoing = Track(presence: Presence) | ContentChange(content: string, userId: string, timestamp: int)

  /** `getColorForIndex`: the palette wraps around every 8 places. */
  function ColorForIndex(index: nat): (color: string) {
    Palette[index % |Palette|]
  }

  /** Ranks eight apart share a colour, and the first eight ranks get eight different colours. */
  lemma ColorsWrap(index: nat)
    ensures ColorForIndex(index + 8) == ColorForIndex(index)
    ensures ColorForIndex(index) in Palette
    ensures forall i, j :: 0 <= i < j < 8 ==> ColorForIndex(i) != ColorForIndex(j)
  {
  }

  // ---------------------------------------------------------------------------
  // The roster computed on a presence sync
  // ---------------------------------------------------------------------------

  /** `Object.values(state).map(entries => entries[0])`: the first entry under every key. */
  function FirstEntries(state: seq<seq<Presence>>): (users: seq<Presence>)
    requires forall k :: 0 <= k < |state| ==> |state[k]| > 0
    ensures |users| == |state|
    ensures forall k :: 0 <= k < |state| ==> users[k] == state[k][0]
  {
    if state == [] then [] else [state[0][0]] + FirstEntries(state[1..])
  }

  /** `users.filter(u => u.userId !== me)`. */
  function Others(users: seq<Presence>, me: string): (others: seq<Presence>)
    ensures forall p :: p in others <==> p in users && p.userId != me
    ensures |others| <= |users|
  {
    if users == [] then []
    else (if users[0].userId != me then [users[0]] else []) + Others(users[1..], me)
  }

  lemma {:induction false} OthersAppend(a: seq<Presence>, b: seq<Presence>, me: string)
    ensures Others(a + b, me) == Others(a, me) + Others(b, me)
  {
    if a == [] {
      assert a + b == b;
    } else {
      assert (a + b)[0] == a[0] && (a + b)[1..] == a[1..] + b;
      OthersAppend(a[1..], b, me);
      assert Others(a + b, me) == (if a[0].userId != me then [a[0]] else []) + Others(a[1..] + b, me);
    }
  }

  /** The filter keeps roster order: it distributes over concatenation and keeps or drops each entry. */
  lemma OthersKeepsOrder(a: seq<Presence>, b: seq<Presence>, me: string)
    ensures Others(a + b, me) == Others(a, me) + Others(b, me)
    ensures forall p :: Others([p], me) == if p.userId != me then [p] else []
  {
    OthersAppend(a, b, me);
    forall p ensures Others([p], me) == if p.userId != me then [p] else [] {
      assert [p][1..] == [];
    }
  }

  predicate SortedBySeen(users: seq<Presence>) {
    forall i, j :: 0 <= i < j < |users| ==> users[i].lastSeen <= users[j].lastSeen
  }

  /** Put `p` after every entry seen no later than it: insertion that keeps equal entries in order. */
  function Insert(p: Presence, sorted: seq<Presence>): (r: seq<Presence>)
    ensures |r| == |sorted| + 1
  {
    if sorted == [] then [p]
    else if p.lastSeen < sorted[0].lastSeen then [p] + sorted
    else [sorted[0]] + Insert(p, sorted[1..])
  }

  /** Inserting into a sorted list keeps it sorted and adds exactly `p`. */
  lemma InsertSpec(p: Presence, sorted: seq<Presence>)
    requires SortedBySeen(sorted)
    ensures SortedBySeen(Insert(p, sorted))
    ensures multiset(Insert(p, sorted)) == multiset(sorted) + multiset{p}
  {
    InsertMultiset(p, sorted);
    InsertSorted(p, sorted);
  }

  lemma {:induction false} InsertMultiset(p: Presence, sorted: seq<Presence>)
    ensures multiset(Insert(p, sorted)) == multiset(sorted) + multiset{p}
  {
    if sorted != [] && p.lastSeen >= sorted[0].lastSeen {
      InsertMultiset(p, sorted[1..]);
      assert sorted == [sorted[0]] + sorted[1..];
      assert multiset([sorted[0]] + Insert(p, sorted[1..])) == multiset{sorted[0]} + multiset(Insert(p, sorted[1..]));
    }
  }

  lemma {:induction false} InsertSorted(p: Presence, sorted: seq<Presence>)
    requires SortedBySeen(sorted)
    ensures SortedBySeen(Insert(p, sorted))
  {
    if sorted != [] && p.lastSeen >= sorted[0].lastSeen {
      var tail := sorted[1..];
      assert SortedBySeen(tail) by {
        forall i, j | 0 <= i < j < |tail| ensures tail[i].lastSeen <= tail[j].lastSeen {
          assert tail[i] == sorted[i + 1] && tail[j] == sorted[j + 1];
        }
      }
      InsertSorted(p, tail);
      InsertMultiset(p, tail);
      var rest := Insert(p, tail);
      forall k | 0 <= k < |rest| ensures sorted[0].lastSeen <= rest[k].lastSeen {
        assert rest[k] in multiset(rest);
        assert rest[k] in tail || rest[k] == p;
      }
    }
  }

  /** The sort by ascending `lastSeen`; entries seen at the same time keep their roster order. */
  function SortBySeen(users: seq<Presence>): (sorted: seq<Presence>)
    ensures SortedBySeen(sorted)
    ensures multiset(sorted) == multiset(users)
    decreases |users|
  {
    if users == [] then []
    else
      assert users == users[..|users| - 1] + [users[|users| - 1]];
      InsertSpec(users[|users| - 1], SortBySeen(users[..|users| - 1]));
      Insert(users[|users| - 1], SortBySeen(users[..|users| - 1]))
  }

  /** The entries of `users` seen at time `t`, in roster order. */
  function SeenAt(users: seq<Presence>, t: int): seq<Presence> {
    if users == [] then [] else (if users[0].lastSeen == t then [users[0]] else []) + SeenAt(users[1..], t)
  }

  lemma {:induction false} SeenAtAppend(a: seq<Presence>, b: seq<Presence>, t: int)
    ensures SeenAt(a + b, t) == SeenAt(a, t) + SeenAt(b, t)
  {
    if a == [] {
      assert a + b == b;
    } else {
      assert (a + b)[0] == a[0] && (a + b)[1..] == a[1..] + b;
      SeenAtAppend(a[1..], b, t);
      assert SeenAt(a + b, t) == (if a[0].lastSeen == t then [a[0]] else []) + SeenAt(a[1..] + b, t);
    }
  }

  lemma {:induction false} SeenAtNone(users: seq<Presence>, t: int)
    requires forall k :: 0 <= k < |users| ==> users[k].lastSeen != t
    ensures SeenAt(users, t) == []
  {
    if users != [] {
      SeenAtNone(users[1..], t);
    }
  }

  lemma SortedTail(sorted: seq<Presence>)
    requires sorted != [] && SortedBySeen(sorted)
    ensures SortedBySeen(sorted[1..])
  {
    var tail := sorted[1..];
    forall i, j | 0 <= i < j < |tail| ensures tail[i].lastSeen <= tail[j].lastSeen {
      assert tail[i] == sorted[i + 1] && tail[j] == sorted[j + 1];
    }
  }

  /** Inserting into a sorted list puts `p` after every entry seen at the same time. */
  lemma {:induction false} InsertSeenAt(p: Presence, sorted: seq<Presence>, t: int)
    requires SortedBySeen(sorted)
    ensures SeenAt(Insert(p, sorted), t) == SeenAt(sorted, t) + SeenAt([p], t)
  {
    assert [p][1..] == [];
    assert SeenAt([p], t) == (if p.lastSeen == t then [p] else []) + SeenAt([], t);
    if sorted == [] {
      assert Insert(p, sorted) == [p];
    } else if p.lastSeen < sorted[0].lastSeen {
      assert Insert(p, sorted) == [p] + sorted;
      SeenAtAppend([p], sorted, t);
      if p.lastSeen == t {
        forall k | 0 <= k < |sorted| ensures sorted[k].lastSeen != t {
          assert sorted[0].lastSeen <= sorted[k].lastSeen;
        }
        SeenAtNone(sorted, t);
      }
    } else {
      var tail := sorted[1..];
      assert Insert(p, sorted) == [sorted[0]] + Insert(p, tail);
      assert sorted == [sorted[0]] + tail;
      SortedTail(sorted);
      InsertSeenAt(p, tail, t);
      SeenAtAppend([sorted[0]], tail, t);
      SeenAtAppend([sorted[0]], Insert(p, tail), t);
    }
  }

  /** The sort is stable: the entries seen at any one time keep their roster order. */
  lemma {:induction false} SortBySeenStable(users: seq<Presence>, t: int)
    ensures SeenAt(SortBySeen(users), t) == SeenAt(users, t)
    decreases |users|
  {
    if users != [] {
      var init, last := users[..|users| - 1], users[|users| - 1];
      assert users == init + [last];
      SortBySeenStable(init, t);
      InsertSeenAt(last, SortBySeen(init), t);
      SeenAtAppend(init, [last], t);
    }
  }

  /** `findIndex(u => u.userId === me)`. */
  function IndexOfUser(users: seq<Presence>, me: string): (i: int)
    ensures -1 <= i < |users|
    ensures i >= 0 ==> users[i].userId == me && forall k :: 0 <= k < i ==> users[k].userId != me
    ensures i == -1 <==> forall k :: 0 <= k < |users| ==> users[k].userId != me
  {
    if users == [] then -1
    else if users[0].userId == me then 0
    else
      var j := IndexOfUser(users[1..], me);
      if j < 0 then -1 else j + 1
  }

  /** The local colour after a sync: the palette entry of our rank, or the old colour if absent. */
  function SyncColor(users: seq<Presence>, me: string, color: string): string {
    var rank := IndexOfUser(SortBySeen(users), me);
    if rank >= 0 then ColorForIndex(rank) else color
  }

  /** Without the local user in the roster the colour is kept. */
  lemma {:induction false} AbsentKeepsColor(users: seq<Presence>, me: string, color: string)
    requires forall k :: 0 <= k < |users| ==> users[k].userId != me
    ensures SyncColor(users, me, color) == color
  {
    var sorted := SortBySeen(users);
    forall k | 0 <= k < |sorted| ensures sorted[k].userId != me {
      assert sorted[k] in multiset(users);
    }
  }

  /**
   * With distinct join times and user ids, our rank is the number of users who joined before us,
   * so the colour follows join order.
   */
  lemma {:induction false} RankIsJoinOrder(users: seq<Presence>, me: Presence, color: string)
    requires me in users
    requires forall i, j :: 0 <= i < j < |users| ==> users[i].lastSeen != users[j].lastSeen
    requires forall i, j :: 0 <= i < j < |users| ==> users[i].userId != users[j].userId
    ensures IndexOfUser(SortBySeen(users), me.userId) == |set p | p in users && p.lastSeen < me.lastSeen|
    ensures SyncColor(users, me.userId, color) == ColorForIndex(|set p | p in users && p.lastSeen < me.lastSeen|)
  {
    var sorted := SortBySeen(users);
    SameElements(users, sorted);
    var i :| 0 <= i < |sorted| && sorted[i] == me;
    DistinctInSorted(users, sorted);
    RankInSorted(sorted, i);
    SameEarlier(users, sorted, me.lastSeen);
  }

  lemma {:induction false} SameEarlier(a: seq<Presence>, b: seq<Presence>, t: int)
    requires forall p :: p in a <==> p in b
    ensures (set p | p in a && p.lastSeen < t) == (set p | p in b && p.lastSeen < t)
  {
  }

  lemma {:induction false} SameElements(a: seq<Presence>, b: seq<Presence>)
    requires multiset(a) == multiset(b)
    ensures forall p :: p in a <==> p in b
  {
    forall p ensures p in a <==> p in b {
      assert p in a <==> p in multiset(a);
      assert p in b <==> p in multiset(b);
    }
  }

  /** In a strictly increasing list with distinct ids, position `i` is the rank and the id's index. */
  lemma {:induction false} RankInSorted(sorted: seq<Presence>, i: nat)
    requires i < |sorted|
    requires forall a, b :: 0 <= a < b < |sorted| ==> sorted[a].lastSeen < sorted[b].lastSeen
    requires forall a, b :: 0 <= a < b < |sorted| ==> sorted[a].userId != sorted[b].userId
    ensures IndexOfUser(sorted, sorted[i].userId) == i
    ensures |set p | p in sorted && p.lastSeen < sorted[i].lastSeen| == i
  {
    var k := IndexOfUser(sorted, sorted[i].userId);
    assert k == i;
    EarlierIsPrefix(sorted, i);
    DistinctCard(sorted[..i]);
  }

  lemma {:induction false} EarlierIsPrefix(sorted: seq<Presence>, i: nat)
    requires i < |sorted|
    requires forall a, b :: 0 <= a < b < |sorted| ==> sorted[a].lastSeen < sorted[b].lastSeen
    ensures (set p | p in sorted && p.lastSeen < sorted[i].lastSeen) == set p | p in sorted[..i]
  {
    var t := sorted[i].lastSeen;
    forall p | p in sorted && p.lastSeen < t ensures p in sorted[..i] {
      var a :| 0 <= a < |sorted| && sorted[a] == p;
      assert a < i;
      assert sorted[..i][a] == p;
    }
    forall p | p in sorted[..i] ensures p in sorted && p.lastSeen < t {
      var a :| 0 <= a < i && sorted[..i][a] == p;
      assert sorted[a] == p;
    }
  }

  /** A list without repeated entries has as many elements as its set. */
  lemma {:induction false} DistinctCard(s: seq<Presence>)
    requires forall a, b :: 0 <= a < b < |s| ==> s[a] != s[b]
    ensures |set p | p in s| == |s|
  {
    if s != [] {
      DistinctCard(s[1..]);
      assert (set p | p in s) == {s[0]} + (set p | p in s[1..]) by {
        assert s == [s[0]] + s[1..];
      }
      assert s[0] !in s[1..] by {
        forall k | 0 <= k < |s[1..]| ensures s[1..][k] != s[0] {
          assert s[1..][k] == s[k + 1];
        }
      }
    }
  }

  lemma {:induction false} DistinctInSorted(users: seq<Presence>, sorted: seq<Presence>)
    requires multiset(sorted) == multiset(users)
    requires SortedBySeen(sorted)
    requires forall i, j :: 0 <= i < j < |users| ==> users[i].lastSeen != users[j].lastSeen
    requires forall i, j :: 0 <= i < j < |users| ==> users[i].userId != users[j].userId
    ensures forall i, j :: 0 <= i < j < |sorted| ==> sorted[i].lastSeen < sorted[j].lastSeen
    ensures forall i, j :: 0 <= i < j < |sorted| ==> sorted[i].userId != sorted[j].userId
  {
    forall i, j | 0 <= i < j < |sorted|
      ensures sorted[i].lastSeen != sorted[j].lastSeen && sorted[i].userId != sorted[j].userId
    {
      assert sorted[i] in multiset(users) && sorted[j] in multiset(users);
      var a :| 0 <= a < |users| && users[a] == sorted[i];
      var b :| 0 <= b < |users| && users[b] == sorted[j];
      if a == b {
        // The same entry twice in `sorted` would occur twice in `users`.
        MultisetTwice(sorted, i, j);
        MultisetOnce(users, a);
        assert false;
      }
    }
  }

  lemma {:induction false} MultisetTwice(s: seq<Presence>, i: nat, j: nat)
    requires i < j < |s| && s[i] == s[j]
    ensures multiset(s)[s[i]] >= 2
  {
    assert s == s[..i] + [s[i]] + s[i + 1..j] + [s[j]] + s[j + 1..];
  }

  lemma {:induction false} MultisetOnce(s: seq<Presence>, a: nat)
    requires a < |s|
    requires forall i, j :: 0 <= i < j < |s| ==> s[i].lastSeen != s[j].lastSeen
    ensures multiset(s)[s[a]] == 1
  {
    assert s == s[..a] + [s[a]] + s[a + 1..];
    assert s[a] !in s[..a] by {
      forall k | 0 <= k < a ensures s[..a][k] != s[a] { assert s[..a][k] == s[k]; }
    }
    assert s[a] !in s[a + 1..] by {
      var t := s[a + 1..];
      forall k | 0 <= k < |t| ensures t[k] != s[a] { assert t[k] == s[k + a + 1]; }
    }
    assert multiset(s) == multiset(s[..a]) + multiset{s[a]} + multiset(s[a + 1..]);
  }

  // ---------------------------------------------------------------------------
  // The typing list
  // ---------------------------------------------------------------------------

  predicate NoDuplicates(xs: seq<string>) {
    forall i, j :: 0 <= i < j < |xs| ==> xs[i] != xs[j]
  }

  /** `prev.includes(u) ? prev : [...prev, u]`. */
  function AddTyping(typing: seq<string>, u: string): (r: seq<string>)
    ensures NoDuplicates(typing) ==> NoDuplicates(r)
    ensures forall x :: x in r <==> x in typing || x == u
    ensures u in typing ==> r == typing
    ensures u !in typing ==> r == typing + [u]
  {
    if u in typing then typing else typing + [u]
  }

  /** `prev.filter(id => id !== u)`. */
  function RemoveTyping(typing: seq<string>, u: string): (r: seq<string>)
    ensures NoDuplicates(typing) ==> NoDuplicates(r)
    ensures forall x :: x in r <==> x in typing && x != u
    ensures u !in typing ==> r == typing
  {
    if typing == [] then []
    else
      assert NoDuplicates(typing) ==> NoDuplicates(typing[1..]) && typing[0] !in typing[1..] by {
        if NoDuplicates(typing) {
          forall k | 0 <= k < |typing[1..]| ensures typing[1..][k] != typing[0] {
            assert typing[1..][k] == typing[k + 1];
          }
        }
      }
      (if typing[0] != u then [typing[0]] else []) + RemoveTyping(typing[1..], u)
  }

  lemma {:induction false} RemoveTypingAppend(a: seq<string>, b: seq<string>, u: string)
    ensures RemoveTyping(a + b, u) == RemoveTyping(a, u) + RemoveTyping(b, u)
  {
    if a == [] {
      assert a + b == b;
    } else {
      assert (a + b)[0] == a[0] && (a + b)[1..] == a[1..] + b;
      RemoveTypingAppend(a[1..], b, u);
      assert RemoveTyping(a + b, u) == (if a[0] != u then [a[0]] else []) + RemoveTyping(a[1..] + b, u);
    }
  }

  /** Removal keeps the order of the remaining ids: it distributes over concatenation. */
  lemma RemoveTypingKeepsOrder(a: seq<string>, b: seq<string>, u: string)
    ensures RemoveTyping(a + b, u) == RemoveTyping(a, u) + RemoveTyping(b, u)
    ensures forall x :: RemoveTyping([x], u) == if x != u then [x] else []
  {
    RemoveTypingAppend(a, b, u);
    forall x ensures RemoveTyping([x], u) == if x != u then [x] else [] {
      assert [x][1..] == [];
    }
  }

  // ---------------------------------------------------------------------------
  // The hook
  // ---------------------------------------------------------------------------

  /** The fields of a session, in the order the class declares them. */
  datatype SessionState = SessionState(
    documentId: Option<string>, userId: string, displayName: string, channelOpen: bool,
    isConnected: bool, collaborators: seq<Presence>, typingUsers: seq<string>, myColor: string,
    typingTimers: set<string>, outbox: seq<Outgoing>)

  class Session {
    var documentId: Option<string>
    var userId: string
    var displayName: string
    /** `channelRef.current !== null`. */
    var channelOpen: bool
    var isConnected: bool
    var collaborators: seq<Presence>
    var typingUsers: seq<string>
    var myColor: string
    /** The users whose typing timer is pending. */
    var typingTimers: set<string>
    var outbox: seq<Outgoing>

    /** All ten fields as one value, so that each method can say which of them it changes. */
    function State(): SessionState
      reads this
    {
      SessionState(documentId, userId, displayName, channelOpen, isConnected, collaborators,
                   typingUsers, myColor, typingTimers, outbox)
    }

    ghost predicate Valid()
      reads this
    {
      && NoDuplicates(typingUsers)
      && (forall u :: u in typingUsers <==> u in typingTimers)
      && userId !in typingUsers
      && (isConnected ==> channelOpen)
      && (channelOpen ==> Truthy(documentId) && userId != "")
    }

    /** The first render: no channel yet, the first palette colour, nothing published. */
    constructor ()
      ensures Valid()
      ensures State() == SessionState(None, "", "", false, false, [], [], Palette[0], {}, [])
    {
      documentId, userId, displayName := None, "", "";
      channelOpen, isConnected := false, false;
      collaborators, typingUsers := [], [];
      myColor := Palette[0];
      typingTimers := {};
      outbox := [];
    }

    /** The effect's cleanup: cancel every typing timer, drop the channel and clear the lists. */
    method Teardown()
      modifies this
      ensures Valid()
      ensures State() == old(State()).(channelOpen := false, isConnected := false, collaborators := [],
                                       typingUsers := [], typingTimers := {})
    {
      typingTimers := {};
      channelOpen := false;
      isConnected := false;
      collaborators := [];
      typingUsers := [];
    }

    /** New effect arguments: tear down, then open a channel only with a document and a user. */
    method Connect(documentId1: Option<string>, userId1: string, displayName1: string)
      modifies this
      ensures Valid()
      ensures State() == old(State()).(documentId := documentId1, userId := userId1, displayName := displayName1,
                                       channelOpen := Truthy(documentId1) && userId1 != "", isConnected := false,
                                       collaborators := [], typingUsers := [], typingTimers := {})
    {
      Teardown();
      documentId, userId, displayName := documentId1, userId1, displayName1;
      if Truthy(documentId) && userId != "" {
        channelOpen := true;
      }
    }

    /** The subscribe callback: on 'SUBSCRIBED', connect and track our presence without a cursor. */
    method Subscribed(status: string, now: int)
      requires Valid() && channelOpen
      modifies this
      ensures Valid()
      ensures status == "SUBSCRIBED" ==>
                State() == old(State()).(isConnected := true,
                  outbox := old(outbox + [Track(Presence(userId, displayName, myColor, None, now))]))
      ensures status != "SUBSCRIBED" ==> State() == old(State())
    {
      if status == "SUBSCRIBED" {
        isConnected := true;
        outbox := outbox + [Track(Presence(userId, displayName, myColor, None, now))];
      }
    }

    /** A presence sync: recolour by join rank and list everyone else. */
    method PresenceSync(state: seq<seq<Presence>>)
      requires Valid() && channelOpen
      requires forall k :: 0 <= k < |state| ==> |state[k]| > 0
      modifies this
      ensures Valid()
      ensures State() == old(State()).(collaborators := Others(FirstEntries(state), old(userId)),
                                       myColor := SyncColor(FirstEntries(state), old(userId), old(myColor)))
    {
      var allUsers := FirstEntries(state);
      var color, others := SyncColor(allUsers, userId, myColor), Others(allUsers, userId);
      myColor, collaborators := color, others;
    }

    /**
     * A content broadcast from someone else marks them typing, re-arms their one timer and hands
     * the content on (`delivered`); our own broadcasts are ignored.
     */
    method BroadcastReceived(content: string, fromUserId: string, hasCallback: bool)
      returns (delivered: Option<(string, string)>)
      requires Valid() && channelOpen
      modifies this
      ensures Valid()
      ensures fromUserId == old(userId) ==> delivered == None && State() == old(State())
      ensures fromUserId != old(userId) ==>
                && State() == old(State()).(typingUsers := AddTyping(old(typingUsers), fromUserId),
                                            typingTimers := old(typingTimers) + {fromUserId})
                && delivered == (if hasCallback then Some((content, fromUserId)) else None)
    {
      if fromUserId == userId {
        return None;
      }
      var typing, timers := AddTyping(typingUsers, fromUserId), typingTimers + {fromUserId};
      typingUsers, typingTimers := typing, timers;
      delivered := if hasCallback then Some((content, fromUserId)) else None;
    }

    /** A typing timer runs out: only that user leaves the typing list. */
    method TypingTimerFires(u: string)
      requires Valid() && u in typingTimers
      modifies this
      ensures Valid()
      ensures State() == old(State()).(typingUsers := RemoveTyping(old(typingUsers), u),
                                       typingTimers := old(typingTimers) - {u})
    {
      var typing, timers := RemoveTyping(typingUsers, u), typingTimers - {u};
      typingUsers, typingTimers := typing, timers;
    }

    /** `broadcastContentChange`: publish only on a connected channel. */
    method BroadcastContentChange(newContent: string, now: int)
      requires Valid()
      modifies this
      ensures Valid()
      ensures old(channelOpen && isConnected) ==>
                State() == old(State()).(outbox := old(outbox + [ContentChange(newContent, userId, now)]))
      ensures !old(channelOpen && isConnected) ==> State() == old(State())
    {
      if !channelOpen || !isConnected {
        return;
      }
      outbox := outbox + [ContentChange(newContent, userId, now)];
    }

    /** `updateCursor`: publish our presence with the cursor and current colour, only when connected. */
    method UpdateCursor(line: int, col: int, now: int)
      requires Valid()
      modifies this
      ensures Valid()
      ensures old(channelOpen && isConnected) ==>
                State() == old(State()).(outbox :=
                  old(outbox + [Track(Presence(userId, displayName, myColor, Some(Cursor(line, col)), now))]))
      ensures !old(channelOpen && isConnected) ==> State() == old(State())
    {
      if !channelOpen || !isConnected {
        return;
      }
      outbox := outbox + [Track(Presence(userId, displayName, myColor, Some(Cursor(line, col)), now))];
    }
  }

  /** A user who broadcasts twice is listed once; their expiry removes only them. */
  lemma TypingListScenario(typing: seq<string>, u: string, w: string)
    requires NoDuplicates(typing) && u != w && w in typing
    ensures AddTyping(AddTyping(typing, u), u) == AddTyping(typing, u)
    ensures var t := RemoveTyping(AddTyping(typing, u), u);
            u !in t && w in t && NoDuplicates(t)
  {
  }
}
