/**
 * The per-document version history (src/lib/versions.ts). Each document's snapshots live under the
 * key `doc_versions_<id>` of a browser key/value store, newest first, at most 50 of them.
 */
module Versions {
  import opened Wrappers
  import opened Text

  /** A stored snapshot. `name` is its optional label; `createdAt` is the creation time in milliseconds. */
  datatype Version = Version(
    id: string, documentId: string, content: string, versionNumber: int,
    name: Option<string>, createdBy: Option<string>, createdAt: int)

  /** A version without its content, as the timeline lists it. */
  datatype Summary = Summary(
    id: string, documentId: string, versionNumber: int,
    name: Option<string>, createdBy: Option<string>, createdAt: int)

  /** What a stored value decodes to: a version list, or text that is not valid JSON. */
  datatype Stored = Parsed(versions: seq<Version>) | Unparseable

  datatype VersionPage = VersionPage(versions: seq<Summary>, hasMore: bool)

  const KeyPrefix := "doc_versions_"
  const MaxVersions := 50
  const DefaultPageSize := 20
  const MissingIdsMessage := "ID Dokumen atau User ID tidak ditemukan."
  const NotFoundMessage := "Versi tidak ditemukan"
  /** The error a browser store raises when a write exceeds its quota. */
  const WriteFailedMessage := "QuotaExceededError"

  function StorageKey(documentId: string): (key: string)
    ensures StartsWith(key, KeyPrefix)
  {
    KeyPrefix + documentId
  }

  /** Different documents never share a store key, so a write to one leaves the others alone. */
  lemma StorageKeyInjective(a: string, b: string)
    requires StorageKey(a) == StorageKey(b)
    ensures a == b
  {
    assert a == StorageKey(a)[|KeyPrefix|..];
    assert b == StorageKey(b)[|KeyPrefix|..];
  }

  /** What `loadVersions` makes of a stored value or its absence. */
  function Decode(stored: Option<Stored>): seq<Version> {
    match stored
    case Some(Parsed(vs)) => vs
    case _ => []
  }

  /** `saveVersions` keeps the first 50 entries, that is the newest 50. */
  function Retain(vs: seq<Version>): (kept: seq<Version>)
    ensures |kept| == Min(|vs|, MaxVersions)
    ensures kept == vs[..|kept|]
  {
    Slice(vs, 0, MaxVersions)
  }

  function NextNumber(log: seq<Version>): int {
    (if |log| > 0 then log[0].versionNumber else 0) + 1
  }

  predicate IsDuplicate(log: seq<Version>, content: string) {
    |log| > 0 && log[0].content == content
  }

  /**
   * What `createSnapshot` answers for a given current log; `writeOk` is whether the store accepts
   * the write.
   */
  function SnapshotOutcome(
    log: seq<Version>, documentId: string, content: string, createdBy: string,
    name: Option<string>, id: string, now: int, writeOk: bool): Result<Option<Version>>
  {
    if documentId == "" || createdBy == "" then Err(MissingIdsMessage)
    else if IsDuplicate(log, content) then Ok(None)
    else if !writeOk then Err(WriteFailedMessage)
    else Ok(Some(Version(id, documentId, content, NextNumber(log), name, Some(createdBy), now)))
  }

  function Summarize(v: Version): Summary {
    Summary(v.id, v.documentId, v.versionNumber, v.name, v.createdBy, v.createdAt)
  }

  function Summaries(vs: seq<Version>): (r: seq<Summary>)
    ensures |r| == |vs|
    ensures forall k :: 0 <= k < |vs| ==> r[k] == Summarize(vs[k])
  {
    if vs == [] then [] else [Summarize(vs[0])] + Summaries(vs[1..])
  }

  /** `versions.find((v) => v.id === versionId)`. */
  function FindById(vs: seq<Version>, versionId: string): (r: Option<Version>)
    ensures r.Some? ==> r.value in vs && r.value.id == versionId
    ensures r.Some? ==> exists k :: 0 <= k < |vs| && vs[k] == r.value && forall j :: 0 <= j < k ==> vs[j].id != versionId
    ensures r.None? <==> forall k :: 0 <= k < |vs| ==> vs[k].id != versionId
  {
    if vs == [] then None
    else if vs[0].id == versionId then Some(vs[0])
    else FindById(vs[1..], versionId)
  }

  /** The value the store holds under `key`; a vanished key reads as "[]". */
  function Lookup(items: map<string, Stored>, key: string): Stored {
    if key in items then items[key] else Parsed([])
  }

  /** The first match over the version keys from position `i` on, in store key order. */
  function FindFrom(keys: seq<string>, items: map<string, Stored>, versionId: string, i: nat): Option<Version>
    requires i <= |keys|
    decreases |keys| - i
  {
    if i == |keys| then None
    else
      var stored := Lookup(items, keys[i]);
      var here := if StartsWith(keys[i], KeyPrefix) && stored.Parsed? then FindById(stored.versions, versionId) else None;
      if here.Some? then here else FindFrom(keys, items, versionId, i + 1)
  }

  /** Every version number is one more than the next (older) one's. */
  predicate WellNumbered(log: seq<Version>) {
    forall k :: 0 <= k < |log| - 1 ==> log[k].versionNumber == log[k + 1].versionNumber + 1
  }

  /**
   * The shape every log `createSnapshot` writes has: at most 50 entries, consecutive numbers, and
   * the oldest entry is number 1 unless older ones were cut.
   */
  predicate ValidLog(log: seq<Version>) {
    && |log| <= MaxVersions
    && WellNumbered(log)
    && (|log| > 0 ==> log[|log| - 1].versionNumber >= 1)
    && (0 < |log| < MaxVersions ==> log[|log| - 1].versionNumber == 1)
  }

  /** The key/value store: its keys in enumeration order, and what each holds. */
  class VersionStore {
    var keys: seq<string>
    var items: map<string, Stored>

    ghost predicate Valid()
      reads this
    {
      && (forall k :: k in items <==> k in keys)
      && (forall i, j :: 0 <= i < j < |keys| ==> keys[i] != keys[j])
    }

    constructor ()
      ensures Valid() && keys == [] && items == map[]
    {
      keys := [];
      items := map[];
    }

    /** `loadVersions(documentId)`: a missing or unparseable entry reads as no versions. */
    function LoadVersions(documentId: string): seq<Version>
      reads this
    {
      Decode(if StorageKey(documentId) in items then Some(items[StorageKey(documentId)]) else None)
    }

    /**
     * `saveVersions`: overwrite the document's entry with the newest 50; a new key goes last. A
     * refused write (`writeOk` false) changes nothing and raises.
     */
    method SaveVersions(documentId: string, versions: seq<Version>, writeOk: bool) returns (ok: bool)
      requires Valid()
      modifies this
      ensures Valid() && ok == writeOk
      ensures !ok ==> items == old(items) && keys == old(keys)
      ensures ok ==> items == old(items)[StorageKey(documentId) := Parsed(Retain(versions))]
      ensures ok ==> keys == if StorageKey(documentId) in old(items) then old(keys) else old(keys) + [StorageKey(documentId)]
      ensures ok ==> LoadVersions(documentId) == Retain(versions)
    {
      if !writeOk {
        return false;
      }
      ok := true;
      var key := StorageKey(documentId);
      if key !in items {
        keys := keys + [key];
      }
      items := items[key := Parsed(Retain(versions))];
    }

    /**
     * `createSnapshot`: fails on a missing document or user id, answers null when the newest
     * version already has this content, and otherwise stores a new head numbered one past the old.
     */
    method CreateSnapshot(documentId: string, content: string, createdBy: string, name: Option<string>, id: string, now: int, writeOk: bool)
      returns (r: Result<Option<Version>>)
      requires Valid()
      modifies this
      ensures Valid()
      ensures r == SnapshotOutcome(old(LoadVersions(documentId)), documentId, content, createdBy, name, id, now, writeOk)
      ensures r.Ok? && r.value.Some? ==>
                && items == old(items)[StorageKey(documentId) := Parsed(Retain([r.value.value] + old(LoadVersions(documentId))))]
                && keys == if StorageKey(documentId) in old(items) then old(keys) else old(keys) + [StorageKey(documentId)]
      ensures !(r.Ok? && r.value.Some?) ==> items == old(items) && keys == old(keys)
      ensures ValidLog(old(LoadVersions(documentId))) ==> ValidLog(LoadVersions(documentId))
    {
      if documentId == "" || createdBy == "" {
        return Err(MissingIdsMessage);
      }
      var versions := LoadVersions(documentId);
      if |versions| > 0 && versions[0].content == content {
        return Ok(None);
      }
      var next := (if |versions| > 0 then versions[0].versionNumber else 0) + 1;
      var v := Version(id, documentId, content, next, name, Some(createdBy), now);
      var saved := SaveVersions(documentId, [v] + versions, writeOk);
      if !saved {
        return Err(WriteFailedMessage);
      }
      if ValidLog(versions) {
        SnapshotKeepsLogValid(versions, v);
      }
      return Ok(Some(v));
    }

    /** `getVersionList`: one page of summaries, and whether anything follows it. */
    function GetVersionList(documentId: string, page: int, pageSize: int): VersionPage
      reads this
    {
      var all := LoadVersions(documentId);
      var start := page * pageSize;
      var window := Slice(all, start, start + pageSize + 1);
      VersionPage(Summaries(Slice(window, 0, pageSize)), |window| > pageSize)
    }

    /** The version `getVersionContent` finds, if any. */
    function Find(versionId: string): Option<Version>
      reads this
    {
      FindFrom(keys, items, versionId, 0)
    }

    /** `getVersionContent`: scan the store's keys in order, skipping other keys and bad JSON. */
    method GetVersionContent(versionId: string) returns (r: Result<Version>)
      ensures r == match Find(versionId) case Some(v) => Ok(v) case None => Err(NotFoundMessage)
    {
      var i := 0;
      while i < |keys|
        invariant 0 <= i <= |keys|
        invariant FindFrom(keys, items, versionId, i) == Find(versionId)
      {
        var key := keys[i];
        if StartsWith(key, KeyPrefix) {
          var stored := Lookup(items, key);
          if stored.Parsed? {
            var found := FindById(stored.versions, versionId);
            if found.Some? {
              return Ok(found.value);
            }
          }
        }
        i := i + 1;
      }
      return Err(NotFoundMessage);
    }

    /** `restoreVersion`: snapshot the found version's content, labelled with its number. */
    method RestoreVersion(documentId: string, versionId: string, userId: string, id: string, now: int, writeOk: bool)
      returns (r: Result<Option<Version>>)
      requires Valid()
      modifies this
      ensures Valid()
      ensures old(Find(versionId)).None? ==> r == Err(NotFoundMessage) && items == old(items) && keys == old(keys)
      ensures old(Find(versionId)).Some? ==>
                r == SnapshotOutcome(old(LoadVersions(documentId)), documentId, old(Find(versionId)).value.content,
                                     userId, Some(RestoreLabel(old(Find(versionId)).value.versionNumber)), id, now, writeOk)
      ensures r.Ok? && r.value.Some? ==>
                && items == old(items)[StorageKey(documentId) := Parsed(Retain([r.value.value] + old(LoadVersions(documentId))))]
                && keys == if StorageKey(documentId) in old(items) then old(keys) else old(keys) + [StorageKey(documentId)]
      ensures !(r.Ok? && r.value.Some?) ==> items == old(items) && keys == old(keys)
    {
      var found := GetVersionContent(versionId);
      if found.Err? {
        return Err(found.error);
      }
      r := CreateSnapshot(documentId, found.value.content, userId, Some(RestoreLabel(found.value.versionNumber)), id, now, writeOk);
    }
  }

  function RestoreLabel(n: int): string {
    "Restored from v" + IntToString(n)
  }

  // ---------------------------------------------------------------------------
  // Properties of the log
  // ---------------------------------------------------------------------------

  /** In a well-numbered log, entry `k` is `|log| - 1 - k` above the oldest. */
  lemma {:induction false} NumberOffset(log: seq<Version>, k: nat)
    requires WellNumbered(log) && k < |log|
    ensures log[k].versionNumber == log[|log| - 1].versionNumber + (|log| - 1 - k)
    decreases |log| - k
  {
    if k < |log| - 1 {
      NumberOffset(log, k + 1);
    }
  }

  /** Version numbers strictly decrease from the head, so no number appears twice. */
  lemma NumbersStrictlyDecrease(log: seq<Version>, i: nat, j: nat)
    requires WellNumbered(log) && i < j < |log|
    ensures log[i].versionNumber > log[j].versionNumber
  {
    NumberOffset(log, i);
    NumberOffset(log, j);
  }

  /** A log that was never cut holds exactly the numbers `|log|, |log|-1, ..., 1`. */
  lemma UncutLogNumbers(log: seq<Version>)
    requires ValidLog(log) && |log| < MaxVersions
    ensures forall k :: 0 <= k < |log| ==> log[k].versionNumber == |log| - k
  {
    forall k | 0 <= k < |log| ensures log[k].versionNumber == |log| - k {
      NumberOffset(log, k);
    }
  }

  /** The head's number is at least the log's length, so the next one is larger than every entry. */
  lemma NextNumberIsFresh(log: seq<Version>)
    requires ValidLog(log)
    ensures forall k :: 0 <= k < |log| ==> log[k].versionNumber < NextNumber(log)
    ensures NextNumber(log) >= |log| + 1
  {
    if |log| > 0 {
      NumberOffset(log, 0);
      forall k | 0 <= k < |log| ensures log[k].versionNumber < NextNumber(log) {
        NumberOffset(log, k);
      }
    }
  }

  /** Writing `[v] + log`, cut to 50, with `v` numbered one past the head, keeps the log valid. */
  lemma SnapshotKeepsLogValid(log: seq<Version>, v: Version)
    requires ValidLog(log)
    requires v.versionNumber == NextNumber(log)
    ensures ValidLog(Retain([v] + log))
  {
    var all := [v] + log;
    var kept := Retain(all);
    assert WellNumbered(all) by {
      forall k | 0 <= k < |all| - 1 ensures all[k].versionNumber == all[k + 1].versionNumber + 1 {
        if k > 0 { assert all[k] == log[k - 1] && all[k + 1] == log[k]; }
      }
    }
    assert WellNumbered(kept) by {
      forall k | 0 <= k < |kept| - 1 ensures kept[k].versionNumber == kept[k + 1].versionNumber + 1 {
        assert kept[k] == all[k] && kept[k + 1] == all[k + 1];
      }
    }
    if |log| == 0 {
      assert kept == [v];
    } else if |all| <= MaxVersions {
      assert kept == all;
      assert kept[|kept| - 1] == log[|log| - 1];
    } else {
      assert |kept| == MaxVersions;
      NumberOffset(kept, 0);
      NumberOffset(log, 0);
    }
  }

  /** A page holds entries `[page*size, page*size+size)` without content; `hasMore` says one more exists. */
  lemma VersionListPage(store: VersionStore, documentId: string, page: nat, pageSize: nat)
    ensures var all := store.LoadVersions(documentId);
            var r := store.GetVersionList(documentId, page, pageSize);
            var start := page * pageSize;
            && r.versions == Summaries(all[Min(start, |all|)..Min(start + pageSize, |all|)])
            && (r.hasMore <==> start + pageSize < |all|)
  {
    WindowPage(store.LoadVersions(documentId), page * pageSize, pageSize);
  }

  /** The window of `pageSize + 1` from `start`, cut to `pageSize`, and whether it overflowed. */
  lemma WindowPage(all: seq<Version>, start: nat, pageSize: nat)
    ensures var window := Slice(all, start, start + pageSize + 1);
            && Slice(window, 0, pageSize) == all[Min(start, |all|)..Min(start + pageSize, |all|)]
            && (|window| > pageSize <==> start + pageSize < |all|)
  {
    var window := Slice(all, start, start + pageSize + 1);
    assert window == all[Min(start, |all|)..Min(start + pageSize + 1, |all|)];
    assert Slice(window, 0, pageSize) == window[..Min(pageSize, |window|)];
  }

  /** The first page with the default size lists the newest 20 versions. */
  lemma FirstPageIsNewest(store: VersionStore, documentId: string)
    ensures var all := store.LoadVersions(documentId);
            store.GetVersionList(documentId, 0, DefaultPageSize).versions == Summaries(all[..Min(DefaultPageSize, |all|)])
  {
    VersionListPage(store, documentId, 0, DefaultPageSize);
  }

  // ---------------------------------------------------------------------------
  // Properties of the lookup by id
  // ---------------------------------------------------------------------------

  /** What the scan finds has the requested id and sits in a parsed list under a version key. */
  lemma {:induction false} FindFromSound(keys: seq<string>, items: map<string, Stored>, versionId: string, i: nat)
    requires i <= |keys|
    ensures var r := FindFrom(keys, items, versionId, i);
            r.Some? ==> && r.value.id == versionId
                        && exists k :: i <= k < |keys| && StartsWith(keys[k], KeyPrefix)
                                       && Lookup(items, keys[k]).Parsed? && r.value in Lookup(items, keys[k]).versions
    decreases |keys| - i
  {
    if i < |keys| {
      var stored := Lookup(items, keys[i]);
      if StartsWith(keys[i], KeyPrefix) && stored.Parsed? && FindById(stored.versions, versionId).Some? {
        assert FindFrom(keys, items, versionId, i) == FindById(stored.versions, versionId);
      } else {
        FindFromSound(keys, items, versionId, i + 1);
      }
    }
  }

  /** Key `k` is a version key whose list parses and holds a version with the id. */
  predicate HoldsId(keys: seq<string>, items: map<string, Stored>, versionId: string, k: nat)
    requires k < |keys|
  {
    StartsWith(keys[k], KeyPrefix) && Lookup(items, keys[k]).Parsed?
    && FindById(Lookup(items, keys[k]).versions, versionId).Some?
  }

  /** One step of the scan: a holding key answers, any other key passes on to the next. */
  lemma FindFromStep(keys: seq<string>, items: map<string, Stored>, versionId: string, i: nat)
    requires i < |keys|
    ensures FindFrom(keys, items, versionId, i) ==
            if HoldsId(keys, items, versionId, i) then FindById(Lookup(items, keys[i]).versions, versionId)
            else FindFrom(keys, items, versionId, i + 1)
  {
  }

  /** The first position from `i` on whose key holds the id, or `|keys|` when there is none. */
  function FirstHolding(keys: seq<string>, items: map<string, Stored>, versionId: string, i: nat): (k: nat)
    requires i <= |keys|
    ensures i <= k <= |keys|
    ensures forall j :: i <= j < k ==> !HoldsId(keys, items, versionId, j)
    ensures k < |keys| ==> HoldsId(keys, items, versionId, k)
    decreases |keys| - i
  {
    if i == |keys| || HoldsId(keys, items, versionId, i) then i else FirstHolding(keys, items, versionId, i + 1)
  }

  /** The scan answers from the first holding key, or nothing when no key holds the id. */
  lemma {:induction false} FindFromAt(keys: seq<string>, items: map<string, Stored>, versionId: string, i: nat)
    requires i <= |keys|
    ensures var k := FirstHolding(keys, items, versionId, i);
            FindFrom(keys, items, versionId, i) ==
              if k < |keys| then FindById(Lookup(items, keys[k]).versions, versionId) else None
    decreases |keys| - i
  {
    if i < |keys| {
      FindFromStep(keys, items, versionId, i);
      if !HoldsId(keys, items, versionId, i) {
        FindFromAt(keys, items, versionId, i + 1);
      }
    }
  }

  /**
   * The scan answers from the first key, in store order, that holds the id, taking that list's
   * first version with it; it answers nothing when no key from `i` on holds the id.
   */
  lemma FindFromFirst(keys: seq<string>, items: map<string, Stored>, versionId: string, i: nat)
    requires i <= |keys|
    ensures var r := FindFrom(keys, items, versionId, i);
            && (r.None? <==> forall j :: i <= j < |keys| ==> !HoldsId(keys, items, versionId, j))
            && (r.Some? ==> exists k :: && i <= k < |keys| && HoldsId(keys, items, versionId, k)
                                        && r == FindById(Lookup(items, keys[k]).versions, versionId)
                                        && forall j :: i <= j < k ==> !HoldsId(keys, items, versionId, j))
  {
    var k := FirstHolding(keys, items, versionId, i);
    FindFromAt(keys, items, versionId, i);
    if k < |keys| {
      assert !(forall j :: i <= j < |keys| ==> !HoldsId(keys, items, versionId, j)) by {
        assert HoldsId(keys, items, versionId, k);
      }
    }
  }

  /** If any version key from `i` on holds a version with the id, the scan finds one. */
  lemma {:induction false} FindFromComplete(keys: seq<string>, items: map<string, Stored>, versionId: string, i: nat, k: nat, v: Version)
    requires i <= k < |keys|
    requires StartsWith(keys[k], KeyPrefix) && Lookup(items, keys[k]).Parsed?
    requires v in Lookup(items, keys[k]).versions && v.id == versionId
    ensures FindFrom(keys, items, versionId, i).Some?
    decreases k - i
  {
    if i < k {
      FindFromComplete(keys, items, versionId, i + 1, k, v);
    } else {
      var vs := Lookup(items, keys[k]).versions;
      var j :| 0 <= j < |vs| && vs[j] == v;
      assert FindById(vs, versionId).Some?;
    }
  }

  /** `getVersionContent` fails exactly when no version key holds a version with that id. */
  lemma FindFailsIff(store: VersionStore, versionId: string)
    ensures store.Find(versionId).None? <==>
            forall k, v :: 0 <= k < |store.keys| && StartsWith(store.keys[k], KeyPrefix)
                           && Lookup(store.items, store.keys[k]).Parsed? && v in Lookup(store.items, store.keys[k]).versions
                           ==> v.id != versionId
  {
    if store.Find(versionId).Some? {
      FindFromSound(store.keys, store.items, versionId, 0);
    }
    forall k, v | 0 <= k < |store.keys| && StartsWith(store.keys[k], KeyPrefix)
                  && Lookup(store.items, store.keys[k]).Parsed? && v in Lookup(store.items, store.keys[k]).versions
                  && v.id == versionId
      ensures store.Find(versionId).Some?
    {
      FindFromComplete(store.keys, store.items, versionId, 0, k, v);
    }
  }

  /**
   * `createSnapshot` refuses missing ids before reading anything, answers null for a repeat of the
   * head's content, and otherwise makes a version numbered one past the head (1 for an empty log)
   * that carries the content, the document, the label and the author.
   */
  lemma SnapshotOutcomeSpec(log: seq<Version>, documentId: string, content: string, createdBy: string,
                            name: Option<string>, id: string, now: int, writeOk: bool)
    ensures var r := SnapshotOutcome(log, documentId, content, createdBy, name, id, now, writeOk);
            && (documentId == "" || createdBy == "" ==> r == Err(MissingIdsMessage))
            && (documentId != "" && createdBy != "" && |log| > 0 && log[0].content == content ==> r == Ok(None))
            && (r.Ok? && r.value.Some? <==>
                  documentId != "" && createdBy != "" && !(|log| > 0 && log[0].content == content) && writeOk)
            && (r.Ok? && r.value.Some? ==>
                  var v := r.value.value;
                  && v.versionNumber == (if |log| == 0 then 1 else log[0].versionNumber + 1)
                  && v.content == content && v.documentId == documentId
                  && v.name == name && v.createdBy == Some(createdBy))
  {
  }

  /** A restore answers null, storing nothing, when the target's content is already the head's. */
  lemma RestoreOfHeadIsNull(log: seq<Version>, documentId: string, target: Version, userId: string, id: string, now: int, writeOk: bool)
    requires documentId != "" && userId != ""
    requires |log| > 0 && log[0].content == target.content
    ensures SnapshotOutcome(log, documentId, target.content, userId, Some(RestoreLabel(target.versionNumber)), id, now, writeOk) == Ok(None)
  {
  }

  /** Two snapshots of different contents in a row are numbered `n + 1` and `n + 2`, newest first. */
  lemma {:induction false} TwoSnapshots(log: seq<Version>, a: Version, b: Version)
    requires ValidLog(log)
    requires a.versionNumber == NextNumber(log)
    requires b.versionNumber == NextNumber(Retain([a] + log))
    ensures ValidLog(Retain([b] + Retain([a] + log)))
    ensures Retain([b] + Retain([a] + log))[0] == b && Retain([b] + Retain([a] + log))[1] == a
    ensures b.versionNumber == a.versionNumber + 1
  {
    SnapshotKeepsLogValid(log, a);
    SnapshotKeepsLogValid(Retain([a] + log), b);
  }
}
