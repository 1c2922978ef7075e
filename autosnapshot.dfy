/**
 * The periodic snapshot controller (src/hooks/useAutoSnapshot.ts). Every render overwrites the
 * content ref; an interval runs only while a document id and a user id are present, and each
 * tick snapshots the ref's content into the version store, ignoring failures.
 */
module AutoSnapshot {
  import opened Wrappers
  import opened Versions

  const DefaultIntervalMs := 30000
  const NotLoadedAlert := "Data dokumen belum dimuat sempurna. Tunggu sebentar atau refresh."

  /** What `saveNamedVersion` does for its caller: alert, resolve, or reject with the store's error. */
  datatype NamedOutcome = Alerted(message: string) | Resolved | Rejected(error: string)

  /** Whether the effect sets up an interval for these arguments. */
  predicate IntervalRuns(documentId: Option<string>, userId: string) {
    Truthy(documentId) && userId != ""
  }

  class Snapshotter {
    var documentId: Option<string>
    var userId: string
    var intervalMs: int
    var contentRef: string
    var running: bool
    var store: VersionStore

    ghost predicate Valid()
      reads this, store
    {
      store.Valid() && running == IntervalRuns(documentId, userId)
    }

    constructor (store0: VersionStore, documentId0: Option<string>, content0: string, userId0: string, intervalMs0: int)
      requires store0.Valid()
      ensures Valid() && store == store0
      ensures documentId == documentId0 && contentRef == content0 && userId == userId0 && intervalMs == intervalMs0
    {
      store := store0;
      documentId, userId, intervalMs := documentId0, userId0, intervalMs0;
      contentRef := content0;
      running := IntervalRuns(documentId0, userId0);
    }

    /**
     * A render stores the latest content in the ref; when an argument of the effect changed, the
     * old interval is cleared and a new one starts only if both ids are present.
     */
    method Render(documentId1: Option<string>, content1: string, userId1: string, intervalMs1: int)
      requires Valid()
      modifies this
      ensures Valid() && store == old(store)
      ensures contentRef == content1 && documentId == documentId1 && userId == userId1 && intervalMs == intervalMs1
      ensures running == IntervalRuns(documentId1, userId1)
    {
      contentRef := content1;
      if documentId1 != documentId || userId1 != userId || intervalMs1 != intervalMs {
        running := false;
        documentId, userId, intervalMs := documentId1, userId1, intervalMs1;
        if Truthy(documentId) && userId != "" {
          running := true;
        }
      }
    }

    /** One interval tick: snapshot the ref's current content; a failure is swallowed. */
    method Tick(id: string, now: int, writeOk: bool)
      requires Valid()
      modifies store
      ensures Valid() && store == old(store)
      ensures documentId == old(documentId) && userId == old(userId) && contentRef == old(contentRef)
      ensures running == old(running)
      ensures !old(running) ==> store.items == old(store.items) && store.keys == old(store.keys)
      ensures old(running) ==>
                var outcome := SnapshotOutcome(old(store.LoadVersions(documentId.value)), documentId.value,
                                               contentRef, userId, None, id, now, writeOk);
                var key := StorageKey(documentId.value);
                && (outcome.Ok? && outcome.value.Some? ==>
                      && store.LoadVersions(documentId.value) == Retain([outcome.value.value] + old(store.LoadVersions(documentId.value)))
                      && store.items == old(store.items)[key := Parsed(Retain([outcome.value.value] + old(store.LoadVersions(documentId.value))))]
                      && store.keys == if key in old(store.items) then old(store.keys) else old(store.keys) + [key])
                && (!(outcome.Ok? && outcome.value.Some?) ==> store.items == old(store.items) && store.keys == old(store.keys))
    {
      if running {
        var r := store.CreateSnapshot(documentId.value, contentRef, userId, None, id, now, writeOk);
      }
    }

    /** `saveNamedVersion(label)`: needs both ids, snapshots the ref with the label, rethrows. */
    method SaveNamedVersion(name: string, id: string, now: int, writeOk: bool) returns (r: NamedOutcome)
      requires Valid()
      modifies store
      ensures Valid()
      ensures !IntervalRuns(documentId, userId) ==>
                r == Alerted(NotLoadedAlert) && store.items == old(store.items) && store.keys == old(store.keys)
      ensures IntervalRuns(documentId, userId) ==>
                var outcome := SnapshotOutcome(old(store.LoadVersions(documentId.value)), documentId.value,
                                               contentRef, userId, Some(name), id, now, writeOk);
                var key := StorageKey(documentId.value);
                && (outcome.Err? ==> r == Rejected(outcome.error))
                && (outcome.Ok? ==> r == Resolved)
                && (outcome.Ok? && outcome.value.Some? ==>
                      && outcome.value.value.name == Some(name)
                      && store.LoadVersions(documentId.value) == Retain([outcome.value.value] + old(store.LoadVersions(documentId.value)))
                      && store.items == old(store.items)[key := Parsed(Retain([outcome.value.value] + old(store.LoadVersions(documentId.value))))]
                      && store.keys == if key in old(store.items) then old(store.keys) else old(store.keys) + [key])
                && (!(outcome.Ok? && outcome.value.Some?) ==> store.items == old(store.items) && store.keys == old(store.keys))
    {
      if documentId.None? || documentId.value == "" || userId == "" {
        return Alerted(NotLoadedAlert);
      }
      var created := store.CreateSnapshot(documentId.value, contentRef, userId, Some(name), id, now, writeOk);
      if created.Err? {
        return Rejected(created.error);
      }
      return Resolved;
    }
  }

  /**
   * With both ids present a tick never fails for a missing id: it adds a version, does nothing when
   * the log's head already has that content, or fails only because the store refused the write.
   */
  lemma TickOutcome(log: seq<Version>, documentId: string, content: string, userId: string, id: string, now: int, writeOk: bool)
    requires IntervalRuns(Some(documentId), userId)
    ensures var outcome := SnapshotOutcome(log, documentId, content, userId, None, id, now, writeOk);
            && (outcome.Ok? && outcome.value.None? <==> |log| > 0 && log[0].content == content)
            && (outcome.Err? <==> !writeOk && !(|log| > 0 && log[0].content == content))
            && (outcome.Err? ==> outcome.error == WriteFailedMessage)
  {
  }
}
