/**
 * The version history panel (src/components/VersionTimeline.tsx): relative timestamps, a
 * two-slot selection for arbitrary comparisons, paged loading, quick compare and restore.
 */
module VersionTimeline {
  import opened Wrappers
  import opened Text
  import opened Versions
  import DiffModal

  const MinuteMs := 60000
  const HourMs := 3600000
  const DayMs := 86400000
  const RestoreFailedAlert := "Gagal restore versi"

  /**
   * `formatRelativeTime`, the elapsed time `now - createdAt` in milliseconds. Dafny's division by
   * a positive divisor rounds down, which is `Math.floor`.
   */
  function FormatRelativeTime(now: int, createdAt: int): string {
    var diff := now - createdAt;
    var minutes := diff / MinuteMs;
    var hours := diff / HourMs;
    var days := diff / DayMs;
    if minutes < 1 then "Baru saja"
    else if minutes < 60 then IntToString(minutes) + " menit lalu"
    else if hours < 24 then IntToString(hours) + " jam lalu"
    else IntToString(days) + " hari lalu"
  }

  /** The four bands, with future times reading as just now. */
  lemma FormatRelativeTimeSpec(now: int, createdAt: int)
    ensures var diff := now - createdAt;
            var r := FormatRelativeTime(now, createdAt);
            && (diff < MinuteMs <==> r == "Baru saja")
            && (MinuteMs <= diff < HourMs ==> r == NatToString(diff / MinuteMs) + " menit lalu" && 1 <= diff / MinuteMs < 60)
            && (HourMs <= diff < DayMs ==> r == NatToString(diff / HourMs) + " jam lalu" && 1 <= diff / HourMs < 24)
            && (DayMs <= diff ==> r == NatToString(diff / DayMs) + " hari lalu" && diff / DayMs >= 1)
  {
    var diff := now - createdAt;
    if diff >= MinuteMs {
      var r := FormatRelativeTime(now, createdAt);
      assert r != "Baru saja" by {
        var m := diff / MinuteMs;
        var n := if m < 60 then m else if diff / HourMs < 24 then diff / HourMs else diff / DayMs;
        assert n >= 1;
        assert r == NatToString(n) + (if m < 60 then " menit lalu" else if diff / HourMs < 24 then " jam lalu" else " hari lalu");
        assert IsDigit(r[0]);
      }
    }
  }

  predicate NoDuplicates(xs: seq<string>) {
    forall i, j :: 0 <= i < j < |xs| ==> xs[i] != xs[j]
  }

  function Without(xs: seq<string>, id: string): (r: seq<string>)
    ensures forall x :: x in r <==> x in xs && x != id
    ensures |r| <= |xs|
  {
    if xs == [] then [] else (if xs[0] != id then [xs[0]] else []) + Without(xs[1..], id)
  }

  /** `toggleSelect`: deselect, or select and drop the oldest pick when two are already chosen. */
  function ToggleSelectStep(prev: seq<string>, id: string): seq<string> {
    if id in prev then Without(prev, id)
    else if |prev| >= 2 then [prev[1], id]
    else prev + [id]
  }

  /** The selection stays a duplicate-free list of at most two ids, and the toggled id flips. */
  lemma ToggleSelectSpec(prev: seq<string>, id: string)
    requires |prev| <= 2 && NoDuplicates(prev)
    ensures var r := ToggleSelectStep(prev, id);
            && |r| <= 2 && NoDuplicates(r)
            && (id in r <==> id !in prev)
            && (id in prev ==> forall x :: x in r <==> x in prev && x != id)
            && (id !in prev && |prev| < 2 ==> r == prev + [id])
            && (id !in prev && |prev| == 2 ==> r == [prev[1], id])
  {
    if id in prev {
      var r := Without(prev, id);
      if |prev| == 2 {
        assert prev[1..][1..] == [];
        assert Without(prev[1..], id) == (if prev[1] != id then [prev[1]] else []) + Without([], id);
        assert r == (if prev[0] != id then [prev[0]] else []) + (if prev[1] != id then [prev[1]] else []);
      }
    }
  }

  /** Toggling the same unselected id twice from fewer than two picks restores the selection. */
  lemma ToggleTwice(prev: seq<string>, id: string)
    requires |prev| < 2 && NoDuplicates(prev) && id !in prev
    ensures ToggleSelectStep(ToggleSelectStep(prev, id), id) == prev
  {
    WithoutLast(prev, id);
  }

  lemma {:induction false} WithoutLast(xs: seq<string>, id: string)
    requires id !in xs
    ensures Without(xs + [id], id) == xs
  {
    if xs != [] {
      assert (xs + [id])[1..] == xs[1..] + [id];
      WithoutLast(xs[1..], id);
    } else {
      assert Without([id], id) == [] + Without([], id);
    }
  }

  datatype RestoreOutcome = Cancelled | Alerted(message: string) | Restored

  /** `!isLatest`: the row at `index` shows the restore button unless it is the first. */
  predicate HasRestoreAction(index: nat) {
    index != 0
  }

  /**
   * On the first page of a well-numbered log the first row holds the highest number, so the
   * restore button is offered exactly on the rows that are not the newest version.
   */
  lemma RestoreOfferedBelowNewest(store: VersionStore, documentId: string, i: nat)
    requires WellNumbered(store.LoadVersions(documentId))
    requires i < |store.GetVersionList(documentId, 0, DefaultPageSize).versions|
    ensures var versions := store.GetVersionList(documentId, 0, DefaultPageSize).versions;
            HasRestoreAction(i) <==>
              exists j :: 0 <= j < |versions| && versions[j].versionNumber > versions[i].versionNumber
  {
    var log := store.LoadVersions(documentId);
    var versions := store.GetVersionList(documentId, 0, DefaultPageSize).versions;
    FirstPageIsNewest(store, documentId);
    assert versions == Summaries(log[..Min(DefaultPageSize, |log|)]);
    if i == 0 {
      forall j | 0 <= j < |versions| ensures versions[j].versionNumber <= versions[0].versionNumber {
        if j > 0 {
          NumbersStrictlyDecrease(log, 0, j);
        }
      }
    } else {
      NumbersStrictlyDecrease(log, 0, i);
      assert versions[0].versionNumber > versions[i].versionNumber;
    }
  }

  /** The quick-compare button: shown with two versions listed, it compares the second against the first. */
  function QuickCompare(versions: seq<Summary>): Option<(string, string)> {
    if |versions| >= 2 then Some((versions[1].id, versions[0].id)) else None
  }

  /**
   * After the first page is loaded the quick compare, offered once the document has two
   * versions, pairs the previous version with the newest, the previous one numbered one below;
   * the comparison dialog keeps that pair as (older, newer).
   */
  lemma QuickCompareNewest(store: VersionStore, documentId: string)
    ensures var log := store.LoadVersions(documentId);
            var pair := QuickCompare(store.GetVersionList(documentId, 0, DefaultPageSize).versions);
            && (pair.Some? <==> |log| >= 2)
            && (pair.Some? ==> pair.value == (log[1].id, log[0].id))
            && (|log| >= 2 && WellNumbered(log) ==>
                  log[1].versionNumber + 1 == log[0].versionNumber
                  && DiffModal.Order(log[1], log[0]) == (log[1], log[0]))
  {
    FirstPageIsNewest(store, documentId);
  }

  /** The compare-selected button: shown with two picks, it compares them in pick order. */
  function CompareSelected(selected: seq<string>): Option<(string, string)> {
    if |selected| == 2 then Some((selected[0], selected[1])) else None
  }

  /**
   * Picking `x` offers nothing yet, picking `y` next offers (x, y), a third pick `z` offers
   * (y, z), and unpicking either of two withdraws the offer.
   */
  lemma CompareSelectedInPickOrder(x: string, y: string, z: string)
    requires x != y && y != z && x != z
    ensures CompareSelected(ToggleSelectStep([], x)) == None
    ensures CompareSelected(ToggleSelectStep(ToggleSelectStep([], x), y)) == Some((x, y))
    ensures CompareSelected(ToggleSelectStep(ToggleSelectStep(ToggleSelectStep([], x), y), z)) == Some((y, z))
    ensures CompareSelected(ToggleSelectStep([x, y], x)) == None
    ensures CompareSelected(ToggleSelectStep([x, y], y)) == None
  {
    assert [x, y][1..] == [y] && [y][1..] == [];
    assert Without([y], y) == [];
    assert Without([x, y], y) == [x] + Without([y], y);
  }

  /** The fields of the timeline, in the order the class declares them. */
  datatype TimelineState = TimelineState(
    versions: seq<Summary>, isLoading: bool, hasMore: bool, page: int,
    selectedIds: seq<string>, isRestoring: Option<string>)

  class Timeline {
    var versions: seq<Summary>
    var isLoading: bool
    var hasMore: bool
    var page: int
    var selectedIds: seq<string>
    var isRestoring: Option<string>

    function State(): TimelineState
      reads this
    {
      TimelineState(versions, isLoading, hasMore, page, selectedIds, isRestoring)
    }

    ghost predicate Valid()
      reads this
    {
      |selectedIds| <= 2 && NoDuplicates(selectedIds)
    }

    constructor ()
      ensures Valid()
      ensures versions == [] && isLoading && !hasMore && page == 0 && selectedIds == [] && isRestoring == None
    {
      versions := [];
      isLoading := true;
      hasMore := false;
      page := 0;
      selectedIds := [];
      isRestoring := None;
    }

    /** `loadVersions(pageNum, append)`: fetch one page and append it or replace the list. */
    method LoadVersions(store: VersionStore, documentId: string, pageNum: int, append: bool)
      modifies this
      ensures append ==> versions == old(versions) + store.GetVersionList(documentId, pageNum, DefaultPageSize).versions
      ensures !append ==> versions == store.GetVersionList(documentId, pageNum, DefaultPageSize).versions
      ensures hasMore == store.GetVersionList(documentId, pageNum, DefaultPageSize).hasMore
      ensures !isLoading && page == old(page) && selectedIds == old(selectedIds) && isRestoring == old(isRestoring)
    {
      var result := store.GetVersionList(documentId, pageNum, DefaultPageSize);
      if append {
        versions := versions + result.versions;
      } else {
        versions := result.versions;
      }
      hasMore := result.hasMore;
      isLoading := false;
      assert store.items == old(store.items) && store.keys == old(store.keys);
    }

    method ToggleSelect(id: string)
      requires Valid()
      modifies this
      ensures Valid()
      ensures State() == old(State()).(selectedIds := ToggleSelectStep(old(selectedIds), id))
    {
      ToggleSelectSpec(selectedIds, id);
      selectedIds := ToggleSelectStep(selectedIds, id);
    }

    /** `handleLoadMore`: advance the page counter and append that page. */
    method HandleLoadMore(store: VersionStore, documentId: string)
      requires Valid()
      modifies this
      ensures Valid()
      ensures page == old(page) + 1
      ensures var result := store.GetVersionList(documentId, old(page) + 1, DefaultPageSize);
              versions == old(versions) + result.versions && hasMore == result.hasMore
      ensures !isLoading && selectedIds == old(selectedIds) && isRestoring == old(isRestoring)
    {
      var nextPage := page + 1;
      page := nextPage;
      LoadVersions(store, documentId, nextPage, true);
    }

    /**
     * `handleRestore`: after confirmation restore the version, then reload the first page (the
     * page counter is left as it was) and tell the parent; a failed restore alerts instead.
     */
    method HandleRestore(store: VersionStore, documentId: string, userId: string, version: Summary,
                         confirmed: bool, id: string, now: int, writeOk: bool)
      returns (outcome: RestoreOutcome)
      requires Valid() && store.Valid()
      modifies this, store
      ensures Valid() && store.Valid()
      ensures isRestoring == (if confirmed then None else old(isRestoring))
      ensures page == old(page) && selectedIds == old(selectedIds)
      ensures !confirmed ==>
                outcome == Cancelled && versions == old(versions) && store.items == old(store.items) && store.keys == old(store.keys)
      ensures confirmed && old(store.Find(version.id)).None? ==>
                && outcome == Alerted(RestoreFailedAlert) && versions == old(versions)
                && store.items == old(store.items) && store.keys == old(store.keys)
      ensures confirmed && old(store.Find(version.id)).Some? ==>
                var found := old(store.Find(version.id)).value;
                var r := SnapshotOutcome(old(store.LoadVersions(documentId)), documentId, found.content, userId,
                                         Some(RestoreLabel(found.versionNumber)), id, now, writeOk);
                && (outcome == Restored <==> r.Ok?)
                && (r.Err? ==> outcome == Alerted(RestoreFailedAlert) && versions == old(versions))
                && (r.Ok? && r.value.Some? ==>
                      && store.items == old(store.items)[StorageKey(documentId) :=
                                          Parsed(Retain([r.value.value] + old(store.LoadVersions(documentId))))]
                      && store.keys == if StorageKey(documentId) in old(store.items) then old(store.keys)
                                       else old(store.keys) + [StorageKey(documentId)])
                && (!(r.Ok? && r.value.Some?) ==> store.items == old(store.items) && store.keys == old(store.keys))
      ensures outcome == Restored ==>
                && versions == store.GetVersionList(documentId, 0, DefaultPageSize).versions
                && hasMore == store.GetVersionList(documentId, 0, DefaultPageSize).hasMore && !isLoading
      ensures outcome != Restored ==> isLoading == old(isLoading) && hasMore == old(hasMore)
    {
      if !confirmed {
        return Cancelled;
      }
      isRestoring := Some(version.id);
      var r := store.RestoreVersion(documentId, version.id, userId, id, now, writeOk);
      if r.Err? {
        outcome := Alerted(RestoreFailedAlert);
      } else {
        LoadVersions(store, documentId, 0, false);
        outcome := Restored;
      }
      isRestoring := None;
    }
  }

  /** Loading more after the first page lists the first two pages; with the page counter at k, k + 1. */
  lemma LoadMorePages(store: VersionStore, documentId: string)
    ensures var all := store.LoadVersions(documentId);
            store.GetVersionList(documentId, 0, DefaultPageSize).versions
              + store.GetVersionList(documentId, 1, DefaultPageSize).versions
            == Summaries(all[..Min(2 * DefaultPageSize, |all|)])
  {
    var all := store.LoadVersions(documentId);
    VersionListPage(store, documentId, 0, DefaultPageSize);
    VersionListPage(store, documentId, 1, DefaultPageSize);
    var a := Min(DefaultPageSize, |all|);
    var b := Min(2 * DefaultPageSize, |all|);
    assert all[..b] == all[..a] + all[a..b];
    SummariesAppend(all[..a], all[a..b]);
  }

  lemma {:induction false} SummariesAppend(a: seq<Version>, b: seq<Version>)
    ensures Summaries(a + b) == Summaries(a) + Summaries(b)
  {
    if a == [] {
      assert a + b == b;
    } else {
      assert (a + b)[1..] == a[1..] + b;
      SummariesAppend(a[1..], b);
    }
  }
}
