/**
 * The document list beside the editor (src/components/DocsSidebar.tsx): loading a page or the
 * search results, creating, renaming and deleting entries, and the page controls. What each
 * request answers is passed in.
 */
module DocsSidebar {
  import opened Wrappers
  import opened Text
  import opened Documents

  const LoadFailedMessage := "Gagal memuat dokumen. Coba refresh halaman."

  /** The page size the list requests. */
  const SidebarPageSize := 10

  /** `prev.map(d => d.id === id ? {...d, title} : d)`. */
  function Retitle(docs: seq<DocumentSummary>, id: string, title: string): (r: seq<DocumentSummary>)
    ensures |r| == |docs|
    ensures forall k :: 0 <= k < |docs| && docs[k].id != id ==> r[k] == docs[k]
    ensures forall k :: 0 <= k < |docs| && docs[k].id == id ==> r[k] == docs[k].(title := title)
  {
    if docs == [] then []
    else [if docs[0].id == id then docs[0].(title := title) else docs[0]] + Retitle(docs[1..], id, title)
  }

  /** `prev.filter(d => d.id !== id)`. */
  function RemoveId(docs: seq<DocumentSummary>, id: string): (r: seq<DocumentSummary>) {
    if docs == [] then [] else (if docs[0].id != id then [docs[0]] else []) + RemoveId(docs[1..], id)
  }

  /** The filter keeps exactly the entries with another id. */
  lemma {:induction false} RemoveIdMembers(docs: seq<DocumentSummary>, id: string)
    ensures forall d :: d in RemoveId(docs, id) <==> d in docs && d.id != id
  {
    if docs != [] {
      RemoveIdMembers(docs[1..], id);
      assert docs == [docs[0]] + docs[1..];
    }
  }

  predicate UniqueIds(docs: seq<DocumentSummary>) {
    forall i, j :: 0 <= i < j < |docs| ==> docs[i].id != docs[j].id
  }

  /** Deleting an id that is listed once removes exactly that entry and keeps the rest in order. */
  lemma {:induction false} RemoveIdSpec(docs: seq<DocumentSummary>, k: nat)
    requires UniqueIds(docs) && k < |docs|
    ensures RemoveId(docs, docs[k].id) == docs[..k] + docs[k + 1..]
  {
    var id := docs[k].id;
    assert RemoveId(docs, id) == (if docs[0].id != id then [docs[0]] else []) + RemoveId(docs[1..], id);
    if k == 0 {
      UniqueTail(docs);
      KeepAll(docs[1..], id);
      assert docs[..0] + docs[1..] == docs[1..];
    } else {
      UniqueTail(docs);
      RemoveIdSpec(docs[1..], k - 1);
      assert docs[1..][k - 1] == docs[k];
      assert docs[..k] == [docs[0]] + docs[1..][..k - 1];
      assert docs[k + 1..] == docs[1..][k..];
    }
  }

  /** The ids after the first are unique, and none of them is the first one's. */
  lemma UniqueTail(docs: seq<DocumentSummary>)
    requires UniqueIds(docs) && docs != []
    ensures UniqueIds(docs[1..])
    ensures forall k :: 0 <= k < |docs[1..]| ==> docs[1..][k].id != docs[0].id
  {
    forall i, j | 0 <= i < j < |docs[1..]| ensures docs[1..][i].id != docs[1..][j].id {
      assert docs[1..][i] == docs[i + 1] && docs[1..][j] == docs[j + 1];
    }
    forall k | 0 <= k < |docs[1..]| ensures docs[1..][k].id != docs[0].id {
      assert docs[1..][k] == docs[k + 1];
    }
  }

  lemma {:induction false} KeepAll(docs: seq<DocumentSummary>, id: string)
    requires forall k :: 0 <= k < |docs| ==> docs[k].id != id
    ensures RemoveId(docs, id) == docs
  {
    if docs != [] {
      KeepAll(docs[1..], id);
    }
  }

  /** Search mode exactly when the settled query is not blank. */
  predicate SearchMode(query: string) {
    Trim(query) != []
  }

  /**
   * The page controls appear only while the typed query is empty (`!searchQuery`) and there is
   * more than one page.
   */
  predicate ShowsPagination(s: SidebarState) {
    s.searchQuery == "" && s.totalPages > 1
  }

  /** The fields of the sidebar, in the order the class declares them. */
  datatype SidebarState = SidebarState(
    documents: seq<DocumentSummary>, isLoading: bool, error: Option<string>,
    searchQuery: string, debouncedQuery: string, sortOption: SortOption,
    page: int, totalPages: int, total: int,
    renamingId: Option<string>, renameValue: string, deletingId: Option<string>)

  /**
   * `loadDocuments` on a sidebar state. In search mode the results form a single page.
   * Otherwise `listed` is the answer to the paged query: the user's documents in the order of the
   * sort option and the exact count, of which the page's range of 10 rows is shown with the
   * counts `Paginate` derives. A failed request sets the error and keeps the list.
   */
  function LoadStep(s: SidebarState, searchResults: Result<seq<DocumentSummary>>,
                    listed: Result<(seq<DocumentSummary>, Option<int>)>): SidebarState
  {
    if SearchMode(s.debouncedQuery) then
      if searchResults.Ok? then
        s.(documents := searchResults.value, isLoading := false, error := None,
           totalPages := 1, total := |searchResults.value|)
      else s.(isLoading := false, error := Some(LoadFailedMessage))
    else if listed.Ok? then
      var range := PageRange(s.page, SidebarPageSize);
      var r := Paginate(RangeRows(listed.value.0, range.0, range.1), listed.value.1, s.page, SidebarPageSize);
      s.(documents := r.documents, isLoading := false, error := None, totalPages := r.totalPages, total := r.total)
    else s.(isLoading := false, error := Some(LoadFailedMessage))
  }

  /**
   * A load ends the spinner and touches only the list, the error and the counts. Search results
   * are shown whole as one page; a listed page shows rows `page * 10` up to 10 further of the
   * sorted documents, with the exact count and just enough pages to hold it; a failed request
   * keeps the list and the counts and shows the error.
   */
  lemma LoadStepSpec(s: SidebarState, searchResults: Result<seq<DocumentSummary>>,
                     listed: Result<(seq<DocumentSummary>, Option<int>)>)
    ensures var t := LoadStep(s, searchResults, listed);
            && !t.isLoading
            && t.(documents := s.documents, isLoading := s.isLoading, error := s.error,
                  totalPages := s.totalPages, total := s.total) == s
    ensures var t := LoadStep(s, searchResults, listed);
            SearchMode(s.debouncedQuery) && searchResults.Ok? ==>
              t.documents == searchResults.value && t.totalPages == 1 && t.total == |searchResults.value| && t.error == None
    ensures var t := LoadStep(s, searchResults, listed);
            !SearchMode(s.debouncedQuery) && listed.Ok? ==>
              && t.error == None
              && t.total == listed.value.1.GetOr(0)
              && t.totalPages * SidebarPageSize >= t.total && (t.totalPages - 1) * SidebarPageSize < t.total
              && (s.page >= 0 ==> var start := s.page * SidebarPageSize;
                    t.documents == listed.value.0[Min(start, |listed.value.0|)..Min(start + SidebarPageSize, |listed.value.0|)])
    ensures var t := LoadStep(s, searchResults, listed);
            (if SearchMode(s.debouncedQuery) then searchResults.Err? else listed.Err?) ==>
              t.documents == s.documents && t.totalPages == s.totalPages && t.total == s.total
              && t.error == Some(LoadFailedMessage)
  {
    if !SearchMode(s.debouncedQuery) && listed.Ok? {
      var range := PageRange(s.page, SidebarPageSize);
      var rows := RangeRows(listed.value.0, range.0, range.1);
      TotalPagesSpec(rows, listed.value.1, s.page, SidebarPageSize);
      if s.page >= 0 {
        PageRows(listed.value.0, s.page, SidebarPageSize);
      }
    }
  }

  /**
   * A typed query hides the page controls at once, before it settles; clearing it shows them
   * again exactly when there is more than one page; and a successful search load leaves one page,
   * so they stay hidden whatever is typed.
   */
  lemma PaginationSpec(s: SidebarState, q: string, searchResults: Result<seq<DocumentSummary>>,
                       listed: Result<(seq<DocumentSummary>, Option<int>)>)
    ensures q != "" ==> !ShowsPagination(s.(searchQuery := q))
    ensures ShowsPagination(s.(searchQuery := "")) <==> s.totalPages > 1
    ensures SearchMode(s.debouncedQuery) && searchResults.Ok? ==> !ShowsPagination(LoadStep(s, searchResults, listed))
  {
    LoadStepSpec(s, searchResults, listed);
  }

  class Sidebar {
    var documents: seq<DocumentSummary>
    var isLoading: bool
    var error: Option<string>
    var searchQuery: string
    var debouncedQuery: string
    var sortOption: SortOption
    var page: int
    var totalPages: int
    var total: int
    var renamingId: Option<string>
    var renameValue: string
    var deletingId: Option<string>

    function State(): SidebarState
      reads this
    {
      SidebarState(documents, isLoading, error, searchQuery, debouncedQuery, sortOption,
                   page, totalPages, total, renamingId, renameValue, deletingId)
    }

    constructor ()
      ensures State() == SidebarState([], true, None, "", "", UpdatedDesc, 0, 1, 0, None, "", None)
    {
      documents := [];
      isLoading := true;
      error := None;
      searchQuery, debouncedQuery := "", "";
      sortOption := UpdatedDesc;
      page, totalPages, total := 0, 1, 0;
      renamingId, renameValue, deletingId := None, "", None;
    }

    /**
     * `loadDocuments`, which `LoadStep` specifies. The answers are arguments, so the spinner and
     * the cleared error shown while the request is outstanding are not a separate state here.
     */
    method LoadDocuments(searchResults: Result<seq<DocumentSummary>>,
                         listed: Result<(seq<DocumentSummary>, Option<int>)>)
      modifies this
      ensures State() == LoadStep(old(State()), searchResults, listed)
    {
      ghost var s0 := State();
      var docs, pages, count, err := documents, totalPages, total, None;
      if SearchMode(debouncedQuery) {
        if searchResults.Ok? {
          docs, pages, count := searchResults.value, 1, |searchResults.value|;
        } else {
          err := Some(LoadFailedMessage);
        }
      } else {
        if listed.Ok? {
          var range := PageRange(page, SidebarPageSize);
          var rows := RangeRows(listed.value.0, range.0, range.1);
          var result := Paginate(rows, listed.value.1, page, SidebarPageSize);
          docs, pages, count := result.documents, result.totalPages, result.total;
        } else {
          err := Some(LoadFailedMessage);
        }
      }
      assert LoadStep(s0, searchResults, listed)
          == s0.(documents := docs, isLoading := false, error := err, totalPages := pages, total := count);
      documents, totalPages, total, error := docs, pages, count, err;
      isLoading := false;
      assert State() == s0.(documents := docs, isLoading := false, error := err, totalPages := pages, total := count);
    }

    /**
     * The search box's `onChange`, and its clear button with `q == ""`: only the typed query
     * changes; the settled query follows later through `SettleQuery`.
     */
    method SetSearchQuery(q: string)
      modifies this
      ensures State() == old(State()).(searchQuery := q)
      ensures q != "" ==> !PaginationShown()
    {
      searchQuery := q;
    }

    /** The settled query changes; the page-reset effect runs only when it differs. */
    method SettleQuery(query: string)
      modifies this
      ensures State() == old(State()).(debouncedQuery := query,
                                       page := if query != old(debouncedQuery) then 0 else old(page))
    {
      if query != debouncedQuery {
        page := 0;
      }
      debouncedQuery := query;
    }

    method SetSort(option: SortOption)
      modifies this
      ensures State() == old(State()).(sortOption := option,
                                       page := if option != old(sortOption) then 0 else old(page))
    {
      if option != sortOption {
        page := 0;
      }
      sortOption := option;
    }

    /**
     * `handleCreate`: a created document goes first, is selected (`selected`) and is opened for
     * renaming with its default title; a failed create changes nothing.
     */
    method HandleCreate(created: Result<DocumentSummary>) returns (selected: Option<DocumentSummary>)
      modifies this
      ensures created.Ok? ==>
                && selected == Some(created.value)
                && State() == old(State()).(documents := [created.value] + old(documents),
                                            renamingId := Some(created.value.id), renameValue := DefaultTitle)
      ensures created.Err? ==> selected == None && State() == old(State())
    {
      if created.Err? {
        return None;
      }
      documents := [created.value] + documents;
      selected := Some(created.value);
      renamingId := Some(created.value.id);
      renameValue := DefaultTitle;
    }

    method StartRename(doc: DocumentSummary)
      modifies this
      ensures State() == old(State()).(renamingId := Some(doc.id), renameValue := doc.title)
    {
      renamingId := Some(doc.id);
      renameValue := doc.title;
    }

    /**
     * `submitRename`: when the rename is accepted only the matching entry takes the trimmed
     * title; the rename field closes either way.
     */
    method SubmitRename(documentId: string, dbError: Option<(string, string)>)
      modifies this
      ensures var outcome := RenameOutcome(old(renameValue), dbError);
              State() == old(State()).(renamingId := None,
                documents := if outcome.Ok? then Retitle(old(documents), documentId, outcome.value) else old(documents))
    {
      ghost var s0 := State();
      var outcome := RenameOutcome(renameValue, dbError);
      var docs := documents;
      if outcome.Ok? {
        docs := Retitle(docs, documentId, outcome.value);
      }
      documents, renamingId := docs, None;
      assert State() == s0.(renamingId := None, documents := docs);
    }

    /**
     * `handleDelete`: a successful delete drops the id from the list, clears the confirmation
     * and tells the parent (`notify`) only if it was the open document.
     */
    method HandleDelete(documentId: string, activeDocumentId: Option<string>, deleted: bool) returns (notify: bool)
      modifies this
      ensures deleted ==>
                State() == old(State()).(documents := RemoveId(old(documents), documentId), deletingId := None)
      ensures !deleted ==> State() == old(State())
      ensures notify <==> deleted && activeDocumentId == Some(documentId)
    {
      notify := false;
      if !deleted {
        return;
      }
      documents := RemoveId(documents, documentId);
      deletingId := None;
      if activeDocumentId == Some(documentId) {
        notify := true;
      }
    }

    predicate PaginationShown()
      reads this
    {
      ShowsPagination(State())
    }

    predicate PrevEnabled()
      reads this
    {
      page != 0
    }

    predicate NextEnabled()
      reads this
    {
      page < totalPages - 1
    }

    method PrevPage()
      requires PrevEnabled()
      modifies this
      ensures State() == old(State()).(page := old(page) - 1)
    {
      page := page - 1;
    }

    method NextPage()
      requires NextEnabled()
      modifies this
      ensures State() == old(State()).(page := old(page) + 1)
    {
      page := page + 1;
    }
  }

  /** A rename changes only titles, and only that document's; the ids stay as they were. */
  lemma RetitleKeepsIds(docs: seq<DocumentSummary>, id: string, title: string)
    requires UniqueIds(docs)
    ensures UniqueIds(Retitle(docs, id, title))
    ensures forall k :: 0 <= k < |docs| ==> Retitle(docs, id, title)[k].id == docs[k].id
  {
  }
}
