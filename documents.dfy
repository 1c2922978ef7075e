/**
 * The arithmetic and validation of the document queries (src/lib/documents.ts): the rename-title
 * check, the blank-query fallback of the search, the sort options, and the page window and
 * page count of the paginated list. The database itself is not part of this model; what it
 * answers is passed in.
 */
module Documents {
  import opened Wrappers
  import opened Text

  const EmptyTitleMessage := "Judul tidak boleh kosong"
  const DefaultTitle := "Untitled"
  const DefaultDocsPageSize := 10

  datatype DocumentSummary = DocumentSummary(id: string, title: string, updatedAt: int)

  datatype SortOption = UpdatedDesc | UpdatedAsc | TitleAsc | TitleDesc

  datatype Column = UpdatedAt | TitleColumn

  datatype PaginatedDocuments = PaginatedDocuments(documents: seq<DocumentSummary>, total: int, page: int, totalPages: int)

  /**
   * `renameDocument`'s outcome: a blank title is refused before any write; otherwise the trimmed
   * title is stored, unless the database reports an error (message and code).
   */
  function RenameOutcome(newTitle: string, dbError: Option<(string, string)>): (r: Result<string>) {
    var trimmed := Trim(newTitle);
    if trimmed == [] then Err(EmptyTitleMessage)
    else if dbError.Some? then Err("Gagal mengganti nama: " + dbError.value.0 + " (" + dbError.value.1 + ")")
    else Ok(trimmed)
  }

  lemma RenameOutcomeSpec(newTitle: string, dbError: Option<(string, string)>)
    ensures var r := RenameOutcome(newTitle, dbError);
            && (r == Err(EmptyTitleMessage) <==> Trim(newTitle) == [])
            && (r.Ok? <==> Trim(newTitle) != [] && dbError.None?)
            && (r.Ok? ==> r.value == Trim(newTitle) && r.value != [])
            && (r.Ok? ==> !IsJsWhitespace(r.value[0]) && !IsJsWhitespace(r.value[|r.value| - 1]))
  {
    var trimmed := Trim(newTitle);
    if trimmed != [] && dbError.Some? {
      var message := "Gagal mengganti nama: " + dbError.value.0 + " (" + dbError.value.1 + ")";
      assert message[0] == 'G' && EmptyTitleMessage[0] == 'J';
    }
    if trimmed != [] && dbError.None? {
      TrimEnds(newTitle);
    }
  }

  /** Where `searchDocuments` takes its answer from. */
  datatype SearchSource = FullList | TextSearch(query: string)

  /** A query that trims to nothing falls back to the owner's full list. */
  function SearchSourceOf(query: string): (source: SearchSource) {
    if Trim(query) == [] then FullList else TextSearch(query)
  }

  lemma SearchFallback(query: string)
    ensures SearchSourceOf(query) == FullList <==> forall k :: 0 <= k < |query| ==> IsJsWhitespace(query[k])
    ensures SearchSourceOf(query).TextSearch? ==> SearchSourceOf(query).query == query
  {
    TrimEmptyIff(query);
  }

  /** The `sortMap` lookup. */
  function SortMap(option: SortOption): (Column, bool) {
    match option
    case UpdatedDesc => (UpdatedAt, false)
    case UpdatedAsc => (UpdatedAt, true)
    case TitleAsc => (TitleColumn, true)
    case TitleDesc => (TitleColumn, false)
  }

  /** Every option names a different sort, so the map is one to one. */
  lemma SortMapInjective(a: SortOption, b: SortOption)
    ensures SortMap(a) == SortMap(b) <==> a == b
    ensures SortMap(UpdatedDesc) == (UpdatedAt, false)
  {
  }

  /** The inclusive row range `[page * size, (page + 1) * size - 1]`. */
  function PageRange(page: int, pageSize: int): (int, int) {
    (page * pageSize, (page + 1) * pageSize - 1)
  }

  /** The rows an inclusive range `[from, to]` takes from an ordered result. */
  function RangeRows<T>(rows: seq<T>, from: int, to: int): seq<T> {
    Slice(rows, from, to + 1)
  }

  /** The range holds exactly `pageSize` rows and consecutive pages follow on without a gap. */
  lemma PageRangeSpec(page: int, pageSize: int)
    ensures PageRange(page, pageSize).1 - PageRange(page, pageSize).0 + 1 == pageSize
    ensures PageRange(page + 1, pageSize).0 == PageRange(page, pageSize).1 + 1
  {
  }

  /** A page of a result is its window `[page * size, page * size + size)`, cut at the end. */
  lemma PageRows<T>(rows: seq<T>, page: nat, pageSize: nat)
    ensures var range := PageRange(page, pageSize);
            var start := page * pageSize;
            && RangeRows(rows, range.0, range.1) == rows[Min(start, |rows|)..Min(start + pageSize, |rows|)]
            && |RangeRows(rows, range.0, range.1)| <= pageSize
  {
    var start := page * pageSize;
    assert PageRange(page, pageSize) == (start, start + pageSize - 1) by {
      assert (page + 1) * pageSize == start + pageSize;
    }
    WindowRows(rows, start, pageSize);
  }

  lemma WindowRows<T>(rows: seq<T>, start: nat, size: nat)
    ensures RangeRows(rows, start, start + size - 1) == rows[Min(start, |rows|)..Min(start + size, |rows|)]
  {
  }

  /** `Math.ceil(a / b)` for a positive divisor. */
  function CeilDiv(a: int, b: int): int
    requires b > 0
  {
    if a % b == 0 then a / b else a / b + 1
  }

  /** The total is the count, or 0 when the database gives none; the pages are its ceiling. */
  function Paginate(documents: seq<DocumentSummary>, count: Option<int>, page: int, pageSize: int): (r: PaginatedDocuments)
    requires pageSize > 0
  {
    var total := count.GetOr(0);
    PaginatedDocuments(documents, total, page, CeilDiv(total, pageSize))
  }

  /** `totalPages` is the least number of pages that holds the total; no documents, no pages. */
  lemma TotalPagesSpec(documents: seq<DocumentSummary>, count: Option<int>, page: int, pageSize: int)
    requires pageSize > 0
    ensures var r := Paginate(documents, count, page, pageSize);
            && r.total == (if count.Some? then count.value else 0)
            && r.totalPages * pageSize >= r.total
            && (r.totalPages - 1) * pageSize < r.total
            && (r.total == 0 ==> r.totalPages == 0)
            && (r.total > 0 ==> r.totalPages >= 1)
            && r.page == page && r.documents == documents
  {
    var total := count.GetOr(0);
    var q := total / pageSize;
    assert total == q * pageSize + total % pageSize;
  }
}
