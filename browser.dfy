/**
 * The `PdfBrowser` component: its state record, the handlers that update it,
 * and the list it derives for display (search, then sort, then one page).
 */
module Browser {
  import opened Text
  import opened Sequences
  import opened Pagination
  import Server
  import FileSystem
  import Wrappers

  datatype SortOrder = Asc | Desc

  // ---------------------------------------------------------------------------
  // The derived list

  /**
   * The order the sort callback gives: `a.localeCompare(b)` for "asc" and
   * `b.localeCompare(a)` for "desc", with `localeCompare` abstracted as the
   * total order `leq`.
   */
  function Comparator(order: SortOrder, leq: (string, string) -> bool): (string, string) -> bool {
    match order
    case Asc => leq
    case Desc => (a, b) => leq(b, a)
  }

  lemma ComparatorIsTotalOrder(order: SortOrder, leq: (string, string) -> bool)
    requires TotalOrder(leq)
    ensures TotalOrder(Comparator(order, leq))
  {
  }

  /** `file.toLowerCase().includes(searchQuery.toLowerCase())`; the query is not trimmed. */
  predicate MatchesQuery(query: string, file: string) {
    Includes(Lower(file), Lower(query))
  }

  /** The search callback for one query. */
  function Matcher(query: string): string -> bool {
    file => MatchesQuery(query, file)
  }

  /** The search step, skipped when `searchQuery.trim()` is empty. */
  function Search(pdfFiles: seq<string>, query: string): seq<string> {
    if Trim(query) == "" then pdfFiles else Filter(Matcher(query), pdfFiles)
  }

  /** `filteredFiles`: the searched names, sorted by the chosen order. */
  function FilteredList(pdfFiles: seq<string>, query: string, order: SortOrder,
                        leq: (string, string) -> bool): seq<string> {
    SortBy(Comparator(order, leq), Search(pdfFiles, query))
  }

  /** With a blank query no name is dropped: the list is a permutation of `pdfFiles`. */
  lemma BlankQueryKeepsAll(pdfFiles: seq<string>, query: string, order: SortOrder,
                           leq: (string, string) -> bool)
    requires IsBlank(query)
    ensures multiset(FilteredList(pdfFiles, query, order, leq)) == multiset(pdfFiles)
  {
    TrimEmptyIffBlank(query);
  }

  /**
   * With a non-blank query a name is kept, as often as `pdfFiles` holds it,
   * exactly when its lower-cased form contains the lower-cased query.
   */
  lemma QueryKeepsMatches(pdfFiles: seq<string>, query: string, order: SortOrder,
                          leq: (string, string) -> bool, name: string)
    requires !IsBlank(query)
    ensures multiset(FilteredList(pdfFiles, query, order, leq))[name] ==
      if exists i :: OccursAt(Lower(name), Lower(query), i) then multiset(pdfFiles)[name] else 0
    ensures name in FilteredList(pdfFiles, query, order, leq) <==>
      name in pdfFiles && exists i :: OccursAt(Lower(name), Lower(query), i)
  {
    TrimEmptyIffBlank(query);
    FilterCount(Matcher(query), pdfFiles, name);
    IncludesIffOccurs(Lower(name), Lower(query));
    var r := FilteredList(pdfFiles, query, order, leq);
    assert name in r <==> name in multiset(r);
  }

  /** The query is matched as typed: surrounding spaces must occur in the name. */
  lemma QueryNotTrimmed()
    ensures !IsBlank(" c")
    ensures !MatchesQuery(" c", "abc.pdf")
    ensures MatchesQuery("C", "abc.pdf")
  {
    assert !IsJsSpace(" c"[1]);
    assert Lower(" c") == " c";
    assert Lower("abc.pdf") == "abc.pdf";
    IncludesIffOccurs("abc.pdf", " c");
    forall i | 0 <= i < |"abc.pdf"| ensures "abc.pdf"[i] != ' ' {}
    forall i ensures !OccursAt("abc.pdf", " c", i) {
      if 0 <= i && i + 2 <= |"abc.pdf"| {
        assert "abc.pdf"[i..i + 2][0] == "abc.pdf"[i];
      }
    }
    IncludesIffOccurs(Lower("abc.pdf"), Lower("C"));
    assert OccursAt(Lower("abc.pdf"), Lower("C"), 2);
  }

  /**
   * The list is sorted ascending by `leq` for "asc" and descending for
   * "desc", and it is the only such arrangement of the searched names.
   */
  lemma FilteredListSorted(pdfFiles: seq<string>, query: string, order: SortOrder,
                           leq: (string, string) -> bool)
    requires TotalOrder(leq)
    ensures var files := FilteredList(pdfFiles, query, order, leq);
            forall i, j :: 0 <= i < j < |files| ==>
              if order == Asc then leq(files[i], files[j]) else leq(files[j], files[i])
    ensures multiset(FilteredList(pdfFiles, query, order, leq)) == multiset(Search(pdfFiles, query))
  {
    ComparatorIsTotalOrder(order, leq);
    SortBySorted(Comparator(order, leq), Search(pdfFiles, query));
  }

  /** The page count depends on the search only, not on the sort order. */
  lemma FilteredLength(pdfFiles: seq<string>, query: string, order: SortOrder,
                       leq: (string, string) -> bool)
    ensures |FilteredList(pdfFiles, query, order, leq)| == |Search(pdfFiles, query)|
  {
    var r := FilteredList(pdfFiles, query, order, leq);
    assert |r| == |multiset(r)|;
  }

  // ---------------------------------------------------------------------------
  // Loading

  /** How `await fetch(...)` and `await res.json()` ended. */
  datatype FetchOutcome =
    | Loaded(pdfs: seq<string>)  // `res.ok`, with `data.pdfs`
    | NotOk(error: string)       // not `res.ok`; `data.error`, "" when absent
    | Failed(message: string)    // `fetch` or `res.json()` threw; "" when no message

  const FailedToLoad: string := "Failed to load PDFs"
  const UnknownError: string := "Unknown error"

  /** `pdfFiles` once loading finished. */
  function LoadedFiles(outcome: FetchOutcome): seq<string> {
    if outcome.Loaded? then outcome.pdfs else []
  }

  /** `error` once loading finished: `err.message || "Unknown error"` on failure. */
  function ErrorMessage(outcome: FetchOutcome): string {
    match outcome
    case Loaded(_) => ""
    case NotOk(e) => if e != "" then e else FailedToLoad
    case Failed(m) => if m != "" then m else UnknownError
  }

  /**
   * Loading leaves an error exactly when it failed; then the list is empty
   * and the error holds the reported message when there is one.
   */
  lemma ErrorIffFailure(outcome: FetchOutcome)
    ensures ErrorMessage(outcome) == "" <==> outcome.Loaded?
    ensures !outcome.Loaded? ==> LoadedFiles(outcome) == []
    ensures outcome.NotOk? && outcome.error != "" ==> ErrorMessage(outcome) == outcome.error
    ensures outcome.Failed? && outcome.message != "" ==> ErrorMessage(outcome) == outcome.message
  {
  }

  /** What the browser reads from a `/list-pdfs` reply. */
  function ListingOutcome(r: Server.Response): FetchOutcome
    requires r.body.PdfList? || r.body.JsonError?
    requires (200 <= r.status < 300) <==> r.body.PdfList?
  {
    if 200 <= r.status < 300 then Loaded(r.body.pdfs) else NotOk(r.body.error)
  }

  /**
   * Loading from the server: a folder it cannot read leaves the list empty
   * and shows "Folder not found"; otherwise the list is the server's and no
   * error is shown.
   */
  lemma LoadFromServer(h: FileSystem.Host, query: Wrappers.Option<string>)
    ensures var r := Server.ListPdfs(h, query);
            var outcome := ListingOutcome(r);
            && (r.status == Server.StatusNotFound ==>
                  LoadedFiles(outcome) == [] && ErrorMessage(outcome) == Server.FolderNotFound)
            && (r.status == Server.StatusOk ==>
                  LoadedFiles(outcome) == r.body.pdfs && ErrorMessage(outcome) == "")
  {
  }

  // ---------------------------------------------------------------------------
  // The component state

  class PdfBrowser {
    var relativePath: string
    var pdfFiles: seq<string>
    var error: string
    var page: PageNumber
    var searchQuery: string
    var sortOrder: SortOrder

    /** `filteredFiles.length`, which the sort does not change. */
    function MatchCount(): nat
      reads this
    {
      |Search(pdfFiles, searchQuery)|
    }

    /** The page shown is page 1 or one that holds names. */
    ghost predicate Valid()
      reads this
    {
      page == 1 || page <= PageCount(MatchCount())
    }

    /** The initial `useState` values. */
    constructor ()
      ensures Valid()
      ensures relativePath == "" && pdfFiles == [] && error == "" && page == 1
      ensures searchQuery == "" && sortOrder == Asc
    {
      relativePath := "";
      pdfFiles := [];
      error := "";
      page := 1;
      searchQuery := "";
      sortOrder := Asc;
    }

    /** The path input's `onChange`. */
    method SetRelativePath(value: string)
      requires Valid()
      modifies this
      ensures Valid()
      ensures relativePath == value
      ensures pdfFiles == old(pdfFiles) && error == old(error) && page == old(page)
      ensures searchQuery == old(searchQuery) && sortOrder == old(sortOrder)
    {
      relativePath := value;
    }

    /**
     * `fetchPdfFiles`: clears the error and returns to page 1, then stores
     * the loaded list, or an empty list and the error message.
     */
    method FetchPdfFiles(outcome: FetchOutcome)
      requires Valid()
      modifies this
      ensures Valid()
      ensures page == 1
      ensures pdfFiles == LoadedFiles(outcome) && error == ErrorMessage(outcome)
      ensures relativePath == old(relativePath) && searchQuery == old(searchQuery)
      ensures sortOrder == old(sortOrder)
    {
      error := "";
      page := 1;
      match outcome {
        case Loaded(pdfs) =>
          pdfFiles := pdfs;
        case NotOk(e) =>
          var message := if e != "" then e else FailedToLoad;
          error := if message != "" then message else UnknownError;
          pdfFiles := [];
        case Failed(m) =>
          error := if m != "" then m else UnknownError;
          pdfFiles := [];
      }
    }

    /** The search input's `onChange`: a new query and back to page 1. */
    method SetSearchQuery(value: string)
      requires Valid()
      modifies this
      ensures Valid()
      ensures searchQuery == value && page == 1
      ensures relativePath == old(relativePath) && pdfFiles == old(pdfFiles)
      ensures error == old(error) && sortOrder == old(sortOrder)
    {
      searchQuery := value;
      page := 1;
    }

    /** The sort select's `onChange`; the page is kept. */
    method SetSortOrder(order: SortOrder)
      requires Valid()
      modifies this
      ensures Valid()
      ensures sortOrder == order
      ensures relativePath == old(relativePath) && pdfFiles == old(pdfFiles) && error == old(error)
      ensures page == old(page) && searchQuery == old(searchQuery)
    {
      sortOrder := order;
    }

    /** A click on Prev, which does nothing while the button is disabled. */
    method ClickPrev()
      requires Valid()
      modifies this
      ensures Valid()
      ensures page == if PrevDisabled(old(page)) then old(page) else old(page) - 1
      ensures relativePath == old(relativePath) && pdfFiles == old(pdfFiles) && error == old(error)
      ensures searchQuery == old(searchQuery) && sortOrder == old(sortOrder)
    {
      if !PrevDisabled(page) {
        page := page - 1;
      }
    }

    /** A click on Next, which does nothing while the button is disabled. */
    method ClickNext()
      requires Valid()
      modifies this
      ensures Valid()
      ensures page == if NextDisabled(old(page), old(MatchCount())) then old(page) else old(page) + 1
      ensures relativePath == old(relativePath) && pdfFiles == old(pdfFiles) && error == old(error)
      ensures searchQuery == old(searchQuery) && sortOrder == old(sortOrder)
    {
      if !NextDisabled(page, MatchCount()) {
        NextDisabledIffLastPage(Search(pdfFiles, searchQuery), page);
        page := page + 1;
      }
    }

    /**
     * The `useMemo` body: copy `pdfFiles`, filter the copy when the query is
     * not blank, sort it in place. `pdfFiles` itself is left as it is.
     */
    method FilteredFiles(leq: (string, string) -> bool) returns (files: seq<string>)
      requires TotalOrder(leq)
      ensures files == FilteredList(pdfFiles, searchQuery, sortOrder, leq)
    {
      var query := searchQuery;
      files := pdfFiles;
      if Trim(query) != "" {
        files := Filter(Matcher(query), files);
      }
      ghost var searched := files;
      var a := new string[|files|](i requires 0 <= i < |files| => files[i]);
      assert a[..] == searched;
      ComparatorIsTotalOrder(sortOrder, leq);
      SortInPlace(a, Comparator(sortOrder, leq));
      files := a[..];
      SortedPermutationIsSortBy(Comparator(sortOrder, leq), searched, files);
    }

    /** `paginatedFiles`: the names on the current page. */
    function ShownFiles(leq: (string, string) -> bool): seq<string>
      reads this
    {
      PageItems(FilteredList(pdfFiles, searchQuery, sortOrder, leq), page)
    }

    /** In a valid state the current page shows at least one name when any matches. */
    lemma ShownPageNonEmpty(leq: (string, string) -> bool)
      requires Valid() && MatchCount() > 0
      ensures 0 < |ShownFiles(leq)| <= ItemsPerPage
    {
      var files := FilteredList(pdfFiles, searchQuery, sortOrder, leq);
      FilteredLength(pdfFiles, searchQuery, sortOrder, leq);
      ExistingPageNonEmpty(files, page);
      PageIsContiguousSlice(files, page);
    }
  }
}
