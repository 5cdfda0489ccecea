# PdfBrowser, modelled in Dafny

PdfBrowser serves the PDF files under the user's home directory to a browser.
It has three parts:

- a backend with two HTTP handlers: `/list-pdfs` lists the PDF names in a folder
  and `/files` sends one file;
- a library helper `getPdfFiles` that applies the same listing rule, but resolves
  paths against the working directory;
- a React component, `PdfBrowser`, that loads a listing and then searches, sorts
  and paginates it for display.

The model keeps each part in its source's own form.

- `backend/server.js` and `localpdf/lib/files.ts` become total functions. They map
  an abstract read-only host to a response datatype (`Server.ListPdfs`,
  `Server.FetchFile`) or to a `Result` (`Files.GetPdfFiles`).
- The host is `FileSystem.Host`. It holds a map from resolved paths to nodes (a
  file, a directory with its entries in read order, or something that exists but
  cannot be read). It also holds Node's `path.join` as an uninterpreted function
  field, plus the home directory and the working directory. `existsSync` is
  membership in that map (`FileSystem.Exists`), and `readdirSync` is
  `FileSystem.ReadDir`: it returns the entries of a directory and `None`, standing
  for the thrown error, for anything else.
- The rule "lower-cased name ends with `.pdf`" appears twice in the source. Here it
  is defined once (`PdfNames.IsPdfName`, `PdfNames.ListPdfNames`) and both listers
  use it.
- The component's state record (`pdfFiles`, `error`, `page`, `searchQuery`,
  `sortOrder`, and the path input) is the class `Browser.PdfBrowser`. Each of its
  state-changing methods is one event handler; `FilteredFiles` and `ShownFiles`
  compute the derived lists.
- The `useMemo` derivation is the method `PdfBrowser.FilteredFiles`. It copies
  the list, filters the copy and sorts an array in place. It is proved equal to the
  pure function `Browser.FilteredList`, and the properties are proved about that
  function.
- The arithmetic of the page slice, the page count and the Prev/Next conditions
  is in `Pagination`.
- `Sequences` holds the two array operations the code calls, `filter` and `sort`,
  with their guarantees. `Text` holds the string operations: ASCII `toLowerCase`,
  `endsWith`, `includes` and `trim`.

Notes on how the model reads the code:

- `localeCompare` becomes a total order `leq`, given as a parameter.
- A `fetch` outcome becomes the input datatype `Browser.FetchOutcome`.
- The `path` query parameter becomes `Option<string>`; `None` means the parameter
  is absent.
- `/files` calls `res.sendFile(fullPath)` once `existsSync` succeeds, whatever
  kind of node is at that path, so the model answers `SentFile(fullPath)` for a
  file, a directory or an unreadable node alike.

## Model

| member | source | states |
|---|---|---|
| `PdfNames.IsPdfName` | backend/server.js:20 | definition (`f.toLowerCase().endsWith(".pdf")`), no contract of its own; `IsPdfNameChars` states it character by character |
| `PdfNames.ListPdfNames` | localpdf/lib/files.ts:18 | definition (the filter by that rule), no contract of its own; `ListedAreNamedPdf`, `ListingComplete` and `ListingKeepsOrder` state its properties |
| `PdfNames.IsPdfNameChars` | backend/server.js:20 | a name passes the rule exactly when it has at least four characters, the fourth from last is `.`, and the last three spell `pdf` in any mix of cases |
| `PdfNames.CaseInsensitiveExamples` | localpdf/lib/files.ts:18 | `Report.PDF` passes the rule and `report.txt` does not |
| `PdfNames.ListedAreNamedPdf` | backend/server.js:20 | every listed name passes the rule and is one of the directory's entries (soundness) |
| `PdfNames.ListingComplete` | backend/server.js:19-20 | each entry that passes the rule is listed as many times as the directory holds it; an entry that fails the rule is not listed (completeness) |
| `PdfNames.ListingKeepsOrder` | backend/server.js:19-20 | the listing is a subsequence of the directory entries, so read order is kept |
| `PdfNames.ListingIdempotent` | backend/server.js:20 | filtering a listing a second time returns it unchanged |
| `Sequences.Filter` | backend/server.js:20 | `Array.prototype.filter`: the result is no longer than the input, and every element passes the predicate |
| `Sequences.FilterCount` | localpdf/lib/files.ts:18 | filter keeps every passing element with its multiplicity and drops every failing one |
| `Sequences.FilterIsSubsequence` | localpdf/lib/files.ts:18 | filter keeps the order of its input |
| `Sequences.SortBySorted` | localpdf/app/components/PdfBrowser.tsx:42-44 | under a total order the sort function's result is sorted |
| `Sequences.SortedUnique` | localpdf/app/components/PdfBrowser.tsx:42-44 | under a total order, two sorted sequences with the same multiset are equal, so only one sort result is possible |
| `Sequences.SortInPlace` | localpdf/app/components/PdfBrowser.tsx:42-44 | the in-place `files.sort(cmp)` leaves the array sorted by the comparator and holding a permutation of its old contents |
| `Sequences.SortedPermutationIsSortBy` | localpdf/app/components/PdfBrowser.tsx:42-44 | any sorted permutation of a list equals the sort function's result |
| `Server.RootDir` | backend/server.js:10 | definition (`ROOT_DIR = os.homedir()`), no contract of its own; `ListIgnoresWorkingDirectory` and `FetchResolves` state that both handlers resolve against it |
| `Server.Resolve` | backend/server.js:14 | definition (`path.join(ROOT_DIR, relative)`), no contract of its own; `EndpointsShareResolution` states that both handlers go through it |
| `Server.Given` | backend/server.js:13 | definition (JavaScript truthiness of `req.query.path`), no contract of its own; `ListDefaultsToRoot` and `FetchNeedsPath` state what an untruthy value leads to |
| `Server.ListPdfs` | backend/server.js:12-25 | `/list-pdfs` answers only 200 or 404, and it answers 200 exactly when the body is a PDF list |
| `Server.ListDefaultsToRoot` | backend/server.js:13-14 | an absent or empty `path` is read as `""`, so the folder listed is `path.join(home, "")` |
| `Server.ListFailure` | backend/server.js:18-23 | when the directory read fails for any reason, including a missing path, the response is 404 `{error: "Folder not found"}` and carries no list |
| `Server.ListSuccess` | backend/server.js:19-21 | for a readable directory the response is 200, and the list holds exactly the entries that pass the rule, with their multiplicities, as a subsequence of the entries; directories are not told apart from files |
| `Server.ListSound` | backend/server.js:20-21 | every name in a 200 listing passes the rule |
| `Server.ListIgnoresWorkingDirectory` | backend/server.js:10 | the listing depends on the home directory, never on the working directory |
| `Server.FetchFile` | backend/server.js:27-37 | `/files` answers 200, 400 or 404, and it answers 400 exactly when `path` is absent or empty |
| `Server.FetchNeedsPath` | backend/server.js:28-29 | with no usable `path` the answer is 400 "Path required", whatever the filesystem holds |
| `Server.FetchResolves` | backend/server.js:31-36 | with a path, the answer is 404 "File not found" exactly when nothing exists at `path.join(ROOT_DIR, path)`; otherwise exactly that resolved path is passed to `sendFile` |
| `Server.EndpointsShareResolution` | backend/server.js:14-31 | both endpoints resolve through the same join against the same root: the path of a folder `/list-pdfs` lists is passed to `sendFile` by `/files`, and a `/files` 404 implies a `/list-pdfs` 404 |
| `Files.AbsolutePath` | localpdf/lib/files.ts:10 | definition (`path.join(process.cwd(), relativePath)`), no contract of its own; `ResolvesAgainstWorkingDirectory` states its consequence |
| `Files.GetPdfFiles` | localpdf/lib/files.ts:9-19 | every name in a successful result passes the `.pdf` rule |
| `Files.MissingFolderThrows` | localpdf/lib/files.ts:12-14 | a missing folder throws `FolderDoesNotExist`, with a message that starts "Folder does not exist: " and ends with the absolute path; the result does not depend on any other path, so nothing is read |
| `Files.ExistingFolderListed` | localpdf/lib/files.ts:16-18 | an existing directory yields exactly its entries that pass the rule, with their multiplicities, in `readdirSync` order |
| `Files.ResolvesAgainstWorkingDirectory` | localpdf/lib/files.ts:10 | resolution uses `process.cwd()`: changing the home directory changes nothing |
| `Files.AgreesWithServer` | localpdf/lib/files.ts:18 | given the same directory read, the helper and `/list-pdfs` succeed together and return the same list; a missing folder makes the helper throw `FolderDoesNotExist` and the server answer 404 "Folder not found" |
| `Pagination.StartIndex` | localpdf/app/components/PdfBrowser.tsx:49 | definition (`(page - 1) * 10`); what it means is stated by `StartIndexCountsEarlierPages` |
| `Pagination.StartIndexCountsEarlierPages` | localpdf/app/components/PdfBrowser.tsx:49-50 | whenever the page starts within the list, its start index is the number of names shown on pages 1 to `page - 1` |
| `Pagination.Slice` | localpdf/app/components/PdfBrowser.tsx:50 | `slice` with both bounds clamped to the length: the length of the result, and each element taken from position `begin + i` |
| `Pagination.PageItems` | localpdf/app/components/PdfBrowser.tsx:50 | definition (`slice(startIndex, startIndex + 10)`), no contract of its own; `PageIsContiguousSlice`, `PagesPartitionList` and `PageOfIndex` state its properties |
| `Pagination.PageIsContiguousSlice` | localpdf/app/components/PdfBrowser.tsx:5-50 | a page is the contiguous run starting at `startIndex`; it holds at most 10 names, and fewer only where it reaches the end of the list |
| `Pagination.PageCount` | localpdf/app/components/PdfBrowser.tsx:132 | the page count is `ceil(n/10)`: the count pages hold all `n` names, and one page fewer would not |
| `Pagination.PrevDisabled` | localpdf/app/components/PdfBrowser.tsx:124 | definition (`page === 1`), no contract of its own; `PrevShowsFullPage` states where an enabled Prev leads |
| `Pagination.PrevShowsFullPage` | localpdf/app/components/PdfBrowser.tsx:123-124 | when Prev is enabled on an existing page, the page it leads to holds a full ten names |
| `Pagination.NextDisabled` | localpdf/app/components/PdfBrowser.tsx:136 | definition (`startIndex + 10 >= filteredFiles.length`), no contract of its own; `NextDisabledIffLastPage` states what it means |
| `Pagination.NextDisabledIffLastPage` | localpdf/app/components/PdfBrowser.tsx:136 | Next is disabled exactly when the page is at or past the page count, that is exactly when the next page would be empty |
| `Pagination.ExistingPageNonEmpty` | localpdf/app/components/PdfBrowser.tsx:50-132 | every page from 1 to the page count shows at least one name |
| `Pagination.PagesArePrefix` | localpdf/app/components/PdfBrowser.tsx:49-50 | pages 1 to `k` concatenated are the first `10k` names, or all of them when there are fewer |
| `Pagination.PagesPartitionList` | localpdf/app/components/PdfBrowser.tsx:50-132 | pages 1 through the page count, concatenated, give back the whole list |
| `Pagination.PageOfIndex` | localpdf/app/components/PdfBrowser.tsx:49-50 | name `i` sits on existing page `i/10 + 1`, at position `i%10` |
| `Text.LowerChar` | localpdf/app/components/PdfBrowser.tsx:38 | definition (ASCII lower-casing of one character), no contract of its own; `LowerIsLowerCase` states its effect |
| `Text.Lower` | localpdf/app/components/PdfBrowser.tsx:38 | definition (`toLowerCase`, ASCII, one character at a time), no contract of its own; `LowerIsLowerCase` states its properties |
| `Text.LowerIsLowerCase` | localpdf/app/components/PdfBrowser.tsx:38 | lower-casing keeps the length, leaves no upper-case ASCII letter, keeps every other character, maps each upper-case letter to its lower-case partner, and is idempotent |
| `Text.EndsWith` | backend/server.js:20 | definition (`endsWith`: the string closes with the suffix's characters), no contract of its own; `PdfNames.IsPdfNameChars` and `Files.MissingFolderThrows` use it |
| `Text.Includes` | localpdf/app/components/PdfBrowser.tsx:38 | definition (a scan over start positions), no contract of its own; `IncludesIffOccurs` states what it computes |
| `Text.IncludesIffOccurs` | localpdf/app/components/PdfBrowser.tsx:38 | the `includes` scan succeeds exactly when the needle occurs at some position |
| `Text.IsJsSpace` | localpdf/app/components/PdfBrowser.tsx:36 | definition (the ECMAScript WhiteSpace and LineTerminator code points `trim` removes), no contract of its own; `TrimEmptyIffBlank` uses it |
| `Text.IsBlank` | localpdf/app/components/PdfBrowser.tsx:36 | definition (every character is such a space), no contract of its own; `TrimEmptyIffBlank` shows it is exactly an empty `searchQuery.trim()` |
| `Text.Trim` | localpdf/app/components/PdfBrowser.tsx:36 | definition (drop leading and trailing whitespace), no contract of its own; `TrimEmptyIffBlank` states its property |
| `Text.TrimEmptyIffBlank` | localpdf/app/components/PdfBrowser.tsx:36 | `trim()` is empty exactly when every character is JavaScript whitespace; otherwise the trimmed string starts and ends with a non-space character |
| `Sequences.SortBy` | localpdf/app/components/PdfBrowser.tsx:42-44 | the sort function keeps the multiset of its input; `SortBySorted` and `SortedPermutationIsSortBy` state that it sorts and is the only sorted permutation |
| `Browser.Comparator` | localpdf/app/components/PdfBrowser.tsx:42-44 | definition (`a.localeCompare(b)` or `b.localeCompare(a)`), no contract of its own; `ComparatorIsTotalOrder` states its property |
| `Browser.ComparatorIsTotalOrder` | localpdf/app/components/PdfBrowser.tsx:42-44 | the "asc" and "desc" comparators are both total orders when `localeCompare` is one |
| `Browser.MatchesQuery` | localpdf/app/components/PdfBrowser.tsx:38 | definition (`file.toLowerCase().includes(searchQuery.toLowerCase())`), no contract of its own; `QueryKeepsMatches` and `QueryNotTrimmed` state its properties |
| `Browser.Search` | localpdf/app/components/PdfBrowser.tsx:34-40 | definition (filter only when `searchQuery.trim()` is non-empty), no contract of its own; `BlankQueryKeepsAll` and `QueryKeepsMatches` state both branches |
| `Browser.FilteredList` | localpdf/app/components/PdfBrowser.tsx:33-47 | definition (search, then sort), no contract of its own; `FilteredListSorted`, `FilteredLength` and `PdfBrowser.FilteredFiles` state its properties |
| `Browser.BlankQueryKeepsAll` | localpdf/app/components/PdfBrowser.tsx:34-44 | with a blank query `filteredFiles` is a permutation of `pdfFiles` |
| `Browser.QueryKeepsMatches` | localpdf/app/components/PdfBrowser.tsx:36-39 | with a non-blank query, a name is kept, at its full multiplicity, exactly when its lower-cased form contains the lower-cased query |
| `Browser.QueryNotTrimmed` | localpdf/app/components/PdfBrowser.tsx:36-38 | the query is matched untrimmed: `" c"` is not blank and does not match `abc.pdf`, while `"C"` does |
| `Browser.FilteredListSorted` | localpdf/app/components/PdfBrowser.tsx:42-44 | `filteredFiles` is sorted ascending by the comparator for "asc" and descending for "desc", and it is a permutation of the searched names |
| `Browser.FilteredLength` | localpdf/app/components/PdfBrowser.tsx:42-44 | sorting does not change the number of names |
| `Browser.LoadedFiles` | localpdf/app/components/PdfBrowser.tsx:26-29 | definition (`data.pdfs`, or `[]` after a throw), no contract of its own; `ErrorIffFailure` and `LoadFromServer` state its properties |
| `Browser.ErrorMessage` | localpdf/app/components/PdfBrowser.tsx:25-28 | definition (`data.error`, else "Failed to load PDFs", then `err.message`, else "Unknown error"), no contract of its own; `ErrorIffFailure` states its properties |
| `Browser.ErrorIffFailure` | localpdf/app/components/PdfBrowser.tsx:25-29 | after loading, `error` is empty exactly when the load succeeded; on failure the list is empty and `error` holds the thrown message |
| `Browser.ListingOutcome` | localpdf/app/components/PdfBrowser.tsx:20-26 | definition (`res.ok`, then `data.pdfs` or `data.error`), no contract of its own; `LoadFromServer` states its properties |
| `Browser.LoadFromServer` | localpdf/app/components/PdfBrowser.tsx:25-29 | on a server 404 the browser ends with an empty list and the error "Folder not found"; on a 200 it ends with the server's list and no error |
| `Browser.PdfBrowser.constructor` | localpdf/app/components/PdfBrowser.tsx:8-13 | the initial state: empty path, empty list, no error, page 1, empty query, ascending order |
| `Browser.PdfBrowser.SetRelativePath` | localpdf/app/components/PdfBrowser.tsx:63 | a path edit changes only `relativePath` |
| `Browser.PdfBrowser.FetchPdfFiles` | localpdf/app/components/PdfBrowser.tsx:15-31 | `fetchPdfFiles` resets `error` and returns to page 1, then sets `pdfFiles` to the loaded list, or to empty with the error message; nothing else changes and the state stays valid |
| `Browser.PdfBrowser.SetSearchQuery` | localpdf/app/components/PdfBrowser.tsx:80-83 | changing the search query resets `page` to 1 and changes nothing else |
| `Browser.PdfBrowser.SetSortOrder` | localpdf/app/components/PdfBrowser.tsx:89 | changing the order changes only `sortOrder`; the page is kept and stays valid |
| `Browser.PdfBrowser.ClickPrev` | localpdf/app/components/PdfBrowser.tsx:123-125 | Prev lowers the page by one unless it is disabled |
| `Browser.PdfBrowser.ClickNext` | localpdf/app/components/PdfBrowser.tsx:135-137 | Next raises the page by one unless it is disabled, and never goes past the page count |
| `Browser.PdfBrowser.FilteredFiles` | localpdf/app/components/PdfBrowser.tsx:33-47 | the `useMemo` body (copy, filter when the query is not blank, sort in place) returns exactly `FilteredList` of the current state, and `pdfFiles` is not reordered |
| `Browser.PdfBrowser.Valid` | localpdf/app/components/PdfBrowser.tsx:11-137 | the invariant every handler keeps: the page is 1 or one within the page count; no contract of its own |
| `Browser.PdfBrowser.MatchCount` | localpdf/app/components/PdfBrowser.tsx:121-136 | definition (`filteredFiles.length`, taken before the sort), no contract of its own; `FilteredLength` shows the sort keeps it, and `Valid`, `ClickNext` and `ShownPageNonEmpty` use it |
| `Browser.PdfBrowser.ShownFiles` | localpdf/app/components/PdfBrowser.tsx:49-50 | definition (`paginatedFiles`), no contract of its own; `ShownPageNonEmpty` states its property |
| `Browser.PdfBrowser.ShownPageNonEmpty` | localpdf/app/components/PdfBrowser.tsx:49-50 | in every state the handlers reach, the current page shows between 1 and 10 names whenever any name matches |

## Left out

- The HTTP layer is not modelled: Express routing, CORS, `app.listen` on port 5000, the `console.log` calls, and JSON serialisation. Each handler returns a `Response` value instead.
- `res.sendFile` is not modelled. Reading the file, inferring its content type, and producing its own errors (for example when the path is a directory) are I/O; `/files` stops at `SentFile(fullPath)`.
- `readdirSync` and `existsSync` are not modelled as system calls. They are read from the abstract map `FileSystem.Host.tree`, which does not change during a request.
- `path.join` is an uninterpreted function field, so its normalisation is not modelled. No containment in the home directory is claimed: the code does not check it, and a path with `..` segments can leave the root.
- Express can also parse `path` as an array or an object. The model covers only a string or no value (`Option<string>`).
- `Text.LowerChar`: lower-cases ASCII letters only, not Unicode `toLowerCase`, because Unicode case mapping is out of reach here.
- `Browser.Comparator`: `localeCompare` is abstracted as a total order, because locale collation is a foreign library. Ties between distinct names, which `localeCompare` can report, are not modelled.
- `Sequences.SortInPlace`: sorts by insertion sort. The engine's own sort algorithm is not modelled, only what `sort` guarantees (a sorted permutation).
- `Pagination.PageCount`: uses integer `(n + 9) / 10`, not `Math.ceil` of a floating-point quotient.
- `Browser.PdfBrowser.FetchPdfFiles`: the `fetch`, `res.json()` and `await` steps are network I/O. Only their outcome (`FetchOutcome`) and the resulting state update are modelled.
- Interleaving during the `await` is not modelled. A Next click while a load is in flight could leave `page` past the new page count, so the `Valid` invariant holds only because the handler is applied as one step.
- JSX rendering and styling are not modelled. This covers the "No PDF files available" message, hiding the search, sort and page controls while the lists are empty, and the `Open` link that builds `relativePath/file` for `/files`.
- Repeating a request with no filesystem change gives the same answer. The model shows this only by being built from functions; no lemma states it.
