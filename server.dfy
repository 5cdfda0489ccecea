/**
 * The two request handlers of the backend: `/list-pdfs` and `/files`. Each is
 * a total function from the host and the `path` query parameter to the
 * response the handler writes.
 */
module Server {
  import opened Wrappers
  import opened FileSystem
  import opened Sequences
  import opened PdfNames

  const StatusOk := 200
  const StatusBadRequest := 400
  const StatusNotFound := 404

  const FolderNotFound: string := "Folder not found"
  const PathRequired: string := "Path required"
  const FileNotFound: string := "File not found"

  datatype Body =
    | PdfList(pdfs: seq<string>)  // JSON `{ pdfs }`
    | JsonError(error: string)    // JSON `{ error }`
    | Text(message: string)       // plain-text body
    | SentFile(path: Path)        // `res.sendFile(path)`

  datatype Response = Response(status: int, body: Body)

  /** `ROOT_DIR = os.homedir()`, fixed for the life of the process. */
  function RootDir(h: Host): Path {
    h.home
  }

  /** `path.join(ROOT_DIR, relative)`, shared by both handlers. */
  function Resolve(h: Host, relative: string): Path {
    h.join(RootDir(h), relative)
  }

  /** The query value is usable when present and non-empty (JavaScript truthiness). */
  predicate Given(query: Option<string>) {
    query.Some? && query.value != ""
  }

  /** `GET /list-pdfs`. */
  function ListPdfs(h: Host, query: Option<string>): (r: Response)
    ensures r.status == StatusOk || r.status == StatusNotFound
    ensures r.status == StatusOk <==> r.body.PdfList?
  {
    var relative := query.GetOr("");
    var fullPath := Resolve(h, relative);
    match ReadDir(h, fullPath)
    case Some(files) => Response(StatusOk, PdfList(ListPdfNames(files)))
    case None => Response(StatusNotFound, JsonError(FolderNotFound))
  }

  /** `GET /files`. */
  function FetchFile(h: Host, query: Option<string>): (r: Response)
    ensures r.status in {StatusOk, StatusBadRequest, StatusNotFound}
    ensures r.status == StatusBadRequest <==> !Given(query)
  {
    if !Given(query) then Response(StatusBadRequest, Text(PathRequired))
    else
      var fullPath := Resolve(h, query.value);
      if !Exists(h, fullPath) then Response(StatusNotFound, Text(FileNotFound))
      else Response(StatusOk, SentFile(fullPath))
  }

  // ---------------------------------------------------------------------------
  // /list-pdfs

  /** An absent or empty `path` lists the root directory itself. */
  lemma ListDefaultsToRoot(h: Host, query: Option<string>)
    requires !Given(query)
    ensures ListPdfs(h, query) == ListPdfs(h, Some(""))
    ensures ListPdfs(h, query).status == StatusOk <==> ReadDir(h, h.join(h.home, "")).Some?
  {
  }

  /**
   * A directory read that fails for any reason (no such path, a file, an
   * unreadable directory) gives 404 "Folder not found" and no list.
   */
  lemma ListFailure(h: Host, relative: string)
    requires ReadDir(h, Resolve(h, relative)).None?
    ensures ListPdfs(h, Some(relative)) == Response(StatusNotFound, JsonError(FolderNotFound))
  {
  }

  /**
   * On success the list holds exactly the entries whose lower-cased name ends
   * with ".pdf", as often as the directory holds them, in directory order;
   * directories named like PDFs are listed too, since only names are seen.
   */
  lemma ListSuccess(h: Host, relative: string, name: string)
    requires Exists(h, Resolve(h, relative)) && h.tree[Resolve(h, relative)].Directory?
    ensures ListPdfs(h, Some(relative)).status == StatusOk
    ensures var pdfs := ListPdfs(h, Some(relative)).body.pdfs;
            var entries := h.tree[Resolve(h, relative)].entries;
            && (name in pdfs <==> name in entries && IsPdfName(name))
            && multiset(pdfs)[name] == (if IsPdfName(name) then multiset(entries)[name] else 0)
            && IsSubsequence(pdfs, entries)
  {
    var entries := h.tree[Resolve(h, relative)].entries;
    ListingComplete(entries, name);
    ListingKeepsOrder(entries);
    if name in ListPdfNames(entries) {
      ListedAreNamedPdf(entries, name);
    }
  }

  /** Every name in a successful listing passes the `.pdf` rule. */
  lemma ListSound(h: Host, query: Option<string>)
    requires ListPdfs(h, query).status == StatusOk
    ensures forall i :: 0 <= i < |ListPdfs(h, query).body.pdfs| ==> IsPdfName(ListPdfs(h, query).body.pdfs[i])
  {
  }

  /** The listing does not depend on the working directory, only on the home one. */
  lemma ListIgnoresWorkingDirectory(h: Host, query: Option<string>, cwd: Path)
    ensures ListPdfs(h.(cwd := cwd), query) == ListPdfs(h, query)
  {
  }

  // ---------------------------------------------------------------------------
  // /files

  /** A missing or empty `path` is refused before the filesystem is consulted. */
  lemma FetchNeedsPath(h: Host, query: Option<string>, tree: map<Path, Node>)
    requires !Given(query)
    ensures FetchFile(h.(tree := tree), query) == Response(StatusBadRequest, Text(PathRequired))
  {
  }

  /**
   * With a path, the result is 404 "File not found" exactly when nothing
   * exists at `path.join(ROOT_DIR, path)`, and otherwise that very path is sent.
   */
  lemma FetchResolves(h: Host, relative: string)
    requires relative != ""
    ensures !Exists(h, Resolve(h, relative)) <==>
      FetchFile(h, Some(relative)) == Response(StatusNotFound, Text(FileNotFound))
    ensures Exists(h, Resolve(h, relative)) <==>
      FetchFile(h, Some(relative)) == Response(StatusOk, SentFile(h.join(h.home, relative)))
  {
  }

  /**
   * Both endpoints resolve a path the same way: a folder `/list-pdfs` can list
   * is one `/files` would send, and a path `/files` cannot find is one
   * `/list-pdfs` cannot list.
   */
  lemma EndpointsShareResolution(h: Host, relative: string)
    requires relative != ""
    ensures ListPdfs(h, Some(relative)).status == StatusOk ==>
      FetchFile(h, Some(relative)) == Response(StatusOk, SentFile(Resolve(h, relative)))
    ensures FetchFile(h, Some(relative)).status == StatusNotFound ==>
      ListPdfs(h, Some(relative)).status == StatusNotFound
  {
  }
}
