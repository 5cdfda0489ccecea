/**
 * The library helper `getPdfFiles`: the same listing rule as the server's
 * `/list-pdfs`, but resolved against the working directory and reporting a
 * missing folder by throwing.
 */
module Files {
  import opened Wrappers
  import opened Text
  import opened FileSystem
  import opened Sequences
  import opened PdfNames
  import Server

  const MissingFolderPrefix: string := "Folder does not exist: "

  /** The two ways the helper throws. */
  datatype Error =
    | FolderDoesNotExist(message: string)  // its own `new Error(...)`
    | ReadFailed(path: Path)               // the error `readdirSync` throws

  /** `path.join(process.cwd(), relativePath)`. */
  function AbsolutePath(h: Host, relativePath: string): Path {
    h.join(h.cwd, relativePath)
  }

  /** `getPdfFiles(relativePath)`. */
  function GetPdfFiles(h: Host, relativePath: string): (r: Result<seq<string>, Error>)
    ensures r.Success? ==> forall i :: 0 <= i < |r.value| ==> IsPdfName(r.value[i])
  {
    var absolutePath := AbsolutePath(h, relativePath);
    if !Exists(h, absolutePath) then Failure(FolderDoesNotExist(MissingFolderPrefix + absolutePath))
    else match ReadDir(h, absolutePath)
      case Some(files) => Success(ListPdfNames(files))
      case None => Failure(ReadFailed(absolutePath))
  }

  /**
   * A missing folder is reported with a message naming its absolute path,
   * and without reading any directory: the result is the same whatever the
   * other paths hold.
   */
  lemma MissingFolderThrows(h: Host, relativePath: string, tree: map<Path, Node>)
    requires !Exists(h, AbsolutePath(h, relativePath))
    requires AbsolutePath(h, relativePath) !in tree
    ensures GetPdfFiles(h, relativePath).Failure?
    ensures GetPdfFiles(h, relativePath).error.FolderDoesNotExist?
    ensures var m := GetPdfFiles(h, relativePath).error.message;
            StartsWith(m, MissingFolderPrefix) && EndsWith(m, AbsolutePath(h, relativePath))
    ensures GetPdfFiles(h.(tree := tree), relativePath) == GetPdfFiles(h, relativePath)
  {
    var m := MissingFolderPrefix + AbsolutePath(h, relativePath);
    assert m[..|MissingFolderPrefix|] == MissingFolderPrefix;
    assert m[|m| - |AbsolutePath(h, relativePath)|..] == AbsolutePath(h, relativePath);
  }

  /**
   * For an existing directory the result holds exactly the entries passing
   * the `.pdf` rule, in `readdirSync` order.
   */
  lemma ExistingFolderListed(h: Host, relativePath: string, name: string)
    requires Exists(h, AbsolutePath(h, relativePath))
    requires h.tree[AbsolutePath(h, relativePath)].Directory?
    ensures GetPdfFiles(h, relativePath).Success?
    ensures var pdfs := GetPdfFiles(h, relativePath).value;
            var entries := h.tree[AbsolutePath(h, relativePath)].entries;
            && (name in pdfs <==> name in entries && IsPdfName(name))
            && multiset(pdfs)[name] == (if IsPdfName(name) then multiset(entries)[name] else 0)
            && IsSubsequence(pdfs, entries)
  {
    var entries := h.tree[AbsolutePath(h, relativePath)].entries;
    ListingComplete(entries, name);
    ListingKeepsOrder(entries);
    if name in ListPdfNames(entries) {
      ListedAreNamedPdf(entries, name);
    }
  }

  /** Resolution is against the working directory: the home directory plays no part. */
  lemma ResolvesAgainstWorkingDirectory(h: Host, relativePath: string, home: Path)
    ensures GetPdfFiles(h.(home := home), relativePath) == GetPdfFiles(h, relativePath)
  {
  }

  /**
   * Given the same directory read, the helper and the server's `/list-pdfs`
   * succeed together and return the same list; a missing folder makes both
   * fail, the helper by throwing and the server with 404.
   */
  lemma AgreesWithServer(h: Host, relativePath: string, query: Option<string>)
    requires ReadDir(h, AbsolutePath(h, relativePath)) == ReadDir(h, Server.Resolve(h, query.GetOr("")))
    ensures GetPdfFiles(h, relativePath).Success? <==> Server.ListPdfs(h, query).status == Server.StatusOk
    ensures GetPdfFiles(h, relativePath).Success? ==>
      GetPdfFiles(h, relativePath).value == Server.ListPdfs(h, query).body.pdfs
    ensures !Exists(h, AbsolutePath(h, relativePath)) ==>
      GetPdfFiles(h, relativePath).Failure? && GetPdfFiles(h, relativePath).error.FolderDoesNotExist? &&
      Server.ListPdfs(h, query) == Server.Response(Server.StatusNotFound, Server.JsonError(Server.FolderNotFound))
  {
  }
}
