/**
 * The PDF-name rule shared by both listers: an entry is kept when its
 * lower-cased name ends with ".pdf". The server and the library helper each
 * write it as `files.filter(f => f.toLowerCase().endsWith(".pdf"))`.
 */
module PdfNames {
  import opened Text
  import opened Sequences

  const PdfSuffix: string := ".pdf"

  /** `name.toLowerCase().endsWith(".pdf")`. */
  predicate IsPdfName(name: string) {
    EndsWith(Lower(name), PdfSuffix)
  }

  /** The listing filter over a directory's entries, in directory-read order. */
  function ListPdfNames(entries: seq<string>): seq<string> {
    Filter(IsPdfName, entries)
  }

  /**
   * The rule character by character: the name has at least four characters,
   * the fourth from last is '.', and the last three are "pdf" in any case.
   */
  lemma IsPdfNameChars(name: string)
    ensures IsPdfName(name) <==>
      |name| >= 4
      && name[|name| - 4] == '.'
      && name[|name| - 3] in {'p', 'P'}
      && name[|name| - 2] in {'d', 'D'}
      && name[|name| - 1] in {'f', 'F'}
  {
    var low := Lower(name);
    if |name| >= 4 {
      var tail := low[|low| - 4..];
      assert tail[0] == LowerChar(name[|name| - 4]);
      assert tail[1] == LowerChar(name[|name| - 3]);
      assert tail[2] == LowerChar(name[|name| - 2]);
      assert tail[3] == LowerChar(name[|name| - 1]);
      assert IsPdfName(name) <==> tail == ['.', 'p', 'd', 'f'];
    }
  }

  /** `Report.PDF` is kept and `report.txt` is dropped. */
  lemma CaseInsensitiveExamples()
    ensures IsPdfName("Report.PDF")
    ensures !IsPdfName("report.txt")
  {
    IsPdfNameChars("Report.PDF");
    IsPdfNameChars("report.txt");
  }

  /** Every listed name passes the rule. */
  lemma ListedAreNamedPdf(entries: seq<string>, name: string)
    requires name in ListPdfNames(entries)
    ensures IsPdfName(name)
    ensures name in entries
  {
    FilterMembership(IsPdfName, entries, name);
  }

  /**
   * Every entry passing the rule is listed, as often as the directory lists
   * it, and nothing else is.
   */
  lemma ListingComplete(entries: seq<string>, name: string)
    ensures multiset(ListPdfNames(entries))[name] ==
      if IsPdfName(name) then multiset(entries)[name] else 0
    ensures name in entries && IsPdfName(name) ==> name in ListPdfNames(entries)
  {
    FilterCount(IsPdfName, entries, name);
    FilterMembership(IsPdfName, entries, name);
  }

  /** The listing keeps directory-read order: it is a subsequence of the entries. */
  lemma ListingKeepsOrder(entries: seq<string>)
    ensures IsSubsequence(ListPdfNames(entries), entries)
  {
    FilterIsSubsequence(IsPdfName, entries);
  }

  /** Filtering a listing again returns it unchanged. */
  lemma ListingIdempotent(entries: seq<string>)
    ensures ListPdfNames(ListPdfNames(entries)) == ListPdfNames(entries)
  {
    FilterIdempotent(IsPdfName, entries);
  }
}
