/** Text extraction from machine-readable PDFs (extractors/pdf_extractor.py).
    The two PDF libraries are not modelled: a file is what each library
    reads from it, the text of every page or the message of the exception
    it raised. */
module PdfExtractor {
  import opened Common
  import opened Assembly

  /** What one library read from a file: the text of each page (an empty
      string for a page without text), or a failure with its message. */
  datatype PageRead = Pages(texts: seq<string>) | ReadFailed(message: string)

  /** A PDF as the two libraries see it. */
  datatype PdfFile = PdfFile(pypdf: PageRead, plumber: PageRead)

  datatype Library = PyPDF2 | Pdfplumber

  /** PDFExtractionError from a library, ValueError for an unknown method. */
  datatype ExtractError = PdfExtractionError(message: string) | ValueError(message: string)

  const PageSeparator: string := "\n\n"
  const DefaultSeparator: string := "\n\n---\n\n"
  const EmptyText: string := "Empty text extracted"

  function LibraryName(library: Library): string {
    match library
    case PyPDF2 => "PyPDF2"
    case Pdfplumber => "pdfplumber"
  }

  function ReadOf(library: Library, file: PdfFile): PageRead {
    match library
    case PyPDF2 => file.pypdf
    case Pdfplumber => file.plumber
  }

  /** The pages that gave some text, in page order. */
  function NonEmpty(pages: seq<string>): (r: seq<string>)
    ensures forall j | 0 <= j < |r| :: r[j] != []
    ensures IsSubsequence(r, pages)
  {
    if pages == [] then []
    else
      var init := NonEmpty(pages[..|pages| - 1]);
      assert pages == pages[..|pages| - 1] + [pages[|pages| - 1]];
      if pages[|pages| - 1] != [] then
        assert (init + [pages[|pages| - 1]])[..|init|] == init;
        init + [pages[|pages| - 1]]
      else init
  }

  /** No page with text is lost: the kept pages are, copy for copy, the
      pages of `pages` other than the empty ones. */
  lemma {:induction false} NonEmptyKeepsEveryPage(pages: seq<string>)
    ensures multiset(NonEmpty(pages)) == multiset(pages)[[] := 0]
  {
    if pages != [] {
      var init := pages[..|pages| - 1];
      var last := pages[|pages| - 1];
      NonEmptyKeepsEveryPage(init);
      assert pages == init + [last];
      assert multiset(pages) == multiset(init) + multiset{last};
      if last != [] {
        assert NonEmpty(pages) == NonEmpty(init) + [last];
        assert multiset(NonEmpty(init) + [last]) == multiset(NonEmpty(init)) + multiset{last};
      } else {
        assert NonEmpty(pages) == NonEmpty(init);
      }
    }
  }

  /** extract_with_pypdf2 / extract_with_pdfplumber as a value: the page
      texts joined with a blank line, or the library's error. */
  function PageText(library: Library, read: PageRead): (r: Result<string, ExtractError>)
    ensures r.Failure? <==> read.ReadFailed?
    ensures r.Failure? ==> r.error == PdfExtractionError(LibraryName(library) + " extraction failed: " + read.message)
    ensures r.Success? ==> (IsBlank(r.value) <==> forall i | 0 <= i < |read.texts| :: IsBlank(read.texts[i]))
  {
    match read
    case ReadFailed(message) => Failure(PdfExtractionError(LibraryName(library) + " extraction failed: " + message))
    case Pages(texts) =>
      PagesBlank(texts);
      Success(Join(NonEmpty(texts), PageSeparator))
  }

  lemma BlankConcat(a: string, b: string)
    ensures IsBlank(a + b) <==> IsBlank(a) && IsBlank(b)
  {
    if IsBlank(a) && IsBlank(b) {
      forall i | 0 <= i < |a + b| ensures IsSpace((a + b)[i]) {
        if i < |a| { assert (a + b)[i] == a[i]; } else { assert (a + b)[i] == b[i - |a|]; }
      }
    }
    if IsBlank(a + b) {
      forall i | 0 <= i < |a| ensures IsSpace(a[i]) { assert a[i] == (a + b)[i]; }
      forall i | 0 <= i < |b| ensures IsSpace(b[i]) { assert b[i] == (a + b)[|a| + i]; }
    }
  }

  /** Joining with a whitespace separator gives a blank text exactly when
      every part is blank. */
  lemma {:induction false} JoinBlank(parts: seq<string>, sep: string)
    requires IsBlank(sep)
    ensures IsBlank(Join(parts, sep)) <==> forall j | 0 <= j < |parts| :: IsBlank(parts[j])
  {
    if |parts| >= 2 {
      var init := parts[..|parts| - 1];
      JoinBlank(init, sep);
      BlankConcat(Join(init, sep), sep);
      BlankConcat(Join(init, sep) + sep, parts[|parts| - 1]);
      assert forall j | 0 <= j < |init| :: init[j] == parts[j];
    }
  }

  /** The joined page text is blank exactly when every page is. */
  lemma {:induction false} PagesBlank(pages: seq<string>)
    ensures IsBlank(Join(NonEmpty(pages), PageSeparator)) <==> forall i | 0 <= i < |pages| :: IsBlank(pages[i])
  {
    assert IsBlank(PageSeparator) by {
      assert PageSeparator == ['\n', '\n'];
    }
    JoinBlank(NonEmpty(pages), PageSeparator);
    NonEmptyBlank(pages);
  }

  lemma {:induction false} NonEmptyBlank(pages: seq<string>)
    ensures (forall j | 0 <= j < |NonEmpty(pages)| :: IsBlank(NonEmpty(pages)[j]))
        <==> (forall i | 0 <= i < |pages| :: IsBlank(pages[i]))
  {
    if pages != [] {
      var init := pages[..|pages| - 1];
      NonEmptyBlank(init);
      var last := pages[|pages| - 1];
      var ne := NonEmpty(pages);
      assert ne == NonEmpty(init) + (if last != [] then [last] else []);
      assert forall i | 0 <= i < |init| :: init[i] == pages[i];
      assert forall j | 0 <= j < |NonEmpty(init)| :: ne[j] == NonEmpty(init)[j];
      assert IsBlank([]);
    }
  }

  /** The page loop of one library. */
  method ExtractWith(library: Library, read: PageRead) returns (r: Result<string, ExtractError>)
    ensures r == PageText(library, read)
  {
    if read.ReadFailed? {
      return Failure(PdfExtractionError(LibraryName(library) + " extraction failed: " + read.message));
    }
    var parts: seq<string> := [];
    for i := 0 to |read.texts|
      invariant parts == NonEmpty(read.texts[..i])
    {
      assert read.texts[..i + 1][..i] == read.texts[..i];
      var pageText := read.texts[i];
      if pageText != [] {
        parts := parts + [pageText];
      }
    }
    assert read.texts[..|read.texts|] == read.texts;
    r := Success(Join(parts, PageSeparator));
  }

  /** The "auto" method as a value: pdfplumber's text when it read the file
      and found some non-whitespace, otherwise PyPDF2's text when it read
      the file, otherwise the empty text. */
  function AutoText(file: PdfFile): (t: string)
  {
    var plumber := PageText(Pdfplumber, file.plumber);
    if plumber.Success? && !IsBlank(plumber.value) then plumber.value
    else
      var pypdf := PageText(PyPDF2, file.pypdf);
      if pypdf.Success? then pypdf.value else ""
  }

  /** A page is found "with text" when it is not all whitespace. */
  predicate HasTextPage(read: PageRead) {
    read.Pages? && exists i | 0 <= i < |read.texts| :: !IsBlank(read.texts[i])
  }

  /** "auto" gives a text that is not all whitespace exactly when one of the
      libraries read a page that is not; when pdfplumber did, its text is
      the one returned. */
  lemma AutoTextFound(file: PdfFile)
    ensures !IsBlank(AutoText(file)) <==> HasTextPage(file.plumber) || HasTextPage(file.pypdf)
    ensures HasTextPage(file.plumber) ==> Success(AutoText(file)) == PageText(Pdfplumber, file.plumber)
    ensures !HasTextPage(file.plumber) && file.pypdf.Pages? ==> Success(AutoText(file)) == PageText(PyPDF2, file.pypdf)
  {
    assert IsBlank("");
  }

  method ExtractAuto(file: PdfFile) returns (text: string)
    ensures text == AutoText(file)
  {
    var plumber := ExtractWith(Pdfplumber, file.plumber);
    if plumber.Success? && !IsBlank(plumber.value) {
      return plumber.value;
    }
    var pypdf := ExtractWith(PyPDF2, file.pypdf);
    if pypdf.Success? {
      return pypdf.value;
    }
    return "";
  }

  /** extract: dispatch on the method name; an unknown name is a ValueError. */
  method Extract(methodName: string, file: PdfFile) returns (r: Result<string, ExtractError>)
    ensures methodName == "pypdf2" ==> r == PageText(PyPDF2, file.pypdf)
    ensures methodName == "pdfplumber" ==> r == PageText(Pdfplumber, file.plumber)
    ensures methodName == "auto" ==> r == Success(AutoText(file))
    ensures methodName !in {"pypdf2", "pdfplumber", "auto"} ==>
              r == Failure(ValueError("Unknown extraction method: " + methodName))
  {
    if methodName == "pypdf2" {
      r := ExtractWith(PyPDF2, file.pypdf);
    } else if methodName == "pdfplumber" {
      r := ExtractWith(Pdfplumber, file.plumber);
    } else if methodName == "auto" {
      var text := ExtractAuto(file);
      r := Success(text);
    } else {
      r := Failure(ValueError("Unknown extraction method: " + methodName));
    }
  }

  /** The verdict on one (filename, file) pair of extract_multiple, which
      always uses "auto" and so never sees a PDFExtractionError. */
  function FileEntry(name: string, file: PdfFile): (e: Entry)
    ensures e.Accepted? <==> HasTextPage(file.plumber) || HasTextPage(file.pypdf)
    ensures e.Accepted? ==> e.name == name && e.text == AutoText(file)
    ensures e.Rejected? ==> e.message == name + ": " + EmptyText
  {
    AutoTextFound(file);
    var text := AutoText(file);
    if !IsBlank(text) then Accepted(text, name) else Rejected(name + ": " + EmptyText)
  }

  function Entries(files: seq<(string, PdfFile)>): (es: seq<Entry>)
    ensures |es| == |files|
  {
    if files == [] then []
    else Entries(files[..|files| - 1]) + [FileEntry(files[|files| - 1].0, files[|files| - 1].1)]
  }

  /** The verdict at position i is that on the i-th file. */
  lemma {:induction false} EntriesAt(files: seq<(string, PdfFile)>)
    ensures forall i | 0 <= i < |files| :: Entries(files)[i] == FileEntry(files[i].0, files[i].1)
  {
    if files != [] {
      var init := files[..|files| - 1];
      EntriesAt(init);
      forall i | 0 <= i < |files|
        ensures Entries(files)[i] == FileEntry(files[i].0, files[i].1)
      {
        if i < |init| {
          assert init[i] == files[i];
          assert Entries(files)[i] == Entries(init)[i];
        }
      }
    }
  }

  lemma EntriesSnoc(files: seq<(string, PdfFile)>, i: nat)
    requires i < |files|
    ensures Entries(files[..i + 1]) == Entries(files[..i]) + [FileEntry(files[i].0, files[i].1)]
  {
    assert files[..i + 1][..i] == files[..i];
  }

  /** extract_multiple: the verdicts on the files, in order, assembled. */
  method ExtractMultiple(files: seq<(string, PdfFile)>, separator: string) returns (x: Extraction)
    ensures x == Assemble(Entries(files), separator)
  {
    var texts: seq<string> := [];
    var processed: seq<string> := [];
    var errors: seq<string> := [];
    for i := 0 to |files|
      invariant texts == Texts(Entries(files[..i]))
      invariant processed == Names(Entries(files[..i]))
      invariant errors == Messages(Entries(files[..i]))
    {
      EntriesSnoc(files, i);
      AssembleSnoc(Entries(files[..i]), FileEntry(files[i].0, files[i].1));
      var (filename, data) := files[i];
      var result := Extract("auto", data);
      match result
      case Success(text) =>
        if !IsBlank(text) {
          texts := texts + [text];
          processed := processed + [filename];
        } else {
          errors := errors + [filename + ": " + EmptyText];
        }
      case Failure(e) =>
        errors := errors + [filename + ": " + e.message];
    }
    assert files[..|files|] == files;
    var combined := if texts != [] then Join(texts, separator) else "";
    x := Extraction(combined, processed, if errors != [] then Some(errors) else None);
  }
}
