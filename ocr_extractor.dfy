/** OCR extraction of all the files of one SAF number
    (extractors/ocr_extractor.py). The OCR service and the object store are
    not modelled: what the service made of each file is a function of the
    file's path. */
module OcrExtractor {
  import opened Common
  import opened Assembly

  /** What the OCR of one file came to: recognised text, an OCR error or
      timeout (with its message), or any other exception (download failure
      included, with its message). */
  datatype OcrOutcome = Recognized(text: string) | OcrFailed(message: string) | Crashed(message: string)

  const DefaultSeparator: string := "\n\n---\n\n"
  const UnexpectedPrefix: string := "Unexpected error: "
  const EmptyResult: string := "Empty OCR result"

  /** process_file: the (text, error) pair. */
  function ProcessFile(o: OcrOutcome): (r: (string, Option<string>))
    ensures r.1.None? <==> o.Recognized?
    ensures o.Recognized? ==> r.0 == o.text
    ensures !o.Recognized? ==> r.0 == ""
    ensures o.OcrFailed? ==> r.1 == Some(o.message)
    ensures o.Crashed? ==> r.1 == Some(UnexpectedPrefix + o.message)
  {
    match o
    case Recognized(text) => (text, None)
    case OcrFailed(message) => ("", Some(message))
    case Crashed(message) => ("", Some(UnexpectedPrefix + message))
  }

  /** The verdict on one file of the loop: a non-empty error message wins,
      then a text that is not all whitespace is kept, otherwise the file is
      reported as an empty result. Files are named by their last path
      segment. */
  function FileEntry(path: string, result: (string, Option<string>)): (e: Entry)
    ensures e.Accepted? <==> (result.1.None? || result.1.value == []) && !IsBlank(result.0)
  {
    var name := LastSegment(path);
    if result.1.Some? && result.1.value != [] then Rejected(name + ": " + result.1.value)
    else if !IsBlank(result.0) then Accepted(result.0, name)
    else Rejected(name + ": " + EmptyResult)
  }

  /** The verdicts on `files` in order (asyncio.gather keeps the order of its tasks). */
  function Entries(files: seq<string>, ocr: string -> OcrOutcome): (es: seq<Entry>)
    ensures |es| == |files|
  {
    if files == [] then []
    else Entries(files[..|files| - 1], ocr) + [FileEntry(files[|files| - 1], ProcessFile(ocr(files[|files| - 1])))]
  }

  /** The verdict at position i is that on the i-th file. */
  lemma {:induction false} EntriesAt(files: seq<string>, ocr: string -> OcrOutcome)
    ensures forall i | 0 <= i < |files| :: Entries(files, ocr)[i] == FileEntry(files[i], ProcessFile(ocr(files[i])))
  {
    if files != [] {
      var init := files[..|files| - 1];
      EntriesAt(init, ocr);
      forall i | 0 <= i < |files|
        ensures Entries(files, ocr)[i] == FileEntry(files[i], ProcessFile(ocr(files[i])))
      {
        if i < |init| {
          assert init[i] == files[i];
          assert Entries(files, ocr)[i] == Entries(init, ocr)[i];
        }
      }
    }
  }

  lemma EntriesSnoc(files: seq<string>, ocr: string -> OcrOutcome, i: nat)
    requires i < |files|
    ensures Entries(files[..i + 1], ocr) == Entries(files[..i], ocr) + [FileEntry(files[i], ProcessFile(ocr(files[i])))]
  {
    assert files[..i + 1][..i] == files[..i];
  }

  /** process_saf_files, given the listing `files` of the SAF number's
      directory: no files gives ("", [], None); otherwise the loop over the
      results assembles the verdicts in listing order. */
  method ProcessSafFiles(files: seq<string>, ocr: string -> OcrOutcome, separator: string) returns (x: Extraction)
    ensures files == [] ==> x == Extraction("", [], None)
    ensures x == Assemble(Entries(files, ocr), separator)
  {
    if files == [] {
      return Extraction("", [], None);
    }
    var results := seq(|files|, i requires 0 <= i < |files| => ProcessFile(ocr(files[i])));
    var texts: seq<string> := [];
    var processed: seq<string> := [];
    var errors: seq<string> := [];
    for i := 0 to |files|
      invariant texts == Texts(Entries(files[..i], ocr))
      invariant processed == Names(Entries(files[..i], ocr))
      invariant errors == Messages(Entries(files[..i], ocr))
    {
      EntriesSnoc(files, ocr, i);
      AssembleSnoc(Entries(files[..i], ocr), FileEntry(files[i], results[i]));
      var filename := LastSegment(files[i]);
      var (text, error) := results[i];
      ghost var e := FileEntry(files[i], results[i]);
      if error.Some? && error.value != [] {
        assert e == Rejected(filename + ": " + error.value);
        errors := errors + [filename + ": " + error.value];
      } else if !IsBlank(text) {
        assert e == Accepted(text, filename);
        texts := texts + [text];
        processed := processed + [filename];
      } else {
        assert e == Rejected(filename + ": " + EmptyResult);
        errors := errors + [filename + ": " + EmptyResult];
      }
    }
    assert files[..|files|] == files;
    var combined := if texts != [] then Join(texts, separator) else "";
    x := Extraction(combined, processed, if errors != [] then Some(errors) else None);
  }

  /** Every kept text has some non-whitespace character. */
  lemma KeptTextsNotBlank(files: seq<string>, ocr: string -> OcrOutcome, separator: string)
    ensures forall j | 0 <= j < |Texts(Entries(files, ocr))| :: !IsBlank(Texts(Entries(files, ocr))[j])
  {
    EntriesAt(files, ocr);
    TextsOfAccepted(Entries(files, ocr), t => !IsBlank(t));
  }

  /** There is no error list exactly when every file was recognised with a
      text that is not all whitespace; then every file is processed. */
  lemma CleanIffAllRecognized(files: seq<string>, ocr: string -> OcrOutcome, separator: string)
    ensures var x := Assemble(Entries(files, ocr), separator);
      && (x.errors.None? <==> forall i | 0 <= i < |files| :: ocr(files[i]).Recognized? && !IsBlank(ocr(files[i]).text))
      && (x.errors.None? ==> |x.processed| == |files|)
  {
    var es := Entries(files, ocr);
    EntriesAt(files, ocr);
    forall i | 0 <= i < |files|
      ensures es[i].Accepted? <==> ocr(files[i]).Recognized? && !IsBlank(ocr(files[i]).text)
    {
    }
  }
}
