/** What both extractors build from their per-file results: the texts
    joined with a separator, the names of the files that gave text, and the
    error messages, with no error list at all when there was no error
    (extractors/ocr_extractor.py:78-93, extractors/pdf_extractor.py:111-127). */
module Assembly {
  import opened Common

  /** The verdict on one file: its text was kept, or an error was recorded. */
  datatype Entry = Accepted(text: string, name: string) | Rejected(message: string)

  /** The (combined_text, processed_files, errors) triple. */
  datatype Extraction = Extraction(combined: string, processed: seq<string>, errors: Option<seq<string>>)

  function Texts(es: seq<Entry>): (ts: seq<string>)
    ensures |ts| <= |es|
  {
    if es == [] then []
    else
      var e := es[|es| - 1];
      Texts(es[..|es| - 1]) + (if e.Accepted? then [e.text] else [])
  }

  function Names(es: seq<Entry>): (ns: seq<string>)
    ensures |ns| <= |es|
  {
    if es == [] then []
    else
      var e := es[|es| - 1];
      Names(es[..|es| - 1]) + (if e.Accepted? then [e.name] else [])
  }

  function Messages(es: seq<Entry>): (ms: seq<string>)
    ensures |ms| <= |es|
  {
    if es == [] then []
    else
      var e := es[|es| - 1];
      Messages(es[..|es| - 1]) + (if e.Rejected? then [e.message] else [])
  }

  /** `errors if errors else None`. */
  function NoneIfEmpty(ms: seq<string>): (r: Option<seq<string>>)
    ensures r.None? <==> ms == []
    ensures r.Some? ==> r.value == ms
  {
    if ms == [] then None else Some(ms)
  }

  /** Every file ends up either among the processed names (with its text) or
      among the error messages, never both and never neither. */
  lemma {:induction false} EntryCounts(es: seq<Entry>)
    ensures |Texts(es)| == |Names(es)|
    ensures |Names(es)| + |Messages(es)| == |es|
    ensures Messages(es) == [] <==> forall i | 0 <= i < |es| :: es[i].Accepted?
  {
    if es != [] {
      var init := es[..|es| - 1];
      EntryCounts(init);
      assert forall i | 0 <= i < |init| :: init[i] == es[i];
    }
  }

  /** Assembling the entries of two runs of files one after the other keeps
      their order: texts, names and messages of the first come first. */
  lemma EntriesAppend(a: seq<Entry>, b: seq<Entry>)
    ensures Texts(a + b) == Texts(a) + Texts(b)
    ensures Names(a + b) == Names(a) + Names(b)
    ensures Messages(a + b) == Messages(a) + Messages(b)
  {
    TextsAppend(a, b);
    NamesAppend(a, b);
    MessagesAppend(a, b);
  }

  lemma {:induction false} TextsAppend(a: seq<Entry>, b: seq<Entry>)
    ensures Texts(a + b) == Texts(a) + Texts(b)
  {
    if b == [] {
      assert a + b == a;
    } else {
      var b' := b[..|b| - 1];
      TextsAppend(a, b');
      assert (a + b)[..|a + b| - 1] == a + b';
      assert (a + b)[|a + b| - 1] == b[|b| - 1];
    }
  }

  lemma {:induction false} NamesAppend(a: seq<Entry>, b: seq<Entry>)
    ensures Names(a + b) == Names(a) + Names(b)
  {
    if b == [] {
      assert a + b == a;
    } else {
      var b' := b[..|b| - 1];
      NamesAppend(a, b');
      assert (a + b)[..|a + b| - 1] == a + b';
      assert (a + b)[|a + b| - 1] == b[|b| - 1];
    }
  }

  lemma {:induction false} MessagesAppend(a: seq<Entry>, b: seq<Entry>)
    ensures Messages(a + b) == Messages(a) + Messages(b)
  {
    if b == [] {
      assert a + b == a;
    } else {
      var b' := b[..|b| - 1];
      MessagesAppend(a, b');
      assert (a + b)[..|a + b| - 1] == a + b';
      assert (a + b)[|a + b| - 1] == b[|b| - 1];
    }
  }

  /** One more verdict adds its text and name, or its message, at the end. */
  lemma AssembleSnoc(es: seq<Entry>, e: Entry)
    ensures Texts(es + [e]) == Texts(es) + (if e.Accepted? then [e.text] else [])
    ensures Names(es + [e]) == Names(es) + (if e.Accepted? then [e.name] else [])
    ensures Messages(es + [e]) == Messages(es) + (if e.Rejected? then [e.message] else [])
  {
    assert (es + [e])[..|es|] == es;
  }

  /** Only texts of accepted entries are kept: whatever holds of every
      accepted text holds of every kept text. */
  lemma {:induction false} TextsOfAccepted(es: seq<Entry>, keep: string -> bool)
    requires forall i | 0 <= i < |es| :: es[i].Accepted? ==> keep(es[i].text)
    ensures forall j | 0 <= j < |Texts(es)| :: keep(Texts(es)[j])
  {
    if es != [] {
      var init := es[..|es| - 1];
      assert forall i | 0 <= i < |init| :: init[i] == es[i];
      TextsOfAccepted(init, keep);
    }
  }

  /** The triple built from a sequence of per-file verdicts. */
  function Assemble(es: seq<Entry>, separator: string): (x: Extraction)
    ensures x.errors.None? <==> forall i | 0 <= i < |es| :: es[i].Accepted?
    ensures x.errors.Some? ==> x.errors.value != []
    ensures |x.processed| + (if x.errors.None? then 0 else |x.errors.value|) == |es|
    ensures es == [] ==> x == Extraction("", [], None)
  {
    EntryCounts(es);
    Extraction(Join(Texts(es), separator), Names(es), NoneIfEmpty(Messages(es)))
  }
}
