/** Step 3: text of the permit and licence documents of every SAF number
    (pipeline/step3_permit_license.py). Downloads are a function of the
    object path (None when the download raised); the parquet files of the
    output directory are fields of the step. */
module Step3 {
  import opened Common
  import opened Progress
  import opened Runs
  import opened Merge
  import opened PdfExtractor
  import opened Assembly

  const StepName: string := "step3_permit_license"
  const MissingMapping: string := "Document mapping not found. Run step 1 first."
  const AllDownloadsFailed: string := "All files failed to download"

  /** One row of step3_permit_license.parquet. */
  datatype PLRecord = PLRecord(safNumber: string, permitText: Option<string>, licenseText: Option<string>,
                               permitFilesProcessed: seq<string>, licenseFilesProcessed: seq<string>)

  /** What _extract_from_directory returns. */
  datatype DirExtraction = DirExtraction(text: Option<string>, processed: seq<string>, errors: Option<seq<string>>)

  function SafNumberOf(r: PLRecord): string { r.safNumber }

  /** The (filename, data) pairs of the files that downloaded, in path order. */
  function Downloaded(paths: seq<string>, download: string -> Option<PdfFile>): (fd: seq<(string, PdfFile)>)
    ensures |fd| <= |paths|
    ensures fd == [] <==> forall i | 0 <= i < |paths| :: download(paths[i]).None?
  {
    if paths == [] then []
    else
      var init := paths[..|paths| - 1];
      var last := paths[|paths| - 1];
      var prev := Downloaded(init, download);
      assert forall i | 0 <= i < |init| :: init[i] == paths[i];
      match download(last)
      case None => prev
      case Some(file) => prev + [(LastSegment(last), file)]
  }

  /** _extract_from_directory as a value: nothing for no paths, a single
      error when no file downloaded, otherwise what extract_multiple makes
      of the downloaded files. */
  function DirectoryText(paths: seq<string>, download: string -> Option<PdfFile>): (d: DirExtraction)
    ensures paths == [] ==> d == DirExtraction(None, [], None)
    ensures d.text.None? <==> forall i | 0 <= i < |paths| :: download(paths[i]).None?
    ensures paths != [] && d.text.None? ==> d == DirExtraction(None, [], Some([AllDownloadsFailed]))
    ensures |d.processed| <= |paths|
  {
    if paths == [] then DirExtraction(None, [], None)
    else
      var fd := Downloaded(paths, download);
      if fd == [] then DirExtraction(None, [], Some([AllDownloadsFailed]))
      else
        var x := Assemble(PdfExtractor.Entries(fd), DefaultSeparator);
        DirExtraction(Some(x.combined), x.processed, x.errors)
  }

  /** Files that downloaded and had a page with text are the processed ones:
      there is no error list exactly when every file downloaded and gave text. */
  lemma DirectoryClean(paths: seq<string>, download: string -> Option<PdfFile>)
    requires paths != []
    ensures var fd := Downloaded(paths, download);
      DirectoryText(paths, download).errors.None? <==>
        fd != [] && forall i | 0 <= i < |fd| :: HasTextPage(fd[i].1.plumber) || HasTextPage(fd[i].1.pypdf)
  {
    var fd := Downloaded(paths, download);
    if fd != [] {
      PdfExtractor.EntriesAt(fd);
    }
  }

  /** The record of one SAF number. */
  function RecordOf(id: string, permit: FileMap, license: FileMap, download: string -> Option<PdfFile>): (r: PLRecord)
    ensures r.safNumber == id
    ensures r.permitText.None? <==> Downloaded(Get(permit, id, []), download) == []
    ensures r.licenseText.None? <==> Downloaded(Get(license, id, []), download) == []
  {
    var ps := Get(permit, id, []);
    var ls := Get(license, id, []);
    var p := DirectoryText(ps, download);
    var l := DirectoryText(ls, download);
    PLRecord(id, p.text, l.text, p.processed, l.processed)
  }

  /** The file list recorded for a SAF number: its permit files, then its
      licence files. */
  function FilesOf(permit: FileMap, license: FileMap): string -> seq<string> {
    id => Get(permit, id, []) + Get(license, id, [])
  }

  /** Every SAF number the loop visits succeeds: downloads and extraction
      report their failures inside the record. */
  function AllDone(): string -> UnitOutcome {
    id => Done
  }

  /** `sorted(set(permit) | set(license))`. */
  function AllIds(permit: FileMap, license: FileMap): (ids: seq<string>)
    ensures StrictlySorted(ids) && Distinct(ids)
    ensures Elems(ids) == Elems(Keys(permit)) + Elems(Keys(license))
  {
    var ids := SortedSet(Keys(permit) + Keys(license));
    SortedIsDistinct(ids);
    assert Elems(Keys(permit) + Keys(license)) == Elems(Keys(permit)) + Elems(Keys(license));
    ids
  }

  /** The combined mapping of incremental mode, built by walking the set of
      all SAF numbers in `order` (the set's iteration order). */
  function Combined(order: seq<string>, permit: FileMap, license: FileMap): (m: FileMap)
    ensures Keys(m) == order
    ensures forall i | 0 <= i < |order| :: m[i].1 == Get(permit, order[i], []) + Get(license, order[i], [])
  {
    if order == [] then []
    else Combined(order[..|order| - 1], permit, license) + [(order[|order| - 1], FilesOf(permit, license)(order[|order| - 1]))]
  }

  /** `order` walks the set of all SAF numbers: each once, and no other. */
  predicate EnumeratesUnion(order: seq<string>, permit: FileMap, license: FileMap) {
    Distinct(order) && Elems(order) == Elems(Keys(permit)) + Elems(Keys(license))
  }

  /** The SAF numbers a run goes over: the sorted ones up to the limit, and in
      incremental mode only those with new files, in the order the resolver
      gives them. */
  function Selected(permit: FileMap, license: FileMap, order: seq<string>, limit: Option<int>, incremental: bool,
                    snapshot: map<string, seq<string>>): (ids: seq<string>)
    requires EnumeratesUnion(order, permit, license)
    ensures Distinct(ids)
    ensures !incremental ==> ids == ApplyLimit(AllIds(permit, license), limit)
    ensures Elems(ids) <= Elems(ApplyLimit(AllIds(permit, license), limit))
    ensures incremental ==> forall id | id in Elems(ApplyLimit(AllIds(permit, license), limit)) ::
              id in Elems(ids) <==> NeedsWork(id, FilesOf(permit, license)(id), snapshot)
    ensures incremental ==> IsSubsequence(ids, Resolve(Combined(order, permit, license), snapshot))
    ensures incremental ==> IsSubsequence(ids, order)
  {
    var limited := ApplyLimit(AllIds(permit, license), limit);
    PrefixDistinct(AllIds(permit, license), limited);
    if incremental then
      var need := Resolve(Combined(order, permit, license), snapshot);
      IncrementalSelection(order, permit, license, limited, snapshot);
      SubsequenceTransitive(FilterIn(need, limited), need, order);
      FilterIn(need, limited)
    else limited
  }

  lemma IncrementalSelection(order: seq<string>, permit: FileMap, license: FileMap, limited: seq<string>,
                             snapshot: map<string, seq<string>>)
    requires EnumeratesUnion(order, permit, license)
    requires Elems(limited) <= Elems(AllIds(permit, license))
    ensures var ids := FilterIn(Resolve(Combined(order, permit, license), snapshot), limited);
      && Distinct(ids)
      && forall id | id in Elems(limited) :: id in Elems(ids) <==> NeedsWork(id, FilesOf(permit, license)(id), snapshot)
  {
    var m := Combined(order, permit, license);
    assert UniqueKeys(m) by {
      forall i, j | 0 <= i < j < |m| ensures m[i].0 != m[j].0 {
        assert m[i].0 == Keys(m)[i] && m[j].0 == Keys(m)[j];
      }
    }
    var need := Resolve(m, snapshot);
    var ids := FilterIn(need, limited);
    DistinctSubsequence(need, order);
    DistinctSubsequence(ids, need);
    forall id | id in Elems(limited)
      ensures id in Elems(ids) <==> NeedsWork(id, FilesOf(permit, license)(id), snapshot)
    {
      var k :| 0 <= k < |order| && order[k] == id;
      assert Keys(m)[k] == id;
      assert Get(m, id, []) == FilesOf(permit, license)(id);
      ResolveSelects(m, snapshot, id);
    }
  }

  lemma PrefixDistinct(xs: seq<string>, p: seq<string>)
    requires Distinct(xs) && p <= xs
    ensures Distinct(p)
  {
    assert forall i | 0 <= i < |p| :: p[i] == xs[i];
  }

  /** The records the loop builds for `ids`, in order: one per visited SAF number. */
  function NewRecords(ids: seq<string>, skip: set<string>, permit: FileMap, license: FileMap,
                      download: string -> Option<PdfFile>): (rs: seq<PLRecord>)
    ensures |rs| <= |ids|
  {
    if ids == [] then []
    else
      var prev := NewRecords(ids[..|ids| - 1], skip, permit, license, download);
      var id := ids[|ids| - 1];
      if id !in skip then prev + [RecordOf(id, permit, license, download)] else prev
  }

  /** Exactly the visited SAF numbers get a record, in loop order. */
  lemma {:induction false} NewRecordsKeys(ids: seq<string>, skip: set<string>, permit: FileMap, license: FileMap,
                                          download: string -> Option<PdfFile>)
    ensures KeysOf(NewRecords(ids, skip, permit, license, download), SafNumberOf) == FilterOut(ids, skip)
  {
    if ids != [] {
      var init := ids[..|ids| - 1];
      NewRecordsKeys(init, skip, permit, license, download);
      var prev := NewRecords(init, skip, permit, license, download);
      var id := ids[|ids| - 1];
      if id !in skip {
        KeysOfAppend(prev, [RecordOf(id, permit, license, download)], SafNumberOf);
      }
    }
  }

  /** `[s for s in ids if s not in skip]`. */
  function FilterOut(ids: seq<string>, skip: set<string>): (r: seq<string>)
    ensures Elems(r) == Elems(ids) - skip
    ensures IsSubsequence(r, ids)
  {
    if ids == [] then []
    else
      var init := ids[..|ids| - 1];
      var prev := FilterOut(init, skip);
      var id := ids[|ids| - 1];
      assert ids == init + [id];
      ElemsSnoc(init, id);
      if id !in skip then
        ElemsSnoc(prev, id);
        assert (prev + [id])[..|prev|] == prev;
        prev + [id]
      else
        assert prev != [] ==> prev[|prev| - 1] in Elems(prev);
        prev
  }

  /** What step3_permit_license_partial.parquet holds after the loop: the
      records gathered up to the last checkpoint, or what it held before
      when no checkpoint was reached. */
  function PartialAfter(before: Option<seq<PLRecord>>, results0: seq<PLRecord>, ids: seq<string>, skip: set<string>,
                        permit: FileMap, license: FileMap, download: string -> Option<PdfFile>, batchSize: int): Option<seq<PLRecord>>
    requires batchSize != 0
  {
    if ids == [] then before
    else if ids[|ids| - 1] !in skip && |ids| % batchSize == 0 then
      Some(results0 + NewRecords(ids, skip, permit, license, download))
    else PartialAfter(before, results0, ids[..|ids| - 1], skip, permit, license, download, batchSize)
  }

  /** The partial file only ever holds a prefix of the records of the run
      (those taken up on resume first), or what it held before the run. */
  lemma {:induction false} PartialIsPrefix(before: Option<seq<PLRecord>>, results0: seq<PLRecord>, ids: seq<string>,
                                           skip: set<string>, permit: FileMap, license: FileMap,
                                           download: string -> Option<PdfFile>, batchSize: int)
    requires batchSize != 0
    ensures var p := PartialAfter(before, results0, ids, skip, permit, license, download, batchSize);
      p == before || (p.Some? && results0 <= p.value && p.value <= results0 + NewRecords(ids, skip, permit, license, download))
  {
    if ids != [] {
      var init := ids[..|ids| - 1];
      PartialIsPrefix(before, results0, init, skip, permit, license, download, batchSize);
      var p := PartialAfter(before, results0, init, skip, permit, license, download, batchSize);
      var prev := NewRecords(init, skip, permit, license, download);
      var all := NewRecords(ids, skip, permit, license, download);
      assert prev <= all;
      if p != before {
        assert p.value <= results0 + prev;
        assert results0 + prev <= results0 + all;
      }
    }
  }

  /** Every SAF number the loop visits is recorded as processed, with its
      permit files followed by its licence files. */
  lemma VisitedRecorded(cp: Checkpoint, ids: seq<string>, skip: set<string>, permit: FileMap, license: FileMap,
                        batchSize: int, now: Timestamp)
    requires batchSize != 0 && Distinct(ids)
    ensures var r := Visit(cp, ids, skip, FilesOf(permit, license), AllDone(), batchSize, now);
      forall i | 0 <= i < |ids| && ids[i] !in skip ::
        && ids[i] in Elems(r.processed)
        && ids[i] in r.files && r.files[ids[i]] == Get(permit, ids[i], []) + Get(license, ids[i], [])
  {
    VisitRecords(cp, ids, skip, FilesOf(permit, license), AllDone(), batchSize, now);
  }

  lemma LoopSnoc(before: Option<seq<PLRecord>>, results0: seq<PLRecord>, ids: seq<string>, i: nat, skip: set<string>,
                 permit: FileMap, license: FileMap, download: string -> Option<PdfFile>, batchSize: int)
    requires batchSize != 0 && i < |ids|
    ensures NewRecords(ids[..i + 1], skip, permit, license, download)
         == NewRecords(ids[..i], skip, permit, license, download)
            + (if ids[i] !in skip then [RecordOf(ids[i], permit, license, download)] else [])
    ensures PartialAfter(before, results0, ids[..i + 1], skip, permit, license, download, batchSize)
         == if ids[i] !in skip && (i + 1) % batchSize == 0
            then Some(results0 + NewRecords(ids[..i + 1], skip, permit, license, download))
            else PartialAfter(before, results0, ids[..i], skip, permit, license, download, batchSize)
  {
    assert ids[..i + 1][..i] == ids[..i];
  }

  /** One SAF number the loop visits: its record joins the records built so
      far, and at a multiple of the batch size all of them are saved to the
      partial-results file. */
  lemma VisitedRecords(before: Option<seq<PLRecord>>, results0: seq<PLRecord>, results: seq<PLRecord>,
                       ids: seq<string>, i: nat, skip: set<string>, permit: FileMap, license: FileMap,
                       download: string -> Option<PdfFile>, batchSize: int)
    requires batchSize != 0 && i < |ids| && ids[i] !in skip
    requires results == results0 + NewRecords(ids[..i], skip, permit, license, download)
    ensures results + [RecordOf(ids[i], permit, license, download)]
         == results0 + NewRecords(ids[..i + 1], skip, permit, license, download)
    ensures PartialAfter(before, results0, ids[..i + 1], skip, permit, license, download, batchSize)
         == if (i + 1) % batchSize == 0
            then Some(results + [RecordOf(ids[i], permit, license, download)])
            else PartialAfter(before, results0, ids[..i], skip, permit, license, download, batchSize)
  {
    LoopSnoc(before, results0, ids, i, skip, permit, license, download, batchSize);
    assert results0 + NewRecords(ids[..i + 1], skip, permit, license, download)
        == results + [RecordOf(ids[i], permit, license, download)];
  }

  class Step3PermitLicense {
    const manager: StateManager
    const batchSize: int
    /** step3_permit_license_partial.parquet */
    var partial: Option<seq<PLRecord>>
    /** step3_permit_license.parquet */
    var output: Option<seq<PLRecord>>

    ghost predicate Valid()
      reads this, manager
    {
      && manager.Valid()
      && manager.stepName == StepName
      && batchSize != 0
    }

    constructor(persisted: Option<Checkpoint>, batchSize: Option<int>,
                partial: Option<seq<PLRecord>>, output: Option<seq<PLRecord>>)
      requires persisted.Some? ==> WellFormed(persisted.value)
      ensures Valid() && fresh(manager)
      ensures manager.disk == persisted && !manager.loaded
      ensures this.batchSize == EffectiveBatchSize(batchSize)
      ensures this.partial == partial && this.output == output
    {
      manager := new StateManager(StepName, persisted);
      this.batchSize := EffectiveBatchSize(batchSize);
      this.partial := partial;
      this.output := output;
    }

    /** _extract_from_directory: download every path (a failed download is
        only logged), then extract the text of what was downloaded. */
    method ExtractFromDirectory(paths: seq<string>, download: string -> Option<PdfFile>) returns (d: DirExtraction)
      ensures d == DirectoryText(paths, download)
    {
      if paths == [] {
        return DirExtraction(None, [], None);
      }
      var filesData: seq<(string, PdfFile)> := [];
      for i := 0 to |paths|
        invariant filesData == Downloaded(paths[..i], download)
      {
        assert paths[..i + 1][..i] == paths[..i];
        match download(paths[i])
        case None =>
        case Some(fileData) =>
          filesData := filesData + [(LastSegment(paths[i]), fileData)];
      }
      assert paths[..|paths|] == paths;
      if filesData == [] {
        return DirExtraction(None, [], Some([AllDownloadsFailed]));
      }
      var x := ExtractMultiple(filesData, DefaultSeparator);
      d := DirExtraction(Some(x.combined), x.processed, x.errors);
    }

    /** The `combined_mapping` loop of run: in set order, each SAF number
        with its permit files followed by its licence files. */
    method CombineMappings(order: seq<string>, permit: FileMap, license: FileMap) returns (combined: FileMap)
      ensures combined == Combined(order, permit, license)
      ensures Keys(combined) == order
      ensures forall i | 0 <= i < |order| :: combined[i].1 == Get(permit, order[i], []) + Get(license, order[i], [])
    {
      combined := [];
      for i := 0 to |order|
        invariant combined == Combined(order[..i], permit, license)
      {
        assert order[..i + 1][..i] == order[..i];
        combined := combined + [(order[i], Get(permit, order[i], []) + Get(license, order[i], []))];
      }
      assert order[..|order|] == order;
    }

    /** _save_partial_results: overwrite the partial file with all records
        so far, unless there are none. */
    method SavePartialResults(results: seq<PLRecord>)
      modifies this
      ensures partial == if results != [] then Some(results) else old(partial)
      ensures output == old(output)
    {
      if results != [] {
        partial := Some(results);
      }
    }

    /** _load_partial_results: the partial file's records, or none. */
    method LoadPartialResults() returns (rows: seq<PLRecord>)
      ensures rows == if partial.Some? then partial.value else []
    {
      if partial.Some? {
        rows := partial.value;
      } else {
        rows := [];
      }
    }

    /** The body of the loop for one SAF number that is not skipped. */
    method ProcessOne(id: string, permit: FileMap, license: FileMap, download: string -> Option<PdfFile>)
      returns (record: PLRecord)
      requires Valid() && manager.loaded
      modifies manager
      ensures Valid() && manager.loaded && manager.disk == old(manager.disk)
      ensures manager.state == Apply(old(manager.state), id, FilesOf(permit, license)(id), Done)
      ensures record == RecordOf(id, permit, license, download)
    {
      var permitFiles := Get(permit, id, []);
      var p := ExtractFromDirectory(permitFiles, download);
      var licenseFiles := Get(license, id, []);
      var l := ExtractFromDirectory(licenseFiles, download);
      record := PLRecord(id, p.text, l.text, p.processed, l.processed);
      manager.MarkProcessed(id);
      manager.MarkFilesProcessed(id, permitFiles + licenseFiles);
    }

    /** The checkpoint after position `position`: record the batch, save the
        state and overwrite the partial file with every record so far. */
    method Checkpoint(position: int, results: seq<PLRecord>, now: Timestamp)
      requires Valid() && manager.loaded
      modifies this, manager
      ensures Valid() && manager.loaded
      ensures manager.state == WithBatch(old(manager.state), position).(updatedAt := now)
      ensures manager.disk == Some(manager.state)
      ensures partial == (if results != [] then Some(results) else old(partial)) && output == old(output)
    {
      manager.UpdateBatch(position);
      manager.Save(now);
      SavePartialResults(results);
    }

    /** One turn of the loop of run: position `i` of `ids`. */
    method ProcessAt(ids: seq<string>, i: nat, skip: set<string>, permit: FileMap, license: FileMap,
                     download: string -> Option<PdfFile>, ghost start: Checkpoint, ghost disk0: Option<Checkpoint>,
                     ghost partial0: Option<seq<PLRecord>>, results0: seq<PLRecord>, results: seq<PLRecord>,
                     now: Timestamp)
      returns (results': seq<PLRecord>)
      requires Valid() && manager.loaded && i < |ids|
      requires manager.state == Visit(start, ids[..i], skip, FilesOf(permit, license), AllDone(), batchSize, now)
      requires manager.disk == DiskAfter(disk0, start, ids[..i], skip, FilesOf(permit, license), AllDone(), batchSize, now)
      requires results == results0 + NewRecords(ids[..i], skip, permit, license, download)
      requires partial == PartialAfter(partial0, results0, ids[..i], skip, permit, license, download, batchSize)
      modifies this, manager
      ensures Valid() && manager.loaded
      ensures manager.state == Visit(start, ids[..i + 1], skip, FilesOf(permit, license), AllDone(), batchSize, now)
      ensures manager.disk == DiskAfter(disk0, start, ids[..i + 1], skip, FilesOf(permit, license), AllDone(), batchSize, now)
      ensures results' == results0 + NewRecords(ids[..i + 1], skip, permit, license, download)
      ensures partial == PartialAfter(partial0, results0, ids[..i + 1], skip, permit, license, download, batchSize)
      ensures output == old(output)
    {
      if ids[i] in skip {
        LoopSnoc(partial0, results0, ids, i, skip, permit, license, download, batchSize);
        SkippedStep(disk0, start, ids, i, skip, FilesOf(permit, license), AllDone(), batchSize, now);
        results' := results;
      } else {
        results' := VisitAt(ids, i, skip, permit, license, download, start, disk0, partial0, results0, results, now);
      }
    }

    /** Position `i` of `ids` when its SAF number is not skipped. */
    method VisitAt(ids: seq<string>, i: nat, skip: set<string>, permit: FileMap, license: FileMap,
                   download: string -> Option<PdfFile>, ghost start: Checkpoint, ghost disk0: Option<Checkpoint>,
                   ghost partial0: Option<seq<PLRecord>>, results0: seq<PLRecord>, results: seq<PLRecord>,
                   now: Timestamp)
      returns (results': seq<PLRecord>)
      requires Valid() && manager.loaded && i < |ids| && ids[i] !in skip
      requires manager.state == Visit(start, ids[..i], skip, FilesOf(permit, license), AllDone(), batchSize, now)
      requires manager.disk == DiskAfter(disk0, start, ids[..i], skip, FilesOf(permit, license), AllDone(), batchSize, now)
      requires results == results0 + NewRecords(ids[..i], skip, permit, license, download)
      requires partial == PartialAfter(partial0, results0, ids[..i], skip, permit, license, download, batchSize)
      modifies this, manager
      ensures Valid() && manager.loaded
      ensures manager.state == Visit(start, ids[..i + 1], skip, FilesOf(permit, license), AllDone(), batchSize, now)
      ensures manager.disk == DiskAfter(disk0, start, ids[..i + 1], skip, FilesOf(permit, license), AllDone(), batchSize, now)
      ensures results' == results0 + NewRecords(ids[..i + 1], skip, permit, license, download)
      ensures partial == PartialAfter(partial0, results0, ids[..i + 1], skip, permit, license, download, batchSize)
      ensures output == old(output)
    {
      VisitedRecords(partial0, results0, results, ids, i, skip, permit, license, download, batchSize);
      VisitedStep(disk0, start, ids, i, skip, FilesOf(permit, license), AllDone(), batchSize, now);
      assert AllDone()(ids[i]) == Done;
      results' := VisitOne(ids[i], i + 1, permit, license, download, results, now);
    }

    /** The body of the loop for a SAF number, then the checkpoint when its
        1-based `position` is a multiple of the batch size. */
    method VisitOne(id: string, position: int, permit: FileMap, license: FileMap,
                    download: string -> Option<PdfFile>, results: seq<PLRecord>, now: Timestamp)
      returns (results': seq<PLRecord>)
      requires Valid() && manager.loaded
      modifies this, manager
      ensures Valid() && manager.loaded
      ensures manager.state == AtCheckpoint(Apply(old(manager.state), id, FilesOf(permit, license)(id), Done), position, batchSize, now)
      ensures manager.disk == if position % batchSize == 0 then Some(manager.state) else old(manager.disk)
      ensures results' == results + [RecordOf(id, permit, license, download)]
      ensures partial == (if position % batchSize == 0 then Some(results') else old(partial)) && output == old(output)
    {
      var record := ProcessOne(id, permit, license, download);
      results' := results + [record];
      if position % batchSize == 0 {
        Checkpoint(position, results', now);
      }
    }

    /** The loop of run over `ids`, starting from the records `results0`. */
    method ProcessAll(ids: seq<string>, skip: set<string>, permit: FileMap, license: FileMap,
                      download: string -> Option<PdfFile>, results0: seq<PLRecord>, now: Timestamp)
      returns (results: seq<PLRecord>)
      requires Valid() && manager.loaded
      modifies this, manager
      ensures Valid() && manager.loaded
      ensures manager.state == Visit(old(manager.state), ids, skip, FilesOf(permit, license), AllDone(), batchSize, now)
      ensures manager.disk == DiskAfter(old(manager.disk), old(manager.state), ids, skip, FilesOf(permit, license), AllDone(), batchSize, now)
      ensures results == results0 + NewRecords(ids, skip, permit, license, download)
      ensures partial == PartialAfter(old(partial), results0, ids, skip, permit, license, download, batchSize)
      ensures output == old(output)
    {
      ghost var start := manager.state;
      ghost var disk0 := manager.disk;
      ghost var partial0 := partial;
      results := results0;
      for i := 0 to |ids|
        invariant Valid() && manager.loaded
        invariant manager.state == Visit(start, ids[..i], skip, FilesOf(permit, license), AllDone(), batchSize, now)
        invariant manager.disk == DiskAfter(disk0, start, ids[..i], skip, FilesOf(permit, license), AllDone(), batchSize, now)
        invariant results == results0 + NewRecords(ids[..i], skip, permit, license, download)
        invariant partial == PartialAfter(partial0, results0, ids[..i], skip, permit, license, download, batchSize)
        invariant output == old(output)
      {
        results := ProcessAt(ids, i, skip, permit, license, download, start, disk0, partial0, results0, results, now);
      }
      assert ids[..|ids|] == ids;
    }

    /** The start of run once the mapping has SAF numbers: load or reset the
        state, pick the SAF numbers and the ones to skip, record the total. */
    method Prepare(resume: bool, limit: Option<int>, incremental: bool, permit: FileMap, license: FileMap,
                   order: seq<string>, now: Timestamp)
      returns (ids: seq<string>, skip: set<string>)
      requires Valid() && EnumeratesUnion(order, permit, license)
      modifies manager
      ensures Valid() && manager.loaded
      ensures var stateExists := old(manager.disk).Some?;
        var loadedState := if (resume || incremental) && stateExists then old(manager.disk).value else Initial(StepName, now);
        && skip == Skip(resume, incremental, stateExists, Elems(loadedState.processed))
        && ids == Selected(permit, license, order, limit, incremental, loadedState.files)
        && manager.state == WithTotal(loadedState, |ids|)
    {
      ids := ApplyLimit(AllIds(permit, license), limit);
      var stateExists := manager.Exists();
      if (resume || incremental) && stateExists {
        manager.Load(now);
        skip := manager.GetProcessed();
      } else {
        manager.Reset(now);
        skip := {};
      }
      ghost var loaded := manager.state;
      if incremental {
        var combined := CombineMappings(order, permit, license);
        var need := manager.GetSafNumbersWithNewFiles(combined);
        ids := FilterIn(need, ids);
        skip := {};
      }
      assert ids == Selected(permit, license, order, limit, incremental, loaded.files);
      manager.SetTotal(|ids|);
    }

    /** run: the SAF numbers of the permit and licence mappings, sorted; on
        resume the partial file's records are taken up again; the output is
        merged with the existing one in incremental mode. `order` is the
        iteration order of the set of all SAF numbers. */
    method Run(resume: bool, limit: Option<int>, incremental: bool, mapping: Option<DocumentMapping>,
               download: string -> Option<PdfFile>, order: seq<string>, now: Timestamp)
      returns (r: Result<seq<PLRecord>, string>)
      requires Valid()
      requires mapping.Some? ==> EnumeratesUnion(order, mapping.value.permit, mapping.value.license)
      modifies this, manager
      ensures Valid()
      ensures mapping.None? ==> r == Failure(MissingMapping)
      ensures mapping.None? || AllIds(mapping.value.permit, mapping.value.license) == [] ==>
                && partial == old(partial) && output == old(output)
                && manager.state == old(manager.state) && manager.disk == old(manager.disk)
      ensures mapping.Some? && AllIds(mapping.value.permit, mapping.value.license) == [] ==> r == Success([])
      ensures mapping.Some? && AllIds(mapping.value.permit, mapping.value.license) != [] ==>
        var permit := mapping.value.permit;
        var license := mapping.value.license;
        var stateExists := old(manager.disk).Some?;
        var loadedState := if (resume || incremental) && stateExists then old(manager.disk).value else Initial(StepName, now);
        var skip := Skip(resume, incremental, stateExists, Elems(loadedState.processed));
        var ids := Selected(permit, license, order, limit, incremental, loadedState.files);
        var visited := Visit(WithTotal(loadedState, |ids|), ids, skip, FilesOf(permit, license), AllDone(), batchSize, now);
        var results0 := if resume && old(partial).Some? then old(partial).value else [];
        var newRows := results0 + NewRecords(ids, skip, permit, license, download);
        && manager.state == visited.(updatedAt := now)
        && manager.disk == Some(manager.state)
        && partial == PartialAfter(old(partial), results0, ids, skip, permit, license, download, batchSize)
        && output == Some(Merged(incremental, old(output), newRows, SafNumberOf))
        && r == Success(output.value)
    {
      if mapping.None? {
        return Failure(MissingMapping);
      }
      var permit := mapping.value.permit;
      var license := mapping.value.license;
      var allIds := AllIds(permit, license);
      if allIds == [] {
        return Success([]);
      }
      var ids, skip := Prepare(resume, limit, incremental, permit, license, order, now);
      var results0: seq<PLRecord> := [];
      if resume {
        results0 := LoadPartialResults();
      }
      var results := ProcessAll(ids, skip, permit, license, download, results0, now);
      manager.Save(now);
      var df := Merged(incremental, output, results, SafNumberOf);
      output := Some(df);
      r := Success(df);
    }
  }
}
