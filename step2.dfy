/** Step 2: OCR of the technical specifications of every SAF number
    (pipeline/step2_tech_specs.py). The object store listing and the OCR
    service are functions of the SAF number and of the object path; the
    parquet files of the output directory are fields of the step. */
module Step2 {
  import opened Common
  import opened Progress
  import opened Runs
  import opened Merge
  import opened OcrExtractor
  import opened Assembly

  const StepName: string := "step2_tech_specs"
  const MissingMapping: string := "Document mapping not found. Run step 1 first."

  /** One row of step2_tech_specs.parquet. */
  datatype TechRecord = TechRecord(safNumber: string, techDescription: string,
                                   techFilesProcessed: seq<string>, techOcrErrors: Option<seq<string>>)

  /** What listing `specs/<saf_number>/` gave: the object paths, or an
      exception other than S3Error (S3Error itself reads as no files). */
  datatype Listing = Listed(paths: seq<string>) | ListingFailed(message: string)

  function SafNumberOf(r: TechRecord): string { r.safNumber }

  /** The file list recorded for a SAF number on success: its mapping entry. */
  function FilesOf(specs: FileMap): string -> seq<string> {
    id => Get(specs, id, [])
  }

  /** A SAF number fails exactly when listing its directory raised. */
  function OutcomeOf(listing: string -> Listing): string -> UnitOutcome {
    id => match listing(id) case Listed(_) => Done case ListingFailed(message) => Failed(message)
  }

  /** The record of a SAF number whose directory listed `paths`. */
  function RecordOf(id: string, paths: seq<string>, ocr: string -> OcrOutcome): (r: TechRecord)
    ensures r.safNumber == id
    ensures |r.techFilesProcessed| <= |paths|
    ensures r.techOcrErrors.None? <==> forall i | 0 <= i < |paths| :: ocr(paths[i]).Recognized? && !IsBlank(ocr(paths[i]).text)
  {
    var x := Assemble(OcrExtractor.Entries(paths, ocr), DefaultSeparator);
    CleanIffAllRecognized(paths, ocr, DefaultSeparator);
    TechRecord(id, x.combined, x.processed, x.errors)
  }

  /** The records the loop builds for `ids`, in order: one per visited SAF
      number whose listing succeeded. */
  function NewRecords(ids: seq<string>, skip: set<string>, listing: string -> Listing, ocr: string -> OcrOutcome): (rs: seq<TechRecord>)
    ensures |rs| <= |ids|
  {
    if ids == [] then []
    else
      var prev := NewRecords(ids[..|ids| - 1], skip, listing, ocr);
      var id := ids[|ids| - 1];
      if id !in skip && listing(id).Listed? then prev + [RecordOf(id, listing(id).paths, ocr)] else prev
  }

  /** The SAF numbers of the new records are the visited SAF numbers whose
      listing succeeded, in loop order. */
  lemma {:induction false} NewRecordsKeys(ids: seq<string>, skip: set<string>, listing: string -> Listing, ocr: string -> OcrOutcome)
    ensures KeysOf(NewRecords(ids, skip, listing, ocr), SafNumberOf)
         == FilterListed(ids, skip, listing)
  {
    if ids != [] {
      var init := ids[..|ids| - 1];
      NewRecordsKeys(init, skip, listing, ocr);
      var prev := NewRecords(init, skip, listing, ocr);
      var id := ids[|ids| - 1];
      if id !in skip && listing(id).Listed? {
        KeysOfAppend(prev, [RecordOf(id, listing(id).paths, ocr)], SafNumberOf);
      }
    }
  }

  /** The visited SAF numbers whose listing succeeded, in order. */
  function FilterListed(ids: seq<string>, skip: set<string>, listing: string -> Listing): (r: seq<string>)
    ensures IsSubsequence(r, ids)
    ensures Elems(r) == set id | id in ids && id !in skip && listing(id).Listed?
  {
    if ids == [] then []
    else
      var init := ids[..|ids| - 1];
      var prev := FilterListed(init, skip, listing);
      var id := ids[|ids| - 1];
      ListedSnoc(init, id, skip, listing);
      assert ids == init + [id];
      if id !in skip && listing(id).Listed? then
        ElemsSnoc(prev, id);
        assert (prev + [id])[..|prev|] == prev;
        prev + [id]
      else
        assert prev != [] ==> prev[|prev| - 1] in Elems(prev);
        prev
  }

  /** The visited SAF numbers whose listing succeeded, after one more id. */
  lemma ListedSnoc(ids: seq<string>, id: string, skip: set<string>, listing: string -> Listing)
    ensures (set x | x in ids + [id] && x !in skip && listing(x).Listed?)
         == (set x | x in ids && x !in skip && listing(x).Listed?)
            + (if id !in skip && listing(id).Listed? then {id} else {})
  {
    ElemsSnoc(ids, id);
    assert forall x :: x in ids + [id] <==> x in ids || x == id;
  }

  /** Distinct SAF numbers give one record each. */
  lemma NewRecordsUnique(ids: seq<string>, skip: set<string>, listing: string -> Listing, ocr: string -> OcrOutcome)
    requires Distinct(ids)
    ensures Distinct(KeysOf(NewRecords(ids, skip, listing, ocr), SafNumberOf))
  {
    NewRecordsKeys(ids, skip, listing, ocr);
    DistinctSubsequence(FilterListed(ids, skip, listing), ids);
  }

  /** The SAF numbers a run goes over: the mapping's keys up to the limit,
      narrowed in incremental mode to the ones the resolver selects, in
      resolver order. */
  function Selected(specs: FileMap, limit: Option<int>, incremental: bool, snapshot: map<string, seq<string>>): (ids: seq<string>)
    ensures UniqueKeys(specs) ==> Distinct(ids)
    ensures !incremental ==> ids == ApplyLimit(Keys(specs), limit)
    ensures Elems(ids) <= Elems(ApplyLimit(Keys(specs), limit))
    ensures incremental ==> Elems(ids) <= Elems(Resolve(specs, snapshot))
    ensures incremental ==> IsSubsequence(ids, Resolve(specs, snapshot)) && IsSubsequence(ids, Keys(specs))
    ensures incremental && UniqueKeys(specs) ==> forall id | id in Elems(ApplyLimit(Keys(specs), limit)) ::
              id in Elems(ids) <==> NeedsWork(id, Get(specs, id, []), snapshot)
  {
    var limited := ApplyLimit(Keys(specs), limit);
    SelectedDistinct(specs, limit, snapshot);
    if incremental then
      var need := Resolve(specs, snapshot);
      var r := FilterIn(need, limited);
      SubsequenceElems(r, need);
      SubsequenceTransitive(r, need, Keys(specs));
      IncrementalSelection(specs, limited, snapshot);
      r
    else limited
  }

  /** In incremental mode a SAF number among the limited ones is gone over
      iff the resolver says it needs work. */
  lemma IncrementalSelection(specs: FileMap, limited: seq<string>, snapshot: map<string, seq<string>>)
    requires Elems(limited) <= Elems(Keys(specs))
    ensures UniqueKeys(specs) ==> forall id | id in Elems(limited) ::
      id in Elems(FilterIn(Resolve(specs, snapshot), limited)) <==> NeedsWork(id, Get(specs, id, []), snapshot)
  {
    if UniqueKeys(specs) {
      forall id | id in Elems(limited)
        ensures id in Elems(FilterIn(Resolve(specs, snapshot), limited)) <==> NeedsWork(id, Get(specs, id, []), snapshot)
      {
        ResolveSelects(specs, snapshot, id);
      }
    }
  }

  lemma SelectedDistinct(specs: FileMap, limit: Option<int>, snapshot: map<string, seq<string>>)
    ensures UniqueKeys(specs) ==> Distinct(ApplyLimit(Keys(specs), limit))
    ensures UniqueKeys(specs) ==> Distinct(FilterIn(Resolve(specs, snapshot), ApplyLimit(Keys(specs), limit)))
  {
    if UniqueKeys(specs) {
      var limited := ApplyLimit(Keys(specs), limit);
      var need := Resolve(specs, snapshot);
      assert Distinct(Keys(specs));
      assert Distinct(limited) by {
        forall i, j | 0 <= i < j < |limited| ensures limited[i] != limited[j] {
          assert limited[i] == Keys(specs)[i] && limited[j] == Keys(specs)[j];
        }
      }
      DistinctSubsequence(need, Keys(specs));
      DistinctSubsequence(FilterIn(need, limited), need);
    }
  }

  /** Concatenation of chunk files 0 .. n-1. */
  function Concat(chunks: map<nat, seq<TechRecord>>, n: nat): seq<TechRecord>
    requires forall k: nat | k < n :: k in chunks
  {
    if n == 0 then [] else Concat(chunks, n - 1) + chunks[n - 1]
  }

  /** Chunk files are numbered 0, 1, 2, ... without gaps. */
  ghost predicate Contiguous(chunks: map<nat, seq<TechRecord>>) {
    forall k: nat :: k in chunks <==> k < |chunks|
  }

  /** Writing chunk `n` leaves the concatenation of the chunks before it alone. */
  lemma {:induction false} ConcatFrame(chunks: map<nat, seq<TechRecord>>, n: nat, rows: seq<TechRecord>, m: nat)
    requires forall k: nat | k < n :: k in chunks
    requires m <= n
    ensures Concat(chunks[n := rows], m) == Concat(chunks, m)
  {
    if m > 0 {
      ConcatFrame(chunks, n, rows, m - 1);
    }
  }

  /** Writing chunk `n` after chunks 0 .. n-1 appends its rows to the concatenation. */
  lemma ConcatExtend(chunks: map<nat, seq<TechRecord>>, n: nat, rows: seq<TechRecord>)
    requires forall k: nat | k < n :: k in chunks
    ensures Concat(chunks[n := rows], n + 1) == Concat(chunks, n) + rows
  {
    ConcatFrame(chunks, n, rows, n);
  }

  lemma NewRecordsSnoc(ids: seq<string>, i: nat, skip: set<string>, listing: string -> Listing, ocr: string -> OcrOutcome)
    requires i < |ids|
    ensures NewRecords(ids[..i + 1], skip, listing, ocr)
         == NewRecords(ids[..i], skip, listing, ocr)
            + (if ids[i] !in skip && listing(ids[i]).Listed? then [RecordOf(ids[i], listing(ids[i]).paths, ocr)] else [])
  {
    assert ids[..i + 1][..i] == ids[..i];
  }

  /** One SAF number the loop visits, as rows: `flushed` are the rows in
      the partial-results files, `pending` the rows not yet saved. The row
      of the unit joins the pending ones; at a checkpoint all of them are
      saved, otherwise they stay pending. */
  lemma VisitedRecords(ids: seq<string>, i: nat, skip: set<string>, listing: string -> Listing,
                       ocr: string -> OcrOutcome, batchSize: int, base: seq<TechRecord>,
                       flushed: seq<TechRecord>, pending: seq<TechRecord>)
    requires batchSize != 0 && i < |ids| && ids[i] !in skip
    requires flushed == base + NewRecords(ids[..LastCheckpoint(ids[..i], skip, batchSize)], skip, listing, ocr)
    requires flushed + pending == base + NewRecords(ids[..i], skip, listing, ocr)
    ensures var pending' := pending + (if listing(ids[i]).Listed? then [RecordOf(ids[i], listing(ids[i]).paths, ocr)] else []);
      if (i + 1) % batchSize == 0
      then flushed + pending' == base + NewRecords(ids[..LastCheckpoint(ids[..i + 1], skip, batchSize)], skip, listing, ocr)
           && (flushed + pending') + [] == base + NewRecords(ids[..i + 1], skip, listing, ocr)
      else flushed == base + NewRecords(ids[..LastCheckpoint(ids[..i + 1], skip, batchSize)], skip, listing, ocr)
           && flushed + pending' == base + NewRecords(ids[..i + 1], skip, listing, ocr)
  {
    var extra := if listing(ids[i]).Listed? then [RecordOf(ids[i], listing(ids[i]).paths, ocr)] else [];
    NewRecordsSnoc(ids, i, skip, listing, ocr);
    PendingStep(base, flushed, pending, NewRecords(ids[..i], skip, listing, ocr), extra);
    LastCheckpointVisited(ids, i, skip, batchSize);
  }

  /** Appending rows to the pending ones extends flushed-plus-pending by the
      same rows. */
  lemma PendingStep(base: seq<TechRecord>, flushed: seq<TechRecord>, pending: seq<TechRecord>,
                    prev: seq<TechRecord>, extra: seq<TechRecord>)
    requires flushed + pending == base + prev
    ensures flushed + (pending + extra) == base + (prev + extra)
    ensures (flushed + (pending + extra)) + [] == base + (prev + extra)
  {
    calc {
      flushed + (pending + extra);
      (flushed + pending) + extra;
      (base + prev) + extra;
    }
  }

  class Step2TechSpecs {
    const manager: StateManager
    const batchSize: int
    /** step2_tech_specs_chunk_<n>.parquet */
    var chunks: map<nat, seq<TechRecord>>
    /** Whether the old-style step2_tech_specs_partial.parquet exists. */
    var legacyPartial: bool
    /** step2_tech_specs.parquet */
    var output: Option<seq<TechRecord>>

    ghost predicate Valid()
      reads this, manager
    {
      && manager.Valid()
      && manager.stepName == StepName
      && batchSize != 0
      && Contiguous(chunks)
    }

    constructor(persisted: Option<Checkpoint>, batchSize: Option<int>,
                chunks: map<nat, seq<TechRecord>>, legacyPartial: bool, output: Option<seq<TechRecord>>)
      requires persisted.Some? ==> WellFormed(persisted.value)
      requires Contiguous(chunks)
      ensures Valid() && fresh(manager)
      ensures manager.disk == persisted && !manager.loaded
      ensures this.batchSize == EffectiveBatchSize(batchSize)
      ensures this.chunks == chunks && this.legacyPartial == legacyPartial && this.output == output
    {
      manager := new StateManager(StepName, persisted);
      this.batchSize := EffectiveBatchSize(batchSize);
      this.chunks := chunks;
      this.legacyPartial := legacyPartial;
      this.output := output;
    }

    /** _save_partial_results: nothing for an empty batch; otherwise the
        batch goes to the first chunk number not taken. */
    method SavePartialResults(results: seq<TechRecord>)
      requires Valid()
      modifies this
      ensures Valid()
      ensures results == [] ==> chunks == old(chunks)
      ensures results != [] ==> chunks == old(chunks)[|old(chunks)| := results]
      ensures Concat(chunks, |chunks|) == Concat(old(chunks), |old(chunks)|) + results
      ensures legacyPartial == old(legacyPartial) && output == old(output)
    {
      if results == [] {
        return;
      }
      var chunkNum: nat := 0;
      while chunkNum in chunks
        invariant chunkNum <= |chunks|
        decreases |chunks| - chunkNum
      {
        chunkNum := chunkNum + 1;
      }
      assert chunkNum == |chunks|;
      ConcatExtend(chunks, chunkNum, results);
      var next := chunks[chunkNum := results];
      assert |next| == |chunks| + 1 by {
        assert next.Keys == chunks.Keys + {chunkNum};
      }
      chunks := next;
    }

    /** _load_all_partial_results: every chunk, in chunk-number order. */
    method LoadAllPartialResults() returns (rows: seq<TechRecord>)
      requires Valid()
      ensures rows == Concat(chunks, |chunks|)
    {
      rows := [];
      for k := 0 to |chunks|
        invariant rows == Concat(chunks, k)
      {
        rows := rows + chunks[k];
      }
    }

    /** _cleanup_partial_results: every chunk file and the old-style partial
        file are removed. */
    method CleanupPartialResults()
      requires Valid()
      modifies this
      ensures Valid()
      ensures chunks == map[] && !legacyPartial && output == old(output)
    {
      chunks := map[];
      legacyPartial := false;
    }

    /** The body of the loop for one SAF number that is not skipped: list
        its directory and OCR the files, then mark it processed with its
        mapping entry; a failed listing marks it failed. */
    method ProcessOne(id: string, specs: FileMap, listing: string -> Listing, ocr: string -> OcrOutcome)
      returns (record: Option<TechRecord>)
      requires Valid() && manager.loaded
      modifies manager
      ensures Valid() && manager.loaded && manager.disk == old(manager.disk)
      ensures manager.state == Apply(old(manager.state), id, FilesOf(specs)(id), OutcomeOf(listing)(id))
      ensures record == if listing(id).Listed? then Some(RecordOf(id, listing(id).paths, ocr)) else None
    {
      match listing(id)
      case ListingFailed(message) =>
        manager.MarkFailed(id, message);
        record := None;
      case Listed(paths) =>
        var x := ProcessSafFiles(paths, ocr, DefaultSeparator);
        record := Some(TechRecord(id, x.combined, x.processed, x.errors));
        manager.MarkProcessed(id);
        manager.MarkFilesProcessed(id, Get(specs, id, []));
    }

    /** The checkpoint after position `position`: record the batch, save the
        state and flush the pending records to a new chunk. */
    method Checkpoint(position: int, results: seq<TechRecord>, now: Timestamp)
      requires Valid() && manager.loaded
      modifies this, manager
      ensures Valid() && manager.loaded
      ensures manager.state == WithBatch(old(manager.state), position).(updatedAt := now)
      ensures manager.disk == Some(manager.state)
      ensures Concat(chunks, |chunks|) == Concat(old(chunks), |old(chunks)|) + results
      ensures legacyPartial == old(legacyPartial) && output == old(output)
    {
      manager.UpdateBatch(position);
      manager.Save(now);
      SavePartialResults(results);
    }

    /** One turn of the loop of run: position `i` of `ids`. */
    method ProcessAt(ids: seq<string>, i: nat, skip: set<string>, specs: FileMap,
                     listing: string -> Listing, ocr: string -> OcrOutcome, ghost start: Checkpoint,
                     ghost disk0: Option<Checkpoint>, ghost base: seq<TechRecord>, results: seq<TechRecord>,
                     now: Timestamp)
      returns (results': seq<TechRecord>)
      requires Valid() && manager.loaded && i < |ids|
      requires manager.state == Visit(start, ids[..i], skip, FilesOf(specs), OutcomeOf(listing), batchSize, now)
      requires manager.disk == DiskAfter(disk0, start, ids[..i], skip, FilesOf(specs), OutcomeOf(listing), batchSize, now)
      requires Concat(chunks, |chunks|) == base + NewRecords(ids[..LastCheckpoint(ids[..i], skip, batchSize)], skip, listing, ocr)
      requires Concat(chunks, |chunks|) + results == base + NewRecords(ids[..i], skip, listing, ocr)
      modifies this, manager
      ensures Valid() && manager.loaded
      ensures manager.state == Visit(start, ids[..i + 1], skip, FilesOf(specs), OutcomeOf(listing), batchSize, now)
      ensures manager.disk == DiskAfter(disk0, start, ids[..i + 1], skip, FilesOf(specs), OutcomeOf(listing), batchSize, now)
      ensures Concat(chunks, |chunks|) == base + NewRecords(ids[..LastCheckpoint(ids[..i + 1], skip, batchSize)], skip, listing, ocr)
      ensures Concat(chunks, |chunks|) + results' == base + NewRecords(ids[..i + 1], skip, listing, ocr)
      ensures legacyPartial == old(legacyPartial) && output == old(output)
    {
      if ids[i] in skip {
        NewRecordsSnoc(ids, i, skip, listing, ocr);
        SkippedStep(disk0, start, ids, i, skip, FilesOf(specs), OutcomeOf(listing), batchSize, now);
        results' := results;
      } else {
        results' := VisitAt(ids, i, skip, specs, listing, ocr, start, disk0, base, results, now);
      }
    }

    /** Position `i` of `ids` when its SAF number is not skipped: the body,
        then the checkpoint when `i + 1` is a multiple of the batch size. */
    method VisitAt(ids: seq<string>, i: nat, skip: set<string>, specs: FileMap,
                   listing: string -> Listing, ocr: string -> OcrOutcome, ghost start: Checkpoint,
                   ghost disk0: Option<Checkpoint>, ghost base: seq<TechRecord>, results: seq<TechRecord>,
                   now: Timestamp)
      returns (results': seq<TechRecord>)
      requires Valid() && manager.loaded && i < |ids| && ids[i] !in skip
      requires manager.state == Visit(start, ids[..i], skip, FilesOf(specs), OutcomeOf(listing), batchSize, now)
      requires manager.disk == DiskAfter(disk0, start, ids[..i], skip, FilesOf(specs), OutcomeOf(listing), batchSize, now)
      requires Concat(chunks, |chunks|) == base + NewRecords(ids[..LastCheckpoint(ids[..i], skip, batchSize)], skip, listing, ocr)
      requires Concat(chunks, |chunks|) + results == base + NewRecords(ids[..i], skip, listing, ocr)
      modifies this, manager
      ensures Valid() && manager.loaded
      ensures manager.state == Visit(start, ids[..i + 1], skip, FilesOf(specs), OutcomeOf(listing), batchSize, now)
      ensures manager.disk == DiskAfter(disk0, start, ids[..i + 1], skip, FilesOf(specs), OutcomeOf(listing), batchSize, now)
      ensures Concat(chunks, |chunks|) == base + NewRecords(ids[..LastCheckpoint(ids[..i + 1], skip, batchSize)], skip, listing, ocr)
      ensures Concat(chunks, |chunks|) + results' == base + NewRecords(ids[..i + 1], skip, listing, ocr)
      ensures legacyPartial == old(legacyPartial) && output == old(output)
    {
      VisitedStep(disk0, start, ids, i, skip, FilesOf(specs), OutcomeOf(listing), batchSize, now);
      VisitedRecords(ids, i, skip, listing, ocr, batchSize, base, Concat(chunks, |chunks|), results);
      results' := VisitOne(ids[i], i + 1, specs, listing, ocr, results, now);
    }

    /** The body of the loop for a SAF number, then the checkpoint when its
        1-based `position` is a multiple of the batch size. */
    method VisitOne(id: string, position: int, specs: FileMap, listing: string -> Listing,
                    ocr: string -> OcrOutcome, results: seq<TechRecord>, now: Timestamp)
      returns (results': seq<TechRecord>)
      requires Valid() && manager.loaded
      modifies this, manager
      ensures Valid() && manager.loaded
      ensures manager.state
           == AtCheckpoint(Apply(old(manager.state), id, FilesOf(specs)(id), OutcomeOf(listing)(id)), position, batchSize, now)
      ensures manager.disk == if position % batchSize == 0 then Some(manager.state) else old(manager.disk)
      ensures var pending := results + (if listing(id).Listed? then [RecordOf(id, listing(id).paths, ocr)] else []);
        if position % batchSize == 0
        then Concat(chunks, |chunks|) == Concat(old(chunks), |old(chunks)|) + pending && results' == []
        else Concat(chunks, |chunks|) == Concat(old(chunks), |old(chunks)|) && results' == pending
      ensures legacyPartial == old(legacyPartial) && output == old(output)
    {
      var record := ProcessOne(id, specs, listing, ocr);
      results' := results;
      if record.Some? {
        results' := results + [record.value];
      }
      if position % batchSize == 0 {
        Checkpoint(position, results', now);
        results' := [];
      }
    }

    /** The loop of run over `ids`: per SAF number not skipped, the body and,
        every batchSize-th position, a checkpoint. */
    method ProcessAll(ids: seq<string>, skip: set<string>, specs: FileMap,
                      listing: string -> Listing, ocr: string -> OcrOutcome, now: Timestamp)
      returns (results: seq<TechRecord>)
      requires Valid() && manager.loaded
      modifies this, manager
      ensures Valid() && manager.loaded
      ensures manager.state == Visit(old(manager.state), ids, skip, FilesOf(specs), OutcomeOf(listing), batchSize, now)
      ensures manager.disk == DiskAfter(old(manager.disk), old(manager.state), ids, skip, FilesOf(specs), OutcomeOf(listing), batchSize, now)
      ensures Concat(chunks, |chunks|)
           == Concat(old(chunks), |old(chunks)|) + NewRecords(ids[..LastCheckpoint(ids, skip, batchSize)], skip, listing, ocr)
      ensures Concat(chunks, |chunks|) + results
           == Concat(old(chunks), |old(chunks)|) + NewRecords(ids, skip, listing, ocr)
      ensures legacyPartial == old(legacyPartial) && output == old(output)
    {
      ghost var start := manager.state;
      ghost var disk0 := manager.disk;
      ghost var base := Concat(chunks, |chunks|);
      results := [];
      assert ids[..0] == [];
      for i := 0 to |ids|
        invariant Valid() && manager.loaded
        invariant manager.state == Visit(start, ids[..i], skip, FilesOf(specs), OutcomeOf(listing), batchSize, now)
        invariant manager.disk == DiskAfter(disk0, start, ids[..i], skip, FilesOf(specs), OutcomeOf(listing), batchSize, now)
        invariant Concat(chunks, |chunks|) == base + NewRecords(ids[..LastCheckpoint(ids[..i], skip, batchSize)], skip, listing, ocr)
        invariant Concat(chunks, |chunks|) + results == base + NewRecords(ids[..i], skip, listing, ocr)
        invariant legacyPartial == old(legacyPartial) && output == old(output)
      {
        results := ProcessAt(ids, i, skip, specs, listing, ocr, start, disk0, base, results, now);
      }
      assert ids[..|ids|] == ids;
    }

    /** The start of run once the mapping has SAF numbers: load or reset the
        state, pick the SAF numbers and the ones to skip, record the total,
        and on a fresh start remove old chunks. */
    method Prepare(resume: bool, limit: Option<int>, incremental: bool, specs: FileMap, now: Timestamp)
      returns (ids: seq<string>, skip: set<string>)
      requires Valid()
      modifies this, manager
      ensures Valid() && manager.loaded
      ensures var stateExists := old(manager.disk).Some?;
        var loadedState := if (resume || incremental) && stateExists then old(manager.disk).value else Initial(StepName, now);
        && skip == Skip(resume, incremental, stateExists, Elems(loadedState.processed))
        && ids == Selected(specs, limit, incremental, loadedState.files)
        && manager.state == WithTotal(loadedState, |ids|)
      ensures chunks == if resume || incremental then old(chunks) else map[]
      ensures legacyPartial == (old(legacyPartial) && (resume || incremental)) && output == old(output)
    {
      ids := ApplyLimit(Keys(specs), limit);
      var stateExists := manager.Exists();
      if (resume || incremental) && stateExists {
        manager.Load(now);
        skip := manager.GetProcessed();
      } else {
        manager.Reset(now);
        skip := {};
      }
      if incremental {
        var need := manager.GetSafNumbersWithNewFiles(specs);
        ids := FilterIn(need, ids);
        skip := {};
      }
      manager.SetTotal(|ids|);
      if !(resume || incremental) {
        CleanupPartialResults();
      }
    }

    /** The end of run: save the state, flush the pending records, load all
        chunks as the new records, remove the chunks, and write the output. */
    method Finish(incremental: bool, results: seq<TechRecord>, now: Timestamp) returns (df: seq<TechRecord>)
      requires Valid() && manager.loaded
      modifies this, manager
      ensures Valid()
      ensures manager.state == old(manager.state).(updatedAt := now) && manager.disk == Some(manager.state)
      ensures chunks == map[] && !legacyPartial
      ensures df == Merged(incremental, old(output), Concat(old(chunks), |old(chunks)|) + results, SafNumberOf)
      ensures output == Some(df)
    {
      ghost var rows := Concat(chunks, |chunks|) + results;
      manager.Save(now);
      if results != [] {
        SavePartialResults(results);
      } else {
        assert rows == Concat(chunks, |chunks|);
      }
      var newRows := LoadAllPartialResults();
      assert newRows == rows;
      CleanupPartialResults();
      df := Merged(incremental, output, newRows, SafNumberOf);
      output := Some(df);
    }

    /** run: load the mapping, pick the SAF numbers, load or reset the
        state, go over them, then assemble the output, merging it with the
        existing one in incremental mode. */
    method Run(resume: bool, limit: Option<int>, incremental: bool, mapping: Option<DocumentMapping>,
               listing: string -> Listing, ocr: string -> OcrOutcome, now: Timestamp)
      returns (r: Result<seq<TechRecord>, string>)
      requires Valid()
      modifies this, manager
      ensures Valid()
      ensures mapping.None? ==> r == Failure(MissingMapping)
      ensures mapping.None? || mapping.value.specs == [] ==>
                && chunks == old(chunks) && output == old(output) && legacyPartial == old(legacyPartial)
                && manager.state == old(manager.state) && manager.disk == old(manager.disk)
      ensures mapping.Some? && mapping.value.specs == [] ==> r == Success([])
      ensures mapping.Some? && mapping.value.specs != [] ==>
        var specs := mapping.value.specs;
        var stateExists := old(manager.disk).Some?;
        var loadedState := if (resume || incremental) && stateExists then old(manager.disk).value else Initial(StepName, now);
        var skip := Skip(resume, incremental, stateExists, Elems(loadedState.processed));
        var ids := Selected(specs, limit, incremental, loadedState.files);
        var visited := Visit(WithTotal(loadedState, |ids|), ids, skip, FilesOf(specs), OutcomeOf(listing), batchSize, now);
        var earlier := if resume || incremental then Concat(old(chunks), |old(chunks)|) else [];
        var newRows := earlier + NewRecords(ids, skip, listing, ocr);
        && manager.state == visited.(updatedAt := now)
        && manager.disk == Some(manager.state)
        && chunks == map[] && !legacyPartial
        && output == Some(Merged(incremental, old(output), newRows, SafNumberOf))
        && r == Success(output.value)
    {
      if mapping.None? {
        return Failure(MissingMapping);
      }
      var specs := mapping.value.specs;
      if specs == [] {
        return Success([]);
      }
      var ids, skip := Prepare(resume, limit, incremental, specs, now);
      ghost var before := Concat(chunks, |chunks|);
      var results := ProcessAll(ids, skip, specs, listing, ocr, now);
      ghost var flushed := Concat(chunks, |chunks|);
      var df := Finish(incremental, results, now);
      assert flushed + results == before + NewRecords(ids, skip, listing, ocr);
      r := Success(df);
    }
  }
}
