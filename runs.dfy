/** What the two extraction steps (pipeline/step2_tech_specs.py and
    pipeline/step3_permit_license.py) share: the document mapping they read,
    the batch size, the choice of ids to skip, and the effect of their main
    loop on the checkpoint, as a fold over the ids. */
module Runs {
  import opened Common
  import opened Progress

  /** A directory dict of the document mapping: SAF number -> object paths. */
  type FileMap = seq<(string, seq<string>)>

  /** document_mapping.json, written by step 1; a missing directory key reads
      as an empty dict. */
  datatype DocumentMapping = DocumentMapping(specs: FileMap, permit: FileMap, license: FileMap)

  /** settings.batch_size with BATCH_SIZE unset. */
  const DefaultBatchSize: int := 100

  /** `batch_size or settings.batch_size`: None and 0 fall back to the default. */
  function EffectiveBatchSize(batchSize: Option<int>): (n: int)
    ensures n != 0
    ensures batchSize.Some? && batchSize.value != 0 ==> n == batchSize.value
    ensures batchSize.None? || batchSize.value == 0 ==> n == DefaultBatchSize
  {
    if batchSize.Some? && batchSize.value != 0 then batchSize.value else DefaultBatchSize
  }

  /** What the body of the loop did with one SAF number: its record was
      built, or an exception with this message was caught. */
  datatype UnitOutcome = Done | Failed(error: string)

  /** One unit's bookkeeping: mark_processed then mark_files_processed on
      success, mark_failed on an exception. */
  function Apply(cp: Checkpoint, id: string, fs: seq<string>, outcome: UnitOutcome): (r: Checkpoint)
    ensures WellFormed(cp) ==> WellFormed(r)
    ensures outcome.Done? ==> id in Elems(r.processed) && id in r.files && r.files[id] == fs && r.failed == cp.failed
    ensures outcome.Failed? ==> id in r.failed && r.failed[id] == outcome.error && r.processed == cp.processed && r.files == cp.files
    ensures cp.processed <= r.processed
  {
    match outcome
    case Done => WithFiles(WithProcessed(cp, id), id, fs)
    case Failed(error) => WithFailed(cp, id, error)
  }

  /** The checkpoint after the unit at 1-based position `position`: every
      `batchSize`-th position records the batch and saves, which stamps the
      checkpoint. Python's `%` and Dafny's agree on when the remainder is 0. */
  function AtCheckpoint(cp: Checkpoint, position: int, batchSize: int, now: Timestamp): Checkpoint
    requires batchSize != 0
  {
    if position % batchSize == 0 then WithBatch(cp, position).(updatedAt := now) else cp
  }

  /** The checkpoint after the loop has gone over `ids`: ids in `skip` are
      passed over with `continue` (no checkpoint either); the others are
      processed with the listed files and outcome. */
  function Visit(cp: Checkpoint, ids: seq<string>, skip: set<string>, files: string -> seq<string>,
                 outcome: string -> UnitOutcome, batchSize: int, now: Timestamp): Checkpoint
    requires batchSize != 0
  {
    if ids == [] then cp
    else
      var prev := Visit(cp, ids[..|ids| - 1], skip, files, outcome, batchSize, now);
      var id := ids[|ids| - 1];
      if id in skip then prev
      else AtCheckpoint(Apply(prev, id, files(id), outcome(id)), |ids|, batchSize, now)
  }

  /** The loop keeps the checkpoint well formed and only appends to the
      list of processed ids. */
  lemma {:induction false} VisitWellFormed(cp: Checkpoint, ids: seq<string>, skip: set<string>, files: string -> seq<string>,
                                           outcome: string -> UnitOutcome, batchSize: int, now: Timestamp)
    requires batchSize != 0 && WellFormed(cp)
    ensures WellFormed(Visit(cp, ids, skip, files, outcome, batchSize, now))
    ensures cp.processed <= Visit(cp, ids, skip, files, outcome, batchSize, now).processed
  {
    if ids != [] {
      VisitWellFormed(cp, ids[..|ids| - 1], skip, files, outcome, batchSize, now);
    }
  }

  /** Ids the loop does not visit keep their processed status, their file
      snapshot and their error. */
  lemma {:induction false} VisitFrame(cp: Checkpoint, ids: seq<string>, skip: set<string>, files: string -> seq<string>,
                                      outcome: string -> UnitOutcome, batchSize: int, now: Timestamp, k: string)
    requires batchSize != 0
    requires k !in ids || k in skip
    ensures var r := Visit(cp, ids, skip, files, outcome, batchSize, now);
      && (k in r.files <==> k in cp.files) && (k in cp.files ==> r.files[k] == cp.files[k])
      && (k in r.failed <==> k in cp.failed) && (k in cp.failed ==> r.failed[k] == cp.failed[k])
      && (k in Elems(r.processed) <==> k in Elems(cp.processed))
  {
    if ids != [] {
      var init := ids[..|ids| - 1];
      assert k !in init || k in skip by {
        if k in init { var j :| 0 <= j < |init| && init[j] == k; assert ids[j] == k; }
      }
      VisitFrame(cp, init, skip, files, outcome, batchSize, now, k);
      var id := ids[|ids| - 1];
      if id !in skip {
        assert id != k;
        StepFrame(Visit(cp, init, skip, files, outcome, batchSize, now), id, files(id), outcome(id), |ids|, batchSize, now, k);
      }
    }
  }

  /** Processing one id and the checkpoint after it leave every other id's
      processed status, file snapshot and error as they were. */
  lemma StepFrame(cp: Checkpoint, id: string, fs: seq<string>, outcome: UnitOutcome, position: int, batchSize: int,
                  now: Timestamp, k: string)
    requires batchSize != 0 && id != k
    ensures var r := AtCheckpoint(Apply(cp, id, fs, outcome), position, batchSize, now);
      && (k in r.files <==> k in cp.files) && (k in cp.files ==> r.files[k] == cp.files[k])
      && (k in r.failed <==> k in cp.failed) && (k in cp.failed ==> r.failed[k] == cp.failed[k])
      && (k in Elems(r.processed) <==> k in Elems(cp.processed))
  {
    if outcome.Done? {
      ElemsSnoc(cp.processed, id);
    }
  }

  /** Every id the loop visits ends recorded with its outcome: processed with
      its file list on success, failed with the message otherwise. */
  lemma {:induction false} VisitRecords(cp: Checkpoint, ids: seq<string>, skip: set<string>, files: string -> seq<string>,
                                        outcome: string -> UnitOutcome, batchSize: int, now: Timestamp)
    requires batchSize != 0 && Distinct(ids)
    ensures var r := Visit(cp, ids, skip, files, outcome, batchSize, now);
      forall i | 0 <= i < |ids| && ids[i] !in skip ::
        && (outcome(ids[i]).Done? ==> ids[i] in Elems(r.processed) && ids[i] in r.files && r.files[ids[i]] == files(ids[i]))
        && (outcome(ids[i]).Failed? ==> ids[i] in r.failed && r.failed[ids[i]] == outcome(ids[i]).error)
  {
    if ids != [] {
      var init := ids[..|ids| - 1];
      assert Distinct(init);
      VisitRecords(cp, init, skip, files, outcome, batchSize, now);
      var prev := Visit(cp, init, skip, files, outcome, batchSize, now);
      var r := Visit(cp, ids, skip, files, outcome, batchSize, now);
      var id := ids[|ids| - 1];
      if id !in skip {
        var next := Apply(prev, id, files(id), outcome(id));
        assert r.files == next.files && r.failed == next.failed && r.processed == next.processed;
        forall i | 0 <= i < |init| && init[i] !in skip
          ensures && (outcome(init[i]).Done? ==> init[i] in Elems(r.processed) && init[i] in r.files && r.files[init[i]] == files(init[i]))
                  && (outcome(init[i]).Failed? ==> init[i] in r.failed && r.failed[init[i]] == outcome(init[i]).error)
        {
          assert init[i] == ids[i] != id;
          if outcome(id).Done? {
            ElemsSnoc(prev.processed, id);
          }
        }
        assert forall i | 0 <= i < |init| :: ids[i] == init[i];
      } else {
        assert forall i | 0 <= i < |init| :: ids[i] == init[i];
      }
    }
  }

  /** The 1-based position of the last checkpoint the loop over `ids`
      reaches, or 0 when it reaches none: a checkpoint is taken at a
      multiple of `batchSize` whose id is not skipped. */
  function LastCheckpoint(ids: seq<string>, skip: set<string>, batchSize: int): (k: nat)
    requires batchSize != 0
    ensures k <= |ids|
    ensures 0 < k ==> k % batchSize == 0 && ids[k - 1] !in skip
    ensures forall j | k < j <= |ids| :: j % batchSize != 0 || ids[j - 1] in skip
  {
    if ids == [] then 0
    else if |ids| % batchSize == 0 && ids[|ids| - 1] !in skip then |ids|
    else
      var k := LastCheckpoint(ids[..|ids| - 1], skip, batchSize);
      assert forall j | 0 <= j < |ids| - 1 :: ids[..|ids| - 1][j] == ids[j];
      k
  }

  /** What the checkpoint file holds after the loop over `ids`: the state
      saved at the last checkpoint, or the file as it was before the loop
      when no checkpoint was reached. */
  function DiskAfter(disk: Option<Checkpoint>, cp: Checkpoint, ids: seq<string>, skip: set<string>,
                     files: string -> seq<string>, outcome: string -> UnitOutcome, batchSize: int,
                     now: Timestamp): Option<Checkpoint>
    requires batchSize != 0
  {
    var k := LastCheckpoint(ids, skip, batchSize);
    if k == 0 then disk else Some(Visit(cp, ids[..k], skip, files, outcome, batchSize, now))
  }

  /** One more position of the loop: a checkpoint there saves the state
      reached so far; otherwise the file is unchanged. */
  lemma DiskAfterSnoc(disk: Option<Checkpoint>, cp: Checkpoint, ids: seq<string>, i: nat, skip: set<string>,
                      files: string -> seq<string>, outcome: string -> UnitOutcome, batchSize: int, now: Timestamp)
    requires batchSize != 0 && i < |ids|
    ensures DiskAfter(disk, cp, ids[..i + 1], skip, files, outcome, batchSize, now)
         == if ids[i] !in skip && (i + 1) % batchSize == 0
            then Some(Visit(cp, ids[..i + 1], skip, files, outcome, batchSize, now))
            else DiskAfter(disk, cp, ids[..i], skip, files, outcome, batchSize, now)
    ensures LastCheckpoint(ids[..i + 1], skip, batchSize)
         == if ids[i] !in skip && (i + 1) % batchSize == 0 then i + 1 else LastCheckpoint(ids[..i], skip, batchSize)
  {
    var front := ids[..i + 1];
    assert front[..|front| - 1] == ids[..i];
    var k := LastCheckpoint(ids[..i], skip, batchSize);
    if !(ids[i] !in skip && (i + 1) % batchSize == 0) {
      assert LastCheckpoint(front, skip, batchSize) == k;
      assert front[..k] == ids[..i][..k];
      assert DiskAfter(disk, cp, front, skip, files, outcome, batchSize, now)
          == DiskAfter(disk, cp, ids[..i], skip, files, outcome, batchSize, now);
    } else {
      assert LastCheckpoint(front, skip, batchSize) == i + 1;
      assert front[..i + 1] == front;
    }
  }

  /** A position whose id is skipped changes neither the state, nor the
      checkpoint file, nor the last checkpoint. */
  lemma SkippedStep(disk: Option<Checkpoint>, cp: Checkpoint, ids: seq<string>, i: nat, skip: set<string>,
                    files: string -> seq<string>, outcome: string -> UnitOutcome, batchSize: int, now: Timestamp)
    requires batchSize != 0 && i < |ids| && ids[i] in skip
    ensures Visit(cp, ids[..i + 1], skip, files, outcome, batchSize, now) == Visit(cp, ids[..i], skip, files, outcome, batchSize, now)
    ensures DiskAfter(disk, cp, ids[..i + 1], skip, files, outcome, batchSize, now)
         == DiskAfter(disk, cp, ids[..i], skip, files, outcome, batchSize, now)
    ensures LastCheckpoint(ids[..i + 1], skip, batchSize) == LastCheckpoint(ids[..i], skip, batchSize)
  {
    assert ids[..i + 1][..i] == ids[..i];
    DiskAfterSnoc(disk, cp, ids, i, skip, files, outcome, batchSize, now);
  }

  /** A position whose id is visited applies its outcome to the state, then
      at a multiple of the batch size saves that state to the file. */
  lemma VisitedStep(disk: Option<Checkpoint>, cp: Checkpoint, ids: seq<string>, i: nat, skip: set<string>,
                    files: string -> seq<string>, outcome: string -> UnitOutcome, batchSize: int, now: Timestamp)
    requires batchSize != 0 && i < |ids| && ids[i] !in skip
    ensures Visit(cp, ids[..i + 1], skip, files, outcome, batchSize, now)
         == AtCheckpoint(Apply(Visit(cp, ids[..i], skip, files, outcome, batchSize, now), ids[i], files(ids[i]), outcome(ids[i])),
                         i + 1, batchSize, now)
    ensures (i + 1) % batchSize == 0 ==>
      && DiskAfter(disk, cp, ids[..i + 1], skip, files, outcome, batchSize, now)
         == Some(Visit(cp, ids[..i + 1], skip, files, outcome, batchSize, now))
      && LastCheckpoint(ids[..i + 1], skip, batchSize) == i + 1
    ensures (i + 1) % batchSize != 0 ==>
      && DiskAfter(disk, cp, ids[..i + 1], skip, files, outcome, batchSize, now)
         == DiskAfter(disk, cp, ids[..i], skip, files, outcome, batchSize, now)
      && LastCheckpoint(ids[..i + 1], skip, batchSize) == LastCheckpoint(ids[..i], skip, batchSize)
  {
    assert ids[..i + 1][..i] == ids[..i];
    DiskAfterSnoc(disk, cp, ids, i, skip, files, outcome, batchSize, now);
  }

  /** A visited SAF number at a multiple of the batch size becomes the last
      checkpoint; any other leaves the last checkpoint where it was. */
  lemma LastCheckpointVisited(ids: seq<string>, i: nat, skip: set<string>, batchSize: int)
    requires batchSize != 0 && i < |ids| && ids[i] !in skip
    ensures LastCheckpoint(ids[..i + 1], skip, batchSize)
         == if (i + 1) % batchSize == 0 then i + 1 else LastCheckpoint(ids[..i], skip, batchSize)
  {
    assert ids[..i + 1][..i] == ids[..i];
  }

  /** The loop only appends to the list of processed ids, so the state at
      an earlier position is behind the state at a later one. */
  lemma {:induction false} VisitPrefix(cp: Checkpoint, ids: seq<string>, k: nat, skip: set<string>,
                                       files: string -> seq<string>, outcome: string -> UnitOutcome, batchSize: int,
                                       now: Timestamp)
    requires batchSize != 0 && k <= |ids|
    ensures Visit(cp, ids[..k], skip, files, outcome, batchSize, now).processed
         <= Visit(cp, ids, skip, files, outcome, batchSize, now).processed
    decreases |ids|
  {
    if k < |ids| {
      var init := ids[..|ids| - 1];
      assert init[..k] == ids[..k];
      VisitPrefix(cp, init, k, skip, files, outcome, batchSize, now);
    } else {
      assert ids[..k] == ids;
    }
  }

  /** The checkpoint file never runs ahead of the state in memory: after the
      loop it is the file as it was, or a saved state whose processed ids
      are a prefix of the processed ids in memory. */
  lemma DiskBehindState(disk: Option<Checkpoint>, cp: Checkpoint, ids: seq<string>, skip: set<string>,
                        files: string -> seq<string>, outcome: string -> UnitOutcome, batchSize: int, now: Timestamp)
    requires batchSize != 0
    ensures var d := DiskAfter(disk, cp, ids, skip, files, outcome, batchSize, now);
      d == disk || (d.Some? && d.value.processed <= Visit(cp, ids, skip, files, outcome, batchSize, now).processed)
  {
    VisitPrefix(cp, ids, LastCheckpoint(ids, skip, batchSize), skip, files, outcome, batchSize, now);
  }

  /** The processed ids that the loop skips, from how the checkpoint was
      obtained. As written, a loaded checkpoint's whole history is skipped,
      in incremental mode too. */
  function SkipAsWritten(resume: bool, incremental: bool, stateExists: bool, loadedProcessed: set<string>): (skip: set<string>)
    ensures skip == {} || skip == loadedProcessed
    ensures !(resume || incremental) || !stateExists ==> skip == {}
  {
    if (resume || incremental) && stateExists then loadedProcessed else {}
  }

  /** The skip set as intended: in incremental mode the resolver has already
      left out every id whose files are all recorded (ids completed by an
      interrupted incremental run included), so nothing more is skipped. */
  function Skip(resume: bool, incremental: bool, stateExists: bool, loadedProcessed: set<string>): (skip: set<string>)
    ensures incremental ==> skip == {}
    ensures !incremental ==> skip == SkipAsWritten(resume, incremental, stateExists, loadedProcessed)
  {
    if incremental then {} else SkipAsWritten(resume, incremental, stateExists, loadedProcessed)
  }

  /** A unit the run visited successfully is covered by its new snapshot. */
  lemma SelectedUnitCovered(cp: Checkpoint, ids: seq<string>, files: string -> seq<string>,
                            outcome: string -> UnitOutcome, batchSize: int, now: Timestamp, k: string)
    requires batchSize != 0 && Distinct(ids) && k in ids && outcome(k).Done?
    ensures var r := Visit(cp, ids, {}, files, outcome, batchSize, now);
            k in r.files && r.files[k] == files(k)
  {
    VisitRecords(cp, ids, {}, files, outcome, batchSize, now);
    var j :| 0 <= j < |ids| && ids[j] == k;
  }

  /** A unit the resolver did not select was already covered, and the run
      leaves it alone. */
  lemma UnselectedUnitCovered(cp: Checkpoint, mapping: FileMap, files: string -> seq<string>,
                              outcome: string -> UnitOutcome, batchSize: int, now: Timestamp, i: int)
    requires UniqueKeys(mapping) && batchSize != 0 && 0 <= i < |mapping|
    requires mapping[i].0 !in Resolve(mapping, cp.files)
    ensures var r := Visit(cp, Resolve(mapping, cp.files), {}, files, outcome, batchSize, now);
            mapping[i].0 in r.files && Elems(mapping[i].1) <= Elems(r.files[mapping[i].0])
  {
    var k := mapping[i].0;
    assert Get(mapping, k, []) == mapping[i].1;
    ResolveSelects(mapping, cp.files, k);
    assert Keys(mapping)[i] == k;
    assert k in Keys(mapping);
    assert !NeedsWork(k, mapping[i].1, cp.files);
    assert k in cp.files && Elems(mapping[i].1) <= Elems(cp.files[k]) by {
      var d := Elems(mapping[i].1) - Elems(cp.files[k]);
      assert d == {};
      forall x | x in Elems(mapping[i].1) ensures x in Elems(cp.files[k]) {
        assert x !in d;
      }
    }
    VisitFrame(cp, Resolve(mapping, cp.files), {}, files, outcome, batchSize, now, k);
  }

  /** With the intended skip set, an incremental run in which every selected
      unit succeeds leaves nothing for the resolver: every unit's snapshot
      covers its current file list. */
  lemma IncrementalRunSettles(cp: Checkpoint, mapping: FileMap, batchSize: int, now: Timestamp)
    requires UniqueKeys(mapping) && batchSize != 0
    ensures var ids := Resolve(mapping, cp.files);
            var r := Visit(cp, ids, {}, id => Get(mapping, id, []), id => Done, batchSize, now);
            Resolve(mapping, r.files) == []
  {
    var ids := Resolve(mapping, cp.files);
    var files := id => Get(mapping, id, []);
    var r := Visit(cp, ids, {}, files, id => Done, batchSize, now);
    assert Distinct(Keys(mapping));
    DistinctSubsequence(ids, Keys(mapping));
    forall i | 0 <= i < |mapping|
      ensures mapping[i].0 in r.files && Elems(mapping[i].1) <= Elems(r.files[mapping[i].0])
    {
      if mapping[i].0 in ids {
        SelectedUnitCovered(cp, ids, files, id => Done, batchSize, now, mapping[i].0);
        assert Get(mapping, mapping[i].0, []) == mapping[i].1;
      } else {
        UnselectedUnitCovered(cp, mapping, files, id => Done, batchSize, now, i);
      }
    }
    ResolveCovered(mapping, r.files);
  }

  /** As written, an incremental run after a complete run skips a unit the
      resolver reselects because a file was added to it: the unit still
      needs work after the run. The intended skip set does not. */
  lemma IncrementalSkipsUpdatedUnit()
    ensures var before: FileMap := [("A", ["a/1.pdf"])];
            var after: FileMap := [("A", ["a/1.pdf", "a/2.pdf"])];
            var full := Visit(Initial("step2_tech_specs", "t0"), ["A"], {}, id => Get(before, id, []), id => Done, DefaultBatchSize, "t0");
            var selected := Resolve(after, full.files);
            var asWritten := Visit(full, selected, SkipAsWritten(false, true, true, Elems(full.processed)),
                                   id => Get(after, id, []), id => Done, DefaultBatchSize, "t1");
            var intended := Visit(full, selected, Skip(false, true, true, Elems(full.processed)),
                                  id => Get(after, id, []), id => Done, DefaultBatchSize, "t1");
            && selected == ["A"]
            && Resolve(after, asWritten.files) == ["A"]
            && Resolve(after, intended.files) == []
  {
    var before: FileMap := [("A", ["a/1.pdf"])];
    var after: FileMap := [("A", ["a/1.pdf", "a/2.pdf"])];
    var init := Initial("step2_tech_specs", "t0");
    assert Get(before, "A", []) == ["a/1.pdf"];
    var full := Visit(init, ["A"], {}, id => Get(before, id, []), id => Done, DefaultBatchSize, "t0");
    assert ["A"][..0] == [];
    assert full == Apply(init, "A", ["a/1.pdf"], Done);
    assert full.files == map["A" := ["a/1.pdf"]];
    assert Elems(full.processed) == {"A"};
    assert "a/2.pdf" in Elems(after[0].1) - Elems(full.files["A"]);
    assert Resolve(after, full.files) == ["A"];
    var asWritten := Visit(full, ["A"], {"A"}, id => Get(after, id, []), id => Done, DefaultBatchSize, "t1");
    assert ["A"][..|["A"]| - 1] == [];
    assert Visit(full, [], {"A"}, id => Get(after, id, []), id => Done, DefaultBatchSize, "t1") == full;
    assert asWritten == full;
    IncrementalRunSettles(full, after, DefaultBatchSize, "t1");
  }
}
