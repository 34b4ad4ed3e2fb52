/** The checkpoint store of one pipeline step and the incremental resolver
    that decides which units need (re)processing (utils/progress.py,
    StateManager).

    The store keeps the checkpoint document in memory (`state`) and persists
    it to one file per step (`disk`); loading and saving are modelled as
    copies between the two. */
module Progress {
  import opened Common

  /** Timestamps are opaque: the model never inspects them. */
  type Timestamp = string

  /** The checkpoint document of one step. */
  datatype Checkpoint = Checkpoint(
    step: string,
    startedAt: Timestamp,
    updatedAt: Timestamp,
    totalItems: int,
    processedItems: int,
    failedItems: int,
    currentBatch: int,
    processed: seq<string>,          // ids processed successfully, in order of completion
    failed: map<string, string>,     // id -> last error message
    files: map<string, seq<string>>  // id -> file list as of its last success
  )

  function Initial(step: string, now: Timestamp): Checkpoint {
    Checkpoint(step, now, now, 0, 0, 0, 0, [], map[], map[])
  }

  /** What every checkpoint produced by the store satisfies: no id is listed
      twice and both counters match the collections they count. */
  predicate WellFormed(cp: Checkpoint) {
    && Distinct(cp.processed)
    && cp.processedItems == |cp.processed|
    && cp.failedItems == |cp.failed|
  }

  lemma InitialWellFormed(step: string, now: Timestamp)
    ensures WellFormed(Initial(step, now))
  {
  }

  /** mark_processed: an idempotent append that keeps the counter in step. */
  function WithProcessed(cp: Checkpoint, id: string): (r: Checkpoint)
    ensures WellFormed(cp) ==> WellFormed(r)
    ensures cp.processed <= r.processed
    ensures Elems(r.processed) == Elems(cp.processed) + {id}
    ensures id in cp.processed ==> r == cp
    ensures r.failed == cp.failed && r.files == cp.files && r.currentBatch == cp.currentBatch
    ensures r.totalItems == cp.totalItems && r.failedItems == cp.failedItems
    ensures r.step == cp.step && r.startedAt == cp.startedAt && r.updatedAt == cp.updatedAt
  {
    if id in cp.processed then cp
    else
      ElemsSnoc(cp.processed, id);
      cp.(processed := cp.processed + [id], processedItems := |cp.processed| + 1)
  }

  /** mark_failed: an upsert of the error message; the counter becomes the
      number of failed ids. */
  function WithFailed(cp: Checkpoint, id: string, error: string): (r: Checkpoint)
    ensures WellFormed(cp) ==> WellFormed(r)
    ensures id in r.failed && r.failed[id] == error
    ensures forall k | k != id :: (k in r.failed <==> k in cp.failed)
    ensures forall k | k != id && k in cp.failed :: r.failed[k] == cp.failed[k]
    ensures r.failedItems == |r.failed|
    ensures r.processed == cp.processed && r.files == cp.files
    ensures r.processedItems == cp.processedItems && r.currentBatch == cp.currentBatch
  {
    var failed := cp.failed[id := error];
    cp.(failed := failed, failedItems := |failed|)
  }

  /** mark_files_processed: the snapshot of `id` becomes exactly `fs`; it is
      a replacement, not a union with the previous snapshot. */
  function WithFiles(cp: Checkpoint, id: string, fs: seq<string>): (r: Checkpoint)
    ensures WellFormed(cp) ==> WellFormed(r)
    ensures id in r.files && r.files[id] == fs
    ensures forall k | k != id :: (k in r.files <==> k in cp.files)
    ensures forall k | k != id && k in cp.files :: r.files[k] == cp.files[k]
    ensures r.processed == cp.processed && r.failed == cp.failed
  {
    cp.(files := cp.files[id := fs])
  }

  function WithTotal(cp: Checkpoint, total: int): Checkpoint {
    cp.(totalItems := total)
  }

  function WithBatch(cp: Checkpoint, batch: int): Checkpoint {
    cp.(currentBatch := batch)
  }

  // ---------------------------------------------------------------------
  // The incremental resolver

  /** An id needs work when it has no snapshot or when its current file list
      holds a file the snapshot does not; files that disappeared do not count. */
  predicate NeedsWork(id: string, fs: seq<string>, snapshot: map<string, seq<string>>) {
    id !in snapshot || Elems(fs) - Elems(snapshot[id]) != {}
  }

  /** get_saf_numbers_with_new_files, over the mapping in its iteration order. */
  function Resolve(mapping: seq<(string, seq<string>)>, snapshot: map<string, seq<string>>): (ids: seq<string>)
    ensures IsSubsequence(ids, Keys(mapping))
  {
    if mapping == [] then []
    else
      var front := mapping[..|mapping| - 1];
      var (id, fs) := mapping[|mapping| - 1];
      var ids := Resolve(front, snapshot);
      assert Keys(mapping)[..|mapping| - 1] == Keys(front);
      if NeedsWork(id, fs, snapshot) then
        assert (ids + [id])[..|ids|] == ids;
        ids + [id]
      else
        assert ids != [] ==> ids[|ids| - 1] in Elems(ids);
        ResolveTail(ids, Keys(front), id);
        ids
  }

  lemma {:induction false} ResolveTail(ids: seq<string>, keys: seq<string>, last: string)
    requires IsSubsequence(ids, keys)
    ensures IsSubsequence(ids, keys + [last])
    decreases |keys|
  {
    if ids != [] && ids[|ids| - 1] == last {
      // match `last` at the end, or keep matching against `keys`
      SubsequenceWeaken(ids, keys);
      assert (keys + [last])[..|keys|] == keys;
    } else {
      assert (keys + [last])[..|keys|] == keys;
    }
  }

  /** Matching the last element of `a` against a later copy of it is always
      possible when `a` is a subsequence of `b`. */
  lemma {:induction false} SubsequenceWeaken(a: seq<string>, b: seq<string>)
    requires a != [] && IsSubsequence(a, b)
    ensures IsSubsequence(a[..|a| - 1], b)
    decreases |b|, 0
  {
    var a' := a[..|a| - 1];
    if b != [] {
      var b' := b[..|b| - 1];
      if a[|a| - 1] == b[|b| - 1] {
        SubsequenceExtend(a', b', b[|b| - 1]);
        assert b' + [b[|b| - 1]] == b;
      } else {
        SubsequenceWeaken(a, b');
        SubsequenceExtend(a', b', b[|b| - 1]);
        assert b' + [b[|b| - 1]] == b;
      }
    }
  }

  lemma {:induction false} SubsequenceExtend(a: seq<string>, b: seq<string>, x: string)
    requires IsSubsequence(a, b)
    ensures IsSubsequence(a, b + [x])
    decreases |b|, 1
  {
    assert (b + [x])[..|b|] == b;
    if a != [] && a[|a| - 1] == x {
      SubsequenceWeaken(a, b);
    }
  }

  /** A subsequence of a subsequence of `c` is a subsequence of `c`. */
  lemma {:induction false} SubsequenceTransitive(a: seq<string>, b: seq<string>, c: seq<string>)
    requires IsSubsequence(a, b) && IsSubsequence(b, c)
    ensures IsSubsequence(a, c)
    decreases |c|
  {
    if a != [] && b != [] && c != [] {
      var b' := b[..|b| - 1];
      var c' := c[..|c| - 1];
      if b[|b| - 1] == c[|c| - 1] {
        if a[|a| - 1] == b[|b| - 1] {
          SubsequenceTransitive(a[..|a| - 1], b', c');
        } else {
          SubsequenceTransitive(a, b', c');
        }
      } else {
        SubsequenceTransitive(a, b, c');
        if a[|a| - 1] == c[|c| - 1] {
          SubsequenceWeaken(a, c');
        }
      }
    }
  }

  /** The resolver selects exactly the keys of the mapping that need work. */
  lemma {:induction false} ResolveSelects(mapping: seq<(string, seq<string>)>, snapshot: map<string, seq<string>>, id: string)
    requires UniqueKeys(mapping)
    ensures id in Resolve(mapping, snapshot) <==> id in Keys(mapping) && NeedsWork(id, Get(mapping, id, []), snapshot)
  {
    if mapping != [] {
      var front := mapping[..|mapping| - 1];
      var (k, fs) := mapping[|mapping| - 1];
      assert UniqueKeys(front);
      ResolveSelects(front, snapshot, id);
      assert Keys(mapping) == Keys(front) + [k];
      if id == k {
        assert Get(mapping, id, []) == fs;
        assert id !in Keys(front);
        KeysNotIn(front, id);
        SubsequenceElems(Resolve(front, snapshot), Keys(front));
      } else if id in Keys(front) {
        var i :| 0 <= i < |front| && front[i].0 == id;
        assert Get(mapping, id, []) == front[i].1 == Get(front, id, []);
      }
    }
  }

  lemma KeysNotIn(d: seq<(string, seq<string>)>, k: string)
    requires k !in Keys(d)
    ensures k !in Elems(Keys(d))
  {
  }

  /** Removing files never reselects an id: when the current list adds
      nothing to the snapshot, the id is left out. */
  lemma RemovalNeverReselects(mapping: seq<(string, seq<string>)>, snapshot: map<string, seq<string>>, id: string)
    requires UniqueKeys(mapping)
    requires id in snapshot && Elems(Get(mapping, id, [])) <= Elems(snapshot[id])
    ensures id !in Resolve(mapping, snapshot)
  {
    ResolveSelects(mapping, snapshot, id);
  }

  /** Marking every unit of the mapping with its current file list, in
      mapping order, as a run that succeeds everywhere does. */
  function MarkAllFiles(cp: Checkpoint, mapping: seq<(string, seq<string>)>): Checkpoint {
    if mapping == [] then cp
    else
      var (id, fs) := mapping[|mapping| - 1];
      WithFiles(MarkAllFiles(cp, mapping[..|mapping| - 1]), id, fs)
  }

  lemma {:induction false} MarkAllFilesRecords(cp: Checkpoint, mapping: seq<(string, seq<string>)>)
    requires UniqueKeys(mapping)
    ensures forall i | 0 <= i < |mapping| ::
      mapping[i].0 in MarkAllFiles(cp, mapping).files && MarkAllFiles(cp, mapping).files[mapping[i].0] == mapping[i].1
  {
    if mapping != [] {
      var front := mapping[..|mapping| - 1];
      assert UniqueKeys(front);
      MarkAllFilesRecords(cp, front);
    }
  }

  /** A resolver over snapshots that cover every current file list selects nothing. */
  lemma {:induction false} ResolveCovered(mapping: seq<(string, seq<string>)>, snapshot: map<string, seq<string>>)
    requires forall i | 0 <= i < |mapping| ::
      mapping[i].0 in snapshot && Elems(mapping[i].1) <= Elems(snapshot[mapping[i].0])
    ensures Resolve(mapping, snapshot) == []
  {
    if mapping != [] {
      ResolveCovered(mapping[..|mapping| - 1], snapshot);
    }
  }

  /** Idempotence: once every unit has been marked with its current files,
      the resolver returns nothing. */
  lemma ResolveIdempotent(cp: Checkpoint, mapping: seq<(string, seq<string>)>)
    requires UniqueKeys(mapping)
    ensures Resolve(mapping, MarkAllFiles(cp, mapping).files) == []
  {
    MarkAllFilesRecords(cp, mapping);
    ResolveCovered(mapping, MarkAllFiles(cp, mapping).files);
  }

  // ---------------------------------------------------------------------
  // The store

  class StateManager {
    const stepName: string
    /** The checkpoint in memory. */
    var state: Checkpoint
    /** The persisted checkpoint file, None when it does not exist. */
    var disk: Option<Checkpoint>
    /** Whether `state` was loaded or reset; before that it is the empty
        record the getters see. */
    var loaded: bool

    ghost predicate Valid()
      reads this
    {
      WellFormed(state) && (disk.Some? ==> WellFormed(disk.value))
    }

    /** A store over an existing checkpoint file (or none). */
    constructor (stepName: string, persisted: Option<Checkpoint>)
      requires persisted.Some? ==> WellFormed(persisted.value)
      ensures Valid() && !loaded
      ensures this.stepName == stepName && disk == persisted
      ensures state == Initial(stepName, "")
    {
      this.stepName := stepName;
      state := Initial(stepName, "");
      disk := persisted;
      loaded := false;
    }

    /** load: read the file when it exists, otherwise start from a fresh
        initial state without writing it. */
    method Load(now: Timestamp)
      requires Valid()
      modifies this
      ensures Valid() && loaded && disk == old(disk)
      ensures state == if disk.Some? then disk.value else Initial(stepName, now)
    {
      if disk.Some? {
        state := disk.value;
      } else {
        state := Initial(stepName, now);
      }
      loaded := true;
    }

    /** save: stamp `updated_at` and overwrite the file with the state. */
    method Save(now: Timestamp)
      requires Valid() && loaded
      modifies this
      ensures Valid() && loaded
      ensures state == old(state).(updatedAt := now)
      ensures disk == Some(state)
    {
      state := state.(updatedAt := now);
      disk := Some(state);
    }

    /** reset: a fresh initial state, persisted at once. */
    method Reset(now: Timestamp)
      requires Valid()
      modifies this
      ensures Valid() && loaded
      ensures state == Initial(stepName, now)
      ensures disk == Some(state)
    {
      state := Initial(stepName, now);
      loaded := true;
      Save(now);
    }

    /** exists: whether the checkpoint file is there. */
    method Exists() returns (b: bool)
      ensures b <==> disk.Some?
    {
      b := disk.Some?;
    }

    /** delete: remove the checkpoint file, keeping the state in memory. */
    method Delete()
      modifies this
      ensures disk == None && state == old(state) && loaded == old(loaded)
    {
      disk := None;
    }

    /** get_processed: the processed ids as a set, one per counted item. */
    function GetProcessed(): (ids: set<string>)
      reads this
      ensures ids == Elems(state.processed)
      ensures WellFormed(state) ==> |ids| == state.processedItems
    {
      if WellFormed(state) then DistinctCard(state.processed); Elems(state.processed)
      else Elems(state.processed)
    }

    /** get_failed: the failed ids with their last error, one per counted item. */
    function GetFailed(): (failed: map<string, string>)
      reads this
      ensures WellFormed(state) ==> |failed| == state.failedItems
      ensures forall id | id in failed :: id in state.failed && failed[id] == state.failed[id]
    {
      state.failed
    }

    /** get_processed_files: the snapshot of `id`, empty when it has none. */
    function GetProcessedFiles(id: string): (fs: seq<string>)
      reads this
      ensures id in state.files ==> fs == state.files[id]
      ensures id !in state.files ==> fs == []
    {
      if id in state.files then state.files[id] else []
    }

    /** get_all_processed_files. */
    function GetAllProcessedFiles(): (snapshot: map<string, seq<string>>)
      reads this
      ensures forall id :: GetProcessedFiles(id) == if id in snapshot then snapshot[id] else []
      ensures snapshot.Keys == state.files.Keys
    {
      state.files
    }

    method MarkProcessed(id: string)
      requires Valid() && loaded
      modifies this
      ensures Valid() && loaded && disk == old(disk)
      ensures state == WithProcessed(old(state), id)
    {
      if id !in state.processed {
        state := state.(processed := state.processed + [id]);
        state := state.(processedItems := |state.processed|);
      }
    }

    method MarkFailed(id: string, error: string)
      requires Valid() && loaded
      modifies this
      ensures Valid() && loaded && disk == old(disk)
      ensures state == WithFailed(old(state), id, error)
    {
      state := state.(failed := state.failed[id := error]);
      state := state.(failedItems := |state.failed|);
    }

    method MarkFilesProcessed(id: string, fs: seq<string>)
      requires Valid() && loaded
      modifies this
      ensures Valid() && loaded && disk == old(disk)
      ensures state == WithFiles(old(state), id, fs)
    {
      state := state.(files := state.files[id := fs]);
    }

    method SetTotal(total: int)
      requires Valid() && loaded
      modifies this
      ensures Valid() && loaded && disk == old(disk)
      ensures state == WithTotal(old(state), total)
    {
      state := state.(totalItems := total);
    }

    method UpdateBatch(batch: int)
      requires Valid() && loaded
      modifies this
      ensures Valid() && loaded && disk == old(disk)
      ensures state == WithBatch(old(state), batch)
    {
      state := state.(currentBatch := batch);
    }

    /** get_saf_numbers_with_new_files: walks the mapping once, collecting
        the ids the resolver selects against the stored snapshots. */
    method GetSafNumbersWithNewFiles(mapping: seq<(string, seq<string>)>) returns (need: seq<string>)
      ensures need == Resolve(mapping, state.files)
      ensures UniqueKeys(mapping) ==> forall id ::
        id in need <==> id in Keys(mapping) && NeedsWork(id, Get(mapping, id, []), state.files)
    {
      var snapshot := GetAllProcessedFiles();
      need := [];
      for i := 0 to |mapping|
        invariant need == Resolve(mapping[..i], snapshot)
      {
        var (id, fs) := mapping[i];
        assert mapping[..i + 1][..i] == mapping[..i];
        if id !in snapshot {
          need := need + [id];
        } else {
          var oldFiles := Elems(snapshot[id]);
          var newFiles := Elems(fs);
          if newFiles - oldFiles != {} {
            need := need + [id];
          }
        }
      }
      assert mapping[..|mapping|] == mapping;
      if UniqueKeys(mapping) {
        forall id ensures id in need <==> id in Keys(mapping) && NeedsWork(id, Get(mapping, id, []), state.files) {
          ResolveSelects(mapping, state.files, id);
        }
      }
    }
  }
}
