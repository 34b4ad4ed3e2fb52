/** Writing a step's output in incremental mode
    (pipeline/step2_tech_specs.py:178-192, pipeline/step3_permit_license.py:214-228):
    the existing records of reprocessed SAF numbers are dropped and the new
    records appended. Records are generic; `key` reads a record's
    saf_number. */
module Merge {
  import opened Common

  /** The saf_number column. */
  function KeysOf<R>(rows: seq<R>, key: R -> string): (ks: seq<string>)
    ensures |ks| == |rows|
    ensures forall i | 0 <= i < |rows| :: ks[i] == key(rows[i])
  {
    if rows == [] then [] else KeysOf(rows[..|rows| - 1], key) + [key(rows[|rows| - 1])]
  }

  /** `rows[~rows["saf_number"].isin(drop)]`: the rows whose key is not
      dropped, in their order (every kept row keeps all its copies:
      DropKeysKeeps). */
  function DropKeys<R(==)>(rows: seq<R>, drop: set<string>, key: R -> string): (r: seq<R>)
    ensures forall j | 0 <= j < |r| :: key(r[j]) !in drop
    ensures forall i | 0 <= i < |rows| && key(rows[i]) !in drop :: rows[i] in r
    ensures IsSubsequence(r, rows)
  {
    if rows == [] then []
    else
      var front := DropKeys(rows[..|rows| - 1], drop, key);
      var last := rows[|rows| - 1];
      assert rows == rows[..|rows| - 1] + [last];
      if key(last) !in drop then
        assert (front + [last])[..|front|] == front;
        front + [last]
      else
        assert front != [] ==> key(front[|front| - 1]) !in drop;
        front
  }

  /** The filter loses no row it keeps: the rows left are, copy for copy,
      those of `rows` whose key is not dropped. */
  lemma {:induction false} DropKeysKeeps<R>(rows: seq<R>, drop: set<string>, key: R -> string)
    ensures multiset(DropKeys(rows, drop, key)) <= multiset(rows)
    ensures forall i | 0 <= i < |rows| && key(rows[i]) !in drop ::
      multiset(DropKeys(rows, drop, key))[rows[i]] == multiset(rows)[rows[i]]
  {
    if rows != [] {
      var init := rows[..|rows| - 1];
      var last := rows[|rows| - 1];
      var front := DropKeys(init, drop, key);
      DropKeysKeeps(init, drop, key);
      assert rows == init + [last];
      assert multiset(rows) == multiset(init) + multiset{last};
      if key(last) !in drop {
        assert DropKeys(rows, drop, key) == front + [last];
        assert multiset(front + [last]) == multiset(front) + multiset{last};
      } else {
        assert DropKeys(rows, drop, key) == front;
        forall i | 0 <= i < |rows| && key(rows[i]) !in drop
          ensures multiset(front)[rows[i]] == multiset(rows)[rows[i]]
        {
          assert i < |init| && rows[i] == init[i] && rows[i] != last;
        }
      }
    }
  }

  /** The existing records of SAF numbers without a new record, then the new
      records. */
  function Supersede<R(==)>(existing: seq<R>, newRows: seq<R>, key: R -> string): (df: seq<R>)
    ensures |newRows| <= |df| <= |existing| + |newRows|
    ensures df[|df| - |newRows|..] == newRows
    ensures forall j | 0 <= j < |df| - |newRows| :: key(df[j]) !in Elems(KeysOf(newRows, key))
    ensures forall i | 0 <= i < |existing| && key(existing[i]) !in Elems(KeysOf(newRows, key)) :: existing[i] in df
    ensures multiset(df[..|df| - |newRows|]) <= multiset(existing)
    ensures IsSubsequence(df[..|df| - |newRows|], existing)
    ensures forall i | 0 <= i < |existing| && key(existing[i]) !in Elems(KeysOf(newRows, key)) ::
      multiset(df[..|df| - |newRows|])[existing[i]] == multiset(existing)[existing[i]]
  {
    var kept := DropKeys(existing, Elems(KeysOf(newRows, key)), key);
    SubsequenceLength(kept, existing);
    DropKeysKeeps(existing, Elems(KeysOf(newRows, key)), key);
    assert (kept + newRows)[..|kept|] == kept;
    assert forall i | 0 <= i < |existing| && key(existing[i]) !in Elems(KeysOf(newRows, key)) ::
      existing[i] in multiset(kept);
    kept + newRows
  }

  lemma {:induction false} SubsequenceLength<T>(a: seq<T>, b: seq<T>)
    requires IsSubsequence(a, b)
    ensures |a| <= |b|
    decreases |b|
  {
    if a != [] && b != [] {
      if a[|a| - 1] == b[|b| - 1] {
        SubsequenceLength(a[..|a| - 1], b[..|b| - 1]);
      } else {
        SubsequenceLength(a, b[..|b| - 1]);
      }
    }
  }

  /** One record per SAF number survives the merge when both inputs had one
      record per SAF number. */
  lemma SupersedeUniqueKeys<R>(existing: seq<R>, newRows: seq<R>, key: R -> string)
    requires Distinct(KeysOf(existing, key)) && Distinct(KeysOf(newRows, key))
    ensures Distinct(KeysOf(Supersede(existing, newRows, key), key))
  {
    var drop := Elems(KeysOf(newRows, key));
    var kept := DropKeys(existing, drop, key);
    DropKeysDistinct(existing, drop, key);
    KeysOfAppend(kept, newRows, key);
    var ks := KeysOf(kept + newRows, key);
    var kk := KeysOf(kept, key);
    var kn := KeysOf(newRows, key);
    assert ks == kk + kn;
    forall i, j | 0 <= i < j < |ks| ensures ks[i] != ks[j] {
      if j < |kk| {
        assert ks[i] == kk[i] && ks[j] == kk[j];
      } else if i >= |kk| {
        assert ks[i] == kn[i - |kk|] && ks[j] == kn[j - |kk|];
      } else {
        assert ks[i] == key(kept[i]) && ks[i] !in drop;
        assert ks[j] == kn[j - |kk|] && ks[j] in drop;
      }
    }
  }

  lemma {:induction false} KeysOfAppend<R>(a: seq<R>, b: seq<R>, key: R -> string)
    ensures KeysOf(a + b, key) == KeysOf(a, key) + KeysOf(b, key)
  {
  }

  /** Dropping rows keeps the keys of the rest distinct and among the old keys. */
  lemma {:induction false} DropKeysDistinct<R>(rows: seq<R>, drop: set<string>, key: R -> string)
    requires Distinct(KeysOf(rows, key))
    ensures Distinct(KeysOf(DropKeys(rows, drop, key), key))
    ensures Elems(KeysOf(DropKeys(rows, drop, key), key)) <= Elems(KeysOf(rows, key))
  {
    if rows != [] {
      var init := rows[..|rows| - 1];
      var last := rows[|rows| - 1];
      assert KeysOf(rows, key) == KeysOf(init, key) + [key(last)];
      assert Distinct(KeysOf(init, key));
      DropKeysDistinct(init, drop, key);
      var front := DropKeys(init, drop, key);
      assert key(last) !in Elems(KeysOf(init, key));
      if key(last) !in drop {
        assert DropKeys(rows, drop, key) == front + [last];
        var kf := KeysOf(front, key);
        assert KeysOf(front + [last], key) == kf + [key(last)];
        ElemsSnoc(kf, key(last));
        ElemsSnoc(KeysOf(init, key), key(last));
        assert key(last) !in Elems(kf);
        forall i | 0 <= i < |kf| ensures kf[i] != key(last) {
          assert kf[i] in Elems(kf);
        }
      } else {
        ElemsSnoc(KeysOf(init, key), key(last));
      }
    }
  }

  /** The merge as written: only when the run produced new records is the
      existing output merged; otherwise the new records, possibly none,
      replace it. */
  function MergeAsWritten<R(==)>(incremental: bool, existing: Option<seq<R>>, newRows: seq<R>, key: R -> string): (df: seq<R>)
    ensures newRows == [] ==> df == []
  {
    if incremental && existing.Some? && newRows != [] then Supersede(existing.value, newRows, key) else newRows
  }

  /** The merge as intended: in incremental mode an existing output is always
      kept, superseded record by record. */
  function Merged<R(==)>(incremental: bool, existing: Option<seq<R>>, newRows: seq<R>, key: R -> string): (df: seq<R>)
    ensures !incremental || existing.None? ==> df == newRows
    ensures incremental && existing.Some? ==>
      && |newRows| <= |df|
      && df[|df| - |newRows|..] == newRows
      && (forall i | 0 <= i < |existing.value| && key(existing.value[i]) !in Elems(KeysOf(newRows, key)) :: existing.value[i] in df)
      && (forall j | 0 <= j < |df| - |newRows| :: key(df[j]) !in Elems(KeysOf(newRows, key)))
      && multiset(df[..|df| - |newRows|]) <= multiset(existing.value)
      && IsSubsequence(df[..|df| - |newRows|], existing.value)
      && (forall i | 0 <= i < |existing.value| && key(existing.value[i]) !in Elems(KeysOf(newRows, key)) ::
            multiset(df[..|df| - |newRows|])[existing.value[i]] == multiset(existing.value)[existing.value[i]])
    ensures incremental && existing.Some? && newRows == [] ==> df == existing.value
  {
    if incremental && existing.Some? then
      if newRows == [] then
        assert Elems(KeysOf(newRows, key)) == {};
        DropNothing(existing.value, key);
        Supersede(existing.value, newRows, key)
      else Supersede(existing.value, newRows, key)
    else newRows
  }

  lemma {:induction false} DropNothing<R>(rows: seq<R>, key: R -> string)
    ensures DropKeys(rows, {}, key) == rows
  {
    if rows != [] {
      DropNothing(rows[..|rows| - 1], key);
      assert rows == rows[..|rows| - 1] + [rows[|rows| - 1]];
    }
  }

  /** Both ways of merging agree whenever the run produced new records. */
  lemma MergeAgreesOnNewRecords<R>(incremental: bool, existing: Option<seq<R>>, newRows: seq<R>, key: R -> string)
    requires newRows != []
    ensures MergeAsWritten(incremental, existing, newRows, key) == Merged(incremental, existing, newRows, key)
  {
  }

  /** As written, an incremental run with nothing new writes an empty output
      over an existing one; the intended merge keeps it. */
  lemma EmptyIncrementalRunWipesOutput()
    ensures var existing: seq<(string, string)> := [("2024-00001", "text")];
            && MergeAsWritten(true, Some(existing), [], (r: (string, string)) => r.0) == []
            && Merged(true, Some(existing), [], (r: (string, string)) => r.0) == existing
  {
  }
}
