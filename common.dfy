/** Value wrappers and models of the few Python built-ins the pipeline relies on:
    str.strip(), path.split("/")[-1], sep.join(parts), list slicing, ordered
    dicts and sorted() over strings. */
module Common {

  datatype Option<+T> = None | Some(value: T)

  datatype Result<+T, +E> = Success(value: T) | Failure(error: E)

  function Min(a: int, b: int): int { if a <= b then a else b }

  function Max(a: int, b: int): int { if a <= b then b else a }

  function Elems<T>(s: seq<T>): set<T> { set x | x in s }

  /** No element occurs twice. */
  predicate Distinct<T(==)>(s: seq<T>) {
    forall i, j | 0 <= i < j < |s| :: s[i] != s[j]
  }

  // ---------------------------------------------------------------------
  // Strings

  /** The characters for which Python's str.isspace() holds, i.e. the ones
      str.strip() removes. */
  predicate IsSpace(c: char) {
    || c == ' '
    || '\t' <= c <= '\r'
    || '\U{1C}' <= c <= '\U{1F}'
    || c == '\U{85}' || c == '\U{A0}' || c == '\U{1680}'
    || '\U{2000}' <= c <= '\U{200A}'
    || c == '\U{2028}' || c == '\U{2029}' || c == '\U{202F}' || c == '\U{205F}' || c == '\U{3000}'
  }

  /** `not s.strip()`: the string is empty or whitespace only. */
  predicate IsBlank(s: string) {
    forall i | 0 <= i < |s| :: IsSpace(s[i])
  }

  /** `path.split("/")[-1]`: the part of the path after its last '/'. */
  function LastSegment(path: string): (name: string)
    ensures '/' !in name
    ensures |name| <= |path| && name == path[|path| - |name|..]
    ensures |name| < |path| ==> path[|path| - |name| - 1] == '/'
  {
    if path == [] then []
    else if path[|path| - 1] == '/' then []
    else
      var front := path[..|path| - 1];
      var name' := LastSegment(front);
      assert front[|front| - |name'|..] + [path[|path| - 1]] == path[|path| - |name'| - 1..];
      name' + [path[|path| - 1]]
  }

  /** `sep.join(parts)`. */
  function Join(parts: seq<string>, sep: string): string {
    if |parts| == 0 then ""
    else if |parts| == 1 then parts[0]
    else Join(parts[..|parts| - 1], sep) + sep + parts[|parts| - 1]
  }

  /** Joining two non-empty lists is joining their joins: every part keeps its
      place, and parts are separated exactly once. */
  lemma {:induction false} JoinAppend(a: seq<string>, b: seq<string>, sep: string)
    requires a != [] && b != []
    ensures Join(a + b, sep) == Join(a, sep) + sep + Join(b, sep)
  {
    if |b| == 1 {
      assert (a + b)[..|a + b| - 1] == a;
    } else {
      var b' := b[..|b| - 1];
      assert (a + b)[..|a + b| - 1] == a + b';
      JoinAppend(a, b', sep);
    }
  }

  /** The length of a join: every part plus one separator between neighbours. */
  lemma {:induction false} JoinLength(parts: seq<string>, sep: string)
    ensures parts != [] ==> |Join(parts, sep)| == SumLengths(parts) + (|parts| - 1) * |sep|
    ensures parts == [] ==> Join(parts, sep) == ""
  {
    if |parts| > 1 {
      JoinLength(parts[..|parts| - 1], sep);
    }
  }

  function SumLengths(parts: seq<string>): nat {
    if parts == [] then 0 else SumLengths(parts[..|parts| - 1]) + |parts[|parts| - 1]|
  }

  // ---------------------------------------------------------------------
  // Lists

  /** `xs[:n]` with Python's slice semantics: a negative bound counts from the end. */
  function Prefix<T>(xs: seq<T>, n: int): (r: seq<T>)
    ensures r <= xs
    ensures 0 <= n ==> |r| == Min(n, |xs|)
    ensures n < 0 ==> |r| == Max(|xs| + n, 0)
  {
    if 0 <= n then xs[..Min(n, |xs|)] else xs[..Max(|xs| + n, 0)]
  }

  /** `if limit: xs = xs[:limit]`: None and 0 both mean "no limit". */
  function ApplyLimit<T>(xs: seq<T>, limit: Option<int>): (r: seq<T>)
    ensures r <= xs
    ensures limit.None? || limit.value == 0 ==> r == xs
    ensures limit.Some? && limit.value > 0 ==> |r| == Min(limit.value, |xs|)
  {
    if limit.Some? && limit.value != 0 then Prefix(xs, limit.value) else xs
  }

  /** `[s for s in xs if s in allowed]`. */
  function FilterIn<T(==)>(xs: seq<T>, allowed: seq<T>): (r: seq<T>)
    ensures Elems(r) == Elems(xs) * Elems(allowed)
    ensures IsSubsequence(r, xs)
  {
    if xs == [] then []
    else
      var front := FilterIn(xs[..|xs| - 1], allowed);
      var last := xs[|xs| - 1];
      ElemsSnoc(xs[..|xs| - 1], last);
      assert xs == xs[..|xs| - 1] + [last];
      if last in allowed then
        ElemsSnoc(front, last);
        assert (front + [last])[..|front|] == front;
        front + [last]
      else
        assert front != [] ==> front[|front| - 1] in Elems(front);
        front
  }

  /** A list without repetitions has as many elements as its set. */
  lemma {:induction false} DistinctCard<T>(s: seq<T>)
    requires Distinct(s)
    ensures |Elems(s)| == |s|
  {
    if s != [] {
      var front := s[..|s| - 1];
      assert Distinct(front);
      DistinctCard(front);
      assert s == front + [s[|s| - 1]];
      ElemsSnoc(front, s[|s| - 1]);
      assert s[|s| - 1] !in Elems(front);
    }
  }

  lemma EmptyElems<T>(s: seq<T>)
    ensures Elems(s) == {} <==> s == []
  {
    if s != [] {
      assert s[0] in Elems(s);
    }
  }

  lemma ElemsSnoc<T>(s: seq<T>, x: T)
    ensures Elems(s + [x]) == Elems(s) + {x}
  {
    assert forall y :: y in s + [x] <==> y in s || y == x;
  }

  /** `a` is obtained from `b` by deleting elements, keeping the order of the rest. */
  predicate IsSubsequence<T(==)>(a: seq<T>, b: seq<T>)
    decreases |b|
  {
    if a == [] then true
    else if b == [] then false
    else if a[|a| - 1] == b[|b| - 1] then IsSubsequence(a[..|a| - 1], b[..|b| - 1])
    else IsSubsequence(a, b[..|b| - 1])
  }

  lemma {:induction false} DistinctSubsequence<T>(a: seq<T>, b: seq<T>)
    requires IsSubsequence(a, b) && Distinct(b)
    ensures Distinct(a)
    decreases |b|
  {
    if a != [] && b != [] {
      var b' := b[..|b| - 1];
      assert Distinct(b');
      if a[|a| - 1] == b[|b| - 1] {
        var a' := a[..|a| - 1];
        DistinctSubsequence(a', b');
        SubsequenceElems(a', b');
        assert b[|b| - 1] !in Elems(b');
        assert a == a' + [a[|a| - 1]];
      } else {
        DistinctSubsequence(a, b');
      }
    }
  }

  lemma {:induction false} SubsequenceElems<T>(a: seq<T>, b: seq<T>)
    requires IsSubsequence(a, b)
    ensures Elems(a) <= Elems(b)
    decreases |b|
  {
    if a != [] && b != [] {
      var b' := b[..|b| - 1];
      if a[|a| - 1] == b[|b| - 1] {
        var a' := a[..|a| - 1];
        SubsequenceElems(a', b');
        assert a == a' + [b[|b| - 1]];
        assert b == b' + [b[|b| - 1]];
        ElemsSnoc(a', b[|b| - 1]);
        ElemsSnoc(b', b[|b| - 1]);
      } else {
        SubsequenceElems(a, b');
        assert b == b' + [b[|b| - 1]];
        ElemsSnoc(b', b[|b| - 1]);
      }
    }
  }

  // ---------------------------------------------------------------------
  // Ordered dicts: a Python dict is a list of (key, value) pairs in
  // insertion order with no key twice.

  predicate UniqueKeys<K(==), V>(d: seq<(K, V)>) {
    forall i, j | 0 <= i < j < |d| :: d[i].0 != d[j].0
  }

  /** `list(d.keys())`. */
  function Keys<K, V>(d: seq<(K, V)>): (ks: seq<K>)
    ensures |ks| == |d| && forall i | 0 <= i < |d| :: ks[i] == d[i].0
  {
    if d == [] then [] else Keys(d[..|d| - 1]) + [d[|d| - 1].0]
  }

  /** `d.get(k, default)`. */
  function Get<K(==), V>(d: seq<(K, V)>, k: K, default: V): (v: V)
    ensures forall i | 0 <= i < |d| && d[i].0 == k && UniqueKeys(d) :: v == d[i].1
    ensures (forall i | 0 <= i < |d| :: d[i].0 != k) ==> v == default
  {
    if d == [] then default
    else if d[0].0 == k then d[0].1
    else Get(d[1..], k, default)
  }

  // ---------------------------------------------------------------------
  // Python's ordering of str values: code point by code point, a proper
  // prefix first.

  predicate StrLess(a: string, b: string) {
    if |b| == 0 then false
    else if |a| == 0 then true
    else if a[0] != b[0] then a[0] < b[0]
    else StrLess(a[1..], b[1..])
  }

  lemma {:induction false} StrLessIrreflexive(a: string)
    ensures !StrLess(a, a)
  {
    if |a| > 0 { StrLessIrreflexive(a[1..]); }
  }

  lemma {:induction false} StrLessTransitive(a: string, b: string, c: string)
    requires StrLess(a, b) && StrLess(b, c)
    ensures StrLess(a, c)
  {
    if |a| > 0 && a[0] == b[0] && b[0] == c[0] {
      StrLessTransitive(a[1..], b[1..], c[1..]);
    }
  }

  lemma {:induction false} StrLessTotal(a: string, b: string)
    requires a != b
    ensures StrLess(a, b) || StrLess(b, a)
  {
    if |a| > 0 && |b| > 0 && a[0] == b[0] {
      assert a == [a[0]] + a[1..] && b == [b[0]] + b[1..];
      StrLessTotal(a[1..], b[1..]);
    }
  }

  predicate StrictlySorted(s: seq<string>) {
    forall i, j | 0 <= i < j < |s| :: StrLess(s[i], s[j])
  }

  /** Inserts `x` into a strictly sorted list, unless it is already there. */
  function Insert(x: string, s: seq<string>): (r: seq<string>)
    requires StrictlySorted(s)
    ensures StrictlySorted(r)
    ensures Elems(r) == Elems(s) + {x}
  {
    if s == [] then [x]
    else if x == s[0] then s
    else if StrLess(x, s[0]) then
      assert forall j | 0 < j < |s| :: StrLess(x, s[j]) by {
        forall j | 0 < j < |s| ensures StrLess(x, s[j]) { StrLessTransitive(x, s[0], s[j]); }
      }
      [x] + s
    else
      StrLessTotal(x, s[0]);
      var rest := Insert(x, s[1..]);
      assert s == [s[0]] + s[1..];
      assert Elems(s) == {s[0]} + Elems(s[1..]);
      assert forall k | 0 <= k < |rest| :: StrLess(s[0], rest[k]) by {
        forall k | 0 <= k < |rest| ensures StrLess(s[0], rest[k]) {
          assert rest[k] in Elems(rest);
          if rest[k] != x {
            var j :| 0 <= j < |s[1..]| && s[1..][j] == rest[k];
            assert s[j + 1] == rest[k];
          }
        }
      }
      assert Elems([s[0]] + rest) == {s[0]} + Elems(rest);
      [s[0]] + rest
  }

  /** `sorted(set(xs))`: the distinct elements of `xs` in ascending order. */
  function SortedSet(xs: seq<string>): (r: seq<string>)
    ensures StrictlySorted(r)
    ensures Elems(r) == Elems(xs)
  {
    if xs == [] then []
    else
      var r := Insert(xs[|xs| - 1], SortedSet(xs[..|xs| - 1]));
      assert Elems(xs) == Elems(xs[..|xs| - 1]) + {xs[|xs| - 1]};
      r
  }

  /** A strictly sorted list is determined by its elements, so `sorted(...)`
      does not depend on the order in which the set was enumerated. */
  lemma {:induction false} SortedUnique(a: seq<string>, b: seq<string>)
    requires StrictlySorted(a) && StrictlySorted(b) && Elems(a) == Elems(b)
    ensures a == b
  {
    if a != [] && b != [] {
      // the first element is the least one in both
      if a[0] != b[0] {
        assert a[0] in Elems(b) && b[0] in Elems(a);
        var i :| 0 <= i < |b| && b[i] == a[0];
        var j :| 0 <= j < |a| && a[j] == b[0];
        assert i > 0 && j > 0;
        assert StrLess(b[0], a[0]) && StrLess(a[0], b[0]);
        StrLessTransitive(a[0], b[0], a[0]);
        StrLessIrreflexive(a[0]);
      }
      assert Elems(a[1..]) == Elems(b[1..]) by {
        forall x | x in a[1..] ensures x in b[1..] {
          var k :| 0 <= k < |a[1..]| && a[1..][k] == x;
          assert x in Elems(b);
          var m :| 0 <= m < |b| && b[m] == x;
          if m == 0 {
            assert StrLess(a[0], a[k + 1]);
            StrLessIrreflexive(x);
          }
          assert b[1..][m - 1] == x;
        }
        forall x | x in b[1..] ensures x in a[1..] {
          var k :| 0 <= k < |b[1..]| && b[1..][k] == x;
          assert x in Elems(a);
          var m :| 0 <= m < |a| && a[m] == x;
          if m == 0 {
            assert StrLess(b[0], b[k + 1]);
            StrLessIrreflexive(x);
          }
          assert a[1..][m - 1] == x;
        }
      }
      SortedUnique(a[1..], b[1..]);
      assert a == [a[0]] + a[1..] && b == [b[0]] + b[1..];
    } else {
      EmptyElems(a);
      EmptyElems(b);
    }
  }

  lemma SortedIsDistinct(s: seq<string>)
    requires StrictlySorted(s)
    ensures Distinct(s)
  {
    forall i, j | 0 <= i < j < |s| ensures s[i] != s[j] {
      StrLessIrreflexive(s[i]);
    }
  }
}
