/** Sequence helpers that stand for the dataframe operations the scripts use:
    sums and means of a column, Python's substring test and str.split, head and
    iloc slices, and sort_values. */
module Seqs {
  import opened Wrappers

  /** Column sum, as pandas' Series.sum(). */
  function Sum(s: seq<real>): real
  {
    if s == [] then 0.0 else Sum(s[..|s| - 1]) + s[|s| - 1]
  }

  lemma {:induction false} SumAppend(a: seq<real>, b: seq<real>)
    ensures Sum(a + b) == Sum(a) + Sum(b)
    decreases |b|
  {
    if b == [] {
      assert a + b == a;
    } else {
      var b' := b[..|b| - 1];
      assert (a + b)[..|a + b| - 1] == a + b';
      SumAppend(a, b');
    }
  }

  lemma {:induction false} SumBounds(s: seq<real>, lo: real, hi: real)
    requires forall i :: 0 <= i < |s| ==> lo <= s[i] <= hi
    ensures |s| as real * lo <= Sum(s) <= |s| as real * hi
  {
    if s != [] {
      SumBounds(s[..|s| - 1], lo, hi);
    }
  }

  /** Column mean, as pandas' Series.mean() over a window of defined values. */
  function Mean(s: seq<real>): real
    requires |s| > 0
  {
    Sum(s) / |s| as real
  }

  /** Python's head(n): the first n elements, or all of them when fewer. */
  function Head<T>(s: seq<T>, n: nat): (r: seq<T>)
    ensures |r| == if n < |s| then n else |s|
    ensures forall i :: 0 <= i < |r| ==> r[i] == s[i]
  {
    if n < |s| then s[..n] else s
  }

  /** Python's iloc[lo:hi]: positions lo..hi-1 that exist. */
  function Slice<T>(s: seq<T>, lo: nat, hi: nat): (r: seq<T>)
    ensures forall i :: 0 <= i < |r| ==> lo + i < |s| && r[i] == s[lo + i]
    ensures |r| == if lo >= |s| || hi <= lo then 0 else (if hi < |s| then hi else |s|) - lo
  {
    var h := if hi < |s| then hi else |s|;
    if lo >= h then [] else s[lo..h]
  }

  /** The set of elements of a list. */
  function Elems<T>(s: seq<T>): set<T>
  {
    set x | x in s
  }

  predicate Distinct<T(==)>(s: seq<T>)
  {
    forall i, j :: 0 <= i < j < |s| ==> s[i] != s[j]
  }

  /** `sep` occurs in `s` at position i. */
  predicate OccursAt(s: string, sep: string, i: nat)
  {
    i + |sep| <= |s| && s[i..i + |sep|] == sep
  }

  /** First position at or after `from` where `sep` occurs. */
  function Find(s: string, sep: string, from: nat): (r: Option<nat>)
    requires from <= |s|
    ensures r.Some? ==> from <= r.value && OccursAt(s, sep, r.value)
    ensures r.Some? ==> forall j :: from <= j < r.value ==> !OccursAt(s, sep, j)
    ensures r.None? ==> forall j :: from <= j ==> !OccursAt(s, sep, j)
    decreases |s| - from
  {
    if from + |sep| > |s| then None
    else if s[from..from + |sep|] == sep then Some(from)
    else Find(s, sep, from + 1)
  }

  /** Python's `sep in s` (and pandas' str.contains for a pattern without
      regular-expression metacharacters). */
  predicate Contains(s: string, sep: string)
  {
    Find(s, sep, 0).Some?
  }

  /** Python's s.split(sep) for a non-empty separator. */
  function Split(s: string, sep: string): (parts: seq<string>)
    requires |sep| > 0
    ensures |parts| >= 1
  {
    SplitFrom(s, sep, 0)
  }

  /** The pieces of s[from..] between the occurrences of `sep`, scanning
      left to right and skipping each occurrence found. */
  function SplitFrom(s: string, sep: string, from: nat): (parts: seq<string>)
    requires |sep| > 0 && from <= |s|
    ensures |parts| >= 1
    decreases |s| - from
  {
    match Find(s, sep, from)
    case None => [s[from..]]
    case Some(i) => [s[from..i]] + SplitFrom(s, sep, i + |sep|)
  }

  /** Python's sep.join(parts). */
  function Join(parts: seq<string>, sep: string): string
    requires |parts| >= 1
  {
    if |parts| == 1 then parts[0] else parts[0] + sep + Join(parts[1..], sep)
  }

  /** Splitting and joining again gives back the original text. */
  lemma SplitJoin(s: string, sep: string)
    requires |sep| > 0
    ensures Join(Split(s, sep), sep) == s
  {
    SplitFromJoin(s, sep, 0);
  }

  lemma {:induction false} SplitFromJoin(s: string, sep: string, from: nat)
    requires |sep| > 0 && from <= |s|
    ensures Join(SplitFrom(s, sep, from), sep) == s[from..]
    decreases |s| - from
  {
    var f := Find(s, sep, from);
    if f.Some? {
      var i := f.value;
      assert OccursAt(s, sep, i);
      var tail := SplitFrom(s, sep, i + |sep|);
      assert SplitFrom(s, sep, from) == [s[from..i]] + tail;
      SplitFromJoin(s, sep, i + |sep|);
      JoinCons(s[from..i], tail, sep);
      AroundOccurrence(s, sep, from, i);
    } else {
      assert SplitFrom(s, sep, from) == [s[from..]];
    }
  }

  lemma JoinCons(head: string, tail: seq<string>, sep: string)
    requires |tail| >= 1
    ensures Join([head] + tail, sep) == head + sep + Join(tail, sep)
  {
    assert ([head] + tail)[1..] == tail;
  }

  /** Text around an occurrence of `sep` at i: before it, `sep`, after it. */
  lemma AroundOccurrence(s: string, sep: string, from: nat, i: nat)
    requires from <= i && OccursAt(s, sep, i)
    ensures s[from..] == s[from..i] + sep + s[i + |sep|..]
  {
    Cut3(s[from..], i - from, i + |sep| - from);
    assert s[from..][..i - from] == s[from..i];
    assert s[from..][i - from..i + |sep| - from] == s[i..i + |sep|];
    assert s[from..][i + |sep| - from..] == s[i + |sep|..];
  }

  lemma Cut3<T>(s: seq<T>, i: nat, j: nat)
    requires i <= j <= |s|
    ensures s == s[..i] + s[i..j] + s[j..]
  {
    assert s[..j] == s[..i] + s[i..j];
  }

  /** No piece of `parts` contains the separator. */
  predicate PiecesFree(parts: seq<string>, sep: string)
  {
    forall k :: 0 <= k < |parts| ==> !Contains(parts[k], sep)
  }

  /** No piece of a split contains the separator. */
  lemma SplitPiecesFree(s: string, sep: string)
    requires |sep| > 0
    ensures PiecesFree(Split(s, sep), sep)
  {
    SplitFromPiecesFree(s, sep, 0);
  }

  lemma {:induction false} SplitFromPiecesFree(s: string, sep: string, from: nat)
    requires |sep| > 0 && from <= |s|
    ensures PiecesFree(SplitFrom(s, sep, from), sep)
    decreases |s| - from
  {
    var f := Find(s, sep, from);
    if f.Some? {
      var i := f.value;
      assert OccursAt(s, sep, i);
      var tail := SplitFrom(s, sep, i + |sep|);
      assert SplitFrom(s, sep, from) == [s[from..i]] + tail;
      SplitFromPiecesFree(s, sep, i + |sep|);
      GapIsFree(s, sep, from, i);
      ConsFree(s[from..i], tail, sep);
    } else {
      assert SplitFrom(s, sep, from) == [s[from..]];
      GapIsFree(s, sep, from, |s|);
      assert s[from..|s|] == s[from..];
    }
  }

  lemma ConsFree(first: string, rest: seq<string>, sep: string)
    requires !Contains(first, sep) && PiecesFree(rest, sep)
    ensures PiecesFree([first] + rest, sep)
  {
    forall k | 0 <= k < |[first] + rest|
      ensures !Contains(([first] + rest)[k], sep)
    {
      if k > 0 {
        assert ([first] + rest)[k] == rest[k - 1];
      }
    }
  }

  /** A stretch of `s` in which `sep` starts nowhere does not contain it. */
  lemma GapIsFree(s: string, sep: string, lo: nat, hi: nat)
    requires |sep| > 0 && lo <= hi <= |s|
    requires forall j :: lo <= j < hi ==> !OccursAt(s, sep, j)
    ensures !Contains(s[lo..hi], sep)
  {
    var f := Find(s[lo..hi], sep, 0);
    if f.Some? {
      var j := f.value;
      assert OccursAt(s[lo..hi], sep, j);
      assert lo + j + |sep| <= hi;
      assert s[lo..hi][j..j + |sep|] == s[lo + j..lo + j + |sep|];
      assert OccursAt(s, sep, lo + j);
    }
  }

  /** The elements of `s` are in ascending order of `key`. */
  predicate SortedBy<T>(s: seq<T>, key: T -> real)
  {
    forall i, j :: 0 <= i < j < |s| ==> key(s[i]) <= key(s[j])
  }

  /** Where Insert puts x: before the first element whose key is not smaller. */
  function InsertPos<T>(x: T, s: seq<T>, key: T -> real): (k: nat)
    ensures k <= |s|
    ensures forall i :: 0 <= i < k ==> key(s[i]) < key(x)
    ensures k < |s| ==> key(x) <= key(s[k])
  {
    if s == [] || key(x) <= key(s[0]) then 0 else 1 + InsertPos(x, s[1..], key)
  }

  /** Inserts x into an ascending list, keeping it ascending. */
  function Insert<T>(x: T, s: seq<T>, key: T -> real): (r: seq<T>)
    requires SortedBy(s, key)
    ensures SortedBy(r, key)
    ensures multiset(r) == multiset(s) + multiset{x}
    ensures |r| == |s| + 1
  {
    var k := InsertPos(x, s, key);
    InsertAtSorted(x, s, key, k);
    assert s == s[..k] + s[k..];
    s[..k] + [x] + s[k..]
  }

  /** Putting x between the smaller keys and the rest keeps a list sorted. */
  lemma InsertAtSorted<T>(x: T, s: seq<T>, key: T -> real, k: nat)
    requires SortedBy(s, key) && k <= |s|
    requires forall i :: 0 <= i < k ==> key(s[i]) < key(x)
    requires k < |s| ==> key(x) <= key(s[k])
    ensures SortedBy(s[..k] + [x] + s[k..], key)
  {
    var r := s[..k] + [x] + s[k..];
    forall i, j | 0 <= i < j < |r|
      ensures key(r[i]) <= key(r[j])
    {
      if j > k {
        assert r[j] == s[j - 1];
        if i == k {
          assert key(s[k]) <= key(s[j - 1]);
        }
      }
    }
  }

  /** pandas' sort_values by one column, as a stable insertion sort. */
  function SortBy<T>(s: seq<T>, key: T -> real): (r: seq<T>)
    ensures SortedBy(r, key)
    ensures multiset(r) == multiset(s)
    ensures |r| == |s|
  {
    if s == [] then []
    else
      var t := SortBy(s[1..], key);
      assert s == [s[0]] + s[1..];
      Insert(s[0], t, key)
  }

  /** The elements of s that satisfy p, in order: a boolean-mask selection. */
  function Filter<T(!new)>(s: seq<T>, p: T -> bool): (r: seq<T>)
    ensures |r| <= |s|
    ensures forall x :: x in r <==> x in s && p(x)
  {
    if s == [] then []
    else
      var init := Filter(s[..|s| - 1], p);
      assert s == s[..|s| - 1] + [s[|s| - 1]];
      if p(s[|s| - 1]) then init + [s[|s| - 1]] else init
  }

  /** Selecting from a concatenation selects from each part. */
  lemma {:induction false} FilterAppend<T(!new)>(a: seq<T>, b: seq<T>, p: T -> bool)
    ensures Filter(a + b, p) == Filter(a, p) + Filter(b, p)
    decreases |b|
  {
    if b == [] {
      assert a + b == a;
    } else {
      var b' := b[..|b| - 1];
      assert (a + b)[..|a + b| - 1] == a + b';
      FilterAppend(a, b', p);
    }
  }

  /** A selection from a sorted list is sorted. */
  lemma {:induction false} FilterSorted<T(!new)>(s: seq<T>, p: T -> bool, key: T -> real)
    requires SortedBy(s, key)
    ensures SortedBy(Filter(s, p), key)
  {
    if s != [] {
      var init := s[..|s| - 1];
      var last := s[|s| - 1];
      FilterSorted(init, p, key);
      var r := Filter(s, p);
      if p(last) {
        var f := Filter(init, p);
        assert r == f + [last];
        forall i | 0 <= i < |f|
          ensures key(f[i]) <= key(last)
        {
          assert f[i] in init;
          var k :| 0 <= k < |init| && init[k] == f[i];
          assert s[k] == f[i];
        }
      }
    }
  }

  /** Selecting from elements none of which qualifies gives nothing. */
  lemma FilterNone<T(!new)>(s: seq<T>, p: T -> bool)
    requires forall x :: x in s ==> !p(x)
    ensures Filter(s, p) == []
  {
  }

  /** A mask and its complement split a list between them: every element
      goes to exactly one side. */
  lemma {:induction false} FilterPartition<T(!new)>(s: seq<T>, p: T -> bool, q: T -> bool)
    requires forall x :: q(x) == !p(x)
    ensures multiset(Filter(s, p)) + multiset(Filter(s, q)) == multiset(s)
  {
    if s != [] {
      var init := s[..|s| - 1];
      FilterPartition(init, p, q);
      assert s == init + [s[|s| - 1]];
    }
  }

  /** The elements of xs not in `done` and not met earlier in xs, in order
      of first appearance. */
  function FirstSeen<T>(done: set<T>, xs: seq<T>): seq<T>
  {
    if xs == [] then []
    else
      var init := xs[..|xs| - 1];
      var x := xs[|xs| - 1];
      if x in done || x in init then FirstSeen(done, init) else FirstSeen(done, init) + [x]
  }

  /** FirstSeen lists each new element exactly once. */
  lemma {:induction false} FirstSeenExact<T>(done: set<T>, xs: seq<T>)
    ensures Distinct(FirstSeen(done, xs))
    ensures Elems(FirstSeen(done, xs)) == Elems(xs) - done
  {
    if xs != [] {
      var init := xs[..|xs| - 1];
      var x := xs[|xs| - 1];
      FirstSeenExact(done, init);
      assert xs == init + [x];
      assert Elems(xs) == Elems(init) + {x};
      var p := FirstSeen(done, init);
      if !(x in done || x in init) {
        assert x !in Elems(p);
        assert Elems(p + [x]) == Elems(p) + {x};
        assert forall i :: 0 <= i < |p| ==> p[i] != x by {
          forall i | 0 <= i < |p| ensures p[i] != x {
            assert p[i] in Elems(p);
          }
        }
      }
    }
  }

  /** pandas' last(): the last value that is not missing. */
  function LastPresent<T>(xs: seq<Option<T>>): (r: Option<T>)
    ensures r.None? <==> forall i :: 0 <= i < |xs| ==> xs[i].None?
  {
    if xs == [] then None
    else if xs[|xs| - 1].Some? then xs[|xs| - 1]
    else
      var init := xs[..|xs| - 1];
      assert forall i :: 0 <= i < |init| ==> init[i] == xs[i];
      LastPresent(init)
  }

  /** The value LastPresent returns sits at a position after which every
      value is missing. */
  lemma {:induction false} LastPresentAt<T>(xs: seq<Option<T>>) returns (i: nat)
    requires LastPresent(xs).Some?
    ensures i < |xs| && xs[i] == LastPresent(xs)
    ensures forall j :: i < j < |xs| ==> xs[j].None?
  {
    if xs[|xs| - 1].Some? {
      i := |xs| - 1;
    } else {
      var init := xs[..|xs| - 1];
      i := LastPresentAt(init);
      assert xs[i] == init[i];
      assert forall j :: i < j < |init| ==> init[j] == xs[j];
    }
  }

  /** pandas' sum() over a column: missing values are skipped and an empty
      column sums to 0. */
  function SumPresent(xs: seq<Option<real>>): real
  {
    if xs == [] then 0.0
    else SumPresent(xs[..|xs| - 1]) + xs[|xs| - 1].GetOr(0.0)
  }

  /** An occurrence anywhere makes the substring test true. */
  lemma OccursContains(s: string, sep: string, i: nat)
    requires OccursAt(s, sep, i)
    ensures Contains(s, sep)
  {
  }
}
