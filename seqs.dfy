/** The list operations the analyzer takes from Python and numpy: counting
    (`len([j for j in s if j == v])`), `sum`, `np.max`, `np.min`, `sorted`,
    membership-driven de-duplication (`if not x in X: X.append(x)`) and the
    concatenation of a list of lists. */
module Seqs {

  /** `len([j for j in s if j == v])`. */
  function Count<T(==)>(s: seq<T>, v: T): nat
  {
    if s == [] then 0
    else Count(s[..|s| - 1], v) + (if s[|s| - 1] == v then 1 else 0)
  }

  lemma {:induction false} CountIsMultiplicity<T>(s: seq<T>, v: T)
    ensures Count(s, v) == multiset(s)[v]
    decreases |s|
  {
    if s != [] {
      CountIsMultiplicity(s[..|s| - 1], v);
      assert s == s[..|s| - 1] + [s[|s| - 1]];
    }
  }

  /** `sum(s)`. */
  function Sum(s: seq<int>): int
  {
    if s == [] then 0 else Sum(s[..|s| - 1]) + s[|s| - 1]
  }

  lemma {:induction false} SumAppend(a: seq<int>, b: seq<int>)
    ensures Sum(a + b) == Sum(a) + Sum(b)
    decreases |b|
  {
    if b == [] {
      assert a + b == a;
    } else {
      SumAppend(a, b[..|b| - 1]);
      assert a + b == (a + b[..|b| - 1]) + [b[|b| - 1]];
    }
  }

  lemma SumSingle(x: int)
    ensures Sum([x]) == x
  {
    assert [x][..0] == [];
  }

  lemma SumSnoc(s: seq<int>, x: int)
    ensures Sum(s + [x]) == Sum(s) + x
  {
    assert (s + [x])[..|s|] == s;
  }

  /** Taking out the i-th element takes its value off the sum... */
  lemma SumRemove(b: seq<int>, i: nat)
    requires i < |b|
    ensures Sum(b) == Sum(b[..i] + b[i + 1..]) + b[i]
  {
    var left, x, right := b[..i], b[i], b[i + 1..];
    assert b == (left + [x]) + right;
    SumAppend(left + [x], right);
    SumAppend(left, right);
    SumSnoc(left, x);
  }

  /** ... and one copy of it off the multiset. */
  lemma MultisetRemove<T>(b: seq<T>, i: nat)
    requires i < |b|
    ensures multiset(b[..i] + b[i + 1..]) == multiset(b) - multiset{b[i]}
  {
    assert b == b[..i] + [b[i]] + b[i + 1..];
  }

  /** Reordering a list does not change its sum. */
  lemma {:induction false} SumPermutation(a: seq<int>, b: seq<int>)
    requires multiset(a) == multiset(b)
    ensures Sum(a) == Sum(b)
    decreases |a|
  {
    if a == [] {
      assert |b| == |multiset(b)| == 0;
    } else {
      var p, x := a[..|a| - 1], a[|a| - 1];
      assert a == p + [x];
      assert x in multiset(b);
      var i :| 0 <= i < |b| && b[i] == x;
      SumRemove(b, i);
      MultisetRemove(b, i);
      assert multiset(p) == multiset(a) - multiset{x};
      SumPermutation(p, b[..i] + b[i + 1..]);
    }
  }

  /** `np.max(s)` of a non-empty list. */
  function Max(s: seq<int>): (m: int)
    requires s != []
    ensures m in s && forall k :: 0 <= k < |s| ==> s[k] <= m
  {
    if |s| == 1 then s[0]
    else
      var m := Max(s[..|s| - 1]);
      assert forall k :: 0 <= k < |s| - 1 ==> s[k] == s[..|s| - 1][k];
      if s[|s| - 1] > m then s[|s| - 1] else m
  }

  /** `np.min(s)` of a non-empty list. */
  function Min(s: seq<int>): (m: int)
    requires s != []
    ensures m in s && forall k :: 0 <= k < |s| ==> m <= s[k]
  {
    if |s| == 1 then s[0]
    else
      var m := Min(s[..|s| - 1]);
      assert forall k :: 0 <= k < |s| - 1 ==> s[k] == s[..|s| - 1][k];
      if s[|s| - 1] < m then s[|s| - 1] else m
  }

  predicate Sorted(s: seq<int>)
  {
    forall i, j :: 0 <= i < j < |s| ==> s[i] <= s[j]
  }

  /** Inserts `x` into a sorted list before the first larger element. */
  function Insert(x: int, s: seq<int>): (r: seq<int>)
    requires Sorted(s)
    ensures Sorted(r) && multiset(r) == multiset(s) + multiset{x}
  {
    if s == [] then [x]
    else if x <= s[0] then [x] + s
    else
      var t := Insert(x, s[1..]);
      InsertBehindHead(x, s, t);
      [s[0]] + t
  }

  lemma InsertBehindHead(x: int, s: seq<int>, t: seq<int>)
    requires s != [] && Sorted(s) && s[0] < x
    requires Sorted(t) && multiset(t) == multiset(s[1..]) + multiset{x}
    ensures Sorted([s[0]] + t) && multiset([s[0]] + t) == multiset(s) + multiset{x}
  {
    assert s == [s[0]] + s[1..];
    forall k | 0 <= k < |t| ensures s[0] <= t[k] {
      assert t[k] in multiset(t);
      if t[k] != x {
        assert t[k] in multiset(s[1..]);
        var i :| 0 <= i < |s[1..]| && s[1..][i] == t[k];
        assert s[i + 1] == t[k];
      }
    }
    var r := [s[0]] + t;
    forall i, j | 0 <= i < j < |r| ensures r[i] <= r[j] {
      if i > 0 {
        assert r[i] == t[i - 1] && r[j] == t[j - 1];
      } else {
        assert r[j] == t[j - 1];
      }
    }
  }

  /** `sorted(s)`: an ascending permutation of `s`. */
  function Sort(s: seq<int>): (r: seq<int>)
    ensures Sorted(r) && multiset(r) == multiset(s)
  {
    if s == [] then []
    else
      assert s == [s[0]] + s[1..];
      Insert(s[0], Sort(s[1..]))
  }

  // ---------------------------------------------------------------------
  // First-seen de-duplication

  predicate NoDuplicates<T(==)>(s: seq<T>)
  {
    forall i, j :: 0 <= i < j < |s| ==> s[i] != s[j]
  }

  /** The distinct elements of `s` in the order of their first occurrence:
      what `for v in s: if not v in out: out.append(v)` builds. */
  function Dedup<T(==)>(s: seq<T>): (r: seq<T>)
    ensures NoDuplicates(r)
    ensures forall k :: 0 <= k < |r| ==> r[k] in s
    ensures forall k :: 0 <= k < |s| ==> s[k] in r
    ensures |r| <= |s|
  {
    if s == [] then []
    else
      var p := s[..|s| - 1];
      var d := Dedup(p);
      assert forall k :: 0 <= k < |p| ==> s[k] == p[k];
      if s[|s| - 1] in d then d else d + [s[|s| - 1]]
  }

  /** Index of the first occurrence of `v` in `s`. */
  function FirstIndex<T(==)>(s: seq<T>, v: T): (i: nat)
    requires v in s
    ensures i < |s| && s[i] == v && forall k :: 0 <= k < i ==> s[k] != v
  {
    if s[0] == v then 0
    else
      assert v in s[1..] by {
        var k :| 0 <= k < |s| && s[k] == v;
        assert s[1..][k - 1] == v;
      }
      1 + FirstIndex(s[1..], v)
  }

  /** `Dedup` keeps the order of first occurrences: of two distinct values, the
      one that occurs first in `s` comes first. */
  lemma {:induction false} DedupFirstSeen<T>(s: seq<T>, i: nat, j: nat)
    requires i < j < |Dedup(s)|
    ensures FirstIndex(s, Dedup(s)[i]) < FirstIndex(s, Dedup(s)[j])
    decreases |s|
  {
    var p := s[..|s| - 1];
    var d := Dedup(p);
    var r := Dedup(s);
    FirstIndexPrefix(s, r[i]);
    FirstIndexPrefix(s, r[j]);
    if j < |d| {
      assert r[i] == d[i] && r[j] == d[j];
      DedupFirstSeen(p, i, j);
    } else {
      // r[j] is the last element of s and does not occur earlier
      assert r[j] == s[|s| - 1] && r[j] !in p;
      assert r[i] == d[i] && r[i] in p;
    }
  }

  /** Occurrences in a prefix are found at the same index in the whole list. */
  lemma FirstIndexPrefix<T>(s: seq<T>, v: T)
    requires s != [] && v in s
    ensures v in s[..|s| - 1] ==> FirstIndex(s, v) == FirstIndex(s[..|s| - 1], v)
    ensures v !in s[..|s| - 1] ==> FirstIndex(s, v) == |s| - 1
  {
    var p := s[..|s| - 1];
    var i := FirstIndex(s, v);
    if v in p {
      var k := FirstIndex(p, v);
      assert s[k] == v;
      assert i <= k;
      assert p[i] == s[i] || i == |s| - 1;
    } else {
      assert forall k :: 0 <= k < |p| ==> p[k] == s[k];
    }
  }

  lemma DedupExample()
    ensures Dedup([10, 20, 10, 30]) == [10, 20, 30]
  {
    assert [10, 20, 10, 30][..3] == [10, 20, 10];
    assert [10, 20, 10][..2] == [10, 20];
    assert [10, 20][..1] == [10];
    assert [10][..0] == [];
  }

  // ---------------------------------------------------------------------
  // Lists of lists

  /** The concatenation of a list of lists. */
  function Flatten<T>(groups: seq<seq<T>>): seq<T>
  {
    if groups == [] then [] else groups[0] + Flatten(groups[1..])
  }

  /** The total length of a list of lists. */
  function TotalLength<T>(groups: seq<seq<T>>): nat
  {
    if groups == [] then 0 else |groups[0]| + TotalLength(groups[1..])
  }

  lemma {:induction false} FlattenLength<T>(groups: seq<seq<T>>)
    ensures |Flatten(groups)| == TotalLength(groups)
    decreases |groups|
  {
    if groups != [] {
      FlattenLength(groups[1..]);
    }
  }
}
