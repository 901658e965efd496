/** Generic operations on sequences that stand for the array methods the
    modelled code calls: `find`, `filter`, first-hit loops, `new Set(...)`
    de-duplication and the stable `Array.prototype.sort`. */
module Seqs {
  import opened Js

  /** The first `Some` of `s`: what a loop with an early `return` over a sequence of
      candidate results gives. */
  function FirstOf<U>(s: seq<Option<U>>): Option<U> {
    if |s| == 0 then None
    else if s[0].Some? then s[0]
    else FirstOf(s[1..])
  }

  /** Scanning from `i`: the element there if it is present, else the scan from `i + 1`. */
  lemma FirstOfAt<U>(s: seq<Option<U>>, i: nat)
    requires i < |s|
    ensures FirstOf(s[i..]) == if s[i].Some? then s[i] else FirstOf(s[i + 1..])
  {
    assert s[i..][0] == s[i];
    assert s[i..][1..] == s[i + 1..];
  }

  /** `s.slice(0, n)`: the first `n` elements, or all of them when there are fewer. */
  function Take<T>(s: seq<T>, n: nat): (w: seq<T>)
    ensures |w| <= n && |w| <= |s| && w == s[..|w|]
    ensures |s| >= n ==> |w| == n
    ensures |s| <= n ==> w == s
  {
    if |s| <= n then s else s[..n]
  }

  /** `Array.prototype.find` */
  function Find<T>(s: seq<T>, p: T -> bool): Option<T> {
    if |s| == 0 then None
    else if p(s[0]) then Some(s[0])
    else Find(s[1..], p)
  }

  /** `Array.prototype.filter` */
  function Filter<T>(s: seq<T>, p: T -> bool): (r: seq<T>)
    ensures |r| <= |s|
  {
    if |s| == 0 then []
    else if p(s[|s| - 1]) then Filter(s[..|s| - 1], p) + [s[|s| - 1]]
    else Filter(s[..|s| - 1], p)
  }

  /** `Array.prototype.some` */
  predicate Any<T>(s: seq<T>, p: T -> bool) {
    exists i :: 0 <= i < |s| && p(s[i])
  }

  /** `Array.from(new Set(s))`: each value once, in order of first occurrence. */
  function Distinct<T(==)>(s: seq<T>): seq<T> {
    if |s| == 0 then []
    else if s[|s| - 1] in s[..|s| - 1] then Distinct(s[..|s| - 1])
    else Distinct(s[..|s| - 1]) + [s[|s| - 1]]
  }

  /** The number of elements of `s` equal to `x`. */
  function Occurrences<T(==)>(s: seq<T>, x: T): nat {
    multiset(s)[x]
  }

  function Sum(s: seq<real>): real {
    if |s| == 0 then 0.0 else Sum(s[..|s| - 1]) + s[|s| - 1]
  }

  // ---------------------------------------------------------------- stable sort

  /** Inserts `x` after every element that may precede it: the step of a stable sort. */
  function Insert<T>(r: seq<T>, x: T, le: (T, T) -> bool): (q: seq<T>)
    ensures multiset(q) == multiset(r) + multiset{x}
    ensures |q| == |r| + 1
  {
    if |r| == 0 then [x]
    else if le(r[0], x) then
      assert r == [r[0]] + r[1..];
      [r[0]] + Insert(r[1..], x, le)
    else [x] + r
  }

  /** A stable sort by `le`, which says whether its first argument may come first. */
  function SortBy<T>(s: seq<T>, le: (T, T) -> bool): (r: seq<T>)
    ensures multiset(r) == multiset(s)
    ensures |r| == |s|
  {
    if |s| == 0 then []
    else
      assert s == s[..|s| - 1] + [s[|s| - 1]];
      Insert(SortBy(s[..|s| - 1], le), s[|s| - 1], le)
  }

  ghost predicate TotalPreorder<T(!new)>(le: (T, T) -> bool) {
    && (forall a, b :: le(a, b) || le(b, a))
    && (forall a, b, c :: le(a, b) && le(b, c) ==> le(a, c))
  }

  ghost predicate SortedBy<T>(s: seq<T>, le: (T, T) -> bool) {
    forall i, j :: 0 <= i < j < |s| ==> le(s[i], s[j])
  }

  // ---------------------------------------------------------------- lemmas

  /** Skipping a prefix of misses does not change the first hit. */
  lemma {:induction false} FirstOfSkip<U>(s: seq<Option<U>>, i: nat)
    requires i <= |s|
    requires forall j :: 0 <= j < i ==> s[j].None?
    ensures FirstOf(s) == FirstOf(s[i..])
  {
    if i > 0 {
      FirstOfSkip(s[1..], i - 1);
      assert s[1..][i - 1..] == s[i..];
    }
  }

  /** The first hit is a hit, and every element before it misses. */
  lemma {:induction false} FirstOfIsFirst<U>(s: seq<Option<U>>)
    ensures FirstOf(s).Some? ==>
      exists i :: 0 <= i < |s| && s[i] == FirstOf(s) && forall j :: 0 <= j < i ==> s[j].None?
    ensures FirstOf(s).None? <==> forall i :: 0 <= i < |s| ==> s[i].None?
  {
    if |s| > 0 {
      FirstOfIsFirst(s[1..]);
      if s[0].None? && FirstOf(s).Some? {
        var i :| 0 <= i < |s| - 1 && s[1..][i] == FirstOf(s) && forall j :: 0 <= j < i ==> s[1..][j].None?;
        assert s[i + 1] == FirstOf(s);
        forall j | 0 <= j < i + 1 ensures s[j].None? {
          if j > 0 { assert s[1..][j - 1].None?; }
        }
      }
      if FirstOf(s).None? {
        forall i | 0 <= i < |s| ensures s[i].None? {
          if i > 0 { assert s[i] == s[1..][i - 1]; }
        }
      }
    }
  }

  /** `find` returns the first element that satisfies the predicate, or nothing if none does. */
  lemma {:induction false} FindIsFirst<T>(s: seq<T>, p: T -> bool)
    ensures Find(s, p).Some? ==>
      exists i :: 0 <= i < |s| && s[i] == Find(s, p).value && p(s[i]) && forall j :: 0 <= j < i ==> !p(s[j])
    ensures Find(s, p).None? <==> forall i :: 0 <= i < |s| ==> !p(s[i])
  {
    if |s| > 0 {
      FindIsFirst(s[1..], p);
      if !p(s[0]) && Find(s, p).Some? {
        var i :| 0 <= i < |s| - 1 && s[1..][i] == Find(s, p).value && p(s[1..][i]) && forall j :: 0 <= j < i ==> !p(s[1..][j]);
        forall j | 0 <= j < i + 1 ensures !p(s[j]) {
          if j > 0 { assert s[j] == s[1..][j - 1]; }
        }
        assert s[i + 1] == s[1..][i];
      }
      if Find(s, p).None? {
        forall i | 0 <= i < |s| ensures !p(s[i]) {
          if i > 0 { assert s[i] == s[1..][i - 1]; }
        }
      }
    }
  }

  /** `filter` keeps exactly the elements that satisfy the predicate, with their multiplicities. */
  lemma {:induction false} FilterMembers<T>(s: seq<T>, p: T -> bool)
    ensures forall x :: x in Filter(s, p) <==> x in s && p(x)
    ensures multiset(Filter(s, p)) <= multiset(s)
  {
    if |s| > 0 {
      FilterMembers(s[..|s| - 1], p);
      assert s == s[..|s| - 1] + [s[|s| - 1]];
    }
  }

  /** `filter` keeps the elements in their original order: the rest is a subsequence. */
  lemma {:induction false} FilterOfConcat<T>(a: seq<T>, b: seq<T>, p: T -> bool)
    ensures Filter(a + b, p) == Filter(a, p) + Filter(b, p)
  {
    if |b| > 0 {
      assert (a + b)[..|a + b| - 1] == a + b[..|b| - 1];
      FilterOfConcat(a, b[..|b| - 1], p);
    } else {
      assert a + b == a;
    }
  }

  /** The multiplicity of each value after `filter`: as before for a kept value, else none. */
  lemma {:induction false} FilterMultiset<T>(s: seq<T>, p: T -> bool)
    ensures forall x :: multiset(Filter(s, p))[x] == if p(x) then multiset(s)[x] else 0
  {
    if |s| > 0 {
      FilterMultiset(s[..|s| - 1], p);
      assert s == s[..|s| - 1] + [s[|s| - 1]];
    }
  }

  /** Filtering a second time with the same predicate changes nothing. */
  lemma {:induction false} FilterIdempotent<T>(s: seq<T>, p: T -> bool)
    ensures Filter(Filter(s, p), p) == Filter(s, p)
  {
    if |s| > 0 {
      FilterIdempotent(s[..|s| - 1], p);
      var f := Filter(s[..|s| - 1], p);
      if p(s[|s| - 1]) {
        FilterOfConcat(f, [s[|s| - 1]], p);
        assert Filter([s[|s| - 1]], p) == [s[|s| - 1]] by {
          assert [s[|s| - 1]][..0] == [];
        }
      }
    }
  }

  /** Every value appears in the de-duplicated sequence exactly when it appears in the input,
      and at most once. */
  lemma {:induction false} DistinctProperties<T>(s: seq<T>)
    ensures forall x :: x in Distinct(s) <==> x in s
    ensures forall i, j :: 0 <= i < j < |Distinct(s)| ==> Distinct(s)[i] != Distinct(s)[j]
  {
    if |s| > 0 {
      DistinctProperties(s[..|s| - 1]);
      assert s == s[..|s| - 1] + [s[|s| - 1]];
    }
  }

  lemma {:induction false} InsertSorted<T(!new)>(r: seq<T>, x: T, le: (T, T) -> bool)
    requires TotalPreorder(le)
    requires SortedBy(r, le)
    ensures SortedBy(Insert(r, x, le), le)
    ensures forall y :: y in Insert(r, x, le) <==> y in r || y == x
  {
    var q := Insert(r, x, le);
    if |r| == 0 {
    } else if le(r[0], x) {
      assert SortedBy(r[1..], le) by {
        forall i, j | 0 <= i < j < |r[1..]| ensures le(r[1..][i], r[1..][j]) {
          assert r[1..][i] == r[i + 1] && r[1..][j] == r[j + 1];
        }
      }
      InsertSorted(r[1..], x, le);
      var t := Insert(r[1..], x, le);
      assert q == [r[0]] + t;
      forall i, j | 0 <= i < j < |q| ensures le(q[i], q[j]) {
        if i == 0 {
          assert q[j] == t[j - 1];
          assert t[j - 1] in r[1..] || t[j - 1] == x;
          if t[j - 1] != x {
            var k :| 0 <= k < |r[1..]| && r[1..][k] == t[j - 1];
            assert r[k + 1] == t[j - 1];
          }
        } else {
          assert q[i] == t[i - 1] && q[j] == t[j - 1];
        }
      }
      assert r == [r[0]] + r[1..];
    } else {
      assert le(x, r[0]);
      forall i, j | 0 <= i < j < |q| ensures le(q[i], q[j]) {
        if i == 0 {
          assert q[j] == r[j - 1];
          if j > 1 { assert le(r[0], r[j - 1]); }
        } else {
          assert q[i] == r[i - 1] && q[j] == r[j - 1];
        }
      }
    }
  }

  /** Filtering by a conjunction is filtering by one test and then by the other. */
  lemma FilterAnd<T(!new)>(s: seq<T>, p: T -> bool, q: T -> bool, pq: T -> bool)
    requires forall x :: pq(x) == (p(x) && q(x))
    ensures multiset(Filter(s, pq)) == multiset(Filter(Filter(s, p), q))
  {
    var a, b := multiset(Filter(s, pq)), multiset(Filter(Filter(s, p), q));
    FilterMultiset(s, pq);
    FilterMultiset(s, p);
    FilterMultiset(Filter(s, p), q);
    forall x ensures a[x] == b[x] {
      assert a[x] == if pq(x) then multiset(s)[x] else 0;
      assert b[x] == if q(x) then multiset(Filter(s, p))[x] else 0;
    }
    assert a == b;
  }

  /** Filtering two permutations of each other gives permutations of each other. */
  lemma FilterPermuted<T(!new)>(s: seq<T>, t: seq<T>, p: T -> bool)
    requires multiset(s) == multiset(t)
    ensures multiset(Filter(s, p)) == multiset(Filter(t, p))
  {
    var a, b := multiset(Filter(s, p)), multiset(Filter(t, p));
    FilterMultiset(s, p);
    FilterMultiset(t, p);
    forall x ensures a[x] == b[x] {
      assert a[x] == if p(x) then multiset(s)[x] else 0;
      assert b[x] == if p(x) then multiset(t)[x] else 0;
    }
    assert a == b;
  }

  /** Under a total preorder the stable sort puts its input in `le` order. */
  lemma {:induction false} SortByIsSorted<T(!new)>(s: seq<T>, le: (T, T) -> bool)
    requires TotalPreorder(le)
    ensures SortedBy(SortBy(s, le), le)
  {
    if |s| > 0 {
      SortByIsSorted(s[..|s| - 1], le);
      InsertSorted(SortBy(s[..|s| - 1], le), s[|s| - 1], le);
    }
  }

  /** An element at two positions counts at least twice. */
  lemma TwiceInMultiset<T>(t: seq<T>, i: nat, j: nat)
    requires i < j < |t|
    ensures t[i] == t[j] ==> multiset(t)[t[i]] >= 2
  {
    assert t == t[..j] + t[j..];
    assert t[i] in multiset(t[..j]) by { assert t[..j][i] == t[i]; }
    assert t[j] in multiset(t[j..]) by { assert t[j..][0] == t[j]; }
  }

  /** In a sequence without repeats every element counts once. */
  lemma OnceInMultiset<T>(a: seq<T>, k: nat)
    requires k < |a| && forall i, j :: 0 <= i < j < |a| ==> a[i] != a[j]
    ensures multiset(a)[a[k]] == 1
  {
    assert a == a[..k] + [a[k]] + a[k + 1..];
    assert a[k] !in a[..k] by {
      forall l | 0 <= l < k ensures a[..k][l] != a[k] { assert a[..k][l] == a[l]; }
    }
    assert a[k] !in a[k + 1..] by {
      var tail := a[k + 1..];
      forall l | 0 <= l < |tail| ensures tail[l] != a[k] { assert tail[l] == a[k + 1 + l]; }
    }
  }

  /** A rearrangement of a sequence without repeats has no repeats either. */
  lemma DistinctPermutation<T>(a: seq<T>, b: seq<T>)
    requires multiset(a) == multiset(b)
    requires forall i, j :: 0 <= i < j < |a| ==> a[i] != a[j]
    ensures forall i, j :: 0 <= i < j < |b| ==> b[i] != b[j]
  {
    forall i, j | 0 <= i < j < |b| ensures b[i] != b[j] {
      assert b[i] in multiset(b);
      var k :| 0 <= k < |a| && a[k] == b[i];
      OnceInMultiset(a, k);
      TwiceInMultiset(b, i, j);
    }
  }
}
