/** `Array.prototype.sort` with a numeric comparator `(a, b) => key(a) - key(b)`:
    ascending by key, with the same entries. */
module Sorting {

  predicate SortedBy<T>(xs: seq<T>, key: T -> int)
  {
    forall i, j :: 0 <= i < j < |xs| ==> key(xs[i]) <= key(xs[j])
  }

  /** Puts `x` in front of the first entry whose key is not smaller. */
  function InsertByKey<T(==)>(x: T, xs: seq<T>, key: T -> int): (r: seq<T>)
    requires SortedBy(xs, key)
    ensures SortedBy(r, key)
    ensures multiset(r) == multiset(xs) + multiset{x}
    ensures |r| == |xs| + 1
  {
    if xs == [] then [x]
    else if key(x) <= key(xs[0]) then [x] + xs
    else
      var rest := InsertByKey(x, xs[1..], key);
      assert xs == [xs[0]] + xs[1..];
      HeadBelowRest(x, xs, key, rest);
      [xs[0]] + rest
  }

  /** The head of a sorted list is no larger than the tail with an entry of larger key added. */
  lemma HeadBelowRest<T>(x: T, xs: seq<T>, key: T -> int, rest: seq<T>)
    requires SortedBy(xs, key) && |xs| >= 1 && key(xs[0]) <= key(x)
    requires multiset(rest) == multiset(xs[1..]) + multiset{x}
    ensures forall k :: 0 <= k < |rest| ==> key(xs[0]) <= key(rest[k])
  {
    forall k | 0 <= k < |rest| ensures key(xs[0]) <= key(rest[k]) {
      assert rest[k] in multiset(rest);
      if rest[k] != x {
        assert rest[k] in multiset(xs[1..]);
        var m :| 0 <= m < |xs[1..]| && xs[1..][m] == rest[k];
        assert xs[m + 1] == rest[k];
      }
    }
  }

  /** The sorted arrangement: ascending keys, the same entries with the same multiplicities. */
  function SortByKey<T(==)>(xs: seq<T>, key: T -> int): (r: seq<T>)
    ensures SortedBy(r, key)
    ensures multiset(r) == multiset(xs)
    ensures |r| == |xs|
  {
    if xs == [] then []
    else
      assert xs == [xs[0]] + xs[1..];
      InsertByKey(xs[0], SortByKey(xs[1..], key), key)
  }

  // ---------------------------------------------------------------
  // Permutations under a projection
  // ---------------------------------------------------------------

  /** `f` applied to every element, in order. */
  function Project<T, U>(xs: seq<T>, f: T -> U): (ys: seq<U>)
    ensures |ys| == |xs|
    ensures forall i :: 0 <= i < |xs| ==> ys[i] == f(xs[i])
  {
    if xs == [] then [] else [f(xs[0])] + Project(xs[1..], f)
  }

  /** Projecting a permutation gives a permutation. */
  lemma {:induction false} ProjectPermutation<T, U>(a: seq<T>, b: seq<T>, f: T -> U)
    requires multiset(a) == multiset(b)
    ensures multiset(Project(a, f)) == multiset(Project(b, f))
    decreases |a|
  {
    if a != [] {
      var j := PickIndex(a, b);
      var cut := b[..j] + b[j + 1..];
      ProjectPermutation(a[1..], cut, f);
      ProjectCut(b, j, f);
    }
  }

  /** Where the first element of `a` sits in its permutation `b`; the rest of `b` is a
      permutation of the rest of `a`. */
  lemma PickIndex<T>(a: seq<T>, b: seq<T>) returns (j: nat)
    requires a != [] && multiset(a) == multiset(b)
    ensures j < |b| && b[j] == a[0]
    ensures multiset(a[1..]) == multiset(b[..j] + b[j + 1..])
  {
    var x := a[0];
    MultisetCut(a, 0);
    assert x in multiset(b);
    assert x in b;
    j :| 0 <= j < |b| && b[j] == x;
    MultisetCut(b, j);
    assert a[..0] + a[1..] == a[1..];
    Cancel(multiset(a[1..]), multiset(b[..j] + b[j + 1..]), a[0]);
  }

  lemma Cancel<T>(m1: multiset<T>, m2: multiset<T>, x: T)
    requires m1 + multiset{x} == m2 + multiset{x}
    ensures m1 == m2
  {
    forall e ensures m1[e] == m2[e] {
      assert m1[e] == (m1 + multiset{x})[e] - multiset{x}[e];
      assert m2[e] == (m2 + multiset{x})[e] - multiset{x}[e];
    }
  }

  /** Cutting entry `j` out of `s` cuts one occurrence of it out of the multiset. */
  lemma MultisetCut<T>(s: seq<T>, j: nat)
    requires j < |s|
    ensures multiset(s) == multiset(s[..j] + s[j + 1..]) + multiset{s[j]}
  {
    var s1, s2 := s[..j], s[j + 1..];
    assert s == s1 + [s[j]] + s2;
  }

  lemma ProjectCut<T, U>(b: seq<T>, j: nat, f: T -> U)
    requires j < |b|
    ensures multiset(Project(b, f)) == multiset(Project(b[..j] + b[j + 1..], f)) + multiset{f(b[j])}
  {
    var ys := Project(b, f);
    MultisetCut(ys, j);
    ProjectCutSeq(b, j, f);
  }

  lemma ProjectCutSeq<T, U>(b: seq<T>, j: nat, f: T -> U)
    requires j < |b|
    ensures Project(b[..j] + b[j + 1..], f) == Project(b, f)[..j] + Project(b, f)[j + 1..]
  {
    var cut := b[..j] + b[j + 1..];
    var l, ys := Project(cut, f), Project(b, f);
    var r := ys[..j] + ys[j + 1..];
    forall i | 0 <= i < |l| ensures l[i] == r[i] {
      if i < j { assert cut[i] == b[i]; } else { assert cut[i] == b[i + 1]; }
    }
  }
}
