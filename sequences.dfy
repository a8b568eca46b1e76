/** The array built-ins the application leans on, over sequences: `findIndex` and
    `find` (the first element that passes a test) and `filter` (the passing elements
    in their original order). */
module Sequences {
  import opened Options

  /** Index of the first element satisfying p (Array.prototype.findIndex). */
  function FirstIndex<T>(s: seq<T>, p: T -> bool): (r: Option<nat>)
    ensures r.Some? ==> r.value < |s| && p(s[r.value]) && forall j :: 0 <= j < r.value ==> !p(s[j])
    ensures r.None? ==> forall j :: 0 <= j < |s| ==> !p(s[j])
    decreases |s|
  {
    if s == [] then None
    else if p(s[0]) then Some(0)
    else match FirstIndex(s[1..], p)
      case None => None
      case Some(i) => Some(i + 1)
  }

  /** The first element satisfying p (Array.prototype.find), or nothing. */
  function Find<T>(s: seq<T>, p: T -> bool): (r: Option<T>)
    ensures r.None? <==> forall j :: 0 <= j < |s| ==> !p(s[j])
    ensures r.Some? ==> exists i :: 0 <= i < |s| && s[i] == r.value && p(s[i]) && forall j :: 0 <= j < i ==> !p(s[j])
  {
    match FirstIndex(s, p)
    case None => None
    case Some(i) => Some(s[i])
  }

  /** Array.prototype.filter. */
  function Filter<T>(s: seq<T>, p: T -> bool): (r: seq<T>)
    ensures |r| <= |s|
    ensures forall k :: 0 <= k < |r| ==> p(r[k])
    decreases |s|
  {
    if s == [] then [] else (if p(s[0]) then [s[0]] else []) + Filter(s[1..], p)
  }

  /** r is s with some elements left out, the rest in their original order. */
  ghost predicate IsSubsequence<T>(r: seq<T>, s: seq<T>)
    decreases |s|
  {
    if r == [] then true
    else if s == [] then false
    else (r[0] == s[0] && IsSubsequence(r[1..], s[1..])) || IsSubsequence(r, s[1..])
  }

  /** Filtering keeps the relative order of what it keeps. */
  lemma {:induction false} FilterIsSubsequence<T>(s: seq<T>, p: T -> bool)
    ensures IsSubsequence(Filter(s, p), s)
    decreases |s|
  {
    if s != [] {
      FilterIsSubsequence(s[1..], p);
      var r := Filter(s, p);
      if p(s[0]) {
        assert r[0] == s[0] && r[1..] == Filter(s[1..], p);
      } else {
        assert r == Filter(s[1..], p);
      }
    }
  }

  /** Filtering keeps every passing element, as often as it occurs, and nothing else. */
  lemma {:induction false} FilterCounts<T>(s: seq<T>, p: T -> bool)
    ensures forall x :: multiset(Filter(s, p))[x] == if p(x) then multiset(s)[x] else 0
    decreases |s|
  {
    if s != [] {
      FilterCounts(s[1..], p);
      assert s == [s[0]] + s[1..];
      assert multiset(s) == multiset([s[0]]) + multiset(s[1..]);
    }
  }

  /** Filtering distributes over concatenation. */
  lemma {:induction false} FilterConcat<T>(s: seq<T>, t: seq<T>, p: T -> bool)
    ensures Filter(s + t, p) == Filter(s, p) + Filter(t, p)
    decreases |s|
  {
    if s != [] {
      assert (s + t)[1..] == s[1..] + t;
      FilterConcat(s[1..], t, p);
    } else {
      assert s + t == t;
    }
  }

  /** Where the k-th kept element came from: an index i of s holding it, such that
      what was kept before it is exactly what filtering s[..i] keeps. */
  lemma {:induction false} FilterOrigin<T>(s: seq<T>, p: T -> bool, k: nat) returns (i: nat)
    requires k < |Filter(s, p)|
    ensures i < |s| && s[i] == Filter(s, p)[k] && p(s[i])
    ensures Filter(s[..i], p) == Filter(s, p)[..k]
    decreases |s|
  {
    FilterHead(s, p);
    if p(s[0]) && k == 0 {
      assert s[..0] == [];
      i := 0;
    } else if p(s[0]) {
      var i' := FilterOrigin(s[1..], p, k - 1);
      FilterOriginKept(s, p, k, i');
      i := i' + 1;
    } else {
      var i' := FilterOrigin(s[1..], p, k);
      FilterOriginSkipped(s, p, k, i');
      i := i' + 1;
    }
  }

  /** The step of FilterOrigin past a kept head: the (k-1)-th kept element of the
      tail is the k-th of s. */
  lemma FilterOriginKept<T>(s: seq<T>, p: T -> bool, k: nat, j: nat)
    requires s != [] && p(s[0]) && 1 <= k && j < |s| - 1
    requires var rest := Filter(s[1..], p);
      k - 1 < |rest| && s[1..][j] == rest[k - 1] && Filter(s[1..][..j], p) == rest[..k - 1]
    ensures k < |Filter(s, p)| && s[j + 1] == Filter(s, p)[k]
    ensures Filter(s[..j + 1], p) == Filter(s, p)[..k]
  {
    var rest := Filter(s[1..], p);
    FilterHead(s, p);
    var prefix := s[..j + 1];
    assert prefix[0] == s[0] && prefix[1..] == s[1..][..j];
    FilterHead(prefix, p);
    assert Filter(prefix, p) == [s[0]] + rest[..k - 1];
    assert ([s[0]] + rest)[..k] == [s[0]] + rest[..k - 1];
  }

  /** The step of FilterOrigin past a dropped head: the k-th kept element of the tail
      is the k-th of s. */
  lemma FilterOriginSkipped<T>(s: seq<T>, p: T -> bool, k: nat, j: nat)
    requires s != [] && !p(s[0]) && j < |s| - 1
    requires var rest := Filter(s[1..], p);
      k < |rest| && s[1..][j] == rest[k] && Filter(s[1..][..j], p) == rest[..k]
    ensures k < |Filter(s, p)| && s[j + 1] == Filter(s, p)[k]
    ensures Filter(s[..j + 1], p) == Filter(s, p)[..k]
  {
    FilterHead(s, p);
    var prefix := s[..j + 1];
    assert prefix[0] == s[0] && prefix[1..] == s[1..][..j];
    FilterHead(prefix, p);
  }

  /** Filter unfolded once. */
  lemma FilterHead<T>(s: seq<T>, p: T -> bool)
    requires s != []
    ensures Filter(s, p) == (if p(s[0]) then [s[0]] else []) + Filter(s[1..], p)
  {
  }

  /** Every element that passes the test is kept. */
  lemma FilterKeeps<T>(s: seq<T>, p: T -> bool, j: nat)
    requires j < |s| && p(s[j])
    ensures s[j] in Filter(s, p)
  {
    FilterCounts(s, p);
    assert s[j] in multiset(s);
  }

  /** If the k-th kept element, found at s[i], has the least key among the kept ones
      and every kept element before it has a larger key, then s[i] has the least key
      among all passing elements of s and every passing element before it is larger. */
  lemma FirstLeastOfFiltered<T>(s: seq<T>, p: T -> bool, key: T -> nat, k: nat, i: nat)
    requires k < |Filter(s, p)| && i < |s| && Filter(s, p)[k] == s[i]
    requires Filter(s[..i], p) == Filter(s, p)[..k]
    requires forall a :: 0 <= a < |Filter(s, p)| ==> key(Filter(s, p)[k]) <= key(Filter(s, p)[a])
    requires forall a :: 0 <= a < k ==> key(Filter(s, p)[a]) > key(Filter(s, p)[k])
    ensures forall j :: 0 <= j < |s| && p(s[j]) ==> key(s[i]) <= key(s[j])
    ensures forall j :: 0 <= j < i && p(s[j]) ==> key(s[i]) < key(s[j])
  {
    var kept := Filter(s, p);
    forall j | 0 <= j < |s| && p(s[j]) ensures key(s[i]) <= key(s[j]) {
      FilterKeeps(s, p, j);
      var a :| 0 <= a < |kept| && kept[a] == s[j];
    }
    forall j | 0 <= j < i && p(s[j]) ensures key(s[i]) < key(s[j]) {
      assert s[..i][j] == s[j];
      FilterKeeps(s[..i], p, j);
      var a :| 0 <= a < |kept[..k]| && kept[..k][a] == s[j];
      assert kept[a] == s[j];
    }
  }

  /** Two tests that agree on every element keep the same elements. */
  lemma {:induction false} FilterAgree<T>(s: seq<T>, p: T -> bool, q: T -> bool)
    requires forall k :: 0 <= k < |s| ==> p(s[k]) == q(s[k])
    ensures Filter(s, p) == Filter(s, q)
    decreases |s|
  {
    if s != [] {
      FilterAgree(s[1..], p, q);
    }
  }

  lemma AppendAssoc<T>(a: seq<T>, b: seq<T>, c: seq<T>)
    ensures a + (b + c) == (a + b) + c
  {
  }
}
