/** A stable sort, as Array.prototype.sort is required to be (ECMA-262, 2019 and
    later): elements are ordered by a comparison, and elements the comparison treats
    as equal keep their original relative order. Modelled as insertion sort over a
    total preorder `le`, where le(a, b) means "compare(a, b) <= 0". */
module Sorting {

  ghost predicate TotalPreorder<T(!new)>(le: (T, T) -> bool) {
    (forall a, b :: le(a, b) || le(b, a)) &&
    (forall a, b, c :: le(a, b) && le(b, c) ==> le(a, c))
  }

  predicate SortedBy<T>(s: seq<T>, le: (T, T) -> bool) {
    forall i, j :: 0 <= i < j < |s| ==> le(s[i], s[j])
  }

  /** Insert x in front of the first element it is not above. */
  function Insert<T>(x: T, s: seq<T>, le: (T, T) -> bool): (r: seq<T>)
    ensures |r| == |s| + 1 && multiset(r) == multiset(s) + multiset{x}
    decreases |s|
  {
    if s == [] then [x]
    else if le(x, s[0]) then [x] + s
    else
      assert s == [s[0]] + s[1..];
      [s[0]] + Insert(x, s[1..], le)
  }

  function Sort<T>(s: seq<T>, le: (T, T) -> bool): (r: seq<T>)
    ensures |r| == |s| && multiset(r) == multiset(s)
    decreases |s|
  {
    if s == [] then []
    else
      assert s == [s[0]] + s[1..];
      Insert(s[0], Sort(s[1..], le), le)
  }

  lemma {:induction false} InsertSorted<T(!new)>(x: T, s: seq<T>, le: (T, T) -> bool)
    requires TotalPreorder(le) && SortedBy(s, le)
    ensures SortedBy(Insert(x, s, le), le)
    decreases |s|
  {
    if s != [] && !le(x, s[0]) {
      InsertSorted(x, s[1..], le);
      var r := Insert(x, s, le);
      var t := Insert(x, s[1..], le);
      assert r == [s[0]] + t;
      forall k | 0 <= k < |t| ensures le(s[0], t[k]) {
        assert t[k] in multiset(t);
        assert t[k] == x || t[k] in multiset(s[1..]);
        if t[k] != x {
          var m :| 0 <= m < |s[1..]| && s[1..][m] == t[k];
          assert s[m + 1] == t[k];
        }
      }
    }
  }

  /** The sorted copy is ordered and holds exactly the original elements. */
  lemma {:induction false} SortIsSortedPermutation<T(!new)>(s: seq<T>, le: (T, T) -> bool)
    requires TotalPreorder(le)
    ensures SortedBy(Sort(s, le), le) && multiset(Sort(s, le)) == multiset(s)
    decreases |s|
  {
    if s != [] {
      SortIsSortedPermutation(s[1..], le);
      InsertSorted(s[0], Sort(s[1..], le), le);
    }
  }

  /** s[i] is a least element of s and no earlier element is as small. */
  predicate IsFirstLeast<T>(s: seq<T>, le: (T, T) -> bool, i: int) {
    0 <= i < |s| &&
    (forall j :: 0 <= j < |s| ==> le(s[i], s[j])) &&
    (forall j :: 0 <= j < i ==> !le(s[j], s[i]))
  }

  /** The head of the sorted copy is a least element, and among the least elements it
      is the one that comes first in the original sequence (stability). */
  lemma {:induction false} SortHeadIsFirstLeast<T(!new)>(s: seq<T>, le: (T, T) -> bool) returns (i: nat)
    requires TotalPreorder(le) && s != []
    ensures IsFirstLeast(s, le, i) && Sort(s, le)[0] == s[i]
    decreases |s|
  {
    if |s| == 1 {
      assert Sort(s, le) == Insert(s[0], [], le);
      assert le(s[0], s[0]);
      i := 0;
    } else {
      var i' := SortHeadIsFirstLeast(s[1..], le);
      i := SortHeadStep(s, le, i');
    }
  }

  /** The first least element of s, from the one of its tail. */
  lemma SortHeadStep<T(!new)>(s: seq<T>, le: (T, T) -> bool, i': nat) returns (i: nat)
    requires TotalPreorder(le) && |s| >= 2 && IsFirstLeast(s[1..], le, i') && Sort(s[1..], le)[0] == s[1..][i']
    ensures IsFirstLeast(s, le, i) && Sort(s, le)[0] == s[i]
  {
    var t := Sort(s[1..], le);
    assert Sort(s, le) == Insert(s[0], t, le);
    InsertHead(s[0], t, le);
    if le(s[0], t[0]) {
      i := 0;
      FirstLeastAtHead(s, le, i');
    } else {
      i := i' + 1;
      FirstLeastInTail(s, le, i');
    }
  }

  /** The head of an insertion: x when it is not above the old head, else the old head. */
  lemma InsertHead<T>(x: T, t: seq<T>, le: (T, T) -> bool)
    ensures Insert(x, t, le)[0] == if t == [] || le(x, t[0]) then x else t[0]
  {
  }

  /** A head no greater than the tail's first least element is the first least element. */
  lemma FirstLeastAtHead<T(!new)>(s: seq<T>, le: (T, T) -> bool, i': nat)
    requires TotalPreorder(le) && |s| >= 2 && IsFirstLeast(s[1..], le, i') && le(s[0], s[1..][i'])
    ensures IsFirstLeast(s, le, 0)
  {
    var u := s[1..];
    assert le(s[0], s[0]);
    forall j | 1 <= j < |s| ensures le(s[0], s[j]) {
      assert le(u[i'], u[j - 1]);
      assert s[j] == u[j - 1];
    }
  }

  /** A head greater than the tail's first least element leaves that element first
      least, one position later. */
  lemma FirstLeastInTail<T(!new)>(s: seq<T>, le: (T, T) -> bool, i': nat)
    requires TotalPreorder(le) && |s| >= 2 && IsFirstLeast(s[1..], le, i') && !le(s[0], s[1..][i'])
    ensures IsFirstLeast(s, le, i' + 1)
  {
    var u := s[1..];
    var i := i' + 1;
    assert s[i] == u[i'];
    forall j | 0 <= j < |s| ensures le(s[i], s[j]) {
      if j > 0 { assert s[j] == u[j - 1]; }
    }
    forall j | 0 <= j < i ensures !le(s[j], s[i]) {
      if j > 0 { assert s[j] == u[j - 1]; }
    }
  }
}
