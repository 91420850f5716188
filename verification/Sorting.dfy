/** Sorting by a strict order. */
module Sorting {
  ghost predicate IsStrict<T(!new)>(less: (T, T) -> bool) {
    && (forall a, b :: less(a, b) ==> !less(b, a))
    && (forall a, b, c :: less(a, b) && less(b, c) ==> less(a, c))
  }

  ghost predicate IsSorted<T>(s: seq<T>, less: (T, T) -> bool) {
    forall i, j :: 0 <= i < j < |s| ==> less(s[i], s[j])
  }

  /** Any two elements in different places are in one order or the other. */
  ghost predicate Comparable<T>(s: seq<T>, less: (T, T) -> bool) {
    forall i, j :: 0 <= i < j < |s| ==> less(s[i], s[j]) || less(s[j], s[i])
  }

  function Insert<T(!new)>(x: T, s: seq<T>, less: (T, T) -> bool): (r: seq<T>)
    ensures |r| == |s| + 1 && forall y :: y in r <==> y == x || y in s
  {
    if s == [] || less(x, s[0]) then [x] + s
    else
      assert s == [s[0]] + s[1..];
      [s[0]] + Insert(x, s[1..], less)
  }

  function Sort<T(!new)>(s: seq<T>, less: (T, T) -> bool): (r: seq<T>)
    ensures |r| == |s| && forall y :: y in r <==> y in s
  {
    if s == [] then []
    else
      assert s == [s[0]] + s[1..];
      Insert(s[0], Sort(s[1..], less), less)
  }

  lemma {:induction false} InsertSorts<T(!new)>(x: T, s: seq<T>, less: (T, T) -> bool)
    requires IsStrict(less) && IsSorted(s, less)
    requires forall y :: y in s ==> less(x, y) || less(y, x)
    ensures IsSorted(Insert(x, s, less), less)
  {
    if s != [] && !less(x, s[0]) {
      assert s == [s[0]] + s[1..];
      InsertSorts(x, s[1..], less);
      var rest := Insert(x, s[1..], less);
      forall i | 0 <= i < |rest|
        ensures less(s[0], rest[i])
      {
        assert rest[i] in rest;
        if rest[i] != x {
          var j :| 1 <= j < |s| && s[j] == rest[i];
        }
      }
    }
  }

  lemma {:induction false} SortSorts<T(!new)>(s: seq<T>, less: (T, T) -> bool)
    requires IsStrict(less) && Comparable(s, less)
    ensures IsSorted(Sort(s, less), less)
  {
    if s != [] {
      assert s == [s[0]] + s[1..];
      SortSorts(s[1..], less);
      forall y | y in Sort(s[1..], less)
        ensures less(s[0], y) || less(y, s[0])
      {
        var j :| 0 <= j < |s[1..]| && s[1..][j] == y;
        assert s[j + 1] == y;
      }
      InsertSorts(s[0], Sort(s[1..], less), less);
    }
  }

  lemma HeadIsLeast<T(!new)>(s: seq<T>, less: (T, T) -> bool, x: T)
    requires IsStrict(less) && IsSorted(s, less) && s != [] && x in s
    ensures x == s[0] || less(s[0], x)
  {
  }

  lemma TailHolds<T(!new)>(s: seq<T>, less: (T, T) -> bool, x: T)
    requires IsStrict(less) && IsSorted(s, less) && s != []
    ensures x in s[1..] <==> x in s && x != s[0]
  {
    assert s == [s[0]] + s[1..];
    if x in s[1..] {
      var j :| 0 <= j < |s[1..]| && s[1..][j] == x;
      assert less(s[0], s[j + 1]);
    }
  }

  /** There is one way to put the same elements in order. */
  lemma {:induction false} SortedOnce<T(!new)>(s: seq<T>, t: seq<T>, less: (T, T) -> bool)
    requires IsStrict(less) && IsSorted(s, less) && IsSorted(t, less)
    requires forall x :: x in s <==> x in t
    ensures s == t
  {
    assert t != [] ==> t[0] in t;
    if s != [] {
      assert s[0] in s && t != [];
      HeadIsLeast(s, less, t[0]);
      HeadIsLeast(t, less, s[0]);
      forall x
        ensures x in s[1..] <==> x in t[1..]
      {
        TailHolds(s, less, x);
        TailHolds(t, less, x);
      }
      SortedOnce(s[1..], t[1..], less);
      assert s == [s[0]] + s[1..] && t == [t[0]] + t[1..];
    }
  }
}
