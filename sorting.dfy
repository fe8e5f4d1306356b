/**
 * A stable insertion sort by an ordering predicate. It stands for the
 * `ORDER BY` of the queries and for Python's `sorted`: rows that compare
 * equal keep their input order.
 */
module Sorting {

  /** `le` is a total preorder: total and transitive. */
  ghost predicate TotalPreorder<T(!new)>(le: (T, T) -> bool) {
    && (forall a, b :: le(a, b) || le(b, a))
    && (forall a, b, c :: le(a, b) && le(b, c) ==> le(a, c))
  }

  predicate SortedBy<T>(s: seq<T>, le: (T, T) -> bool) {
    forall i, j :: 0 <= i < j < |s| ==> le(s[i], s[j])
  }

  /** Insert `x` before the first element it is not greater than. */
  function Insert<T>(x: T, s: seq<T>, le: (T, T) -> bool): (r: seq<T>)
    ensures multiset(r) == multiset(s) + multiset{x}
    ensures |r| == |s| + 1
  {
    if s == [] || le(x, s[0]) then [x] + s
    else
      assert s == [s[0]] + s[1..];
      [s[0]] + Insert(x, s[1..], le)
  }

  /** `s` sorted by `le`, equal elements in their original order. */
  function Sort<T>(s: seq<T>, le: (T, T) -> bool): (r: seq<T>)
    ensures multiset(r) == multiset(s)
    ensures |r| == |s|
  {
    if s == [] then []
    else
      assert s == [s[0]] + s[1..];
      Insert(s[0], Sort(s[1..], le), le)
  }

  lemma {:induction false} InsertSorted<T(!new)>(x: T, s: seq<T>, le: (T, T) -> bool)
    requires TotalPreorder(le) && SortedBy(s, le)
    ensures SortedBy(Insert(x, s, le), le)
  {
    if s != [] && !le(x, s[0]) {
      InsertSorted(x, s[1..], le);
      var r := Insert(x, s, le);
      var t := Insert(x, s[1..], le);
      assert r == [s[0]] + t;
      forall j | 0 < j < |r|
        ensures le(r[0], r[j])
      {
        assert r[j] in multiset(t);
        assert r[j] in multiset(s[1..]) + multiset{x};
        if r[j] in multiset(s[1..]) {
          var k :| 0 <= k < |s[1..]| && s[1..][k] == r[j];
          assert s[k + 1] == r[j];
        }
      }
    }
  }

  /** The sort returns its input in order. */
  lemma {:induction false} SortSorted<T(!new)>(s: seq<T>, le: (T, T) -> bool)
    requires TotalPreorder(le)
    ensures SortedBy(Sort(s, le), le)
  {
    if s != [] {
      SortSorted(s[1..], le);
      InsertSorted(s[0], Sort(s[1..], le), le);
    }
  }

  /** `a` and `b` compare equal under `le`. */
  predicate Equivalent<T>(a: T, b: T, le: (T, T) -> bool) { le(a, b) && le(b, a) }

  /** The elements of `s` that compare equal to `k`, in their order in `s`. */
  function ClassOf<T(!new)>(s: seq<T>, le: (T, T) -> bool, k: T): (r: seq<T>)
    ensures forall x :: x in r <==> x in s && Equivalent(x, k, le)
  {
    if s == [] then []
    else (if Equivalent(s[0], k, le) then [s[0]] else []) + ClassOf(s[1..], le, k)
  }

  /** Inserting `x` never moves it past an element that compares equal to it. */
  lemma {:induction false} InsertKeepsClass<T(!new)>(x: T, s: seq<T>, le: (T, T) -> bool, k: T)
    requires TotalPreorder(le)
    ensures ClassOf(Insert(x, s, le), le, k) == ClassOf([x] + s, le, k)
  {
    if s != [] && !le(x, s[0]) {
      InsertKeepsClass(x, s[1..], le, k);
      assert Insert(x, s, le) == [s[0]] + Insert(x, s[1..], le);
      assert !(Equivalent(x, k, le) && Equivalent(s[0], k, le));
      assert ([x] + s)[1..] == s;
      assert ([x] + s[1..])[1..] == s[1..];
    }
  }

  /** The sort is stable: elements that compare equal keep their input order. */
  lemma {:induction false} SortStable<T(!new)>(s: seq<T>, le: (T, T) -> bool, k: T)
    requires TotalPreorder(le)
    ensures ClassOf(Sort(s, le), le, k) == ClassOf(s, le, k)
  {
    if s != [] {
      SortStable(s[1..], le, k);
      InsertKeepsClass(s[0], Sort(s[1..], le), le, k);
      assert ([s[0]] + Sort(s[1..], le))[1..] == Sort(s[1..], le);
    }
  }

  /** Elements the sort keeps: the same as the input's. */
  lemma SortSameElements<T>(s: seq<T>, le: (T, T) -> bool, x: T)
    ensures x in Sort(s, le) <==> x in s
  {
    assert x in Sort(s, le) <==> x in multiset(Sort(s, le));
    assert x in s <==> x in multiset(s);
  }
}
