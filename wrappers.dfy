/** Small value wrappers shared by every module of the model. */
module Wrappers {

  /** `None` stands for Java's `null` (a missing record, a NULL column). */
  datatype Option<+T> = None | Some(value: T) {

    /** The wrapped value, or `default` when there is none. */
    function GetOr(default: T): T {
      match this
      case Some(v) => v
      case None => default
    }
  }

  /** Java's integer division `a / b`, which truncates toward zero (Dafny's `/` is Euclidean). */
  function JavaDiv(a: int, b: int): int
    requires b > 0
  {
    if a >= 0 then a / b else -((-a) / b)
  }
}

/** Generic searching and sorting over sequences, used for the SQL lookups and ORDER BY. */
module Seqs {
  import opened Wrappers

  /** Index of the first element satisfying `p`, the way a table scan meets matching rows. */
  function FirstIndex<T>(s: seq<T>, p: T -> bool): (r: Option<nat>)
    ensures r.Some? ==> r.value < |s| && p(s[r.value])
    ensures r.Some? ==> forall j :: 0 <= j < r.value ==> !p(s[j])
    ensures r.None? <==> forall j :: 0 <= j < |s| ==> !p(s[j])
  {
    if s == [] then None
    else if p(s[0]) then Some(0)
    else match FirstIndex(s[1..], p)
      case None => None
      case Some(k) => Some(k + 1)
  }

  /** `leq` is a total preorder: any two elements compare, and comparison chains. */
  ghost predicate TotalPreorder<T(!new)>(leq: (T, T) -> bool) {
    && (forall a, b :: leq(a, b) || leq(b, a))
    && (forall a, b, c :: leq(a, b) && leq(b, c) ==> leq(a, c))
  }

  predicate SortedBy<T>(s: seq<T>, leq: (T, T) -> bool) {
    forall i, j :: 0 <= i < j < |s| ==> leq(s[i], s[j])
  }

  /** Inserts `x` in front of the first element it is not greater than. */
  function InsertBy<T>(x: T, s: seq<T>, leq: (T, T) -> bool): seq<T>
  {
    if s == [] || leq(x, s[0]) then [x] + s
    else [s[0]] + InsertBy(x, s[1..], leq)
  }

  /** A lower bound of `x` and of every element of `s` bounds every element of a permutation of them. */
  lemma BoundByAll<T>(b: T, x: T, s: seq<T>, t: seq<T>, leq: (T, T) -> bool)
    requires multiset(t) == multiset(s) + multiset{x}
    requires leq(b, x) && forall m :: 0 <= m < |s| ==> leq(b, s[m])
    ensures forall k :: 0 <= k < |t| ==> leq(b, t[k])
  {
    forall k | 0 <= k < |t| ensures leq(b, t[k]) {
      assert t[k] in multiset(t);
      if t[k] != x {
        assert t[k] in multiset(s);
        var m :| 0 <= m < |s| && s[m] == t[k];
      }
    }
  }

  /** Inserting adds `x` and keeps every element: the result is a permutation of `s` plus `x`. */
  lemma {:induction false} InsertByPermutes<T>(x: T, s: seq<T>, leq: (T, T) -> bool)
    ensures multiset(InsertBy(x, s, leq)) == multiset(s) + multiset{x}
  {
    if s != [] && !leq(x, s[0]) {
      InsertByPermutes(x, s[1..], leq);
      assert s == [s[0]] + s[1..];
    }
  }

  /** A bound of every element of a sorted sequence can go in front of it. */
  lemma ConsSorted<T>(b: T, t: seq<T>, leq: (T, T) -> bool)
    requires SortedBy(t, leq) && forall k :: 0 <= k < |t| ==> leq(b, t[k])
    ensures SortedBy([b] + t, leq)
  {
    var r := [b] + t;
    forall i, j | 0 <= i < j < |r| ensures leq(r[i], r[j]) {
      assert r[j] == t[j - 1];
      if i > 0 {
        assert r[i] == t[i - 1];
      }
    }
  }

  lemma {:induction false} InsertByKeepsOrder<T(!new)>(x: T, s: seq<T>, leq: (T, T) -> bool)
    requires TotalPreorder(leq) && SortedBy(s, leq)
    ensures SortedBy(InsertBy(x, s, leq), leq)
  {
    if s == [] || leq(x, s[0]) {
      ConsSorted(x, s, leq);
    } else {
      InsertByKeepsOrder(x, s[1..], leq);
      var t := InsertBy(x, s[1..], leq);
      InsertByPermutes(x, s[1..], leq);
      assert forall m :: 0 <= m < |s[1..]| ==> leq(s[0], s[1..][m]) by {
        forall m | 0 <= m < |s[1..]| ensures leq(s[0], s[1..][m]) {
          assert s[1..][m] == s[m + 1];
        }
      }
      BoundByAll(s[0], x, s[1..], t, leq);
      ConsSorted(s[0], t, leq);
    }
  }

  /** Insertion sort: the ORDER BY of a query, up to the order of equal keys. */
  function SortBy<T(!new)>(s: seq<T>, leq: (T, T) -> bool): (r: seq<T>)
    requires TotalPreorder(leq)
    ensures SortedBy(r, leq)
    ensures multiset(r) == multiset(s)
  {
    if s == [] then []
    else
      var rest := SortBy(s[1..], leq);
      InsertByKeepsOrder(s[0], rest, leq);
      InsertByPermutes(s[0], rest, leq);
      assert s == [s[0]] + s[1..];
      InsertBy(s[0], rest, leq)
  }

  /** The elements of `s` that satisfy `p`, in their order. */
  function Filter<T(!new)>(s: seq<T>, p: T -> bool): (r: seq<T>)
    ensures forall x :: x in r <==> x in s && p(x)
    ensures |r| <= |s|
    ensures multiset(r) <= multiset(s)
  {
    if s == [] then []
    else
      assert s == [s[0]] + s[1..];
      (if p(s[0]) then [s[0]] else []) + Filter(s[1..], p)
  }
}
