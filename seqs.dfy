/**
 * Sequence operations that the pages perform with JavaScript array methods:
 * `filter`, `Array.from(new Set(..))`, `splice`, `indexOf` and the stable `sort`.
 */
module Seqs {

  /** `s.filter(p)`: the elements of `s` that satisfy `p`, in their original order. */
  function Filter<T>(s: seq<T>, p: T -> bool): (r: seq<T>)
    ensures |r| <= |s|
    ensures forall x :: x in r ==> x in s && p(x)
  {
    if s == [] then [] else (if p(s[0]) then [s[0]] else []) + Filter(s[1..], p)
  }

  /** `a` can be obtained from `b` by deleting elements. */
  predicate SubseqOf<T(==)>(a: seq<T>, b: seq<T>)
    decreases |b|
  {
    if a == [] then true
    else if b == [] then false
    else if a[0] == b[0] then SubseqOf(a[1..], b[1..])
    else SubseqOf(a, b[1..])
  }

  lemma {:induction false} FilterMembership<T>(s: seq<T>, p: T -> bool, x: T)
    ensures x in Filter(s, p) <==> x in s && p(x)
  {
    if s != [] {
      FilterMembership(s[1..], p, x);
      assert s == [s[0]] + s[1..];
    }
  }

  lemma {:induction false} FilterIsSubseq<T>(s: seq<T>, p: T -> bool)
    ensures SubseqOf(Filter(s, p), s)
  {
    if s != [] {
      FilterIsSubseq(s[1..], p);
      if p(s[0]) {
        assert Filter(s, p) == [s[0]] + Filter(s[1..], p);
        assert Filter(s, p)[1..] == Filter(s[1..], p);
      } else {
        assert Filter(s, p) == Filter(s[1..], p);
        SubseqSkip(Filter(s, p), s);
      }
    }
  }

  /** Dropping the head of `b` that `a` does not use keeps `a` a subsequence. */
  lemma {:induction false} SubseqSkip<T>(a: seq<T>, b: seq<T>)
    requires b != [] && SubseqOf(a, b[1..])
    ensures SubseqOf(a, b)
    decreases |b|, 0
  {
    if a != [] && a[0] == b[0] {
      SubseqOfTail(a, b[1..]);
    }
  }

  /** A subsequence stays one after removing its own head. */
  lemma {:induction false} SubseqOfTail<T>(a: seq<T>, b: seq<T>)
    requires a != [] && SubseqOf(a, b)
    ensures SubseqOf(a[1..], b)
    decreases |b|, 1
  {
    if a[0] == b[0] {
      if a[1..] != [] { SubseqSkip(a[1..], b); }
    } else {
      SubseqOfTail(a, b[1..]);
      if a[1..] != [] { SubseqSkip(a[1..], b); }
    }
  }

  lemma {:induction false} FilterConcat<T>(a: seq<T>, b: seq<T>, p: T -> bool)
    ensures Filter(a + b, p) == Filter(a, p) + Filter(b, p)
  {
    if a == [] {
      assert a + b == b;
    } else {
      assert (a + b)[1..] == a[1..] + b;
      FilterConcat(a[1..], b, p);
    }
  }

  /** Filtering twice is filtering once by the conjunction. */
  lemma {:induction false} FilterFilter<T>(s: seq<T>, p: T -> bool, q: T -> bool)
    ensures Filter(Filter(s, p), q) == Filter(s, x => p(x) && q(x))
  {
    if s != [] {
      FilterFilter(s[1..], p, q);
      FilterConcat(if p(s[0]) then [s[0]] else [], Filter(s[1..], p), q);
    }
  }

  /** Filtering by a predicate that every element satisfies changes nothing. */
  lemma {:induction false} FilterAll<T>(s: seq<T>, p: T -> bool)
    requires forall i :: 0 <= i < |s| ==> p(s[i])
    ensures Filter(s, p) == s
  {
    if s != [] {
      FilterAll(s[1..], p);
    }
  }

  /** Filtering by a predicate that no element satisfies leaves nothing. */
  lemma {:induction false} FilterNone<T>(s: seq<T>, p: T -> bool)
    requires forall i :: 0 <= i < |s| ==> !p(s[i])
    ensures Filter(s, p) == []
  {
    if s != [] {
      FilterNone(s[1..], p);
    }
  }

  /** Number of occurrences of `x` in `s`. */
  function Count<T(==)>(s: seq<T>, x: T): nat {
    if s == [] then 0 else (if s[0] == x then 1 else 0) + Count(s[1..], x)
  }

  lemma {:induction false} CountConcat<T>(a: seq<T>, b: seq<T>, x: T)
    ensures Count(a + b, x) == Count(a, x) + Count(b, x)
  {
    if a == [] {
      assert a + b == b;
    } else {
      assert (a + b)[1..] == a[1..] + b;
      CountConcat(a[1..], b, x);
    }
  }

  /** No element occurs twice (the shape of a JavaScript `Set` read out in order). */
  predicate Distinct<T(==)>(s: seq<T>) {
    forall i, j :: 0 <= i < j < |s| ==> s[i] != s[j]
  }

  /** `s.indexOf(x)` / `findIndex`: the first position of `x`, or -1. */
  function IndexOf<T(==)>(s: seq<T>, x: T): (k: int)
    ensures -1 <= k < |s|
    ensures k == -1 <==> x !in s
    ensures 0 <= k ==> s[k] == x && x !in s[..k]
  {
    if s == [] then -1
    else if s[0] == x then 0
    else
      var k := IndexOf(s[1..], x);
      assert s[1..][..Max0(k)] == s[1..Max0(k) + 1];
      if k == -1 then -1 else k + 1
  }

  function Max0(k: int): nat { if k < 0 then 0 else k }

  /** Appending an element leaves the first positions of the earlier elements where they were. */
  lemma {:induction false} IndexOfAppend<T>(s: seq<T>, x: T, k: T)
    ensures IndexOf(s + [x], k) == if k in s then IndexOf(s, k) else if k == x then |s| else -1
  {
    if s != [] {
      assert (s + [x])[1..] == s[1..] + [x];
      IndexOfAppend(s[1..], x, k);
    }
  }

  /** `Array.from(new Set(s))`: first occurrences, in order. */
  function Dedup<T(==)>(s: seq<T>): (r: seq<T>)
    ensures Distinct(r)
    ensures forall i :: 0 <= i < |r| ==> r[i] in s
    ensures forall i :: 0 <= i < |s| ==> s[i] in r
  {
    if s == [] then []
    else
      var init := Dedup(s[..|s| - 1]);
      var last := s[|s| - 1];
      assert s == s[..|s| - 1] + [last];
      if last in init then init else init + [last]
  }

  lemma {:induction false} DedupDistinct<T>(s: seq<T>)
    requires Distinct(s)
    ensures Dedup(s) == s
  {
    if s != [] {
      var init := s[..|s| - 1];
      assert Distinct(init);
      DedupDistinct(init);
      assert s[|s| - 1] !in init;
      assert s == init + [s[|s| - 1]];
    }
  }

  /** The Set holds exactly the elements of the sequence it was built from. */
  lemma DedupMembership<T>(s: seq<T>, x: T)
    ensures x in Dedup(s) <==> x in s
  {
    var r := Dedup(s);
    if x in r {
      var i :| 0 <= i < |r| && r[i] == x;
    }
    if x in s {
      var i :| 0 <= i < |s| && s[i] == x;
    }
  }

  /** Appending a new element to a distinct sequence keeps it distinct. */
  lemma DistinctAppend<T>(s: seq<T>, x: T)
    requires Distinct(s) && x !in s
    ensures Distinct(s + [x])
  {
  }

  lemma {:induction false} FilterDistinct<T>(s: seq<T>, p: T -> bool)
    requires Distinct(s)
    ensures Distinct(Filter(s, p))
  {
    if s != [] {
      FilterDistinct(s[1..], p);
      if p(s[0]) {
        FilterMembership(s[1..], p, s[0]);
      }
    }
  }

  /** `s.splice(k, 1)` removes one element at `k`. */
  function RemoveAt<T>(s: seq<T>, k: nat): (r: seq<T>)
    requires k < |s|
    ensures |r| == |s| - 1
  {
    s[..k] + s[k + 1..]
  }

  /** `s.splice(k, 0, x)` inserts `x` so that it ends up at index `k`. */
  function InsertAt<T>(s: seq<T>, k: nat, x: T): (r: seq<T>)
    requires k <= |s|
    ensures |r| == |s| + 1 && r[k] == x
  {
    s[..k] + [x] + s[k..]
  }

  /** `ids.splice(tgt, 0, ids.splice(src, 1)[0])`: the inner splice runs first. */
  function MoveTo<T>(s: seq<T>, src: nat, tgt: nat): (r: seq<T>)
    requires src < |s| && tgt < |s|
    ensures |r| == |s| && r[tgt] == s[src]
    ensures multiset(r) == multiset(s)
  {
    var x := s[src];
    var rest := RemoveAt(s, src);
    assert s == s[..src] + [x] + s[src + 1..];
    assert multiset(s) == multiset(rest) + multiset{x};
    var r := InsertAt(rest, tgt, x);
    assert r == rest[..tgt] + [x] + rest[tgt..];
    assert rest == rest[..tgt] + rest[tgt..];
    r
  }

  // ----- the stable sort of Array.prototype.sort (ECMAScript 2019 requires stability) -----

  /** `le` behaves like a consistent comparator: total and transitive. */
  ghost predicate TotalPreorder<T(!new)>(le: (T, T) -> bool) {
    (forall a, b :: le(a, b) || le(b, a)) &&
    (forall a, b, c :: le(a, b) && le(b, c) ==> le(a, c))
  }

  predicate SortedBy<T>(s: seq<T>, le: (T, T) -> bool) {
    forall i, j :: 0 <= i < j < |s| ==> le(s[i], s[j])
  }

  /** Inserts `x` before the first element it does not sort after. */
  function InsertSorted<T>(x: T, t: seq<T>, le: (T, T) -> bool): (r: seq<T>)
    ensures multiset(r) == multiset(t) + multiset{x}
    ensures |r| == |t| + 1
  {
    if t == [] || le(x, t[0]) then [x] + t
    else
      assert t == [t[0]] + t[1..];
      [t[0]] + InsertSorted(x, t[1..], le)
  }

  /** Stable insertion sort: the unique sorted permutation that keeps ties in input order. */
  function SortStable<T>(s: seq<T>, le: (T, T) -> bool): (r: seq<T>)
    ensures multiset(r) == multiset(s)
    ensures |r| == |s|
  {
    if s == [] then []
    else
      assert s == [s[0]] + s[1..];
      InsertSorted(s[0], SortStable(s[1..], le), le)
  }

  lemma {:induction false} InsertSortedSorted<T(!new)>(x: T, t: seq<T>, le: (T, T) -> bool)
    requires TotalPreorder(le) && SortedBy(t, le)
    ensures SortedBy(InsertSorted(x, t, le), le)
  {
    if t != [] && !le(x, t[0]) {
      var rest := InsertSorted(x, t[1..], le);
      InsertSortedSorted(x, t[1..], le);
      assert le(t[0], x);
      forall y | y in rest ensures le(t[0], y) {
        assert y in multiset(rest);
        if y != x {
          assert y in multiset(t[1..]);
        }
      }
    }
  }

  lemma {:induction false} SortStableSorted<T(!new)>(s: seq<T>, le: (T, T) -> bool)
    requires TotalPreorder(le)
    ensures SortedBy(SortStable(s, le), le)
  {
    if s != [] {
      SortStableSorted(s[1..], le);
      InsertSortedSorted(s[0], SortStable(s[1..], le), le);
    }
  }

  /** The elements equivalent to `e` under `le` (those it ties with). */
  function TiesWith<T>(le: (T, T) -> bool, e: T): T -> bool {
    x => le(x, e) && le(e, x)
  }

  lemma {:induction false} InsertSortedTies<T(!new)>(x: T, t: seq<T>, le: (T, T) -> bool, e: T)
    requires TotalPreorder(le)
    ensures Filter(InsertSorted(x, t, le), TiesWith(le, e))
         == (if TiesWith(le, e)(x) then [x] else []) + Filter(t, TiesWith(le, e))
  {
    var p := TiesWith(le, e);
    var r := InsertSorted(x, t, le);
    if t == [] || le(x, t[0]) {
      assert r == [x] + t;
      assert r[0] == x && r[1..] == t;
    } else {
      var rest := InsertSorted(x, t[1..], le);
      InsertSortedTies(x, t[1..], le, e);
      assert r == [t[0]] + rest;
      assert r[0] == t[0] && r[1..] == rest;
      assert Filter(r, p) == (if p(t[0]) then [t[0]] else []) + Filter(rest, p);
      assert Filter(t, p) == (if p(t[0]) then [t[0]] else []) + Filter(t[1..], p);
      TiesOrdered(x, t[0], le, e);
    }
  }

  /** Two elements that both tie with `e` tie with each other, so neither comes strictly first. */
  lemma TiesOrdered<T(!new)>(x: T, y: T, le: (T, T) -> bool, e: T)
    requires TotalPreorder(le) && !le(x, y)
    ensures TiesWith(le, e)(x) ==> !TiesWith(le, e)(y)
  {
    if TiesWith(le, e)(x) {
      assert le(x, e);
    }
  }

  /** Stability: among elements that tie with `e`, the sorted order is the input order. */
  lemma {:induction false} SortStableTies<T(!new)>(s: seq<T>, le: (T, T) -> bool, e: T)
    requires TotalPreorder(le)
    ensures Filter(SortStable(s, le), TiesWith(le, e)) == Filter(s, TiesWith(le, e))
  {
    if s != [] {
      SortStableTies(s[1..], le, e);
      InsertSortedTies(s[0], SortStable(s[1..], le), le, e);
    }
  }

  /** An integer sort key gives a consistent comparator. */
  lemma KeyOrderIsTotalPreorder<T(!new)>(key: T -> int)
    ensures TotalPreorder((a: T, b: T) => key(a) <= key(b))
  {
  }
}
