/**
 * `Array.prototype.sort` with a comparator: a stable sort (required of engines since ES2019).
 * A comparator `(a, b) => ...` that returns a non-positive number is modelled by `leq(a, b)`.
 * The sort is written as an insertion sort; what callers rely on is stated as lemmas:
 * the result is ordered, is a permutation of the input, and keeps equal elements in input order.
 */
module Sorting {

  /** `leq` is total and transitive, as every comparator in the core is. */
  ghost predicate TotalPreorder<T(!new)>(leq: (T, T) -> bool) {
    && (forall a, b :: leq(a, b) || leq(b, a))
    && (forall a, b, c :: leq(a, b) && leq(b, c) ==> leq(a, c))
  }

  ghost predicate Sorted<T>(s: seq<T>, leq: (T, T) -> bool) {
    forall i, j :: 0 <= i < j < |s| ==> leq(s[i], s[j])
  }

  /** No two elements compare equal and they appear in increasing order. */
  ghost predicate StrictlySorted<T>(s: seq<T>, leq: (T, T) -> bool) {
    forall i, j :: 0 <= i < j < |s| ==> !leq(s[j], s[i])
  }

  /** Inserts `x` before the first element it does not exceed, so it stays ahead of its equals. */
  function Insert<T>(x: T, s: seq<T>, leq: (T, T) -> bool): (r: seq<T>)
    ensures |r| == |s| + 1
  {
    if s == [] || leq(x, s[0]) then [x] + s else [s[0]] + Insert(x, s[1..], leq)
  }

  function SortBy<T>(s: seq<T>, leq: (T, T) -> bool): (r: seq<T>)
    ensures |r| == |s|
  {
    if s == [] then [] else Insert(s[0], SortBy(s[1..], leq), leq)
  }

  /** The elements of `s` that compare equal to `k`, in their order in `s`. */
  function EqualTo<T>(s: seq<T>, k: T, leq: (T, T) -> bool): seq<T> {
    if s == [] then []
    else (if leq(s[0], k) && leq(k, s[0]) then [s[0]] else []) + EqualTo(s[1..], k, leq)
  }

  lemma {:induction false} InsertPermutes<T>(x: T, s: seq<T>, leq: (T, T) -> bool)
    ensures multiset(Insert(x, s, leq)) == multiset(s) + multiset{x}
  {
    if s != [] && !leq(x, s[0]) {
      InsertPermutes(x, s[1..], leq);
      assert s == [s[0]] + s[1..];
    }
  }

  /** Sorting neither loses nor duplicates an element. */
  lemma {:induction false} SortByPermutes<T>(s: seq<T>, leq: (T, T) -> bool)
    ensures multiset(SortBy(s, leq)) == multiset(s)
  {
    if s != [] {
      SortByPermutes(s[1..], leq);
      InsertPermutes(s[0], SortBy(s[1..], leq), leq);
      assert s == [s[0]] + s[1..];
    }
  }

  lemma {:induction false} InsertSorted<T(!new)>(x: T, s: seq<T>, leq: (T, T) -> bool)
    requires TotalPreorder(leq) && Sorted(s, leq)
    ensures Sorted(Insert(x, s, leq), leq)
  {
    if s != [] && !leq(x, s[0]) {
      InsertSorted(x, s[1..], leq);
      var r := Insert(x, s, leq);
      var t := Insert(x, s[1..], leq);
      InsertPermutes(x, s[1..], leq);
      assert r == [s[0]] + t;
      forall j | 0 < j < |r| ensures leq(s[0], r[j]) {
        assert r[j] == t[j - 1];
        assert t[j - 1] in multiset(t);
        assert t[j - 1] in multiset(s[1..]) + multiset{x};
        if t[j - 1] == x {
          assert leq(s[0], x);
        } else {
          assert t[j - 1] in s[1..];
          var m :| 0 <= m < |s[1..]| && s[1..][m] == t[j - 1];
          assert s[m + 1] == t[j - 1];
        }
      }
    }
  }

  /** The result is ordered by `leq`. */
  lemma {:induction false} SortBySorted<T(!new)>(s: seq<T>, leq: (T, T) -> bool)
    requires TotalPreorder(leq)
    ensures Sorted(SortBy(s, leq), leq)
  {
    if s != [] {
      SortBySorted(s[1..], leq);
      InsertSorted(s[0], SortBy(s[1..], leq), leq);
    }
  }

  lemma {:induction false} InsertStable<T(!new)>(x: T, s: seq<T>, k: T, leq: (T, T) -> bool)
    requires TotalPreorder(leq)
    ensures EqualTo(Insert(x, s, leq), k, leq)
         == (if leq(x, k) && leq(k, x) then [x] else []) + EqualTo(s, k, leq)
  {
    var xs := if leq(x, k) && leq(k, x) then [x] else [];
    if s == [] || leq(x, s[0]) {
      assert Insert(x, s, leq) == [x] + s;
      assert ([x] + s)[1..] == s;
    } else {
      var t := Insert(x, s[1..], leq);
      InsertStable(x, s[1..], k, leq);
      var r := [s[0]] + t;
      assert Insert(x, s, leq) == r;
      assert r[1..] == t;
      var hs := if leq(s[0], k) && leq(k, s[0]) then [s[0]] else [];
      assert EqualTo(r, k, leq) == hs + EqualTo(t, k, leq);
      assert EqualTo(s, k, leq) == hs + EqualTo(s[1..], k, leq);
      // s[0] lies strictly below x, so they cannot both compare equal to k.
      assert xs == [] || hs == [];
      assert hs + (xs + EqualTo(s[1..], k, leq)) == xs + (hs + EqualTo(s[1..], k, leq));
    }
  }

  /** Stability: elements that compare equal keep their input order. */
  lemma {:induction false} SortByStable<T(!new)>(s: seq<T>, k: T, leq: (T, T) -> bool)
    requires TotalPreorder(leq)
    ensures EqualTo(SortBy(s, leq), k, leq) == EqualTo(s, k, leq)
  {
    if s != [] {
      SortByStable(s[1..], k, leq);
      InsertStable(s[0], SortBy(s[1..], leq), k, leq);
    }
  }

  /** An already ordered input is returned as it is. */
  lemma {:induction false} SortByIdle<T>(s: seq<T>, leq: (T, T) -> bool)
    requires Sorted(s, leq)
    ensures SortBy(s, leq) == s
  {
    if s != [] {
      assert Sorted(s[1..], leq) by {
        forall i, j | 0 <= i < j < |s[1..]| ensures leq(s[1..][i], s[1..][j]) {
          assert s[1..][i] == s[i + 1] && s[1..][j] == s[j + 1];
        }
      }
      SortByIdle(s[1..], leq);
      if |s| > 1 {
        assert leq(s[0], s[1]);
        assert s[1..][0] == s[1];
      }
      assert [s[0]] + s[1..] == s;
    }
  }

  /** A strictly ordered sequence is the only ordered arrangement of its elements. */
  lemma {:induction false} SortedUnique<T(!new)>(a: seq<T>, b: seq<T>, leq: (T, T) -> bool)
    requires TotalPreorder(leq)
    requires StrictlySorted(a, leq) && Sorted(b, leq)
    requires multiset(a) == multiset(b)
    ensures a == b
    decreases |a|
  {
    assert |a| == |multiset(a)| == |multiset(b)| == |b|;
    if a != [] {
      HeadsAgree(a, b, leq);
      assert a == [a[0]] + a[1..] && b == [b[0]] + b[1..];
      assert multiset(a[1..]) == multiset(b[1..]) by {
        assert a == [a[0]] + a[1..] && b == [b[0]] + b[1..];
        assert multiset(a[1..]) == multiset(a) - multiset{a[0]};
        assert multiset(b[1..]) == multiset(b) - multiset{b[0]};
      }
      TailsSorted(a, b, leq);
      SortedUnique(a[1..], b[1..], leq);
    }
  }

  lemma TailsSorted<T>(a: seq<T>, b: seq<T>, leq: (T, T) -> bool)
    requires a != [] && b != []
    requires StrictlySorted(a, leq) && Sorted(b, leq)
    ensures StrictlySorted(a[1..], leq) && Sorted(b[1..], leq)
  {
    forall i, j | 0 <= i < j < |a[1..]| ensures !leq(a[1..][j], a[1..][i]) {
      assert a[1..][i] == a[i + 1] && a[1..][j] == a[j + 1];
    }
    forall i, j | 0 <= i < j < |b[1..]| ensures leq(b[1..][i], b[1..][j]) {
      assert b[1..][i] == b[i + 1] && b[1..][j] == b[j + 1];
    }
  }

  lemma HeadsAgree<T(!new)>(a: seq<T>, b: seq<T>, leq: (T, T) -> bool)
    requires TotalPreorder(leq)
    requires StrictlySorted(a, leq) && Sorted(b, leq)
    requires multiset(a) == multiset(b) && a != [] && b != []
    ensures a[0] == b[0]
  {
    assert a[0] in multiset(b);
    var k :| 0 <= k < |b| && b[k] == a[0];
    assert b[0] in multiset(a);
    var m :| 0 <= m < |a| && a[m] == b[0];
    // b[0] <= b[k] = a[0], and in a nothing after a[0] is <= a[0]; so b[0] is a[0].
    assert leq(b[0], b[k]) by { if k == 0 { assert leq(b[0], b[0]); } }
    assert m == 0;
  }

  /** Sorting commutes with a projection when the order only looks at the projection. */
  lemma {:induction false} SortByProject<T, U>(s: seq<T>, f: T -> U, leqT: (T, T) -> bool, leqU: (U, U) -> bool)
    requires forall a, b :: leqT(a, b) == leqU(f(a), f(b))
    ensures Project(SortBy(s, leqT), f) == SortBy(Project(s, f), leqU)
  {
    if s != [] {
      SortByProject(s[1..], f, leqT, leqU);
      assert Project(s, f)[1..] == Project(s[1..], f);
      InsertProject(s[0], SortBy(s[1..], leqT), f, leqT, leqU);
    }
  }

  lemma {:induction false} InsertProject<T, U>(x: T, s: seq<T>, f: T -> U, leqT: (T, T) -> bool, leqU: (U, U) -> bool)
    requires forall a, b :: leqT(a, b) == leqU(f(a), f(b))
    ensures Project(Insert(x, s, leqT), f) == Insert(f(x), Project(s, f), leqU)
  {
    if s != [] {
      assert Project(s, f)[1..] == Project(s[1..], f);
      if !leqT(x, s[0]) {
        InsertProject(x, s[1..], f, leqT, leqU);
        assert Project([s[0]] + Insert(x, s[1..], leqT), f)
            == [f(s[0])] + Project(Insert(x, s[1..], leqT), f);
      } else {
        assert Project([x] + s, f) == [f(x)] + Project(s, f);
      }
    }
  }

  /** `s.map(f)`. */
  function Project<T, U>(s: seq<T>, f: T -> U): (r: seq<U>)
    ensures |r| == |s| && forall i :: 0 <= i < |s| ==> r[i] == f(s[i])
  {
    seq(|s|, i requires 0 <= i < |s| => f(s[i]))
  }

  /** `a.localeCompare(b) <= 0`, modelled as lexicographic order on code points. */
  predicate LexLeq(a: string, b: string)
    decreases |a|
  {
    a == [] || (b != [] && (a[0] < b[0] || (a[0] == b[0] && LexLeq(a[1..], b[1..]))))
  }

  lemma {:induction false} LexLeqTotal(a: string, b: string)
    ensures LexLeq(a, b) || LexLeq(b, a)
    decreases |a|
  {
    if a != [] && b != [] && a[0] == b[0] {
      LexLeqTotal(a[1..], b[1..]);
    }
  }

  lemma {:induction false} LexLeqTransitive(a: string, b: string, c: string)
    requires LexLeq(a, b) && LexLeq(b, c)
    ensures LexLeq(a, c)
    decreases |a|
  {
    if a != [] && b != [] && c != [] && a[0] == b[0] && b[0] == c[0] {
      LexLeqTransitive(a[1..], b[1..], c[1..]);
    }
  }

  lemma LexLeqIsTotalPreorder()
    ensures TotalPreorder(LexLeq)
  {
    forall a: string, b: string ensures LexLeq(a, b) || LexLeq(b, a) {
      LexLeqTotal(a, b);
    }
    forall a: string, b: string, c: string | LexLeq(a, b) && LexLeq(b, c) ensures LexLeq(a, c) {
      LexLeqTransitive(a, b, c);
    }
  }
}
