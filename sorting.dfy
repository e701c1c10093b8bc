/**
 * `Array.prototype.sort` with a comparator, as a stable insertion sort: `le(a, b)` is
 * `compare(a, b) <= 0`, so an element is placed after every earlier element that may
 * precede it. For a comparator that orders its values totally this is the one stable
 * ordering, which is what the engine's (stable) sort produces.
 */
module Sorting {

  /** Inserts `x` into `t` after the last element that may precede it. */
  function Insert<T>(x: T, t: seq<T>, le: (T, T) -> bool): (r: seq<T>)
    ensures |r| == |t| + 1
    ensures multiset(r) == multiset(t) + multiset{x}
  {
    if t == [] || le(t[|t| - 1], x) then t + [x]
    else
      var r := Insert(x, t[..|t| - 1], le) + [t[|t| - 1]];
      assert t == t[..|t| - 1] + [t[|t| - 1]];
      r
  }

  /** The elements of `s` sorted by `le`, keeping the original order among equals. */
  function Sort<T>(s: seq<T>, le: (T, T) -> bool): (r: seq<T>)
    ensures |r| == |s|
  {
    if s == [] then [] else Insert(s[|s| - 1], Sort(s[..|s| - 1], le), le)
  }

  ghost predicate Total<T(!new)>(le: (T, T) -> bool) {
    forall a, b :: le(a, b) || le(b, a)
  }

  ghost predicate Transitive<T(!new)>(le: (T, T) -> bool) {
    forall a, b, c :: le(a, b) && le(b, c) ==> le(a, c)
  }

  predicate Sorted<T>(s: seq<T>, le: (T, T) -> bool) {
    forall i, j :: 0 <= i < j < |s| ==> le(s[i], s[j])
  }

  /** Sorting only reorders: the result holds the same elements, as often. */
  lemma {:induction false} SortPermutation<T>(s: seq<T>, le: (T, T) -> bool)
    ensures multiset(Sort(s, le)) == multiset(s)
  {
    if s != [] {
      SortPermutation(s[..|s| - 1], le);
      assert s == s[..|s| - 1] + [s[|s| - 1]];
    }
  }

  /** Inserting into a sorted sequence keeps it sorted. */
  lemma {:induction false} InsertSorted<T(!new)>(x: T, t: seq<T>, le: (T, T) -> bool)
    requires Total(le) && Transitive(le) && Sorted(t, le)
    ensures Sorted(Insert(x, t, le), le)
  {
    if t != [] && !le(t[|t| - 1], x) {
      var init := t[..|t| - 1];
      var last := t[|t| - 1];
      InsertSorted(x, init, le);
      var r0 := Insert(x, init, le);
      assert multiset(r0) == multiset(init) + multiset{x};
      forall e | e in r0 ensures le(e, last) {
        assert e in multiset(r0);
        if e == x {
          assert le(last, x) || le(x, last);
        } else {
          assert e in multiset(init);
          var k :| 0 <= k < |init| && init[k] == e;
          assert t[k] == e;
        }
      }
      var r := r0 + [last];
      forall i, j | 0 <= i < j < |r| ensures le(r[i], r[j]) {
        if j == |r| - 1 {
          assert r[i] in r0;
        }
      }
    } else if t != [] {
      var r := t + [x];
      forall i, j | 0 <= i < j < |r| ensures le(r[i], r[j]) {
        if j == |r| - 1 && i < |t| - 1 {
          assert le(t[i], t[|t| - 1]);
        }
      }
    }
  }

  /** With a comparator that orders totally, the result is sorted. */
  lemma {:induction false} SortSorted<T(!new)>(s: seq<T>, le: (T, T) -> bool)
    requires Total(le) && Transitive(le)
    ensures Sorted(Sort(s, le), le)
  {
    if s != [] {
      SortSorted(s[..|s| - 1], le);
      InsertSorted(s[|s| - 1], Sort(s[..|s| - 1], le), le);
    }
  }

  /** A sequence none of whose elements has to move (every element may precede every
      later one) is left as it is: the comparator returning 0 throughout sorts nothing. */
  lemma {:induction false} SortKeepsOrder<T>(s: seq<T>, le: (T, T) -> bool)
    requires forall i, j :: 0 <= i < j < |s| ==> le(s[i], s[j])
    ensures Sort(s, le) == s
  {
    if s != [] {
      var init := s[..|s| - 1];
      forall i, j | 0 <= i < j < |init| ensures le(init[i], init[j]) {
        assert init[i] == s[i] && init[j] == s[j];
      }
      SortKeepsOrder(init, le);
      var last := s[|s| - 1];
      if init != [] {
        assert le(s[|s| - 2], last);
        assert Insert(last, init, le) == init + [last];
      }
      assert s == init + [last];
    }
  }

  /** The elements of `s` that compare equal to `x` (each may precede the other), in their order in `s`. */
  function EqualTo<T>(s: seq<T>, x: T, le: (T, T) -> bool): (r: seq<T>)
    ensures |r| <= |s|
  {
    if s == [] then []
    else
      var last := s[|s| - 1];
      EqualTo(s[..|s| - 1], x, le) + (if le(last, x) && le(x, last) then [last] else [])
  }

  /** Appending one element to `s` appends it to the elements equal to `x` exactly when it is equal to `x`. */
  lemma EqualToSnoc<T>(s: seq<T>, y: T, x: T, le: (T, T) -> bool)
    ensures EqualTo(s + [y], x, le) == EqualTo(s, x, le) + (if le(y, x) && le(x, y) then [y] else [])
  {
    assert (s + [y])[..|s|] == s;
  }

  /** When `a` may not precede `b`, they are not both equal to `x`: by transitivity through `x`, `a` would precede `b`. */
  lemma NotBothEqual<T(!new)>(a: T, b: T, x: T, le: (T, T) -> bool)
    requires Transitive(le) && !le(a, b)
    ensures !(le(a, x) && le(x, a)) || !(le(b, x) && le(x, b))
  {
  }

  /** Inserting `y` adds it after the elements equal to `x` when it is equal to `x` itself, and changes nothing among them otherwise. */
  lemma {:induction false} InsertEqualTo<T(!new)>(y: T, t: seq<T>, x: T, le: (T, T) -> bool)
    requires Transitive(le)
    ensures EqualTo(Insert(y, t, le), x, le) == EqualTo(t, x, le) + (if le(y, x) && le(x, y) then [y] else [])
  {
    if t == [] || le(t[|t| - 1], y) {
      EqualToSnoc(t, y, x, le);
    } else {
      var init := t[..|t| - 1];
      var last := t[|t| - 1];
      InsertEqualTo(y, init, x, le);
      var r0 := Insert(y, init, le);
      EqualToSnoc(r0, last, x, le);
      var ys := if le(y, x) && le(x, y) then [y] else [];
      var ls := if le(last, x) && le(x, last) then [last] else [];
      NotBothEqual(last, y, x, le);
      assert ys + ls == ls + ys;
      AppendAssociative(EqualTo(init, x, le), ys, ls);
      AppendAssociative(EqualTo(init, x, le), ls, ys);
    }
  }

  lemma AppendAssociative<T>(a: seq<T>, b: seq<T>, c: seq<T>)
    ensures a + b + c == a + (b + c)
  {
  }

  /** The sort is stable: the elements that compare equal to any `x` come out in their input order. */
  lemma {:induction false} SortStable<T(!new)>(s: seq<T>, x: T, le: (T, T) -> bool)
    requires Transitive(le)
    ensures EqualTo(Sort(s, le), x, le) == EqualTo(s, x, le)
  {
    if s != [] {
      SortStable(s[..|s| - 1], x, le);
      InsertEqualTo(s[|s| - 1], Sort(s[..|s| - 1], le), x, le);
    }
  }

  /**
   * `a.localeCompare(b) <= 0`, taken as the order of character codes: `a` is a prefix
   * of `b`, or the first difference is smaller in `a`.
   */
  predicate CodeUnitLe(a: string, b: string) {
    a == [] || (b != [] && (a[0] < b[0] || (a[0] == b[0] && CodeUnitLe(a[1..], b[1..]))))
  }

  /** Any two strings are ordered one way or the other. */
  lemma {:induction false} CodeUnitTotal(a: string, b: string)
    ensures CodeUnitLe(a, b) || CodeUnitLe(b, a)
  {
    if a != [] && b != [] && a[0] == b[0] {
      CodeUnitTotal(a[1..], b[1..]);
    }
  }

  /** The order is transitive. */
  lemma {:induction false} CodeUnitTransitive(a: string, b: string, c: string)
    requires CodeUnitLe(a, b) && CodeUnitLe(b, c)
    ensures CodeUnitLe(a, c)
  {
    if a != [] && a[0] == b[0] && b[0] == c[0] {
      CodeUnitTransitive(a[1..], b[1..], c[1..]);
    }
  }

  /** Strings ordered both ways are equal. */
  lemma {:induction false} CodeUnitAntisymmetric(a: string, b: string)
    requires CodeUnitLe(a, b) && CodeUnitLe(b, a)
    ensures a == b
  {
    if a != [] {
      CodeUnitAntisymmetric(a[1..], b[1..]);
      assert a == [a[0]] + a[1..] && b == [b[0]] + b[1..];
    }
  }
}
