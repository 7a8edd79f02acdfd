/** `Array.prototype.sort` with a comparator of the form `(a, b) => key(a) -
    key(b)`, as the dashboard uses it for hourly rows, chart ranks and the
    order dialog.

    The engine's sort is stable. When the comparator is consistent, every
    stable sort gives the same result, and the model computes it as an
    insertion sort. A key is a finite number, `Infinity` (an unranked chart)
    or NaN (an hour `parseInt` could not read). `a - b` is NaN, which the
    engine treats as 0, for `Infinity - Infinity` and for any NaN operand. */
module StableSort {

  datatype SortKey = Finite(n: int) | Infinity | Unordered

  /** `key(a) - key(b) > 0`: the comparator asks for `a` to come after `b`. */
  predicate After(a: SortKey, b: SortKey) {
    match (a, b)
    case (Finite(x), Finite(y)) => x > y
    case (Infinity, Finite(_)) => true
    case _ => false
  }

  /** Keys other than NaN are totally ordered by `After`. */
  predicate Comparable(k: SortKey) {
    !k.Unordered?
  }

  /** Insert `x` into `s`, passing from the end over the elements the
      comparator puts after `x`. */
  function Insert<T>(s: seq<T>, x: T, key: T -> SortKey): (r: seq<T>)
    ensures |r| == |s| + 1
    decreases |s|
  {
    if |s| == 0 || !After(key(s[|s| - 1]), key(x)) then s + [x]
    else Insert(s[..|s| - 1], x, key) + [s[|s| - 1]]
  }

  /** The result of sorting `s` with the comparator `key(a) - key(b)`. */
  function SortBy<T>(s: seq<T>, key: T -> SortKey): (r: seq<T>)
    ensures |r| == |s|
  {
    if |s| == 0 then [] else Insert(SortBy(s[..|s| - 1], key), s[|s| - 1], key)
  }

  /** The elements of `s` whose key is `k`, in their order in `s`. */
  function WithKey<T>(s: seq<T>, key: T -> SortKey, k: SortKey): seq<T> {
    if |s| == 0 then []
    else WithKey(s[..|s| - 1], key, k) + (if key(s[|s| - 1]) == k then [s[|s| - 1]] else [])
  }

  /** No element is asked to come after a later one. */
  ghost predicate Sorted<T>(s: seq<T>, key: T -> SortKey) {
    forall i, j :: 0 <= i < j < |s| ==> !After(key(s[i]), key(s[j]))
  }

  ghost predicate AllComparable<T>(s: seq<T>, key: T -> SortKey) {
    forall i :: 0 <= i < |s| ==> Comparable(key(s[i]))
  }

  /** Keys that are not NaN never ask both ways, and "not after" chains. */
  lemma NotAfterTransitive(a: SortKey, b: SortKey, c: SortKey)
    requires Comparable(a) && Comparable(b) && Comparable(c)
    requires !After(a, b) && !After(b, c)
    ensures !After(a, c)
  {
  }

  lemma WithKeyAppend<T>(s: seq<T>, y: T, key: T -> SortKey, k: SortKey)
    ensures WithKey(s + [y], key, k) == WithKey(s, key, k) + (if key(y) == k then [y] else [])
  {
    assert (s + [y])[..|s|] == s;
  }

  /** Insertion adds exactly one element. */
  lemma {:induction false} InsertPermutes<T>(s: seq<T>, x: T, key: T -> SortKey)
    ensures multiset(Insert(s, x, key)) == multiset(s) + multiset{x}
    decreases |s|
  {
    if |s| > 0 && After(key(s[|s| - 1]), key(x)) {
      var p := s[..|s| - 1];
      InsertPermutes(p, x, key);
      assert s == p + [s[|s| - 1]];
    }
  }

  /** Sorting permutes its input. */
  lemma {:induction false} SortPermutes<T>(s: seq<T>, key: T -> SortKey)
    ensures multiset(SortBy(s, key)) == multiset(s)
  {
    if |s| > 0 {
      var p := s[..|s| - 1];
      SortPermutes(p, key);
      InsertPermutes(SortBy(p, key), s[|s| - 1], key);
      assert s == p + [s[|s| - 1]];
    }
  }

  /** Insertion keeps the relative order of the elements of every key and
      puts `x` after those that share its key. */
  lemma {:induction false} InsertWithKey<T>(s: seq<T>, x: T, key: T -> SortKey, k: SortKey)
    ensures WithKey(Insert(s, x, key), key, k) == WithKey(s, key, k) + (if key(x) == k then [x] else [])
    decreases |s|
  {
    if |s| == 0 || !After(key(s[|s| - 1]), key(x)) {
      WithKeyAppend(s, x, key, k);
    } else {
      var p, y := s[..|s| - 1], s[|s| - 1];
      assert s == p + [y];
      InsertWithKey(p, x, key, k);
      WithKeyAppend(Insert(p, x, key), y, key, k);
      WithKeyAppend(p, y, key, k);
      assert key(y) != key(x);
    }
  }

  /** Sorting is stable: for every key, the elements with that key keep
      their input order. */
  lemma {:induction false} SortStable<T>(s: seq<T>, key: T -> SortKey, k: SortKey)
    ensures WithKey(SortBy(s, key), key, k) == WithKey(s, key, k)
  {
    if |s| > 0 {
      var p, y := s[..|s| - 1], s[|s| - 1];
      assert s == p + [y];
      SortStable(p, key, k);
      InsertWithKey(SortBy(p, key), y, key, k);
      WithKeyAppend(p, y, key, k);
    }
  }

  /** An element of a sequence inserted into is one of the old elements or
      the inserted one. */
  lemma InsertMembers<T>(s: seq<T>, x: T, key: T -> SortKey, z: T)
    requires z in Insert(s, x, key)
    ensures z in s || z == x
  {
    InsertPermutes(s, x, key);
    assert z in multiset(Insert(s, x, key));
  }

  /** Inserting into a sorted sequence of comparable keys keeps it sorted. */
  lemma {:induction false} InsertSorted<T>(s: seq<T>, x: T, key: T -> SortKey)
    requires Sorted(s, key) && AllComparable(s, key) && Comparable(key(x))
    ensures Sorted(Insert(s, x, key), key)
    decreases |s|
  {
    var r := Insert(s, x, key);
    if |s| == 0 || !After(key(s[|s| - 1]), key(x)) {
      assert r == s + [x];
      forall i, j | 0 <= i < j < |r|
        ensures !After(key(r[i]), key(r[j]))
      {
        if j == |s| && i < |s| - 1 {
          NotAfterTransitive(key(s[i]), key(s[|s| - 1]), key(x));
        }
      }
    } else {
      var p, y := s[..|s| - 1], s[|s| - 1];
      InsertSorted(p, x, key);
      var q := Insert(p, x, key);
      assert r == q + [y];
      forall i | 0 <= i < |q|
        ensures !After(key(q[i]), key(y))
      {
        InsertMembers(p, x, key, q[i]);
        if q[i] != x {
          var m :| 0 <= m < |p| && p[m] == q[i];
          assert s[m] == p[m];
        }
      }
    }
  }

  /** Sorting a sequence whose keys are all comparable orders it. */
  lemma {:induction false} SortSorted<T>(s: seq<T>, key: T -> SortKey)
    requires AllComparable(s, key)
    ensures Sorted(SortBy(s, key), key)
  {
    if |s| > 0 {
      var p := s[..|s| - 1];
      SortSorted(p, key);
      var q := SortBy(p, key);
      SortPermutes(p, key);
      forall i | 0 <= i < |q|
        ensures Comparable(key(q[i]))
      {
        assert q[i] in multiset(p);
        var m :| 0 <= m < |p| && p[m] == q[i];
        assert s[m] == p[m];
      }
      InsertSorted(q, s[|s| - 1], key);
    }
  }

  /** Elements with equal keys are equal: the key identifies the element. */
  ghost predicate KeyIdentifies<T>(s: seq<T>, key: T -> SortKey) {
    forall i, j :: 0 <= i < |s| && 0 <= j < |s| && key(s[i]) == key(s[j]) ==> s[i] == s[j]
  }

  /** The last element of a sorted sequence of comparable keys has the
      largest key. */
  lemma LastIsLargest<T>(s: seq<T>, key: T -> SortKey, x: T)
    requires |s| > 0 && Sorted(s, key) && x in s
    ensures !After(key(x), key(s[|s| - 1]))
  {
    var k :| 0 <= k < |s| && s[k] == x;
    if k < |s| - 1 {
      assert !After(key(s[k]), key(s[|s| - 1]));
    }
  }

  /** Removing the same last element from two permutations of each other
      leaves permutations of each other. */
  lemma DropLast<T>(a: seq<T>, b: seq<T>)
    requires |a| > 0 && |b| > 0 && a[|a| - 1] == b[|b| - 1]
    requires multiset(a) == multiset(b)
    ensures multiset(a[..|a| - 1]) == multiset(b[..|b| - 1])
  {
    var x := a[|a| - 1];
    assert a == a[..|a| - 1] + [x];
    assert b == b[..|b| - 1] + [x];
    assert multiset(a[..|a| - 1]) == multiset(a) - multiset{x};
    assert multiset(b[..|b| - 1]) == multiset(b) - multiset{x};
  }

  lemma PrefixSorted<T>(a: seq<T>, key: T -> SortKey, n: nat)
    requires n <= |a| && Sorted(a, key)
    ensures Sorted(a[..n], key)
  {
  }

  /** A prefix of a sorted sequence of comparable, identifying keys keeps
      all three properties. */
  lemma PrefixKeeps<T>(a: seq<T>, key: T -> SortKey, n: nat)
    requires n <= |a| && Sorted(a, key) && AllComparable(a, key) && KeyIdentifies(a, key)
    ensures Sorted(a[..n], key) && AllComparable(a[..n], key) && KeyIdentifies(a[..n], key)
  {
  }

  /** Two sorted arrangements of the same elements, when keys are not NaN
      and identify the elements, are the same sequence. */
  lemma {:induction false} SortedUnique<T>(a: seq<T>, b: seq<T>, key: T -> SortKey)
    requires multiset(a) == multiset(b)
    requires Sorted(a, key) && Sorted(b, key) && AllComparable(a, key)
    requires KeyIdentifies(a, key)
    ensures a == b
    decreases |a|
  {
    assert |a| == |multiset(a)| == |b|;
    if |a| > 0 {
      var n := |a|;
      var x, y := a[n - 1], b[n - 1];
      assert x in multiset(b) && y in multiset(a);
      LastIsLargest(b, key, x);
      LastIsLargest(a, key, y);
      var j :| 0 <= j < n && a[j] == y;
      assert Comparable(key(x)) && Comparable(key(y));
      assert key(x) == key(y);
      assert x == y;
      DropLast(a, b);
      PrefixKeeps(a, key, n - 1);
      PrefixSorted(b, key, n - 1);
      SortedUnique(a[..n - 1], b[..n - 1], key);
    }
  }
}
