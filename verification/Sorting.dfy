/** Python's `list.sort` / `sorted`: a stable sort by a numeric key. A descending
    `reverse=True` sort, also stable, is the ascending sort by the negated key. */
module Sorting {

  /** Put x behind every element whose key is not larger than its own. */
  function Insert<T>(key: T -> real, x: T, s: seq<T>): seq<T> {
    if s == [] then [x]
    else if key(s[|s| - 1]) <= key(x) then s + [x]
    else Insert(key, x, s[..|s| - 1]) + [s[|s| - 1]]
  }

  function StableSort<T>(key: T -> real, s: seq<T>): seq<T> {
    if s == [] then [] else Insert(key, s[|s| - 1], StableSort(key, s[..|s| - 1]))
  }

  ghost predicate Sorted<T>(key: T -> real, s: seq<T>) {
    forall i, j :: 0 <= i < j < |s| ==> key(s[i]) <= key(s[j])
  }

  /** The elements with key k, in list order. */
  ghost function WithKey<T>(key: T -> real, s: seq<T>, k: real): seq<T> {
    if s == [] then []
    else WithKey(key, s[..|s| - 1], k) + if key(s[|s| - 1]) == k then [s[|s| - 1]] else []
  }

  lemma {:induction false} InsertPermutes<T>(key: T -> real, x: T, s: seq<T>)
    ensures multiset(Insert(key, x, s)) == multiset(s) + multiset{x}
    ensures |Insert(key, x, s)| == |s| + 1
  {
    if s == [] || key(s[|s| - 1]) <= key(x) {
    } else {
      var n := |s| - 1;
      InsertPermutes(key, x, s[..n]);
      assert s == s[..n] + [s[n]];
    }
  }

  lemma {:induction false} InsertSorts<T>(key: T -> real, x: T, s: seq<T>)
    requires Sorted(key, s)
    ensures Sorted(key, Insert(key, x, s))
  {
    if s == [] || key(s[|s| - 1]) <= key(x) {
    } else {
      var n := |s| - 1;
      InsertSorts(key, x, s[..n]);
      var r := Insert(key, x, s[..n]);
      forall i | 0 <= i < |r| ensures key(r[i]) <= key(s[n]) {
        InsertMembers(key, x, s[..n], i);
      }
    }
  }

  lemma {:induction false} InsertMembers<T>(key: T -> real, x: T, s: seq<T>, i: nat)
    requires i < |Insert(key, x, s)|
    ensures Insert(key, x, s)[i] == x || exists j :: 0 <= j < |s| && Insert(key, x, s)[i] == s[j]
  {
    InsertPermutes(key, x, s);
    assert Insert(key, x, s)[i] in multiset(Insert(key, x, s));
  }

  /** The sort is a sorted permutation of its input. */
  lemma {:induction false} SortSorts<T>(key: T -> real, s: seq<T>)
    ensures Sorted(key, StableSort(key, s))
    ensures multiset(StableSort(key, s)) == multiset(s)
    ensures |StableSort(key, s)| == |s|
  {
    if s == [] {
    } else {
      var n := |s| - 1;
      SortSorts(key, s[..n]);
      InsertSorts(key, s[n], StableSort(key, s[..n]));
      InsertPermutes(key, s[n], StableSort(key, s[..n]));
      assert s == s[..n] + [s[n]];
    }
  }

  /** Sorting a sorted list changes nothing. */
  lemma {:induction false} SortIdempotent<T>(key: T -> real, s: seq<T>)
    requires Sorted(key, s)
    ensures StableSort(key, s) == s
  {
    if s == [] {
    } else {
      var n := |s| - 1;
      SortIdempotent(key, s[..n]);
      assert s == s[..n] + [s[n]];
    }
  }

  lemma {:induction false} WithKeyConcat<T>(key: T -> real, a: seq<T>, b: seq<T>, k: real)
    ensures WithKey(key, a + b, k) == WithKey(key, a, k) + WithKey(key, b, k)
  {
    if b == [] {
      assert a + b == a;
    } else {
      var n := |b| - 1;
      WithKeyConcat(key, a, b[..n], k);
      assert (a + b)[..|a + b| - 1] == a + b[..n];
    }
  }

  lemma {:induction false} WithKeyNone<T>(key: T -> real, s: seq<T>, k: real)
    requires forall i :: 0 <= i < |s| ==> key(s[i]) != k
    ensures WithKey(key, s, k) == []
  {
    if s == [] {
    } else {
      WithKeyNone(key, s[..|s| - 1], k);
    }
  }

  lemma OneWithKey<T>(key: T -> real, x: T, k: real)
    ensures WithKey(key, [x], k) == if key(x) == k then [x] else []
  {
    assert [x][..0] == [];
  }

  lemma {:induction false} InsertStable<T>(key: T -> real, x: T, s: seq<T>, k: real)
    requires Sorted(key, s)
    ensures WithKey(key, Insert(key, x, s), k) == WithKey(key, s + [x], k)
  {
    InsertStep(key, x, s);
    if s == [] || key(s[|s| - 1]) <= key(x) {
    } else {
      var n := |s| - 1;
      var last := s[n];
      SortedPrefix(key, s, n);
      hide *;
      assert s == s[..n] + [last];
      InsertStable(key, x, s[..n], k);
      WithKeyConcat(key, s, [x], k);
      WithKeyConcat(key, s[..n], [x], k);
      WithKeyConcat(key, s[..n], [last], k);
      WithKeyConcat(key, Insert(key, x, s[..n]), [last], k);
      OneWithKey(key, x, k);
      OneWithKey(key, last, k);
      var a := WithKey(key, s[..n], k);
      assert a + [] == a && (a + [x]) + [] == (a + []) + [x] && (a + []) + [last] == (a + [last]) + [];
    }
  }

  lemma InsertStep<T>(key: T -> real, x: T, s: seq<T>)
    ensures Insert(key, x, s) == if s == [] || key(s[|s| - 1]) <= key(x) then s + [x]
                                 else Insert(key, x, s[..|s| - 1]) + [s[|s| - 1]]
  {
  }

  lemma SortedPrefix<T>(key: T -> real, s: seq<T>, n: nat)
    requires Sorted(key, s) && n <= |s|
    ensures Sorted(key, s[..n])
  {
  }

  lemma SortStep<T>(key: T -> real, s: seq<T>)
    requires s != []
    ensures StableSort(key, s) == Insert(key, s[|s| - 1], StableSort(key, s[..|s| - 1]))
  {
  }

  lemma SortNothing<T>(key: T -> real)
    ensures StableSort(key, []) == []
  {
  }

  /** Elements with equal keys keep their order. */
  lemma {:induction false} SortStable<T>(key: T -> real, s: seq<T>, k: real)
    ensures WithKey(key, StableSort(key, s), k) == WithKey(key, s, k)
  {
    hide *;
    if s == [] {
      SortNothing(key);
    } else {
      var n := |s| - 1;
      SortStable(key, s[..n], k);
      SortSorts(key, s[..n]);
      SortStep(key, s);
      InsertStable(key, s[n], StableSort(key, s[..n]), k);
      WithKeyConcat(key, StableSort(key, s[..n]), [s[n]], k);
      WithKeyConcat(key, s[..n], [s[n]], k);
      assert s == s[..n] + [s[n]];
    }
  }

  /** Sorted and stable leaves no choice: the sort is the only such list. */
  lemma {:induction false} SortUnique<T>(key: T -> real, a: seq<T>, b: seq<T>)
    requires Sorted(key, a) && Sorted(key, b)
    requires forall k :: WithKey(key, a, k) == WithKey(key, b, k)
    ensures a == b
  {
    if a == [] || b == [] {
      var c := if a == [] then b else a;
      if c != [] {
        WithKeyMember(key, if a == [] then a else b, key(c[|c| - 1]));
      }
    } else {
      var a', b' := a[..|a| - 1], b[..|b| - 1];
      var x, y := a[|a| - 1], b[|b| - 1];
      LastIsLargest(key, a, b);
      LastIsLargest(key, b, a);
      var k := key(x);
      assert WithKey(key, a, k) == WithKey(key, b, k);
      LastOf(WithKey(key, a', k), x, WithKey(key, b', k), y);
      forall k': real ensures WithKey(key, a', k') == WithKey(key, b', k') {
        assert WithKey(key, a, k') == WithKey(key, b, k');
        if k' == k {
          LastOf(WithKey(key, a', k), x, WithKey(key, b', k), y);
        } else {
          assert WithKey(key, a', k') + [] == WithKey(key, a', k');
          assert WithKey(key, b', k') + [] == WithKey(key, b', k');
        }
      }
      SortUnique(key, a', b');
      assert a == a' + [x] && b == b' + [y];
    }
  }

  lemma LastOf<T>(a: seq<T>, x: T, b: seq<T>, y: T)
    requires a + [x] == b + [y]
    ensures a == b && x == y
  {
    assert (a + [x])[..|a|] == a && (b + [y])[..|b|] == b;
    assert (a + [x])[|a|] == x && (b + [y])[|b|] == y;
  }

  lemma {:induction false} WithKeyMember<T>(key: T -> real, s: seq<T>, k: real)
    requires WithKey(key, s, k) != []
    ensures exists i :: 0 <= i < |s| && key(s[i]) == k
  {
    if forall i :: 0 <= i < |s| ==> key(s[i]) != k {
      WithKeyNone(key, s, k);
    }
  }

  lemma LastIsLargest<T>(key: T -> real, a: seq<T>, b: seq<T>)
    requires a != [] && b != [] && Sorted(key, a) && Sorted(key, b)
    requires forall k :: WithKey(key, a, k) == WithKey(key, b, k)
    ensures key(a[|a| - 1]) <= key(b[|b| - 1])
  {
    var k := key(a[|a| - 1]);
    assert WithKey(key, a, k) != [];
    hide WithKey;
    WithKeyMember(key, b, k);
  }
}
