/** `sorted` on a set of timestamps. */
module TimeOrder {

  lemma {:induction false} LeastExists(s: set<int>)
    requires s != {}
    ensures exists m :: m in s && forall x :: x in s ==> m <= x
  {
    if forall x :: x !in s {
      assert false;
    }
    var a :| a in s;
    if s - {a} == {} {
      assert s == {a};
    } else {
      LeastExists(s - {a});
      var b :| b in s - {a} && forall x :: x in s - {a} ==> b <= x;
      var m := if a < b then a else b;
      assert forall x :: x in s ==> x == a || x in s - {a};
      assert m in s && forall x :: x in s ==> m <= x;
    }
  }

  function SortedTimes(s: set<int>): seq<int> {
    if s == {} then []
    else
      LeastExists(s);
      var m :| m in s && forall x :: x in s ==> m <= x;
      [m] + SortedTimes(s - {m})
  }

  lemma SomeTime(s: set<int>)
    requires s != {}
    ensures SortedTimes(s) != []
  {
  }

  /** Exactly the elements of the set, in increasing order. */
  lemma {:induction false} SortedTimesOrder(s: set<int>)
    ensures forall i, j :: 0 <= i < j < |SortedTimes(s)| ==> SortedTimes(s)[i] < SortedTimes(s)[j]
    ensures forall t :: t in s <==> t in SortedTimes(s)
  {
    if s != {} {
      LeastExists(s);
      var m :| m in s && forall x :: x in s ==> m <= x;
      var rest := SortedTimes(s - {m});
      SortedTimesOrder(s - {m});
      assert SortedTimes(s) == [m] + rest;
      forall j | 0 <= j < |rest| ensures m < rest[j] {
        assert rest[j] in rest;
      }
    }
  }

  /** Two sets with the same elements up to the horizon sort to the same beginning. */
  lemma {:induction false} SamePrefix(a: set<int>, b: set<int>, horizon: int, k: nat)
    requires forall t :: t <= horizon ==> (t in a <==> t in b)
    requires k <= |SortedTimes(a)| && forall i :: 0 <= i < k ==> SortedTimes(a)[i] <= horizon
    ensures k <= |SortedTimes(b)| && SortedTimes(a)[..k] == SortedTimes(b)[..k]
  {
    if k == 0 {
    } else {
      LeastExists(a);
      var m :| m in a && forall x :: x in a ==> m <= x;
      assert SortedTimes(a) == [m] + SortedTimes(a - {m});
      assert SortedTimes(a)[0] == m && m in b;
      LeastExists(b);
      var n :| n in b && forall x :: x in b ==> n <= x;
      assert m == n;
      assert SortedTimes(b) == [m] + SortedTimes(b - {m});
      forall i | 0 <= i < k - 1 ensures SortedTimes(a - {m})[i] <= horizon {
        assert SortedTimes(a)[i + 1] == SortedTimes(a - {m})[i];
      }
      SamePrefix(a - {m}, b - {m}, horizon, k - 1);
      assert SortedTimes(a)[..k] == [m] + SortedTimes(a - {m})[..k - 1];
      assert SortedTimes(b)[..k] == [m] + SortedTimes(b - {m})[..k - 1];
    }
  }
}
