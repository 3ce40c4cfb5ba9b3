/** Python list operations the modelled code relies on, with Python's edge cases. */
module PySeq {

  datatype Option<+T> = None | Some(value: T) {
    function GetOr(default: T): T {
      if Some? then value else default
    }
  }

  /** `s[-n:]`. For n = 0 this is the whole list; for n < 0 it is `s[|n|:]`. */
  function Tail<T>(s: seq<T>, n: int): seq<T> {
    if n > 0 then
      if |s| <= n then s else s[|s| - n..]
    else if -n >= |s| then [] else s[-n..]
  }

  /** `sum(s)` over exact reals, accumulated left to right. */
  function Sum(s: seq<real>): real {
    if s == [] then 0.0 else Sum(s[..|s| - 1]) + s[|s| - 1]
  }

  function Max(a: real, b: real): real {
    if a >= b then a else b
  }

  function Min(a: real, b: real): real {
    if a <= b then a else b
  }

  function Abs(a: real): real {
    if a < 0.0 then -a else a
  }

  function Map<A, B>(f: A -> B, s: seq<A>): (r: seq<B>)
    ensures |r| == |s|
    ensures forall i :: 0 <= i < |s| ==> r[i] == f(s[i])
  {
    seq(|s|, i requires 0 <= i < |s| => f(s[i]))
  }

  ghost predicate NoRepeats<T>(s: seq<T>) {
    forall i, j :: 0 <= i < j < |s| ==> s[i] != s[j]
  }

  /** `at` lists, in order, the places of exactly the elements with the property. */
  ghost predicate AllPlaces<T>(s: seq<T>, has: T -> bool, at: seq<nat>) {
    && (forall i, j :: 0 <= i < j < |at| ==> at[i] < at[j])
    && (forall i :: 0 <= i < |at| ==> at[i] < |s| && has(s[at[i]]))
    && (forall x :: 0 <= x < |s| && has(s[x]) ==> x in at)
  }

  lemma AllPlacesSnoc<T>(s: seq<T>, has: T -> bool, before: seq<nat>)
    requires s != [] && AllPlaces(s[..|s| - 1], has, before)
    ensures AllPlaces(s, has, if has(s[|s| - 1]) then before + [|s| - 1] else before)
  {
    var n := |s| - 1;
    var at := if has(s[n]) then before + [n] else before;
    forall x | 0 <= x < |s| && has(s[x]) ensures x in at {
      if x < n {
        assert has(s[..n][x]);
        assert x in before;
      } else {
        assert at[|before|] == x;
      }
    }
    forall i | 0 <= i < |before| ensures before[i] < n && has(s[before[i]]) {
      assert has(s[..n][before[i]]);
    }
  }

  lemma SumSnoc(s: seq<real>, x: real)
    ensures Sum(s + [x]) == Sum(s) + x
  {
    assert (s + [x])[..|s|] == s;
  }

  lemma {:induction false} SumConcat(a: seq<real>, b: seq<real>)
    ensures Sum(a + b) == Sum(a) + Sum(b)
  {
    if b == [] {
      assert a + b == a;
    } else {
      var n := |b| - 1;
      assert a + b == (a + b[..n]) + [b[n]];
      SumSnoc(a + b[..n], b[n]);
      SumConcat(a, b[..n]);
    }
  }
}
