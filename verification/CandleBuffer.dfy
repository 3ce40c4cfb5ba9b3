/** The per-symbol candle cache of src/data/candle_manager.py. */
module CandleBuffer {
  import opened PySeq
  import Sorting

  /** Microseconds since the epoch. */
  type Time = int

  datatype Candle = Candle(openTime: Time, closeTime: Time, open: real, high: real, low: real,
                           close: real, volume: real, quoteVolume: real, trades: int)

  function OpenTime(c: Candle): real {
    c.openTime as real
  }

  ghost predicate Increasing(s: seq<Candle>) {
    forall i, j :: 0 <= i < j < |s| ==> s[i].openTime < s[j].openTime
  }

  /** Position of the first candle with this open time, or -1. */
  function IndexOf(s: seq<Candle>, t: Time): (i: int)
    ensures -1 <= i < |s|
    ensures i >= 0 ==> s[i].openTime == t && forall j :: 0 <= j < i ==> s[j].openTime != t
    ensures i == -1 ==> forall j :: 0 <= j < |s| ==> s[j].openTime != t
  {
    if s == [] then -1
    else
      var i := IndexOf(s[..|s| - 1], t);
      if i >= 0 then i else if s[|s| - 1].openTime == t then |s| - 1 else -1
  }

  /** What one `add` does to the list of candles. */
  function Added(s: seq<Candle>, c: Candle, maxSize: int): seq<Candle> {
    var i := IndexOf(s, c.openTime);
    if i >= 0 then s[i := c]
    else
      var sorted := Sorting.StableSort(OpenTime, s + [c]);
      if |sorted| > maxSize then Tail(sorted, maxSize) else sorted
  }

  function Replay(adds: seq<Candle>, maxSize: int): seq<Candle> {
    if adds == [] then [] else Added(Replay(adds[..|adds| - 1], maxSize), adds[|adds| - 1], maxSize)
  }

  /** The reference: for every open time ever added, the last candle added for it. */
  ghost function LastWrites(adds: seq<Candle>): map<Time, Candle> {
    if adds == [] then map[]
    else
      var c := adds[|adds| - 1];
      LastWrites(adds[..|adds| - 1])[c.openTime := c]
  }

  ghost predicate Holds(s: seq<Candle>, t: Time) {
    exists i :: 0 <= i < |s| && s[i].openTime == t
  }

  /** s lists, in time order, the n newest entries of m (all of them if m has fewer). */
  ghost predicate IsNewest(s: seq<Candle>, m: map<Time, Candle>, n: nat) {
    && Increasing(s)
    && |s| == (if |m| <= n then |m| else n)
    && (forall i :: 0 <= i < |s| ==> s[i].openTime in m && m[s[i].openTime] == s[i])
    && (forall t, i :: t in m && !Holds(s, t) && 0 <= i < |s| ==> t < s[i].openTime)
  }

  ghost function Times(s: seq<Candle>): set<Time> {
    set i | 0 <= i < |s| :: s[i].openTime
  }

  lemma {:induction false} TimesSize(s: seq<Candle>)
    requires Increasing(s)
    ensures |Times(s)| == |s|
  {
    if s == [] {
    } else {
      var n := |s| - 1;
      TimesSize(s[..n]);
      assert Times(s) == Times(s[..n]) + {s[n].openTime};
    }
  }

  /** The newest entries of a map are one definite list. */
  lemma {:induction false} NewestUnique(a: seq<Candle>, b: seq<Candle>, m: map<Time, Candle>, n: nat)
    requires IsNewest(a, m, n) && IsNewest(b, m, n)
    ensures a == b
  {
    NewestSubset(a, b, m, n);
    NewestSubset(b, a, m, n);
    SameTimes(a, b, m);
  }

  lemma NewestSubset(a: seq<Candle>, b: seq<Candle>, m: map<Time, Candle>, n: nat)
    requires IsNewest(a, m, n) && IsNewest(b, m, n)
    ensures Times(a) <= Times(b)
  {
    forall i | 0 <= i < |a| && !Holds(b, a[i].openTime) ensures false {
      // Everything in b is newer than a[i], hence in a: a would hold one candle too many.
      forall j | 0 <= j < |b| ensures b[j].openTime in Times(a) && b[j].openTime != a[i].openTime {
        assert a[i].openTime < b[j].openTime;
        if !Holds(a, b[j].openTime) {
          assert false;
        }
      }
      TimesSize(a);
      TimesSize(b);
      SubsetSize(Times(b), Times(a) - {a[i].openTime});
    }
  }

  lemma SubsetSize(a: set<Time>, b: set<Time>)
    requires a <= b
    ensures |a| <= |b|
  {
    assert b == a + (b - a);
    assert a * (b - a) == {};
  }

  lemma {:induction false} SameTimes(a: seq<Candle>, b: seq<Candle>, m: map<Time, Candle>)
    requires Increasing(a) && Increasing(b) && Times(a) == Times(b)
    requires forall i :: 0 <= i < |a| ==> a[i].openTime in m && m[a[i].openTime] == a[i]
    requires forall i :: 0 <= i < |b| ==> b[i].openTime in m && m[b[i].openTime] == b[i]
    ensures a == b
  {
    TimesSize(a);
    TimesSize(b);
    if a == [] {
    } else {
      var n := |a| - 1;
      assert a[n].openTime in Times(b) && b[n].openTime in Times(a);
      assert a[n] == b[n];
      assert Times(a[..n]) == Times(a) - {a[n].openTime};
      assert Times(b[..n]) == Times(b) - {b[n].openTime};
      SameTimes(a[..n], b[..n], m);
      assert a == a[..n] + [a[n]] && b == b[..n] + [b[n]];
    }
  }

  ghost predicate Splits(s: seq<Candle>, t: Time, p: nat) {
    && p <= |s|
    && (forall i :: 0 <= i < p ==> s[i].openTime < t)
    && (forall i :: p <= i < |s| ==> t < s[i].openTime)
  }

  ghost function Spliced(s: seq<Candle>, c: Candle, p: nat): (r: seq<Candle>)
    requires p <= |s|
    ensures |r| == |s| + 1 && r[p] == c
    ensures forall i :: 0 <= i < p ==> r[i] == s[i]
    ensures forall i :: p < i < |r| ==> r[i] == s[i - 1]
  {
    s[..p] + [c] + s[p..]
  }

  /** Where the sort puts a candle whose time is not in the list yet. */
  lemma {:induction false} InsertAt(s: seq<Candle>, c: Candle) returns (p: nat)
    requires Increasing(s) && forall i :: 0 <= i < |s| ==> s[i].openTime != c.openTime
    ensures Splits(s, c.openTime, p) && Sorting.Insert(OpenTime, c, s) == Spliced(s, c, p)
  {
    hide Splits, Sorting.Insert, Spliced;
    if s == [] || s[|s| - 1].openTime < c.openTime {
      p := |s|;
      InsertEnd(s, c);
    } else {
      p := InsertAt(s[..|s| - 1], c);
      SplitsMore(s, c.openTime, p);
      InsertEarlier(s, c, p);
    }
  }

  lemma InsertEnd(s: seq<Candle>, c: Candle)
    requires Increasing(s) && (s == [] || s[|s| - 1].openTime < c.openTime)
    ensures Splits(s, c.openTime, |s|) && Sorting.Insert(OpenTime, c, s) == Spliced(s, c, |s|)
  {
  }

  lemma InsertEarlier(s: seq<Candle>, c: Candle, p: nat)
    requires s != [] && c.openTime < s[|s| - 1].openTime && Splits(s, c.openTime, p) && p < |s|
    requires Sorting.Insert(OpenTime, c, s[..|s| - 1]) == Spliced(s[..|s| - 1], c, p)
    ensures Sorting.Insert(OpenTime, c, s) == Spliced(s, c, p)
  {
    hide Splits, Increasing;
    var n := |s| - 1;
    assert Spliced(s[..n], c, p) + [s[n]] == Spliced(s, c, p);
  }

  lemma SplitsMore(s: seq<Candle>, t: Time, p: nat)
    requires s != [] && Splits(s[..|s| - 1], t, p) && t < s[|s| - 1].openTime
    ensures Splits(s, t, p) && p < |s|
  {
    var n := |s| - 1;
    assert forall i :: 0 <= i < n ==> s[..n][i] == s[i];
  }

  lemma SortAt(s: seq<Candle>, c: Candle) returns (p: nat)
    requires Increasing(s) && IndexOf(s, c.openTime) == -1
    ensures Splits(s, c.openTime, p)
    ensures Sorting.StableSort(OpenTime, s + [c]) == Spliced(s, c, p)
  {
    p := InsertAt(s, c);
    assert (s + [c])[..|s|] == s;
    Sorting.SortIdempotent(OpenTime, s);
  }

  lemma SplicedFacts(s: seq<Candle>, c: Candle, p: nat)
    requires Increasing(s) && Splits(s, c.openTime, p)
    ensures Increasing(Spliced(s, c, p))
    ensures forall t :: Holds(s, t) || t == c.openTime ==> Holds(Spliced(s, c, p), t)
  {
    var r := Spliced(s, c, p);
    forall t | Holds(s, t) || t == c.openTime ensures Holds(r, t) {
      if t == c.openTime {
        assert r[p].openTime == t;
      } else {
        var i :| 0 <= i < |s| && s[i].openTime == t;
        assert r[if i < p then i else i + 1].openTime == t;
      }
    }
  }

  /** One `add` keeps the buffer equal to the newest entries of the last-write map. */
  lemma AddRefines(s: seq<Candle>, c: Candle, m: map<Time, Candle>, maxSize: int)
    requires maxSize >= 1 && IsNewest(s, m, maxSize)
    ensures IsNewest(Added(s, c, maxSize), m[c.openTime := c], maxSize)
  {
    var m' := m[c.openTime := c];
    var i := IndexOf(s, c.openTime);
    if i >= 0 {
      assert m'.Keys == m.Keys;
      var s' := s[i := c];
      forall t ensures Holds(s', t) <==> Holds(s, t) {
        if Holds(s, t) {
          var j :| 0 <= j < |s| && s[j].openTime == t;
          assert s'[j].openTime == t;
        }
      }
    } else {
      var p := SortAt(s, c);
      if |s| < maxSize {
        InsertBelowCapacity(s, c, m, p, maxSize);
      } else {
        InsertAtCapacity(s, c, m, p, maxSize);
      }
    }
  }

  lemma InsertBelowCapacity(s: seq<Candle>, c: Candle, m: map<Time, Candle>, p: nat, maxSize: nat)
    requires IsNewest(s, m, maxSize) && Splits(s, c.openTime, p) && |s| < maxSize
    ensures IsNewest(Spliced(s, c, p), m[c.openTime := c], maxSize)
  {
    AllHeld(s, m);
    SplicedFacts(s, c, p);
    assert m[c.openTime := c].Keys == m.Keys + {c.openTime};
  }

  lemma InsertAtCapacity(s: seq<Candle>, c: Candle, m: map<Time, Candle>, p: nat, maxSize: nat)
    requires IsNewest(s, m, maxSize) && Splits(s, c.openTime, p) && |s| == maxSize >= 1
    ensures IsNewest(Spliced(s, c, p)[1..], m[c.openTime := c], maxSize)
  {
    var m', r := m[c.openTime := c], Spliced(s, c, p);
    var r' := r[1..];
    SplicedFacts(s, c, p);
    assert |m'| >= |m| by {
      assert m'.Keys == m.Keys + {c.openTime};
      SubsetSize(m.Keys, m'.Keys);
    }
    forall t | t in m' && !Holds(r', t) ensures t < r[1].openTime {
      if Holds(r, t) {
        HoldsTail(r, t);
      } else {
        assert t < s[0].openTime;
      }
    }
  }

  lemma HoldsTail(r: seq<Candle>, t: Time)
    requires Holds(r, t)
    ensures r[0].openTime == t || Holds(r[1..], t)
  {
    var j :| 0 <= j < |r| && r[j].openTime == t;
    if j > 0 {
      assert r[1..][j - 1].openTime == t;
    }
  }

  lemma AllHeld(s: seq<Candle>, m: map<Time, Candle>)
    requires Increasing(s) && |s| == |m|
    requires forall i :: 0 <= i < |s| ==> s[i].openTime in m
    ensures forall t :: t in m ==> Holds(s, t)
  {
    TimesSize(s);
    forall t | t in m ensures Holds(s, t) {
      if !Holds(s, t) {
        SubsetSize(Times(s), m.Keys - {t});
        assert false;
      }
    }
  }

  /** After any sequence of adds the buffer is the newest part of the last-write map. */
  lemma {:induction false} ReplayRefines(adds: seq<Candle>, maxSize: int)
    requires maxSize >= 1
    ensures IsNewest(Replay(adds, maxSize), LastWrites(adds), maxSize)
  {
    if adds == [] {
    } else {
      var n := |adds| - 1;
      ReplayRefines(adds[..n], maxSize);
      AddRefines(Replay(adds[..n], maxSize), adds[n], LastWrites(adds[..n]), maxSize);
    }
  }

  /** Only the last write per open time matters, not the order of the adds. */
  lemma OrderIrrelevant(adds: seq<Candle>, adds': seq<Candle>, maxSize: int)
    requires maxSize >= 1 && LastWrites(adds) == LastWrites(adds')
    ensures Replay(adds, maxSize) == Replay(adds', maxSize)
  {
    ReplayRefines(adds, maxSize);
    ReplayRefines(adds', maxSize);
    NewestUnique(Replay(adds, maxSize), Replay(adds', maxSize), LastWrites(adds), maxSize);
  }

  /** Two adds for different times commute, whatever happened before and happens after. */
  lemma {:induction false} AddsCommute(before: seq<Candle>, a: Candle, b: Candle, after: seq<Candle>, maxSize: int)
    requires maxSize >= 1 && a.openTime != b.openTime
    ensures Replay(before + [a, b] + after, maxSize) == Replay(before + [b, a] + after, maxSize)
  {
    SwapWrites(before, a, b, after);
    OrderIrrelevant(before + [a, b] + after, before + [b, a] + after, maxSize);
  }

  lemma {:induction false} SwapWrites(before: seq<Candle>, a: Candle, b: Candle, after: seq<Candle>)
    requires a.openTime != b.openTime
    ensures LastWrites(before + [a, b] + after) == LastWrites(before + [b, a] + after)
  {
    var x, y := before + [a, b] + after, before + [b, a] + after;
    if after == [] {
      assert x[..|x| - 1] == before + [a] && y[..|y| - 1] == before + [b];
      assert (before + [a])[..|before|] == before && (before + [b])[..|before|] == before;
    } else {
      var rest := after[..|after| - 1];
      assert x[..|x| - 1] == before + [a, b] + rest && y[..|y| - 1] == before + [b, a] + rest;
      SwapWrites(before, a, b, rest);
    }
  }

  /** Once a time has been written and is no longer in the buffer, no later add brings it back,
      not even an add for that very time. */
  lemma {:induction false} EvictedStaysOut(adds: seq<Candle>, more: seq<Candle>, t: Time, maxSize: int)
    requires maxSize >= 1 && t in LastWrites(adds) && !Holds(Replay(adds, maxSize), t)
    ensures !Holds(Replay(adds + more, maxSize), t)
    ensures t in LastWrites(adds + more) && |Replay(adds + more, maxSize)| == maxSize
  {
    hide Replay, LastWrites, Added, Holds, IsNewest;
    if more == [] {
      assert adds + more == adds;
      ReplayRefines(adds, maxSize);
      EvictedMeansFull(Replay(adds, maxSize), LastWrites(adds), t, maxSize);
    } else {
      var n := |more| - 1;
      var all := adds + more;
      EvictedStaysOut(adds, more[..n], t, maxSize);
      assert all == (adds + more[..n]) + [more[n]];
      ReplaySnoc(adds + more[..n], more[n], maxSize);
      ReplayRefines(adds + more[..n], maxSize);
      FullStaysOut(Replay(adds + more[..n], maxSize), more[n], LastWrites(adds + more[..n]), t, maxSize);
    }
  }

  lemma EvictedMeansFull(s: seq<Candle>, m: map<Time, Candle>, t: Time, n: nat)
    requires IsNewest(s, m, n) && t in m && !Holds(s, t)
    ensures |s| == n
  {
    if |m| <= n {
      AllHeld(s, m);
    }
  }

  lemma ReplaySnoc(adds: seq<Candle>, c: Candle, maxSize: int)
    ensures Replay(adds + [c], maxSize) == Added(Replay(adds, maxSize), c, maxSize)
    ensures LastWrites(adds + [c]) == LastWrites(adds)[c.openTime := c]
  {
    hide Added;
    assert (adds + [c])[..|adds|] == adds;
  }

  lemma FullStaysOut(s: seq<Candle>, c: Candle, m: map<Time, Candle>, t: Time, maxSize: int)
    requires maxSize >= 1 && IsNewest(s, m, maxSize) && |s| == maxSize && t in m && !Holds(s, t)
    ensures !Holds(Added(s, c, maxSize), t) && |Added(s, c, maxSize)| == maxSize
  {
    if IndexOf(s, c.openTime) == -1 {
      var p := SortAt(s, c);
      var r := Spliced(s, c, p);
      assert Added(s, c, maxSize) == r[1..];
      assert t < s[0].openTime;
    }
  }

  /** How many candles `s[-count:]` shows of a buffer of the given size; for 0 all of them, for a
      negative count all but the first -count. */
  function Shown(size: nat, count: int): nat {
    if count > 0 then (if count <= size then count else size)
    else if -count >= size then 0 else size + count
  }

  /** `s[-count:]` of the buffer: the newest candles of everything ever added, as many as it shows. */
  lemma LatestWindow(adds: seq<Candle>, count: int, maxSize: int)
    requires maxSize >= 1
    ensures var s := Replay(adds, maxSize);
            IsNewest(Tail(s, count), LastWrites(adds), Shown(|s|, count)) && |Tail(s, count)| == Shown(|s|, count)
  {
    ReplayRefines(adds, maxSize);
    hide *;
    var s := Replay(adds, maxSize);
    NewestSize(s, LastWrites(adds), maxSize);
    TailShown(s, count);
    var n := Shown(|s|, count);
    if n == 0 {
      NoneNewest(LastWrites(adds));
    } else {
      ShownAtMost(|s|, count);
      WindowNewest(s, LastWrites(adds), n, maxSize);
    }
  }

  lemma NewestSize(s: seq<Candle>, m: map<Time, Candle>, n: nat)
    requires IsNewest(s, m, n)
    ensures |s| <= n
  {
  }

  lemma ShownAtMost(size: nat, count: int)
    ensures Shown(size, count) <= size
  {
  }

  lemma TailShown(s: seq<Candle>, count: int)
    ensures |Tail(s, count)| == Shown(|s|, count)
    ensures Shown(|s|, count) == 0 ==> Tail(s, count) == []
    ensures Shown(|s|, count) > 0 ==> Tail(s, count) == Tail(s, Shown(|s|, count))
  {
  }

  lemma NoneNewest(m: map<Time, Candle>)
    ensures IsNewest([], m, 0)
  {
  }

  lemma WindowNewest(s: seq<Candle>, m: map<Time, Candle>, count: nat, n: nat)
    requires IsNewest(s, m, n) && 1 <= count <= n
    ensures IsNewest(Tail(s, count), m, count)
  {
    if |s| > count {
      TailNewest(s, m, |s| - count, n);
    }
  }

  lemma TailNewest(s: seq<Candle>, m: map<Time, Candle>, d: nat, n: nat)
    requires IsNewest(s, m, n) && 0 < d < |s|
    ensures IsNewest(s[d..], m, |s| - d)
  {
    var w := s[d..];
    forall j | d <= j < |s| ensures Holds(w, s[j].openTime) {
      assert w[j - d] == s[j];
    }
    forall t | t in m && !Holds(w, t) ensures t < w[0].openTime {
      if !Holds(s, t) { assert t < s[0].openTime; }
    }
  }

  /** The size bound the class advertises holds for every sequence of adds exactly when
      max_size is at least 1: with max_size <= 0 already the first candle breaks it. */
  lemma SizeBound(maxSize: int)
    ensures (forall adds :: |Replay(adds, maxSize)| <= maxSize) <==> maxSize >= 1
  {
    if maxSize >= 1 {
      forall adds ensures |Replay(adds, maxSize)| <= maxSize {
        ReplayRefines(adds, maxSize);
      }
    } else {
      var c := Candle(0, 0, 0.0, 0.0, 0.0, 0.0, 0.0, 0.0, 0);
      Sorting.SortSorts(OpenTime, [] + [c]);
      assert [c][..0] == [];
      assert Replay([c], maxSize) == Added([], c, maxSize);
      assert |Replay([c], maxSize)| > maxSize;
    }
  }

  class Buffer {
    var candles: seq<Candle>
    const maxSize: int

    constructor (maxSize: int)
      ensures candles == [] && this.maxSize == maxSize
    {
      candles := [];
      this.maxSize := maxSize;
    }

    /** Replace the candle of the same open time, or append, sort and truncate. */
    method Add(candle: Candle)
      modifies this`candles
      ensures candles == Added(old(candles), candle, maxSize)
    {
      var i := 0;
      while i < |candles|
        invariant 0 <= i <= |candles|
        invariant candles == old(candles)
        invariant forall j :: 0 <= j < i ==> candles[j].openTime != candle.openTime
      {
        if candles[i].openTime == candle.openTime {
          candles := candles[i := candle];
          return;
        }
        i := i + 1;
      }
      candles := Sorting.StableSort(OpenTime, candles + [candle]);
      if |candles| > maxSize {
        candles := Tail(candles, maxSize);
      }
    }

    function GetLatest(count: int): seq<Candle>
      reads this
    {
      if candles != [] then Tail(candles, count) else []
    }

    /** After any adds, `get_latest` answers with the newest of all that was ever added. */
    lemma LatestIsNewest(adds: seq<Candle>, count: int)
      requires maxSize >= 1 && candles == Replay(adds, maxSize)
      ensures |GetLatest(count)| == Shown(|candles|, count)
      ensures IsNewest(GetLatest(count), LastWrites(adds), |GetLatest(count)|)
    {
      LatestWindow(adds, count, maxSize);
      hide Replay, LastWrites, IsNewest;
      assert candles == [] ==> Tail(candles, count) == [];
    }

    /** `load_history`: feed a batch, one add per candle. */
    method AddAll(batch: seq<Candle>, ghost earlier: seq<Candle>)
      requires candles == Replay(earlier, maxSize)
      modifies this`candles
      ensures candles == Replay(earlier + batch, maxSize)
    {
      hide Added;
      assert earlier + batch[..0] == earlier;
      for i := 0 to |batch|
        invariant candles == Replay(earlier + batch[..i], maxSize)
      {
        assert earlier + batch[..i + 1] == (earlier + batch[..i]) + [batch[i]];
        ReplaySnoc(earlier + batch[..i], batch[i], maxSize);
        Add(batch[i]);
      }
      assert batch[..|batch|] == batch;
    }
  }
}
