/** The rotating window of `_refresh_candles` in src/engine/core.py. */
module RoundRobin {

  /** Symbols refreshed per call. */
  const BATCH: nat := 15

  function Start(round: nat, n: nat): nat {
    (round * BATCH) % if n > 1 then n else 1
  }

  function End(round: nat, n: nat): nat {
    if Start(round, n) + BATCH <= n then Start(round, n) + BATCH else n
  }

  predicate Refreshed(round: nat, n: nat, i: nat) {
    Start(round, n) <= i < End(round, n)
  }

  class CandleRefresher {
    var candleRefreshRound: nat

    constructor ()
      ensures candleRefreshRound == 0
    {
      candleRefreshRound := 0;
    }

    /** One call: the symbols to refresh now; the round advances whatever the list. */
    method RefreshCandles(allSymbols: seq<string>) returns (watched: seq<string>)
      modifies this
      ensures candleRefreshRound == old(candleRefreshRound) + 1
      ensures |watched| <= BATCH && (allSymbols != [] ==> watched != [])
      ensures forall i :: 0 <= i < |allSymbols| && Refreshed(old(candleRefreshRound), |allSymbols|, i) ==> allSymbols[i] in watched
      ensures forall s :: s in watched ==> exists i ::
                0 <= i < |allSymbols| && allSymbols[i] == s && Refreshed(old(candleRefreshRound), |allSymbols|, i)
    {
      var n := |allSymbols|;
      var startIdx := (candleRefreshRound * BATCH) % (if n > 1 then n else 1);
      var endIdx := if startIdx + BATCH <= n then startIdx + BATCH else n;
      WindowSize(candleRefreshRound, n);
      assert startIdx == Start(candleRefreshRound, n) && endIdx == End(candleRefreshRound, n);
      hide Start, End;
      watched := allSymbols[startIdx..endIdx];
      forall i | startIdx <= i < endIdx ensures allSymbols[i] in watched {
        assert watched[i - startIdx] == allSymbols[i];
      }
      candleRefreshRound := candleRefreshRound + 1;
    }
  }

  lemma ModRange(x: nat, m: nat)
    requires m > 0
    ensures 0 <= x % m < m
  {
  }

  lemma ModUnique(x: int, m: int, q: int, r: int)
    requires m > 0 && 0 <= r < m && x == q * m + r
    ensures x % m == r
  {
    var q', r' := x / m, x % m;
    assert x == q' * m + r' && 0 <= r' < m;
    if q < q' {
      MulStep(q, q', m);
    } else if q' < q {
      MulStep(q', q, m);
    }
  }

  lemma MulStep(a: int, b: int, m: int)
    requires a < b && m > 0
    ensures b * m >= a * m + m
  {
    assert b * m - a * m == (b - a) * m;
    assert (b - a - 1) * m >= 0;
  }

  /** Every window lies inside the list and holds between 1 and 15 symbols (none for an empty list). */
  lemma WindowSize(round: nat, n: nat)
    ensures n >= 1 ==> Start(round, n) < End(round, n) <= n && End(round, n) <= Start(round, n) + 15
    ensures n == 0 ==> Start(round, n) == End(round, n) == 0
  {
    ModRange(round * BATCH, if n > 1 then n else 1);
  }

  /** Symbol i is refreshed at every round congruent to i / 15 modulo the number of symbols. */
  lemma RefreshedAt(round: nat, n: nat, i: nat, laps: nat)
    requires i < n && round == i / 15 + laps * n
    ensures Refreshed(round, n, i)
  {
    var base := i / BATCH * BATCH;
    assert base <= i < base + BATCH;
    LapProduct(i / BATCH, laps, n);
    ModUnique(round * BATCH, n, laps * BATCH, base);
    if n == 1 {
      assert Start(round, n) == (round * BATCH) % n;
    }
  }

  lemma LapProduct(q: nat, laps: nat, n: nat)
    ensures (q + laps * n) * BATCH == laps * BATCH * n + q * BATCH
  {
    assert laps * n * BATCH == laps * BATCH * n;
  }

  /** Any n consecutive rounds refresh every symbol. */
  lemma AnyLapCovers(first: nat, n: nat, i: nat) returns (round: nat)
    requires i < n
    ensures first <= round < first + n && Refreshed(round, n, i)
  {
    hide Refreshed;
    var q, laps := i / BATCH, first / n;
    QuotientBelow(i);
    ModRange(first, n);
    assert first == laps * n + first % n;
    if first % n <= q {
      round := q + laps * n;
      RefreshedAt(round, n, i, laps);
    } else {
      NextLap(laps, n);
      round := q + (laps + 1) * n;
      RefreshedAt(round, n, i, laps + 1);
    }
  }

  lemma QuotientBelow(i: nat)
    ensures i / BATCH <= i
  {
  }

  lemma NextLap(laps: nat, n: nat)
    ensures (laps + 1) * n == laps * n + n
  {
  }

  /** Starting from round 0, the first ceil(n / 15) rounds already refresh every symbol, and no fewer do. */
  lemma FirstRoundsCover(n: nat, i: nat)
    requires i < n
    ensures Refreshed(i / 15, n, i)
    ensures i / 15 < (n + 14) / 15
    ensures forall r :: 0 <= r < i / 15 ==> !Refreshed(r, n, i)
  {
    RefreshedAt(i / BATCH, n, i, 0);
    forall r | 0 <= r < i / BATCH ensures !Refreshed(r, n, i) {
      assert r * BATCH + BATCH <= i;
      ModUnique(r * BATCH, n, 0, r * BATCH);
    }
  }

  // ---------------------------------------------------------------- how often each symbol is refreshed

  /** How many of the k rounds from `first` on start their window at s. */
  function StartsAt(first: nat, k: nat, n: nat, s: int): nat {
    if k == 0 then 0 else StartsAt(first, k - 1, n, s) + if Start(first + k - 1, n) == s then 1 else 0
  }

  /** How many of the k rounds from `first` on refresh symbol i. */
  function Refreshes(first: nat, k: nat, n: nat, i: nat): nat {
    if k == 0 then 0 else Refreshes(first, k - 1, n, i) + if Refreshed(first + k - 1, n, i) then 1 else 0
  }

  /** The sum of `StartsAt` over lo <= s < hi. */
  function StartsIn(first: nat, k: nat, n: nat, lo: int, hi: int): nat
    decreases hi - lo
  {
    if hi <= lo then 0 else StartsIn(first, k, n, lo, hi - 1) + StartsAt(first, k, n, hi - 1)
  }

  function Gcd(a: nat, b: nat): nat
    decreases b
  {
    if b == 0 then a else Gcd(b, a % b)
  }

  /** A window refreshes i exactly when it starts among the 15 places that end at i. */
  lemma RefreshedIff(round: nat, n: nat, i: nat)
    requires i < n
    ensures Refreshed(round, n, i) <==> i - BATCH < Start(round, n) <= i
  {
    hide Start;
  }

  lemma {:induction false} StartsInStep(first: nat, k: nat, n: nat, lo: int, hi: int)
    requires k > 0
    ensures StartsIn(first, k, n, lo, hi)
         == StartsIn(first, k - 1, n, lo, hi) + if lo <= Start(first + k - 1, n) < hi then 1 else 0
    decreases hi - lo
  {
    hide Start;
    if hi <= lo {
    } else {
      StartsInStep(first, k, n, lo, hi - 1);
    }
  }

  lemma {:induction false} NoStarts(first: nat, n: nat, lo: int, hi: int)
    ensures StartsIn(first, 0, n, lo, hi) == 0
    decreases hi - lo
  {
    if hi <= lo {
    } else {
      NoStarts(first, n, lo, hi - 1);
    }
  }

  lemma {:induction false} RefreshesAreStarts(first: nat, k: nat, n: nat, i: nat)
    requires i < n
    ensures Refreshes(first, k, n, i) == StartsIn(first, k, n, i - BATCH + 1, i + 1)
  {
    hide Start, StartsIn, Refreshed;
    if k == 0 {
      NoStarts(first, n, i - BATCH + 1, i + 1);
    } else {
      RefreshesAreStarts(first, k - 1, n, i);
      StartsInStep(first, k, n, i - BATCH + 1, i + 1);
      RefreshedIff(first + k - 1, n, i);
    }
  }

  /** Every round starts somewhere in the list. */
  lemma {:induction false} AllStarts(first: nat, k: nat, n: nat)
    requires n >= 1
    ensures StartsIn(first, k, n, 0, n) == k
  {
    hide Start, StartsIn;
    if k == 0 {
      NoStarts(first, n, 0, n);
    } else {
      AllStarts(first, k - 1, n);
      StartsInStep(first, k, n, 0, n);
      StartRange(first + k - 1, n);
    }
  }

  lemma StartRange(round: nat, n: nat)
    requires n >= 1
    ensures 0 <= Start(round, n) < n
  {
    ModRange(round * BATCH, if n > 1 then n else 1);
  }

  // n rounds on, the window is back where it was; one round on, it is 15 places further, cyclically.

  lemma StartPeriod(round: nat, n: nat)
    requires n >= 1
    ensures Start(round + n, n) == Start(round, n)
  {
    var x := round * BATCH;
    assert (round + n) * BATCH == x + BATCH * n;
    assert x == x / n * n + x % n;
    ModRange(x, n);
    assert x + BATCH * n == (x / n + BATCH) * n + x % n;
    ModUnique(x + BATCH * n, n, x / n + BATCH, x % n);
    StartIsMod(round, n);
    StartIsMod(round + n, n);
  }

  lemma StartIsMod(round: nat, n: nat)
    requires n >= 1
    ensures Start(round, n) == (round * BATCH) % n
  {
  }

  lemma StartNext(round: nat, n: nat)
    requires n >= 1
    ensures Start(round + 1, n) == (Start(round, n) + BATCH) % n
  {
    var x := round * BATCH;
    StartIsMod(round, n);
    StartIsMod(round + 1, n);
    AddMod(x, BATCH, n);
    assert (round + 1) * BATCH == x + BATCH;
  }

  lemma AddMod(x: int, d: int, n: int)
    requires n >= 1
    ensures (x % n + d) % n == (x + d) % n
  {
    var y := x % n + d;
    assert x + d == x / n * n + y;
    assert y == y / n * n + y % n;
    assert x + d == (x / n + y / n) * n + y % n;
    ModUnique(x + d, n, x / n + y / n, y % n);
  }

  lemma AddModInjective(x: int, y: int, d: int, n: int)
    requires n >= 1 && 0 <= x < n && 0 <= y < n && (x + d) % n == (y + d) % n
    ensures x == y
  {
    var a, b := (x + d) / n, (y + d) / n;
    assert x + d == a * n + (x + d) % n && y + d == b * n + (y + d) % n;
    if a < b {
      MulStep(a, b, n);
    } else if b < a {
      MulStep(b, a, n);
    }
  }

  /** Shifting the places by 15 is shifting the rounds by one. */
  lemma {:induction false} StartsShift(first: nat, k: nat, n: nat, s: int)
    requires n >= 1 && 0 <= s < n
    ensures StartsAt(first + 1, k, n, (s + BATCH) % n) == StartsAt(first, k, n, s)
  {
    hide Start;
    if k == 0 {
    } else {
      var r := first + k - 1;
      assert first + 1 + k - 1 == r + 1;
      StartsShift(first, k - 1, n, s);
      StartNext(r, n);
      StartRange(r, n);
      if Start(r, n) != s && (Start(r, n) + BATCH) % n == (s + BATCH) % n {
        AddModInjective(Start(r, n), s, BATCH, n);
      }
    }
  }

  lemma {:induction false} StartsHead(first: nat, k: nat, n: nat, s: int)
    ensures StartsAt(first, k + 1, n, s) == StartsAt(first + 1, k, n, s) + if Start(first, n) == s then 1 else 0
  {
    hide Start;
    if k == 0 {
    } else {
      assert first + 1 + k - 1 == first + (k + 1) - 1;
      StartsHead(first, k - 1, n, s);
    }
  }

  /** Over n rounds it does not matter where one begins to count. */
  lemma StartsAnywhere(first: nat, n: nat, s: int)
    requires n >= 1
    ensures StartsAt(first + 1, n, n, s) == StartsAt(first, n, n, s)
  {
    hide Start;
    StartsHead(first, n, n, s);
    StartPeriod(first, n);
    assert StartsAt(first, n + 1, n, s) == StartsAt(first, n, n, s) + if Start(first + n, n) == s then 1 else 0;
  }

  /** So the count is the same 15 places on, cyclically. */
  lemma StartsCycle(first: nat, n: nat, s: int)
    requires n >= 1 && 0 <= s < n
    ensures StartsAt(first, n, n, (s + BATCH) % n) == StartsAt(first, n, n, s)
  {
    StartsShift(first, n, n, s);
    StartsAnywhere(first, n, (s + BATCH) % n);
  }

  /** The count as a function on all integers, with period n by definition. */
  function Cyclic(first: nat, n: nat, x: int): nat
    requires n >= 1
  {
    StartsAt(first, n, n, x % n)
  }

  ghost predicate Period(first: nat, n: nat, p: int)
    requires n >= 1
  {
    forall x: int :: Cyclic(first, n, x + p) == Cyclic(first, n, x)
  }

  lemma BatchPeriod(first: nat, n: nat)
    requires n >= 1
    ensures Period(first, n, BATCH) && Period(first, n, n)
  {
    forall x: int ensures Cyclic(first, n, x + BATCH) == Cyclic(first, n, x) && Cyclic(first, n, x + n) == Cyclic(first, n, x) {
      ModBounds(x, n);
      StartsCycle(first, n, x % n);
      AddMod(x, BATCH, n);
      ModPlus(x, n);
    }
  }

  lemma ModBounds(x: int, n: int)
    requires n >= 1
    ensures 0 <= x % n < n
  {
  }

  lemma ModPlus(x: int, n: int)
    requires n >= 1
    ensures (x + n) % n == x % n
  {
    ModUnique(x + n, n, x / n + 1, x % n);
  }

  lemma {:induction false} Multiples(first: nat, n: nat, p: int, times: nat)
    requires n >= 1 && Period(first, n, p)
    ensures Period(first, n, times * p)
  {
    hide Cyclic;
    if times == 0 {
    } else {
      Multiples(first, n, p, times - 1);
      forall x: int ensures Cyclic(first, n, x + times * p) == Cyclic(first, n, x) {
        assert x + times * p == (x + (times - 1) * p) + p;
        assert Cyclic(first, n, (x + (times - 1) * p) + p) == Cyclic(first, n, x + (times - 1) * p);
      }
    }
  }

  lemma Difference(first: nat, n: nat, p: int, q: int)
    requires n >= 1 && Period(first, n, p) && Period(first, n, q)
    ensures Period(first, n, p - q)
  {
    hide Cyclic;
    forall x: int ensures Cyclic(first, n, x + (p - q)) == Cyclic(first, n, x) {
      assert Cyclic(first, n, (x + (p - q)) + q) == Cyclic(first, n, x + (p - q));
      assert (x + (p - q)) + q == x + p;
    }
  }

  /** Two periods have their greatest common divisor as a period: Euclid's algorithm. */
  lemma {:induction false} GcdPeriod(first: nat, n: nat, a: nat, b: nat)
    requires n >= 1 && Period(first, n, a) && Period(first, n, b)
    ensures Period(first, n, Gcd(a, b))
    decreases b
  {
    hide Period;
    if b == 0 {
    } else {
      Multiples(first, n, b, a / b);
      Difference(first, n, a, a / b * b);
      assert a - a / b * b == a % b;
      GcdPeriod(first, n, b, a % b);
    }
  }

  predicate Divides(d: nat, x: int) {
    d > 0 && x % d == 0
  }

  lemma {:induction false} GcdDivides(a: nat, b: nat)
    requires a > 0 || b > 0
    ensures Gcd(a, b) > 0 && Divides(Gcd(a, b), a) && Divides(Gcd(a, b), b)
    decreases b
  {
    if b == 0 {
      ModUnique(a, a, 1, 0);
    } else {
      ModBounds(a, b);
      GcdDivides(b, a % b);
      hide Gcd;
      DividesSum(Gcd(b, a % b), b, a % b, a / b);
      GcdStep(a, b);
      Euclid(a, b);
    }
  }

  lemma GcdStep(a: nat, b: nat)
    requires b > 0
    ensures Gcd(a, b) == Gcd(b, a % b)
  {
  }

  lemma Euclid(a: nat, b: nat)
    requires b > 0
    ensures a / b * b + a % b == a
  {
  }

  lemma DividesSum(g: nat, b: int, r: int, q: int)
    requires Divides(g, b) && Divides(g, r)
    ensures Divides(g, q * b + r)
  {
    var x, y := b / g, r / g;
    assert b == x * g && r == y * g;
    assert q * b + r == (q * x + y) * g by {
      assert q * (x * g) == q * x * g;
    }
    ModUnique(q * b + r, g, q * x + y, 0);
  }

  /** The distance between two starts: a divisor of both 15 and n. */
  function Stride(n: nat): nat {
    Gcd(BATCH, n)
  }

  lemma StrideDivides(n: nat)
    requires n >= 1
    ensures 0 < Stride(n) && Divides(Stride(n), BATCH) && Divides(Stride(n), n)
  {
    GcdDivides(BATCH, n);
  }

  lemma StartOnStride(round: nat, n: nat)
    requires n >= 1
    ensures Divides(Stride(n), Start(round, n))
  {
    var g := Stride(n);
    StrideDivides(n);
    hide Stride;
    var x := round * BATCH;
    StartIsMod(round, n);
    ModUnique(0, g, 0, 0);
    DividesSum(g, BATCH, 0, round);
    assert x % n == -(x / n) * n + x;
    DividesSum(g, n, x, -(x / n));
  }

  lemma {:induction false} NoStartsOff(first: nat, k: nat, n: nat, s: int)
    requires n >= 1 && !Divides(Stride(n), s)
    ensures StartsAt(first, k, n, s) == 0
  {
    hide Start, Stride;
    if k == 0 {
    } else {
      NoStartsOff(first, k - 1, n, s);
      StartOnStride(first + k - 1, n);
    }
  }

  /** All multiples of the stride are started equally often, nothing else is. */
  lemma StartsEqual(first: nat, n: nat, s: nat)
    requires s < n
    ensures StartsAt(first, n, n, s) == if Divides(Stride(n), s) then StartsAt(first, n, n, 0) else 0
  {
    var g := Stride(n);
    if Divides(g, s) {
      BatchPeriod(first, n);
      GcdPeriod(first, n, BATCH, n);
      Multiples(first, n, g, s / g);
      hide Stride, StartsAt;
      assert s == s / g * g;
      assert Cyclic(first, n, 0 + s / g * g) == Cyclic(first, n, 0);
      ModUnique(s, n, 0, s);
      ModUnique(0, n, 0, 0);
    } else {
      NoStartsOff(first, n, n, s);
    }
  }

  /** How many multiples of g there are below m. */
  function Below(g: nat, m: nat): nat
    requires g > 0
  {
    (m + g - 1) / g
  }

  lemma BelowStep(g: nat, m: nat)
    requires g > 0
    ensures Below(g, m + 1) == Below(g, m) + if Divides(g, m) then 1 else 0
  {
    var q, r := m / g, m % g;
    assert m == q * g + r;
    assert (q + 1) * g == q * g + g;
    DivUnique(m + g, g, q + 1, r);
    if r == 0 {
      DivUnique(m + g - 1, g, q, g - 1);
    } else {
      DivUnique(m + g - 1, g, q + 1, r - 1);
    }
  }

  lemma DivUnique(x: int, m: int, q: int, r: int)
    requires m > 0 && 0 <= r < m && x == q * m + r
    ensures x / m == q
  {
    ModUnique(x, m, q, r);
    assert x == x / m * m + x % m;
    SameFactor(q, x / m, m);
  }

  lemma SameFactor(a: int, b: int, m: int)
    requires m > 0 && a * m == b * m
    ensures a == b
  {
    if a < b {
      MulStep(a, b, m);
    } else if b < a {
      MulStep(b, a, m);
    }
  }

  lemma {:induction false} StartsBelow(first: nat, n: nat, m: nat)
    requires 1 <= n && m <= n && Stride(n) > 0
    ensures StartsIn(first, n, n, 0, m) == StartsAt(first, n, n, 0) * Below(Stride(n), m)
  {
    hide Stride, StartsAt;
    if m == 0 {
      DivUnique(Stride(n) - 1, Stride(n), 0, Stride(n) - 1);
    } else {
      StartsBelow(first, n, m - 1);
      StartsEqual(first, n, m - 1);
      BelowStep(Stride(n), m - 1);
      assert StartsIn(first, n, n, 0, m) == StartsIn(first, n, n, 0, m - 1) + StartsAt(first, n, n, m - 1);
      AddProduct(StartsAt(first, n, n, 0), Below(Stride(n), m - 1));
    }
  }

  lemma AddProduct(a: nat, b: nat)
    ensures a * (b + 1) == a * b + a
  {
  }

  /** In n rounds each multiple of the stride is started as often as the stride is long. */
  lemma StartsAtZero(first: nat, n: nat)
    requires n >= 1
    ensures Stride(n) > 0 && StartsAt(first, n, n, 0) == Stride(n)
  {
    hide *;
    StrideDivides(n);
    AllStarts(first, n, n);
    StartsBelow(first, n, n);
    var q := BelowMultiple(Stride(n), n);
    SameFactor(StartsAt(first, n, n, 0), Stride(n), q);
  }

  lemma BelowMultiple(g: nat, n: nat) returns (q: nat)
    requires g > 0 && Divides(g, n) && n >= 1
    ensures q > 0 && Below(g, n) == q && g * q == n
  {
    q := n / g;
    assert n == q * g;
    DivUnique(n + g - 1, g, q, g - 1);
  }

  lemma {:induction false} NoneNegative(first: nat, k: nat, n: nat, lo: int, hi: nat)
    requires n >= 1 && lo <= 0
    ensures StartsIn(first, k, n, lo, hi) == StartsIn(first, k, n, 0, hi)
  {
    hide StartsAt;
    if hi == 0 {
      NegativeOnly(first, k, n, lo);
    } else {
      NoneNegative(first, k, n, lo, hi - 1);
    }
  }

  lemma {:induction false} NegativeOnly(first: nat, k: nat, n: nat, lo: int)
    requires n >= 1 && lo <= 0
    ensures StartsIn(first, k, n, lo, 0) == 0
  {
    hide Start, StartsIn;
    if k == 0 {
      NoStarts(first, n, lo, 0);
    } else {
      NegativeOnly(first, k - 1, n, lo);
      StartsInStep(first, k, n, lo, 0);
      StartRange(first + k - 1, n);
    }
  }

  lemma {:induction false} StartsSplit(first: nat, k: nat, n: nat, lo: nat, hi: nat)
    requires lo <= hi
    ensures StartsIn(first, k, n, lo, hi) == StartsIn(first, k, n, 0, hi) - StartsIn(first, k, n, 0, lo)
  {
    hide StartsAt;
    if lo == hi {
    } else {
      StartsSplit(first, k, n, lo, hi - 1);
    }
  }

  /** How often any n consecutive rounds refresh symbol i: 15 times from the fifteenth symbol on; before
      that, where windows cut off at the end of the list are not made up for, only g * (i / g + 1)
      times, g being the stride - once, if 15 and n have no common divisor, for the first symbol. */
  lemma RefreshShare(first: nat, n: nat, i: nat)
    requires i < n
    ensures Stride(n) > 0
    ensures Refreshes(first, n, n, i) == if i >= 14 then 15 else Stride(n) * (i / Stride(n) + 1)
  {
    hide Stride, StartsAt, StartsIn, Refreshes, Below, Divides, Start, Refreshed;
    var g := Stride(n);
    StrideDivides(n);
    StartsAtZero(first, n);
    RefreshesAreStarts(first, n, n, i);
    StartsBelow(first, n, i + 1);
    BelowNext(g, i);
    if i >= BATCH - 1 {
      StartsSplit(first, n, n, i - BATCH + 1, i + 1);
      StartsBelow(first, n, i - BATCH + 1);
      BelowWindow(g, i);
      assert g * Below(g, i + 1) - g * Below(g, i - BATCH + 1) == g * (Below(g, i + 1) - Below(g, i - BATCH + 1));
    } else {
      NoneNegative(first, n, n, i - BATCH + 1, i + 1);
    }
  }

  lemma BelowNext(g: nat, i: nat)
    requires g > 0
    ensures Below(g, i + 1) == i / g + 1
  {
    assert i == i / g * g + i % g;
    assert (i / g + 1) * g == i / g * g + g;
    DivUnique(i + g, g, i / g + 1, i % g);
  }

  /** Fifteen places in a row hold 15 / g multiples of g. */
  lemma BelowWindow(g: nat, i: nat)
    requires g > 0 && Divides(g, BATCH) && i >= BATCH - 1
    ensures g * (Below(g, i + 1) - Below(g, i - BATCH + 1)) == BATCH
  {
    var q, x := BATCH / g, i - BATCH + 1 + g - 1;
    assert BATCH == q * g;
    assert x == x / g * g + x % g;
    assert (x / g + q) * g == x / g * g + q * g;
    DivUnique(x + BATCH, g, x / g + q, x % g);
    assert x + BATCH == i + 1 + g - 1;
  }
}
