/** What the figures of the ensemble result are, in terms of the members and their logs
    (src/ai_optimizer/ensemble.py). */
module EnsembleLaws {
  import opened PySeq
  import opened Reals
  import opened Correlation
  import opened Ensemble
  import PearsonLaws

  /** Two candidates with one and the same log - ten trades or more, five days or more, not all days
      alike - are never both members: their correlation is 1. */
  lemma TwinsExcluded(cs: seq<Candidate>, i: nat, j: nat, logs: Logs, root: real -> real)
    requires DistinctIds(cs) && i < j < |cs| && IsSquareRoot(root)
    requires LogOf(logs, cs[i].id) == LogOf(logs, cs[j].id) && |LogOf(logs, cs[i].id)| >= 10
    requires var daily := DailyReturns(LogOf(logs, cs[i].id));
             |daily.Keys| >= 5 && exists d, e :: d in daily && e in daily && daily[d] != daily[e]
    ensures cs[i] !in Members(cs, logs, root) || cs[j] !in Members(cs, logs, root)
  {
    hide *;
    PearsonLaws.TwinsCorrelate(cs[i], cs[j], logs, root);
    CapBelowOne();
    if cs[i] in Members(cs, logs, root) && cs[j] in Members(cs, logs, root) {
      MembersCapped(cs, i, j, logs, root);
    }
  }

  lemma CapBelowOne()
    ensures MAX_CORRELATION == 0.7
  {
  }

  // ---------------------------------------------------------------- allocations

  /** A Sharpe ratio counts for at least 0.1. */
  function Floored(sharpe: real): real {
    if sharpe >= 0.1 then sharpe else 0.1
  }

  function FlooredTotal(cs: seq<Candidate>): real {
    if cs == [] then 0.0 else FlooredTotal(cs[..|cs| - 1]) + Floored(cs[|cs| - 1].sharpe)
  }

  lemma {:induction false} TotalIsFloored(cs: seq<Candidate>)
    ensures TotalWeight(cs) == FlooredTotal(cs)
  {
    if cs == [] {
    } else {
      TotalIsFloored(cs[..|cs| - 1]);
    }
  }

  /** Each allocation is the member's share of the floored Sharpe ratios in percent, rounded to a tenth. */
  lemma AllocationExactly(cs: seq<Candidate>, i: nat)
    requires i < |cs|
    ensures FlooredTotal(cs) > 0.0
    ensures var share := Floored(cs[i].sharpe) / FlooredTotal(cs) * 100.0;
            && share - 0.05 <= Allocations(cs)[i] <= share + 0.05
            && (Allocations(cs)[i] * 10.0).Floor as real == Allocations(cs)[i] * 10.0
  {
    hide Round1, TotalWeight, FlooredTotal;
    TotalIsFloored(cs);
    var share := Floored(cs[i].sharpe) / FlooredTotal(cs) * 100.0;
    assert Weight(cs[i]) == Floored(cs[i].sharpe);
    assert Allocations(cs)[i] == Round1(share);
    hide Allocations, Floored;
    Round1Close(share);
    WholeTenths(share);
  }

  lemma WholeTenths(x: real)
    ensures (Round1(x) * 10.0).Floor as real == Round1(x) * 10.0
  {
    var n := Tenths(x);
    hide Round1;
    assert Round1(x) * 10.0 == n as real;
    WholeFloor(Round1(x) * 10.0, n);
  }

  lemma Tenths(x: real) returns (n: int)
    ensures Round1(x) == n as real / 10.0
  {
    var f := (x * 10.0).Floor;
    var d := x * 10.0 - f as real;
    n := if d < 0.5 then f else if d > 0.5 then f + 1 else if f % 2 == 0 then f else f + 1;
  }

  lemma WholeFloor(y: real, n: int)
    requires y == n as real
    ensures y.Floor as real == y
  {
    assert y.Floor == n;
  }

  /** So any two allocations are in the proportion of the floored Sharpe ratios, within the rounding. */
  lemma AllocationsProportional(cs: seq<Candidate>, i: nat, j: nat)
    requires i < |cs| && j < |cs|
    ensures var p, q := Floored(cs[i].sharpe), Floored(cs[j].sharpe);
            -0.05 * (p + q) <= Allocations(cs)[i] * q - Allocations(cs)[j] * p <= 0.05 * (p + q)
  {
    hide Allocations, Floored, FlooredTotal;
    AllocationExactly(cs, i);
    AllocationExactly(cs, j);
    var p, q := Floored(cs[i].sharpe), Floored(cs[j].sharpe);
    FlooredPositive(cs[i].sharpe);
    FlooredPositive(cs[j].sharpe);
    Proportion(p, q, FlooredTotal(cs), Allocations(cs)[i], Allocations(cs)[j]);
  }

  lemma FlooredPositive(sharpe: real)
    ensures Floored(sharpe) > 0.0
  {
  }

  lemma Proportion(p: real, q: real, total: real, a: real, b: real)
    requires p > 0.0 && q > 0.0 && total > 0.0
    requires p / total * 100.0 - 0.05 <= a <= p / total * 100.0 + 0.05
    requires q / total * 100.0 - 0.05 <= b <= q / total * 100.0 + 0.05
    ensures -0.05 * (p + q) <= a * q - b * p <= 0.05 * (p + q)
  {
    DivMul(p, total);
    DivMul(q, total);
    Shares(p, q, total, p / total, q / total, a - p / total * 100.0, b - q / total * 100.0, a, b);
  }

  lemma Shares(p: real, q: real, total: real, x: real, y: real, d: real, e: real, a: real, b: real)
    requires p > 0.0 && q > 0.0 && total > 0.0 && x * total == p && y * total == q
    requires -0.05 <= d <= 0.05 && -0.05 <= e <= 0.05 && a == x * 100.0 + d && b == y * 100.0 + e
    ensures -0.05 * (p + q) <= a * q - b * p <= 0.05 * (p + q)
  {
    CrossShares(p, q, total, x, y);
    Within(d, q);
    Within(e, p);
    Expand(x, d, q, a);
    Expand(y, e, p, b);
    Gap(a * q, b * p, x * q, y * p, d * q, e * p, p, q);
  }

  lemma Gap(aq: real, bp: real, xq: real, yp: real, dq: real, ep: real, p: real, q: real)
    requires aq == 100.0 * xq + dq && bp == 100.0 * yp + ep && xq == yp
    requires -0.05 * q <= dq <= 0.05 * q && -0.05 * p <= ep <= 0.05 * p
    ensures -0.05 * (p + q) <= aq - bp <= 0.05 * (p + q)
  {
  }

  lemma Expand(x: real, d: real, q: real, a: real)
    requires a == x * 100.0 + d
    ensures a * q == 100.0 * (x * q) + d * q
  {
    Distribute(x * 100.0, d, q);
    Associate(100.0, x, q);
    assert x * 100.0 == 100.0 * x;
  }

  lemma CrossShares(p: real, q: real, total: real, x: real, y: real)
    requires total > 0.0 && x * total == p && y * total == q
    ensures x * q == y * p
  {
    Associate(x, y, total);
    Associate(y, x, total);
  }

  lemma Within(d: real, q: real)
    requires -0.05 <= d <= 0.05 && q > 0.0
    ensures -0.05 * q <= d * q <= 0.05 * q
  {
    MulOrder(-0.05, d, q);
    MulOrder(d, 0.05, q);
  }

  // ---------------------------------------------------------------- expectations

  function WeightedSum(values: seq<real>, weights: seq<real>): real
    requires |values| == |weights|
  {
    if values == [] then 0.0
    else
      var n := |values| - 1;
      WeightedSum(values[..n], weights[..n]) + values[n] * weights[n]
  }

  lemma {:induction false} MeanTimesTotal(values: seq<real>, weights: seq<real>, total: real)
    requires |values| == |weights| && total != 0.0
    ensures WeightedMean(values, weights, total) * total == WeightedSum(values, weights)
  {
    if values == [] {
    } else {
      var n := |values| - 1;
      MeanTimesTotal(values[..n], weights[..n], total);
      DivMul(values[n] * weights[n], total);
      Distribute(WeightedMean(values[..n], weights[..n], total), Term(values[n], weights[n], total), total);
    }
  }

  /** An expected figure times the total allocation is the sum of the figures times their allocations. */
  lemma ExpectedExactly(figure: Candidate -> real, s: seq<Candidate>)
    requires |s| <= 4
    ensures s == [] ==> Expected(figure, s) == 0.0
    ensures s != [] ==> Sum(Allocations(s)) > 0.0
    ensures Expected(figure, s) * Sum(Allocations(s)) == WeightedSum(Map(figure, s), Allocations(s))
  {
    hide Allocations, WeightedMean, WeightedSum, Map, Sum;
    if s == [] {
      NoMembers(figure);
    } else {
      PositiveTotal(s);
      MeanTimesTotal(Map(figure, s), Allocations(s), Sum(Allocations(s)));
    }
  }

  lemma NoMembers(figure: Candidate -> real)
    ensures Expected(figure, []) == 0.0 && WeightedSum(Map(figure, []), Allocations([])) == 0.0
  {
  }

  /** Likewise the expected drawdown, lessened by 30 % of the average correlation. */
  lemma DrawdownExactly(cs: seq<Candidate>, logs: Logs, root: real -> real)
    requires DistinctIds(cs) && IsSquareRoot(root) && Members(cs, logs, root) != []
    ensures var s, pairs := Members(cs, logs, root), AllPairs(cs, |cs|, logs, root);
            ExpectedDrawdown(pairs, s) * Sum(Allocations(s))
              == WeightedSum(Map(MaxDrawdown, s), Allocations(s)) * (1.0 - 0.3 * AverageCorrelation(pairs, s))
  {
    hide *;
    var s, pairs := Members(cs, logs, root), AllPairs(cs, |cs|, logs, root);
    FourMembers(cs, logs, root);
    DiversityFactorRange(cs, logs, root);
    DrawdownIs(pairs, s);
    ExpectedExactly(MaxDrawdown, s);
    Reorder(Expected(MaxDrawdown, s), DiversityFactor(AverageCorrelation(pairs, s)), Sum(Allocations(s)));
  }

  lemma DrawdownIs(pairs: seq<Pair>, s: seq<Candidate>)
    ensures ExpectedDrawdown(pairs, s) == Expected(MaxDrawdown, s) * DiversityFactor(AverageCorrelation(pairs, s))
  {
    hide Expected, DiversityFactor, AverageCorrelation;
  }

  lemma Reorder(a: real, b: real, c: real)
    ensures (a * b) * c == (a * c) * b
  {
  }

  // ---------------------------------------------------------------- the pairs of members

  /** How many of the first k candidates have their id in the set. */
  function CountIn(cs: seq<Candidate>, k: nat, ids: set<string>): nat
    requires k <= |cs|
  {
    if k == 0 then 0 else CountIn(cs, k - 1, ids) + if cs[k - 1].id in ids then 1 else 0
  }

  lemma {:induction false} RelevantConcat(a: seq<Pair>, b: seq<Pair>, ids: set<string>)
    ensures Relevant(a + b, ids) == Relevant(a, ids) + Relevant(b, ids)
  {
    if b == [] {
      assert a + b == a;
    } else {
      var n := |b| - 1;
      RelevantConcat(a, b[..n], ids);
      assert (a + b)[..|a + b| - 1] == a + b[..n];
    }
  }

  lemma {:induction false} RowCount(cs: seq<Candidate>, i: nat, n: nat, logs: Logs, root: real -> real, ids: set<string>)
    requires i < n <= |cs|
    ensures |Relevant(RowPairs(cs, i, n, logs, root), ids)|
         == if cs[i].id in ids then CountIn(cs, n, ids) - CountIn(cs, i + 1, ids) else 0
  {
    hide PairCorrelation;
    if n == i + 1 {
      assert RowPairs(cs, i, n, logs, root) == [];
    } else {
      RowCount(cs, i, n - 1, logs, root, ids);
      var row, p := RowPairs(cs, i, n - 1, logs, root), PairOf(cs, i, n - 1, logs, root);
      assert (row + [p])[..|row|] == row;
    }
  }

  /** k members have k * (k - 1) / 2 pairs. */
  function Pairs(k: int): int {
    k * (k - 1) / 2
  }

  lemma OneFewer(k: int)
    ensures Pairs(k) == Pairs(k - 1) + k - 1
  {
    assert k * (k - 1) == (k - 1) * (k - 2) + 2 * (k - 1);
  }

  lemma {:induction false} PairCount(cs: seq<Candidate>, m: nat, logs: Logs, root: real -> real, ids: set<string>)
    requires m <= |cs|
    ensures |Relevant(AllPairs(cs, m, logs, root), ids)|
         == Pairs(CountIn(cs, |cs|, ids)) - Pairs(CountIn(cs, |cs|, ids) - CountIn(cs, m, ids))
  {
    hide PairCorrelation, RowPairs, Relevant, Pairs, AllPairs;
    AllPairsStep(cs, m, logs, root);
    if m == 0 {
      NoRelevant(ids);
    } else {
      PairCount(cs, m - 1, logs, root, ids);
      RelevantConcat(AllPairs(cs, m - 1, logs, root), RowPairs(cs, m - 1, |cs|, logs, root), ids);
      RowCount(cs, m - 1, |cs|, logs, root, ids);
      OneFewer(CountIn(cs, |cs|, ids) - CountIn(cs, m - 1, ids));
    }
  }

  lemma NoRelevant(ids: set<string>)
    ensures Relevant([], ids) == []
  {
  }

  function IdsIn(cs: seq<Candidate>, k: nat, ids: set<string>): set<string>
    requires k <= |cs|
  {
    set i | 0 <= i < k && cs[i].id in ids :: cs[i].id
  }

  /** With distinct ids, as many candidates as the set has ids among theirs. */
  lemma {:induction false} CountsIds(cs: seq<Candidate>, k: nat, ids: set<string>)
    requires DistinctIds(cs) && k <= |cs|
    ensures CountIn(cs, k, ids) == |IdsIn(cs, k, ids)|
  {
    if k == 0 {
      assert IdsIn(cs, 0, ids) == {};
    } else {
      CountsIds(cs, k - 1, ids);
      var before, after := IdsIn(cs, k - 1, ids), IdsIn(cs, k, ids);
      if cs[k - 1].id in ids {
        assert after == before + {cs[k - 1].id};
        assert cs[k - 1].id !in before;
      } else {
        assert after == before;
      }
    }
  }

  /** All members' pairs enter the averages, each once, and nothing else does. */
  lemma MemberPairs(cs: seq<Candidate>, logs: Logs, root: real -> real)
    requires DistinctIds(cs)
    ensures var s := Members(cs, logs, root);
            |Relevant(AllPairs(cs, |cs|, logs, root), IdSet(s))| == |s| * (|s| - 1) / 2
  {
    var s := Members(cs, logs, root);
    var ids := IdSet(s);
    MembersDistinct(cs, logs, root);
    MembersFromInput(cs, logs, root);
    IdSetSize(s);
    CountsIds(cs, |cs|, ids);
    PairCount(cs, |cs|, logs, root, ids);
    hide Members, AllPairs, Relevant, CountIn, DistinctIds;
    var found := IdsIn(cs, |cs|, ids);
    forall x | x in ids ensures x in found {
      var k :| 0 <= k < |s| && s[k].id == x;
      assert s[k] in s;
      var i :| 0 <= i < |cs| && cs[i] == s[k];
      assert cs[i].id in found;
    }
    assert found == ids;
  }

  /** So the average correlation is the mean over the members' pairs, and the maximum is the largest of them. */
  lemma AverageExactly(cs: seq<Candidate>, logs: Logs, root: real -> real)
    requires DistinctIds(cs) && |Members(cs, logs, root)| >= 2
    ensures var s, pairs := Members(cs, logs, root), AllPairs(cs, |cs|, logs, root);
            && AverageCorrelation(pairs, s) * (|s| * (|s| - 1) / 2) as real == Sum(Relevant(pairs, IdSet(s)))
            && MaxCorrelation(pairs, s) in Relevant(pairs, IdSet(s))
            && forall v :: v in Relevant(pairs, IdSet(s)) ==> v <= MaxCorrelation(pairs, s)
  {
    hide *;
    var s, pairs := Members(cs, logs, root), AllPairs(cs, |cs|, logs, root);
    MemberPairs(cs, logs, root);
    TwoMembers(|s|);
    var relevant := Relevant(pairs, IdSet(s));
    SomePair(pairs, s);
    DivMul(Sum(relevant), |relevant| as real);
    forall v | v in relevant ensures v <= MaxCorrelation(pairs, s) {
      var k :| 0 <= k < |relevant| && relevant[k] == v;
    }
  }

  lemma TwoMembers(k: nat)
    requires k >= 2
    ensures k * (k - 1) / 2 >= 1
  {
    assert k * (k - 1) == (k - 2) * (k + 1) + 2;
    assert (k - 2) * (k + 1) >= 0;
  }

  lemma SomePair(pairs: seq<Pair>, s: seq<Candidate>)
    requires Relevant(pairs, IdSet(s)) != []
    ensures var r := Relevant(pairs, IdSet(s));
            AverageCorrelation(pairs, s) == Sum(r) / |r| as real && MaxCorrelation(pairs, s) == Largest(r)
  {
    hide Relevant, Sum, Largest;
    assert IdSet(s) == set i | 0 <= i < |s| :: s[i].id;
  }

  /** The limits of the search, by their numbers: 4 members at most, and no analysis of fewer than 2 candidates. */
  lemma FourMembers(cs: seq<Candidate>, logs: Logs, root: real -> real)
    ensures |Members(cs, logs, root)| <= 4 && MIN_SIZE == 2
  {
    MembersFew(cs, logs, root);
  }
}
