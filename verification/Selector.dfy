/** Scoring, filtering and type-limited ranking of src/ai_optimizer/strategy_selector.py. */
module Selector {
  import opened PySeq
  import opened Correlation
  import Sorting

  datatype Criteria = Criteria(minReturn: real, minSharpe: real, maxDrawdown: real, minWinRate: real,
                               minProfitFactor: real, minTrades: int, maxParams: int, requireWalkForward: bool,
                               maxSameType: int)

  datatype Strategy = Strategy(id: string, kind: StrategyType, returnPct: real, sharpe: real, maxDd: real,
                               winRate: real, profitFactor: real, totalTrades: int, paramCount: int,
                               wfOosReturn: Option<real>, wfPassed: bool)

  datatype Reason = LowReturn | LowSharpe | HighDrawdown | LowWinRate | LowProfitFactor | FewTrades | WalkForwardFailed

  datatype Scored = Scored(strategy: Strategy, score: real, rank: int, reason: Option<Reason>, returnScore: real,
                           sharpeScore: real, ddScore: real, tradeScore: real, wfScore: real, penalty: real, bonus: real)

  /** The signed sum of the components. */
  function Components(s: Scored): real {
    s.returnScore + s.sharpeScore + s.ddScore + s.tradeScore + s.wfScore - s.penalty + s.bonus
  }

  /** `_score_candidate` */
  function Score(c: Strategy, cr: Criteria): Scored {
    var returnScore := Min(c.returnPct / 20.0 * 30.0, 30.0);
    var sharpeScore := Min(c.sharpe / 2.0 * 25.0, 25.0);
    var ddScore := Max(15.0 - c.maxDd, 0.0);
    var tradeScore := Min(c.totalTrades as real / 100.0 * 15.0, 15.0);
    var wfScore := if c.wfPassed then 15.0 else if c.wfOosReturn.Some? && c.wfOosReturn.value > 0.0 then 8.0 else 0.0;
    var penalty := if c.paramCount > cr.maxParams then (c.paramCount - cr.maxParams) as real * 2.0 else 0.0;
    Scored(c, returnScore + sharpeScore + ddScore + tradeScore + wfScore - penalty + 0.0, 0, None,
           returnScore, sharpeScore, ddScore, tradeScore, wfScore, penalty, 0.0)
  }

  /** `_check_criteria`: the first criterion that fails. */
  function Check(c: Strategy, cr: Criteria): Option<Reason> {
    if c.returnPct < cr.minReturn then Some(LowReturn)
    else if c.sharpe < cr.minSharpe then Some(LowSharpe)
    else if c.maxDd > cr.maxDrawdown then Some(HighDrawdown)
    else if c.winRate < cr.minWinRate then Some(LowWinRate)
    else if c.profitFactor < cr.minProfitFactor then Some(LowProfitFactor)
    else if c.totalTrades < cr.minTrades then Some(FewTrades)
    else if cr.requireWalkForward && !c.wfPassed then Some(WalkForwardFailed)
    else None
  }

  /** The candidates that pass (or fail) the criteria, scored, in input order. */
  function Filtered(cs: seq<Strategy>, cr: Criteria, pass: bool): seq<Scored> {
    if cs == [] then []
    else
      var c := cs[|cs| - 1];
      Filtered(cs[..|cs| - 1], cr, pass)
        + if Check(c, cr).None? == pass then [Score(c, cr).(reason := Check(c, cr))] else []
  }

  function CountKind(ss: seq<Scored>, kind: StrategyType): nat {
    if ss == [] then 0 else CountKind(ss[..|ss| - 1], kind) + if ss[|ss| - 1].strategy.kind == kind then 1 else 0
  }

  /** +5 for the first of its type, -3 from the third on. */
  function WithBonus(s: Scored, earlier: nat): Scored {
    if earlier == 0 then s.(bonus := 5.0, score := s.score + 5.0)
    else if earlier >= 2 then s.(bonus := -3.0, score := s.score - 3.0)
    else s
  }

  function Bonused(ss: seq<Scored>): (r: seq<Scored>)
    ensures |r| == |ss|
    ensures forall i :: 0 <= i < |ss| ==> r[i] == WithBonus(ss[i], CountKind(ss[..i], ss[i].strategy.kind))
  {
    seq(|ss|, i requires 0 <= i < |ss| => WithBonus(ss[i], CountKind(ss[..i], ss[i].strategy.kind)))
  }

  function NegScore(s: Scored): real {
    -s.score
  }

  function Ranked(ss: seq<Scored>): seq<Scored> {
    Sorting.StableSort(NegScore, ss)
  }

  /** `_enforce_type_limit`: what is kept of a list, best first. */
  function Limited(ss: seq<Scored>, limit: int): seq<Scored> {
    if ss == [] then []
    else
      var kept, s := Limited(ss[..|ss| - 1], limit), ss[|ss| - 1];
      if CountKind(kept, s.strategy.kind) < limit then kept + [s] else kept
  }

  /** What the type limit drops; it goes into neither returned list. */
  function Dropped(ss: seq<Scored>, limit: int): seq<Scored> {
    if ss == [] then []
    else
      var s := ss[|ss| - 1];
      Dropped(ss[..|ss| - 1], limit)
        + if CountKind(Limited(ss[..|ss| - 1], limit), s.strategy.kind) < limit then [] else [s]
  }

  function Numbered(ss: seq<Scored>): (r: seq<Scored>)
    ensures |r| == |ss| && forall i :: 0 <= i < |ss| ==> r[i] == ss[i].(rank := i + 1)
  {
    seq(|ss|, i requires 0 <= i < |ss| => ss[i].(rank := i + 1))
  }

  function Eligible(cs: seq<Strategy>, cr: Criteria): seq<Scored> {
    Ranked(Bonused(Filtered(cs, cr, true)))
  }

  /** All that survives the type limit, numbered; `select` returns its first `max_results`. */
  function Kept(cs: seq<Strategy>, cr: Criteria): seq<Scored> {
    Numbered(Limited(Eligible(cs, cr), cr.maxSameType))
  }

  // ---------------------------------------------------------------- the loops

  lemma NoneCounted(ss: seq<Scored>)
    ensures forall kind :: CountKind(ss[..0], kind) == 0
  {
  }

  lemma CountNext(ss: seq<Scored>, i: nat)
    requires i < |ss|
    ensures forall kind :: CountKind(ss[..i + 1], kind) == CountKind(ss[..i], kind) + if ss[i].strategy.kind == kind then 1 else 0
  {
    assert ss[..i + 1][..i] == ss[..i];
  }

  /** `_apply_diversity_bonus`, updating the scored candidates in place. */
  method ApplyDiversityBonus(a: array<Scored>)
    modifies a
    ensures a[..] == Bonused(old(a[..]))
  {
    hide CountKind;
    ghost var was := a[..];
    var typeCounts: map<StrategyType, nat> := map[];
    NoneCounted(was);
    for i := 0 to a.Length
      invariant forall k :: 0 <= k < i ==> a[k] == WithBonus(was[k], CountKind(was[..k], was[k].strategy.kind))
      invariant forall k :: i <= k < a.Length ==> a[k] == was[k]
      invariant forall kind :: (if kind in typeCounts then typeCounts[kind] else 0) == CountKind(was[..i], kind)
    {
      CountNext(was, i);
      var sc := a[i];
      var st := sc.strategy.kind;
      var count := if st in typeCounts then typeCounts[st] else 0;
      typeCounts := typeCounts[st := count + 1];
      if count == 0 {
        a[i] := sc.(bonus := 5.0, score := sc.score + 5.0);
      } else if count >= 2 {
        a[i] := sc.(bonus := -3.0, score := sc.score - 3.0);
      }
    }
  }

  method EnforceTypeLimit(ss: seq<Scored>, limit: int) returns (result: seq<Scored>)
    ensures result == Limited(ss, limit)
  {
    result := [];
    var typeCounts: map<StrategyType, nat> := map[];
    for i := 0 to |ss|
      invariant result == Limited(ss[..i], limit)
      invariant forall kind :: (if kind in typeCounts then typeCounts[kind] else 0) == CountKind(result, kind)
    {
      assert ss[..i + 1][..i] == ss[..i];
      var st := ss[i].strategy.kind;
      var count := if st in typeCounts then typeCounts[st] else 0;
      if count < limit {
        assert (result + [ss[i]])[..|result|] == result;
        result := result + [ss[i]];
        typeCounts := typeCounts[st := count + 1];
      }
    }
    assert ss[..|ss|] == ss;
  }

  method Split(cs: seq<Strategy>, cr: Criteria) returns (selected: seq<Scored>, rejected: seq<Scored>)
    ensures selected == Filtered(cs, cr, true) && rejected == Filtered(cs, cr, false)
  {
    hide Score, Check;
    selected, rejected := [], [];
    for i := 0 to |cs|
      invariant selected == Filtered(cs[..i], cr, true) && rejected == Filtered(cs[..i], cr, false)
    {
      assert cs[..i + 1][..i] == cs[..i];
      var s, reason := Score(cs[i], cr), Check(cs[i], cr);
      if reason.Some? {
        rejected := rejected + [s.(reason := reason)];
      } else {
        Unrejected(cs[i], cr);
        selected := selected + [s];
      }
    }
    assert cs[..|cs|] == cs;
  }

  lemma Unrejected(c: Strategy, cr: Criteria)
    ensures Score(c, cr) == Score(c, cr).(reason := None)
  {
  }

  /** `select` */
  method Select(cs: seq<Strategy>, cr: Criteria, maxResults: int) returns (selected: seq<Scored>, rejected: seq<Scored>)
    ensures selected == FirstResults(Kept(cs, cr), maxResults)
    ensures rejected == Ranked(Filtered(cs, cr, false))
  {
    hide Filtered, Limited, Ranked, CountKind;
    var passed;
    passed, rejected := Split(cs, cr);
    var a := new Scored[|passed|](i requires 0 <= i < |passed| => passed[i]);
    assert a[..] == passed;
    ApplyDiversityBonus(a);
    var ranked := Ranked(a[..]);
    rejected := Ranked(rejected);
    var kept := EnforceTypeLimit(ranked, cr.maxSameType);
    var b := new Scored[|kept|](i requires 0 <= i < |kept| => kept[i]);
    for i := 0 to b.Length
      invariant forall k :: 0 <= k < i ==> b[k] == kept[k].(rank := k + 1)
      invariant forall k :: i <= k < b.Length ==> b[k] == kept[k]
    {
      b[i] := b[i].(rank := i + 1);
    }
    assert b[..] == Numbered(kept);
    selected := FirstResults(b[..], maxResults);
  }

  /** `selected[:n]`; a negative n drops that many from the end. */
  function FirstResults(ss: seq<Scored>, n: int): (r: seq<Scored>)
    ensures r <= ss && (n >= 0 ==> |r| <= n)
  {
    if n >= |ss| then ss else if n >= 0 then ss[..n] else if |ss| + n <= 0 then [] else ss[..|ss| + n]
  }

  // ---------------------------------------------------------------- laws

  lemma {:induction false} FilteredScores(cs: seq<Strategy>, cr: Criteria, pass: bool)
    ensures forall i :: 0 <= i < |Filtered(cs, cr, pass)| ==>
              var s := Filtered(cs, cr, pass)[i];
              s.score == Components(s) && s.bonus == 0.0 && s.reason == Check(s.strategy, cr) && s.reason.None? == pass
  {
    if cs == [] {
    } else {
      FilteredScores(cs[..|cs| - 1], cr, pass);
    }
  }

  /** Every scored candidate's score is the signed sum of its components, bonus included. */
  lemma ScoresAddUp(cs: seq<Strategy>, cr: Criteria)
    ensures forall s :: s in Kept(cs, cr) || s in Dropped(Eligible(cs, cr), cr.maxSameType) || s in Ranked(Filtered(cs, cr, false))
              ==> s.score == Components(s)
  {
    FilteredScores(cs, cr, true);
    FilteredScores(cs, cr, false);
    var passed := Filtered(cs, cr, true);
    BonusAddsUp(passed);
    RankedMembers(Bonused(passed));
    RankedMembers(Filtered(cs, cr, false));
    var ranked, limit := Eligible(cs, cr), cr.maxSameType;
    hide Filtered, Components, Bonused, Ranked, Limited, Dropped;
    forall s | s in Dropped(ranked, limit) ensures s.score == Components(s) {
      LimitMembers(ranked, limit, s);
    }
    forall s | s in Kept(cs, cr) ensures s.score == Components(s) {
      var t := NumberedMember(Limited(ranked, limit), s);
      LimitMembers(ranked, limit, t);
    }
  }

  lemma BonusAddsUp(ss: seq<Scored>)
    requires forall i :: 0 <= i < |ss| ==> ss[i].score == Components(ss[i]) && ss[i].bonus == 0.0
    ensures forall s :: s in Bonused(ss) ==> s.score == Components(s)
  {
  }

  lemma RankedMembers(ss: seq<Scored>)
    ensures forall s :: s in Ranked(ss) <==> s in ss
    ensures |Ranked(ss)| == |ss| && multiset(Ranked(ss)) == multiset(ss)
    ensures Descending(Ranked(ss))
  {
    Sorting.SortSorts(NegScore, ss);
    var r := Ranked(ss);
    hide Sorting.StableSort;
    forall s ensures s in r <==> s in ss {
      assert s in r <==> s in multiset(r);
      assert s in ss <==> s in multiset(ss);
    }
    forall i, j | 0 <= i < j < |r| ensures r[i].score >= r[j].score {
      assert NegScore(r[i]) <= NegScore(r[j]);
    }
  }

  ghost predicate Descending(ss: seq<Scored>) {
    forall i, j :: 0 <= i < j < |ss| ==> ss[i].score >= ss[j].score
  }

  lemma NumberedMember(ss: seq<Scored>, s: Scored) returns (t: Scored)
    requires s in Numbered(ss)
    ensures t in ss && s == t.(rank := s.rank) && Components(s) == Components(t)
  {
    var i :| 0 <= i < |ss| && Numbered(ss)[i] == s;
    t := ss[i];
  }

  /** One candidate under the type limit joins exactly one of the two lists. */
  lemma LimitStep(ss: seq<Scored>, s: Scored, limit: int)
    ensures var kept, dropped := Limited(ss, limit), Dropped(ss, limit);
            if CountKind(kept, s.strategy.kind) < limit
            then Limited(ss + [s], limit) == kept + [s] && Dropped(ss + [s], limit) == dropped
            else Limited(ss + [s], limit) == kept && Dropped(ss + [s], limit) == dropped + [s]
  {
    hide CountKind;
    assert (ss + [s])[..|ss|] == ss;
  }

  /** The type limit keeps a subsequence within the limit and drops the rest. */
  lemma {:induction false} LimitSplits(ss: seq<Scored>, limit: int)
    ensures multiset(Limited(ss, limit)) + multiset(Dropped(ss, limit)) == multiset(ss)
  {
    hide CountKind;
    if ss == [] {
    } else {
      hide *;
      var n := |ss| - 1;
      assert ss == ss[..n] + [ss[n]];
      LimitSplits(ss[..n], limit);
      LimitStep(ss[..n], ss[n], limit);
    }
  }

  lemma LimitMembers(ss: seq<Scored>, limit: int, s: Scored)
    requires s in Limited(ss, limit) || s in Dropped(ss, limit)
    ensures s in ss
  {
    LimitSplits(ss, limit);
    hide *;
    assert s in multiset(ss);
  }

  lemma CountSnoc(ss: seq<Scored>, s: Scored, kind: StrategyType)
    ensures CountKind(ss + [s], kind) == CountKind(ss, kind) + if s.strategy.kind == kind then 1 else 0
  {
    assert (ss + [s])[..|ss|] == ss;
  }

  lemma {:induction false} LimitHolds(ss: seq<Scored>, limit: int, kind: StrategyType)
    requires limit >= 0
    ensures CountKind(Limited(ss, limit), kind) <= limit
  {
    if ss == [] {
    } else {
      var n := |ss| - 1;
      LimitHolds(ss[..n], limit, kind);
      CountSnoc(Limited(ss[..n], limit), ss[n], kind);
    }
  }

  lemma {:induction false} LimitDescending(ss: seq<Scored>, limit: int)
    requires Descending(ss)
    ensures Descending(Limited(ss, limit))
    ensures forall i :: 0 <= i < |Limited(ss, limit)| ==> Limited(ss, limit)[i] in ss
  {
    hide CountKind;
    if ss == [] {
    } else {
      hide Limited, Dropped;
      var n := |ss| - 1;
      LimitDescending(ss[..n], limit);
      assert ss == ss[..n] + [ss[n]];
      LimitStep(ss[..n], ss[n], limit);
      KeptAbove(ss, Limited(ss[..n], limit));
    }
  }

  lemma KeptAbove(ss: seq<Scored>, kept: seq<Scored>)
    requires ss != [] && Descending(ss)
    requires forall i :: 0 <= i < |kept| ==> kept[i] in ss[..|ss| - 1]
    ensures forall i :: 0 <= i < |kept| ==> kept[i] in ss && kept[i].score >= ss[|ss| - 1].score
  {
    var n := |ss| - 1;
    forall i | 0 <= i < |kept| ensures kept[i] in ss && kept[i].score >= ss[n].score {
      var before := ss[..n];
      assert kept[i] in before;
      var j :| 0 <= j < |before| && before[j] == kept[i];
      assert ss[j] == kept[i];
    }
  }

  /** The candidates of one type in a list that score at least as high. */
  function Peers(ss: seq<Scored>, s: Scored): nat {
    if ss == [] then 0
    else Peers(ss[..|ss| - 1], s)
         + if ss[|ss| - 1].strategy.kind == s.strategy.kind && ss[|ss| - 1].score >= s.score then 1 else 0
  }

  lemma {:induction false} PeersOfKind(ss: seq<Scored>, s: Scored)
    requires forall i :: 0 <= i < |ss| ==> ss[i].score >= s.score
    ensures Peers(ss, s) == CountKind(ss, s.strategy.kind)
  {
    if ss == [] {
    } else {
      PeersOfKind(ss[..|ss| - 1], s);
    }
  }

  lemma PeersSnoc(ss: seq<Scored>, x: Scored, s: Scored)
    ensures Peers(ss + [x], s) >= Peers(ss, s)
  {
    assert (ss + [x])[..|ss|] == ss;
  }

  lemma {:induction false} DroppedHavePeers(ss: seq<Scored>, limit: int, s: Scored)
    requires Descending(ss) && s in Dropped(ss, limit)
    ensures Peers(Limited(ss, limit), s) >= limit
  {
    var n := |ss| - 1;
    var kept, x := Limited(ss[..n], limit), ss[n];
    if s in Dropped(ss[..n], limit) {
      DroppedHavePeers(ss[..n], limit, s);
      PeersSnoc(kept, x, s);
    } else {
      assert s == x;
      LimitDescending(ss[..n], limit);
      KeptAbove(ss, kept);
      PeersOfKind(kept, s);
    }
  }

  lemma EligibleDescends(cs: seq<Strategy>, cr: Criteria)
    ensures Descending(Eligible(cs, cr))
    ensures Descending(Limited(Eligible(cs, cr), cr.maxSameType))
  {
    RankedMembers(Bonused(Filtered(cs, cr, true)));
    LimitDescending(Eligible(cs, cr), cr.maxSameType);
  }

  /** Whatever survives ranking and the type limit has passed every criterion. */
  lemma KeptPass(cs: seq<Strategy>, cr: Criteria, s: Scored)
    requires s in Limited(Eligible(cs, cr), cr.maxSameType)
    ensures Check(s.strategy, cr).None?
  {
    var passed := Filtered(cs, cr, true);
    LimitMembers(Eligible(cs, cr), cr.maxSameType, s);
    RankedMembers(Bonused(passed));
    FilteredScores(cs, cr, true);
    hide Filtered, Limited, Ranked, Check, Components, WithBonus, Descending;
    BonusKeepsStrategy(passed, s);
  }

  lemma RankingOrder(cs: seq<Strategy>, cr: Criteria, maxResults: int, i: nat)
    requires i < |FirstResults(Kept(cs, cr), maxResults)|
    ensures FirstResults(Kept(cs, cr), maxResults)[i].rank == i + 1
    ensures Check(FirstResults(Kept(cs, cr), maxResults)[i].strategy, cr).None?
  {
    var kept := Limited(Eligible(cs, cr), cr.maxSameType);
    hide Eligible, Limited, Check;
    assert kept[i] in kept;
    KeptPass(cs, cr, kept[i]);
  }

  lemma NumberedDescends(ss: seq<Scored>, n: int)
    requires Descending(ss)
    ensures Descending(FirstResults(Numbered(ss), n))
  {
  }

  lemma RankingCount(cs: seq<Strategy>, cr: Criteria, maxResults: int, kind: StrategyType)
    requires cr.maxSameType >= 0
    ensures CountKind(FirstResults(Kept(cs, cr), maxResults), kind) <= cr.maxSameType
  {
    var ranked := Eligible(cs, cr);
    LimitHolds(ranked, cr.maxSameType, kind);
    hide Limited, Ranked, CountKind, Eligible, FirstResults;
    CountNumbered(Limited(ranked, cr.maxSameType), kind);
    var r := FirstResults(Kept(cs, cr), maxResults);
    assert r == Kept(cs, cr)[..|r|];
    CountPrefix(Kept(cs, cr), |r|, kind);
  }

  /** The returned list: best first, ranks 1, 2, ..., at most `max_same_type` per type. */
  lemma SelectedRanking(cs: seq<Strategy>, cr: Criteria, maxResults: int)
    ensures var r := FirstResults(Kept(cs, cr), maxResults);
            && Descending(r) && r <= Kept(cs, cr) && (maxResults >= 0 ==> |r| <= maxResults)
            && (forall i :: 0 <= i < |r| ==> r[i].rank == i + 1 && Check(r[i].strategy, cr).None?)
            && (cr.maxSameType >= 0 ==> forall kind :: CountKind(r, kind) <= cr.maxSameType)
  {
    hide Eligible, Limited, Check, CountKind, Descending, FirstResults;
    EligibleDescends(cs, cr);
    NumberedDescends(Limited(Eligible(cs, cr), cr.maxSameType), maxResults);
    forall i | 0 <= i < |FirstResults(Kept(cs, cr), maxResults)|
      ensures FirstResults(Kept(cs, cr), maxResults)[i].rank == i + 1
      ensures Check(FirstResults(Kept(cs, cr), maxResults)[i].strategy, cr).None?
    {
      RankingOrder(cs, cr, maxResults, i);
    }
    forall kind | cr.maxSameType >= 0 ensures CountKind(FirstResults(Kept(cs, cr), maxResults), kind) <= cr.maxSameType {
      RankingCount(cs, cr, maxResults, kind);
    }
  }

  lemma BonusKeepsStrategy(ss: seq<Scored>, s: Scored)
    requires s in Bonused(ss)
    ensures exists i :: 0 <= i < |ss| && ss[i].strategy == s.strategy
  {
    var i :| 0 <= i < |ss| && Bonused(ss)[i] == s;
    assert ss[i].strategy == s.strategy;
  }

  lemma {:induction false} CountNumbered(ss: seq<Scored>, kind: StrategyType)
    ensures CountKind(Numbered(ss), kind) == CountKind(ss, kind)
  {
    if ss == [] {
    } else {
      CountNumbered(ss[..|ss| - 1], kind);
      assert Numbered(ss)[..|ss| - 1] == Numbered(ss[..|ss| - 1]);
    }
  }

  lemma {:induction false} CountPrefix(ss: seq<Scored>, k: nat, kind: StrategyType)
    requires k <= |ss|
    ensures CountKind(ss[..k], kind) <= CountKind(ss, kind)
  {
    if k == |ss| {
      assert ss[..k] == ss;
    } else {
      assert ss[..|ss| - 1][..k] == ss[..k];
      CountPrefix(ss[..|ss| - 1], k, kind);
    }
  }

  /** Whatever the type limit drops has at least `max_same_type` kept peers of its type scoring at least as high. */
  lemma DroppedExplained(cs: seq<Strategy>, cr: Criteria, s: Scored)
    requires s in Dropped(Eligible(cs, cr), cr.maxSameType)
    ensures Peers(Limited(Eligible(cs, cr), cr.maxSameType), s) >= cr.maxSameType
  {
    RankedMembers(Bonused(Filtered(cs, cr, true)));
    hide Filtered, Limited, Ranked, Dropped;
    DroppedHavePeers(Eligible(cs, cr), cr.maxSameType, s);
  }

  function StrategyOf(s: Scored): Strategy {
    s.strategy
  }

  /** One candidate joins exactly one of the two lists. */
  lemma FilterStep(cs: seq<Strategy>, c: Strategy, cr: Criteria)
    ensures var s := Score(c, cr).(reason := Check(c, cr));
            var selected, rejected := Filtered(cs, cr, true), Filtered(cs, cr, false);
            if Check(c, cr).None?
            then Filtered(cs + [c], cr, true) == selected + [s] && Filtered(cs + [c], cr, false) == rejected
            else Filtered(cs + [c], cr, true) == selected && Filtered(cs + [c], cr, false) == rejected + [s]
  {
    hide Score, Check;
    assert (cs + [c])[..|cs|] == cs;
  }

  lemma {:induction false} FilterPartitions(cs: seq<Strategy>, cr: Criteria)
    ensures multiset(Map(StrategyOf, Filtered(cs, cr, true))) + multiset(Map(StrategyOf, Filtered(cs, cr, false))) == multiset(cs)
  {
    if cs == [] {
    } else {
      var n := |cs| - 1;
      FilterPartitions(cs[..n], cr);
      var c := cs[n];
      assert cs == cs[..n] + [c];
      FilterStep(cs[..n], c, cr);
      ScoreKeepsStrategy(c, cr);
      var s := Score(c, cr).(reason := Check(c, cr));
      hide *;
      MapConcat(Filtered(cs[..n], cr, Check(c, cr).None?), [s]);
      MapOne(s);
    }
  }

  lemma ScoreKeepsStrategy(c: Strategy, cr: Criteria)
    ensures StrategyOf(Score(c, cr).(reason := Check(c, cr))) == c
  {
    hide Check;
  }

  lemma MapOne(s: Scored)
    ensures Map(StrategyOf, [s]) == [StrategyOf(s)]
  {
    hide *;
  }

  lemma RemoveAt(b: seq<Scored>, j: nat)
    requires j < |b|
    ensures multiset(b[..j] + b[j + 1..]) + multiset{b[j]} == multiset(b)
    ensures multiset(Map(StrategyOf, b[..j] + b[j + 1..])) + multiset{StrategyOf(b[j])} == multiset(Map(StrategyOf, b))
  {
    hide *;
    assert b == b[..j] + [b[j]] + b[j + 1..];
    MapConcat(b[..j] + [b[j]], b[j + 1..]);
    MapConcat(b[..j], [b[j]]);
    MapConcat(b[..j], b[j + 1..]);
    MapOne(b[j]);
  }

  lemma SameRest(x: multiset<Scored>, y: multiset<Scored>, all: multiset<Scored>, e: Scored)
    requires x + multiset{e} == all && y + multiset{e} == all
    ensures x == y
  {
    hide *;
    assert x == all - multiset{e} == y;
  }

  lemma {:induction false} MapPermutes(a: seq<Scored>, b: seq<Scored>)
    requires multiset(a) == multiset(b)
    ensures multiset(Map(StrategyOf, a)) == multiset(Map(StrategyOf, b))
  {
    hide *;
    if a == [] {
      assert |multiset(b)| == 0;
      assert b == [];
    } else {
      assert a[0] in multiset(b);
      var j :| 0 <= j < |b| && b[j] == a[0];
      RemoveAt(a, 0);
      RemoveAt(b, j);
      assert a[..0] + a[1..] == a[1..];
      var rest := b[..j] + b[j + 1..];
      SameRest(multiset(a[1..]), multiset(rest), multiset(a), a[0]);
      MapPermutes(a[1..], rest);
    }
  }

  lemma MapConcat(a: seq<Scored>, b: seq<Scored>)
    ensures multiset(Map(StrategyOf, a + b)) == multiset(Map(StrategyOf, a)) + multiset(Map(StrategyOf, b))
  {
    hide *;
    assert Map(StrategyOf, a + b) == Map(StrategyOf, a) + Map(StrategyOf, b);
  }

  /** Every input candidate is accounted for exactly once: kept, rejected by a criterion, or dropped by the type limit. */
  lemma EveryCandidateOnce(cs: seq<Strategy>, cr: Criteria)
    ensures multiset(Map(StrategyOf, Kept(cs, cr)))
          + multiset(Map(StrategyOf, Dropped(Eligible(cs, cr), cr.maxSameType)))
          + multiset(Map(StrategyOf, Ranked(Filtered(cs, cr, false)))) == multiset(cs)
  {
    var passed, failed := Filtered(cs, cr, true), Filtered(cs, cr, false);
    var ranked, limit := Eligible(cs, cr), cr.maxSameType;
    FilterPartitions(cs, cr);
    RankedMembers(Bonused(passed));
    RankedMembers(failed);
    LimitSplits(ranked, limit);
    hide Filtered, Limited, Dropped, Ranked, WithBonus;
    MapPermutes(Ranked(failed), failed);
    MapPermutes(ranked, Bonused(passed));
    MapPermutes(Limited(ranked, limit) + Dropped(ranked, limit), ranked);
    MapConcat(Limited(ranked, limit), Dropped(ranked, limit));
    assert Map(StrategyOf, Kept(cs, cr)) == Map(StrategyOf, Limited(ranked, limit));
    BonusStrategies(passed);
  }

  lemma BonusStrategies(ss: seq<Scored>)
    ensures Map(StrategyOf, Bonused(ss)) == Map(StrategyOf, ss)
  {
  }
}
