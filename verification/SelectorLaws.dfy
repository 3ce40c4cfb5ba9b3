/** What each component of a candidate's score is worth, which criterion rejects a candidate, and why a
    better candidate never scores less. */
module SelectorLaws {
  import opened PySeq
  import opened Selector
  import Correlation

  // ---------------------------------------------------------------- components

  /** A score growing in proportion up to `full` points at the figure `goal`. */
  ghost predicate Proportional(points: real, figure: real, goal: real, full: real) {
    if figure >= goal then points == full else points * goal == figure * full && points < full
  }

  /** 30 points at 20% return, 25 at a Sharpe ratio of 2, 15 less the drawdown, 15 at 100 trades, 15 for a passed
      walk-forward or 8 for a profitable one, less 2 for each parameter too many; 100 points at most. */
  lemma ComponentsExactly(c: Strategy, cr: Criteria)
    ensures var s := Score(c, cr);
            && Proportional(s.returnScore, c.returnPct, 20.0, 30.0)
            && Proportional(s.sharpeScore, c.sharpe, 2.0, 25.0)
            && s.ddScore == (if c.maxDd >= 15.0 then 0.0 else 15.0 - c.maxDd)
            && Proportional(s.tradeScore, c.totalTrades as real, 100.0, 15.0)
            && s.wfScore == (if c.wfPassed then 15.0 else if c.wfOosReturn.Some? && c.wfOosReturn.value > 0.0 then 8.0 else 0.0)
            && s.penalty == (if c.paramCount > cr.maxParams then 2.0 * (c.paramCount - cr.maxParams) as real else 0.0)
            && (0.0 <= c.maxDd ==> s.score <= 100.0)
            && (0.0 <= c.returnPct && 0.0 <= c.sharpe && 0 <= c.totalTrades && c.paramCount <= cr.maxParams ==> 0.0 <= s.score)
  {
  }

  /** At least as good in every figure the score looks at. */
  ghost predicate Better(a: Strategy, b: Strategy) {
    && a.returnPct >= b.returnPct && a.sharpe >= b.sharpe && a.maxDd <= b.maxDd && a.totalTrades >= b.totalTrades
    && (b.wfPassed ==> a.wfPassed) && a.paramCount <= b.paramCount
    && (b.wfOosReturn.Some? && b.wfOosReturn.value > 0.0 ==> a.wfPassed || (a.wfOosReturn.Some? && a.wfOosReturn.value > 0.0))
  }

  /** A candidate at least as good in every figure scores at least as much. */
  lemma BetterScores(a: Strategy, b: Strategy, cr: Criteria)
    requires Better(a, b)
    ensures Score(a, cr).score >= Score(b, cr).score
  {
    var s, t := Score(a, cr), Score(b, cr);
    assert s.returnScore >= t.returnScore && s.sharpeScore >= t.sharpeScore;
    assert s.ddScore >= t.ddScore && s.tradeScore >= t.tradeScore && s.wfScore >= t.wfScore;
    assert s.penalty <= t.penalty;
  }

  // ---------------------------------------------------------------- criteria

  ghost predicate Meets(c: Strategy, cr: Criteria, r: Reason) {
    match r
    case LowReturn => c.returnPct >= cr.minReturn
    case LowSharpe => c.sharpe >= cr.minSharpe
    case HighDrawdown => c.maxDd <= cr.maxDrawdown
    case LowWinRate => c.winRate >= cr.minWinRate
    case LowProfitFactor => c.profitFactor >= cr.minProfitFactor
    case FewTrades => c.totalTrades >= cr.minTrades
    case WalkForwardFailed => c.wfPassed || !cr.requireWalkForward
  }

  function Place(r: Reason): nat {
    match r
    case LowReturn => 0
    case LowSharpe => 1
    case HighDrawdown => 2
    case LowWinRate => 3
    case LowProfitFactor => 4
    case FewTrades => 5
    case WalkForwardFailed => 6
  }

  /** A candidate passes when it meets all seven criteria; otherwise the reason is the first it misses. */
  lemma CheckExactly(c: Strategy, cr: Criteria)
    ensures Check(c, cr).None? <==> forall r :: Meets(c, cr, r)
    ensures Check(c, cr).Some? ==>
              var missed := Check(c, cr).value;
              !Meets(c, cr, missed) && forall r :: Place(r) < Place(missed) ==> Meets(c, cr, r)
  {
    if Check(c, cr).Some? {
      assert !Meets(c, cr, Check(c, cr).value);
    } else {
      forall r ensures Meets(c, cr, r) {
      }
    }
  }

  // ---------------------------------------------------------------- the diversity bonus

  function OfKind(kind: Correlation.StrategyType): Scored -> bool {
    (s: Scored) => s.strategy.kind == kind
  }

  lemma {:induction false} CountPlaces(ss: seq<Scored>, kind: Correlation.StrategyType) returns (at: seq<nat>)
    ensures AllPlaces(ss, OfKind(kind), at) && |at| == CountKind(ss, kind)
  {
    if ss == [] {
      at := [];
    } else {
      var before := CountPlaces(ss[..|ss| - 1], kind);
      AllPlacesSnoc(ss, OfKind(kind), before);
      at := if ss[|ss| - 1].strategy.kind == kind then before + [|ss| - 1] else before;
    }
  }

  /** Among the candidates that pass, the first of its type gains 5 points, the second none, and each later
      one loses 3. */
  lemma BonusExactly(ss: seq<Scored>, i: nat) returns (earlier: seq<nat>)
    requires i < |ss|
    ensures AllPlaces(ss[..i], OfKind(ss[i].strategy.kind), earlier)
    ensures Bonused(ss)[i] == if |earlier| == 0 then ss[i].(score := ss[i].score + 5.0, bonus := 5.0)
                              else if |earlier| >= 2 then ss[i].(score := ss[i].score - 3.0, bonus := -3.0)
                              else ss[i]
  {
    hide CountKind;
    earlier := CountPlaces(ss[..i], ss[i].strategy.kind);
  }

  /** An entry carries its candidate's own components, and a score of their sum plus a bonus of 5, 0 or -3. */
  ghost predicate Genuine(s: Scored, cr: Criteria) {
    var t := Score(s.strategy, cr);
    && s.returnScore == t.returnScore && s.sharpeScore == t.sharpeScore && s.ddScore == t.ddScore
    && s.tradeScore == t.tradeScore && s.wfScore == t.wfScore && s.penalty == t.penalty
    && s.score == t.score + s.bonus && (s.bonus == 5.0 || s.bonus == 0.0 || s.bonus == -3.0)
  }

  lemma {:induction false} FilteredGenuine(cs: seq<Strategy>, cr: Criteria)
    ensures forall i :: 0 <= i < |Filtered(cs, cr, true)| ==>
              var s := Filtered(cs, cr, true)[i]; Genuine(s, cr) && s.bonus == 0.0
  {
    hide Score, Check;
    if cs == [] {
    } else {
      FilteredGenuine(cs[..|cs| - 1], cr);
      NoBonusYet(cs[|cs| - 1], cr);
    }
  }

  lemma NoBonusYet(c: Strategy, cr: Criteria)
    ensures Score(c, cr).bonus == 0.0 && Score(c, cr).strategy == c
  {
  }

  lemma KeptGenuine(cs: seq<Strategy>, cr: Criteria, s: Scored)
    requires s in Kept(cs, cr)
    ensures Genuine(s, cr)
  {
    hide Score, Filtered, Ranked, Limited, CountKind;
    var passed := Filtered(cs, cr, true);
    var t := NumberedMember(Limited(Eligible(cs, cr), cr.maxSameType), s);
    LimitMembers(Eligible(cs, cr), cr.maxSameType, t);
    RankedMembers(Bonused(passed));
    FilteredGenuine(cs, cr);
    var i :| 0 <= i < |passed| && Bonused(passed)[i] == t;
    assert Genuine(passed[i], cr) && passed[i].bonus == 0.0;
  }

  /** So of two kept candidates, one at least as good in every figure is at most 8 points behind, and never
      behind one with no larger bonus. */
  lemma BetterRanks(cs: seq<Strategy>, cr: Criteria, s: Scored, t: Scored)
    requires s in Kept(cs, cr) && t in Kept(cs, cr) && Better(s.strategy, t.strategy)
    ensures s.score >= t.score - 8.0 && (s.bonus >= t.bonus ==> s.score >= t.score)
  {
    hide Score, Kept, Better;
    KeptGenuine(cs, cr, s);
    KeptGenuine(cs, cr, t);
    BetterScores(s.strategy, t.strategy, cr);
  }
}
