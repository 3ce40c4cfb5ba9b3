/** Greedy ensemble selection, capital allocation and expected drawdown of
    src/ai_optimizer/ensemble.py. */
module Ensemble {
  import opened PySeq
  import opened Reals
  import opened Correlation
  import Sorting

  const MAX_CORRELATION := 0.7
  const MAX_SIZE := 4
  const MIN_SIZE := 2

  datatype Pair = Pair(a: string, b: string, correlation: real)

  ghost predicate DistinctIds(cs: seq<Candidate>) {
    forall i, j :: 0 <= i < j < |cs| ==> cs[i].id != cs[j].id
  }

  // ---------------------------------------------------------------- the correlation table

  function PairOf(cs: seq<Candidate>, i: nat, j: nat, logs: Logs, root: real -> real): Pair
    requires i < |cs| && j < |cs|
  {
    Pair(cs[i].id, cs[j].id, PairCorrelation(cs[i], cs[j], logs, root))
  }

  /** The pairs (i, j) with j < n, for the candidates after i. */
  function RowPairs(cs: seq<Candidate>, i: nat, n: nat, logs: Logs, root: real -> real): seq<Pair>
    requires i < |cs| && n <= |cs|
  {
    if n <= i + 1 then [] else RowPairs(cs, i, n - 1, logs, root) + [PairOf(cs, i, n - 1, logs, root)]
  }

  function AllPairs(cs: seq<Candidate>, m: nat, logs: Logs, root: real -> real): seq<Pair>
    requires m <= |cs|
  {
    if m == 0 then [] else AllPairs(cs, m - 1, logs, root) + RowPairs(cs, m - 1, |cs|, logs, root)
  }

  /** `_compute_correlations` */
  method ComputeCorrelations(cs: seq<Candidate>, logs: Logs, root: real -> real) returns (pairs: seq<Pair>)
    ensures pairs == AllPairs(cs, |cs|, logs, root)
  {
    hide PairOf;
    pairs := [];
    for i := 0 to |cs|
      invariant pairs == AllPairs(cs, i, logs, root)
    {
      ghost var before := pairs;
      for j := 0 to |cs|
        invariant pairs == before + RowPairs(cs, i, j, logs, root)
      {
        if i >= j {
          continue;
        }
        pairs := pairs + [PairOf(cs, i, j, logs, root)];
      }
    }
  }

  ghost predicate IsPairOf(p: Pair, cs: seq<Candidate>, logs: Logs, root: real -> real) {
    exists i, j :: 0 <= i < j < |cs| && p == PairOf(cs, i, j, logs, root)
  }

  lemma {:induction false} RowPairsMembers(cs: seq<Candidate>, i: nat, n: nat, logs: Logs, root: real -> real)
    requires i < |cs| && n <= |cs|
    ensures forall p :: p in RowPairs(cs, i, n, logs, root) ==> IsPairOf(p, cs, logs, root)
    ensures forall j :: i < j < n ==> PairOf(cs, i, j, logs, root) in RowPairs(cs, i, n, logs, root)
  {
    hide PairOf;
    if n <= i + 1 {
    } else {
      RowPairsMembers(cs, i, n - 1, logs, root);
      assert IsPairOf(PairOf(cs, i, n - 1, logs, root), cs, logs, root);
    }
  }

  /** The list has every unordered pair of candidates, and nothing else. */
  lemma {:induction false} AllPairsMembers(cs: seq<Candidate>, m: nat, logs: Logs, root: real -> real)
    requires m <= |cs|
    ensures forall p :: p in AllPairs(cs, m, logs, root) ==> IsPairOf(p, cs, logs, root)
    ensures forall i, j :: 0 <= i < m && i < j < |cs| ==> PairOf(cs, i, j, logs, root) in AllPairs(cs, m, logs, root)
  {
    hide PairOf, IsPairOf, AllPairs, RowPairs;
    AllPairsStep(cs, m, logs, root);
    if m == 0 {
    } else {
      AllPairsMembers(cs, m - 1, logs, root);
      RowPairsMembers(cs, m - 1, |cs|, logs, root);
      forall i, j | 0 <= i < m && i < j < |cs| ensures PairOf(cs, i, j, logs, root) in AllPairs(cs, m, logs, root) {
        if i < m - 1 {
          assert PairOf(cs, i, j, logs, root) in AllPairs(cs, m - 1, logs, root);
        } else {
          assert PairOf(cs, i, j, logs, root) in RowPairs(cs, m - 1, |cs|, logs, root);
        }
      }
    }
  }

  lemma AllPairsStep(cs: seq<Candidate>, m: nat, logs: Logs, root: real -> real)
    requires m <= |cs|
    ensures AllPairs(cs, m, logs, root)
         == if m == 0 then [] else AllPairs(cs, m - 1, logs, root) + RowPairs(cs, m - 1, |cs|, logs, root)
  {
  }

  function CorrMap(pairs: seq<Pair>): map<(string, string), real> {
    if pairs == [] then map[]
    else
      var p := pairs[|pairs| - 1];
      CorrMap(pairs[..|pairs| - 1])[(p.a, p.b) := p.correlation][(p.b, p.a) := p.correlation]
  }

  function Corr(m: map<(string, string), real>, x: string, y: string): real {
    if (x, y) in m then m[(x, y)] else 0.5
  }

  ghost predicate Backed(pairs: seq<Pair>, x: string, y: string, value: real) {
    exists i :: 0 <= i < |pairs| && pairs[i].correlation == value
      && ((pairs[i].a == x && pairs[i].b == y) || (pairs[i].a == y && pairs[i].b == x))
  }

  lemma {:induction false} CorrMapBacked(pairs: seq<Pair>)
    ensures forall x, y :: (x, y) in CorrMap(pairs) ==> Backed(pairs, x, y, CorrMap(pairs)[(x, y)])
    ensures forall i :: 0 <= i < |pairs| ==> (pairs[i].a, pairs[i].b) in CorrMap(pairs) && (pairs[i].b, pairs[i].a) in CorrMap(pairs)
  {
    if pairs == [] {
    } else {
      var n := |pairs| - 1;
      var m, m' := CorrMap(pairs[..n]), CorrMap(pairs);
      CorrMapBacked(pairs[..n]);
      hide Backed;
      forall x, y | (x, y) in m' ensures Backed(pairs, x, y, m'[(x, y)]) {
        if (x, y) == (pairs[n].b, pairs[n].a) || (x, y) == (pairs[n].a, pairs[n].b) {
          BackedLast(pairs, x, y);
        } else {
          BackedEarlier(pairs, x, y, m[(x, y)]);
        }
      }
      forall i | 0 <= i < |pairs| ensures (pairs[i].a, pairs[i].b) in m' && (pairs[i].b, pairs[i].a) in m' {
        if i < n { assert pairs[..n][i] == pairs[i]; }
      }
    }
  }

  lemma BackedLast(pairs: seq<Pair>, x: string, y: string)
    requires pairs != []
    requires var p := pairs[|pairs| - 1]; (x, y) == (p.b, p.a) || (x, y) == (p.a, p.b)
    ensures Backed(pairs, x, y, pairs[|pairs| - 1].correlation)
  {
  }

  lemma BackedEarlier(pairs: seq<Pair>, x: string, y: string, value: real)
    requires pairs != [] && Backed(pairs[..|pairs| - 1], x, y, value)
    ensures Backed(pairs, x, y, value)
  {
    var p := pairs[..|pairs| - 1];
    var i :| 0 <= i < |p| && p[i].correlation == value && ((p[i].a == x && p[i].b == y) || (p[i].a == y && p[i].b == x));
    assert pairs[i] == p[i];
  }

  function Table(cs: seq<Candidate>, logs: Logs, root: real -> real): map<(string, string), real> {
    CorrMap(AllPairs(cs, |cs|, logs, root))
  }

  /** With distinct ids the table answers, in either order, with the one correlation computed for the pair. */
  lemma TableLookup(cs: seq<Candidate>, i: nat, j: nat, logs: Logs, root: real -> real)
    requires DistinctIds(cs) && i < j < |cs|
    ensures Corr(Table(cs, logs, root), cs[i].id, cs[j].id) == PairCorrelation(cs[i], cs[j], logs, root)
    ensures Corr(Table(cs, logs, root), cs[j].id, cs[i].id) == PairCorrelation(cs[i], cs[j], logs, root)
  {
    var pairs := AllPairs(cs, |cs|, logs, root);
    AllPairsMembers(cs, |cs|, logs, root);
    CorrMapBacked(pairs);
    hide AllPairs, CorrMap, PairCorrelation;
    assert PairOf(cs, i, j, logs, root) in pairs;
    UniqueValue(cs, pairs, i, j, cs[i].id, cs[j].id, logs, root);
    UniqueValue(cs, pairs, i, j, cs[j].id, cs[i].id, logs, root);
  }

  lemma UniqueValue(cs: seq<Candidate>, pairs: seq<Pair>, i: nat, j: nat, x: string, y: string, logs: Logs, root: real -> real)
    requires DistinctIds(cs) && i < j < |cs|
    requires forall p :: p in pairs ==> IsPairOf(p, cs, logs, root)
    requires (x == cs[i].id && y == cs[j].id) || (x == cs[j].id && y == cs[i].id)
    ensures forall v :: Backed(pairs, x, y, v) ==> v == PairCorrelation(cs[i], cs[j], logs, root)
  {
    hide PairCorrelation;
    forall v | Backed(pairs, x, y, v) ensures v == PairCorrelation(cs[i], cs[j], logs, root) {
      var k :| 0 <= k < |pairs| && pairs[k].correlation == v
        && ((pairs[k].a == x && pairs[k].b == y) || (pairs[k].a == y && pairs[k].b == x));
      assert pairs[k] in pairs;
      var i', j' :| 0 <= i' < j' < |cs| && pairs[k] == PairOf(cs, i', j', logs, root);
      assert i' == i && j' == j;
    }
  }

  // ---------------------------------------------------------------- greedy selection

  function NegReturn(c: Candidate): real {
    -c.returnPct
  }

  predicate Compatible(c: Candidate, chosen: seq<Candidate>, table: map<(string, string), real>) {
    forall i :: 0 <= i < |chosen| ==> Corr(table, c.id, chosen[i].id) <= MAX_CORRELATION
  }

  /** The choice after the first k candidates in order of return. */
  function Choose(ranked: seq<Candidate>, table: map<(string, string), real>, k: nat): seq<Candidate>
    requires k <= |ranked|
  {
    if k == 0 then []
    else
      var chosen := Choose(ranked, table, k - 1);
      if |chosen| < MAX_SIZE && Compatible(ranked[k - 1], chosen, table) then chosen + [ranked[k - 1]] else chosen
  }

  /** `_find_best_combination` */
  method FindBestCombination(cs: seq<Candidate>, pairs: seq<Pair>) returns (chosen: seq<Candidate>)
    ensures var ranked := Sorting.StableSort(NegReturn, cs);
            chosen == Choose(ranked, CorrMap(pairs), |ranked|)
  {
    var table := BuildTable(pairs);
    var ranked := Sorting.StableSort(NegReturn, cs);
    hide Sorting.StableSort, CorrMap;
    chosen := [];
    var k := 0;
    while k < |ranked|
      invariant k <= |ranked| && chosen == Choose(ranked, table, k)
    {
      if |chosen| >= MAX_SIZE {
        FullStays(ranked, table, k, |ranked|);
        return;
      }
      var compatible := CheckCompatible(ranked[k], chosen, table);
      if compatible {
        chosen := chosen + [ranked[k]];
      }
      k := k + 1;
    }
  }

  method BuildTable(pairs: seq<Pair>) returns (table: map<(string, string), real>)
    ensures table == CorrMap(pairs)
  {
    table := map[];
    for i := 0 to |pairs|
      invariant table == CorrMap(pairs[..i])
    {
      assert pairs[..i + 1][..i] == pairs[..i];
      table := table[(pairs[i].a, pairs[i].b) := pairs[i].correlation];
      table := table[(pairs[i].b, pairs[i].a) := pairs[i].correlation];
    }
    assert pairs[..|pairs|] == pairs;
  }

  method CheckCompatible(c: Candidate, chosen: seq<Candidate>, table: map<(string, string), real>) returns (compatible: bool)
    ensures compatible == Compatible(c, chosen, table)
  {
    compatible := true;
    for i := 0 to |chosen|
      invariant forall j :: 0 <= j < i ==> Corr(table, c.id, chosen[j].id) <= MAX_CORRELATION
    {
      if Corr(table, c.id, chosen[i].id) > MAX_CORRELATION {
        return false;
      }
    }
  }

  lemma {:induction false} FullStays(ranked: seq<Candidate>, table: map<(string, string), real>, j: nat, k: nat)
    requires j <= k <= |ranked| && |Choose(ranked, table, j)| >= MAX_SIZE
    ensures Choose(ranked, table, k) == Choose(ranked, table, j)
    decreases k
  {
    if j == k {
    } else {
      FullStays(ranked, table, j, k - 1);
    }
  }

  /** All chosen pairs respect the correlation cap, and at most four are chosen. */
  lemma {:induction false} ChosenCompatible(ranked: seq<Candidate>, table: map<(string, string), real>, k: nat)
    requires k <= |ranked|
    ensures var s := Choose(ranked, table, k);
            && |s| <= MAX_SIZE
            && forall i, j :: 0 <= i < j < |s| ==> Corr(table, s[j].id, s[i].id) <= MAX_CORRELATION
  {
    if k == 0 {
    } else {
      ChosenCompatible(ranked, table, k - 1);
    }
  }

  lemma {:induction false} ChosenGrows(ranked: seq<Candidate>, table: map<(string, string), real>, j: nat, k: nat)
    requires j <= k <= |ranked|
    ensures Choose(ranked, table, j) <= Choose(ranked, table, k)
    decreases k
  {
    if j == k {
    } else {
      ChosenGrows(ranked, table, j, k - 1);
    }
  }

  lemma {:induction false} ChosenFrom(ranked: seq<Candidate>, table: map<(string, string), real>, k: nat)
    requires k <= |ranked|
    ensures forall c :: c in Choose(ranked, table, k) ==> exists i :: 0 <= i < k && ranked[i] == c
  {
    if k == 0 {
    } else {
      ChosenFrom(ranked, table, k - 1);
    }
  }

  /** Greedy: a candidate that is not chosen either came when four had been chosen, or conflicts
      with one chosen before it, whose return is at least as high. */
  lemma UnchosenExplained(cs: seq<Candidate>, table: map<(string, string), real>, m: nat)
    requires var ranked := Sorting.StableSort(NegReturn, cs);
             m < |ranked| && ranked[m] !in Choose(ranked, table, |ranked|)
    ensures var ranked := Sorting.StableSort(NegReturn, cs);
            || |Choose(ranked, table, m)| == MAX_SIZE
            || exists e :: e in Choose(ranked, table, m) && Corr(table, ranked[m].id, e.id) > MAX_CORRELATION
    ensures var ranked := Sorting.StableSort(NegReturn, cs);
            forall e :: e in Choose(ranked, table, m) ==>
              e in Choose(ranked, table, |ranked|) && e.returnPct >= ranked[m].returnPct
  {
    var ranked := Sorting.StableSort(NegReturn, cs);
    Sorting.SortSorts(NegReturn, cs);
    hide Sorting.StableSort;
    var before := Choose(ranked, table, m);
    ChosenGrows(ranked, table, m, |ranked|);
    ChosenGrows(ranked, table, m + 1, |ranked|);
    ChosenCompatible(ranked, table, m);
    ChosenFrom(ranked, table, m);
    forall e | e in before ensures e in Choose(ranked, table, |ranked|) && e.returnPct >= ranked[m].returnPct {
      var j :| 0 <= j < m && ranked[j] == e;
      assert NegReturn(ranked[j]) <= NegReturn(ranked[m]);
    }
    if |before| < MAX_SIZE {
      assert ranked[m] !in Choose(ranked, table, m + 1);
      assert (before + [ranked[m]])[|before|] == ranked[m];
      var i :| 0 <= i < |before| && Corr(table, ranked[m].id, before[i].id) > MAX_CORRELATION;
      assert before[i] in before;
    }
  }

  // ---------------------------------------------------------------- the chosen members

  function Members(cs: seq<Candidate>, logs: Logs, root: real -> real): seq<Candidate> {
    var ranked := Sorting.StableSort(NegReturn, cs);
    Choose(ranked, Table(cs, logs, root), |ranked|)
  }

  /** The correlation computed for two candidates of the input, whichever comes first. */
  function PairAt(cs: seq<Candidate>, i: nat, j: nat, logs: Logs, root: real -> real): real
    requires i < |cs| && j < |cs|
  {
    if i < j then PairCorrelation(cs[i], cs[j], logs, root) else PairCorrelation(cs[j], cs[i], logs, root)
  }

  /** Why a candidate is no member: four with at least its return are, or one of at least its return
      correlates with it above the cap. */
  lemma OutsiderExplained(cs: seq<Candidate>, i: nat, logs: Logs, root: real -> real)
    requires DistinctIds(cs) && i < |cs| && cs[i] !in Members(cs, logs, root)
    ensures || (|Members(cs, logs, root)| == MAX_SIZE
                && forall e :: e in Members(cs, logs, root) ==> e.returnPct >= cs[i].returnPct)
            || exists j :: 0 <= j < |cs| && j != i && cs[j] in Members(cs, logs, root)
                 && cs[j].returnPct >= cs[i].returnPct && PairAt(cs, i, j, logs, root) > MAX_CORRELATION
  {
    hide Sorting.StableSort, Table, PairCorrelation, Compatible, Choose, Members, Corr, DistinctIds;
    var ranked, table := Sorting.StableSort(NegReturn, cs), Table(cs, logs, root);
    var m := RankOf(cs, cs[i]);
    MembersChosen(cs, logs, root);
    UnchosenExplained(cs, table, m);
    MembersFromInput(cs, logs, root);
    if |Choose(ranked, table, m)| == MAX_SIZE {
      FullStays(ranked, table, m, |ranked|);
    } else {
      var e :| e in Choose(ranked, table, m) && Corr(table, ranked[m].id, e.id) > MAX_CORRELATION;
      assert e in Members(cs, logs, root);
      var j :| 0 <= j < |cs| && cs[j] == e;
      if i < j {
        TableLookup(cs, i, j, logs, root);
      } else {
        TableLookup(cs, j, i, logs, root);
      }
    }
  }

  lemma MembersChosen(cs: seq<Candidate>, logs: Logs, root: real -> real)
    ensures var ranked := Sorting.StableSort(NegReturn, cs);
            Members(cs, logs, root) == Choose(ranked, Table(cs, logs, root), |ranked|)
  {
    hide Choose, Table, Sorting.StableSort;
  }

  lemma RankOf(cs: seq<Candidate>, c: Candidate) returns (m: nat)
    requires c in cs
    ensures var ranked := Sorting.StableSort(NegReturn, cs); m < |ranked| && ranked[m] == c
  {
    Sorting.SortSorts(NegReturn, cs);
    hide Sorting.StableSort;
    var ranked := Sorting.StableSort(NegReturn, cs);
    assert c in multiset(ranked);
    m :| 0 <= m < |ranked| && ranked[m] == c;
  }

  lemma MembersFromInput(cs: seq<Candidate>, logs: Logs, root: real -> real)
    ensures forall c :: c in Members(cs, logs, root) ==> c in cs
  {
    var ranked := Sorting.StableSort(NegReturn, cs);
    Sorting.SortSorts(NegReturn, cs);
    hide Sorting.StableSort, Table;
    ChosenFrom(ranked, Table(cs, logs, root), |ranked|);
    forall c | c in Members(cs, logs, root) ensures c in cs {
      var i :| 0 <= i < |ranked| && ranked[i] == c;
      assert c in multiset(ranked);
    }
  }

  /** No two members share an id. */
  lemma MembersDistinct(cs: seq<Candidate>, logs: Logs, root: real -> real)
    requires DistinctIds(cs)
    ensures DistinctIds(Members(cs, logs, root))
  {
    var ranked := Sorting.StableSort(NegReturn, cs);
    Sorting.SortSorts(NegReturn, cs);
    RankedDistinct(cs, ranked);
    hide Sorting.StableSort, Table;
    ChosenDistinct(ranked, Table(cs, logs, root), |ranked|);
  }

  lemma {:induction false} ChosenDistinct(ranked: seq<Candidate>, table: map<(string, string), real>, k: nat)
    requires k <= |ranked| && DistinctIds(ranked)
    ensures DistinctIds(Choose(ranked, table, k))
  {
    if k == 0 {
    } else {
      ChosenDistinct(ranked, table, k - 1);
      ChosenFrom(ranked, table, k - 1);
      var s := Choose(ranked, table, k - 1);
      forall i | 0 <= i < |s| ensures s[i].id != ranked[k - 1].id {
        assert s[i] in s;
        var j :| 0 <= j < k - 1 && ranked[j] == s[i];
      }
    }
  }

  ghost function IdSet(cs: seq<Candidate>): set<string> {
    set i | 0 <= i < |cs| :: cs[i].id
  }

  lemma {:induction false} IdSetSize(cs: seq<Candidate>)
    ensures |IdSet(cs)| <= |cs|
    ensures DistinctIds(cs) <==> |IdSet(cs)| == |cs|
  {
    if cs == [] {
    } else {
      var n := |cs| - 1;
      IdSetSize(cs[..n]);
      IdSetSnoc(cs, n);
      hide IdSet;
    }
  }

  lemma IdSetSnoc(cs: seq<Candidate>, n: nat)
    requires |cs| == n + 1
    ensures IdSet(cs) == IdSet(cs[..n]) + {cs[n].id}
    ensures DistinctIds(cs) <==> DistinctIds(cs[..n]) && cs[n].id !in IdSet(cs[..n])
  {
    var p := cs[..n];
    if DistinctIds(cs) {
      forall i | 0 <= i < n ensures p[i].id != cs[n].id {
        assert p[i] == cs[i];
      }
    }
    if DistinctIds(p) && cs[n].id !in IdSet(p) {
      forall i | 0 <= i < n ensures cs[i].id != cs[n].id {
        assert p[i] == cs[i];
      }
    }
  }

  lemma RankedDistinct(cs: seq<Candidate>, ranked: seq<Candidate>)
    requires multiset(ranked) == multiset(cs) && |ranked| == |cs| && DistinctIds(cs)
    ensures DistinctIds(ranked)
  {
    forall x ensures x in IdSet(ranked) <==> x in IdSet(cs) {
      SameIds(ranked, cs, x);
      SameIds(cs, ranked, x);
    }
    assert IdSet(ranked) == IdSet(cs);
    IdSetSize(cs);
    IdSetSize(ranked);
  }

  lemma SameIds(a: seq<Candidate>, b: seq<Candidate>, x: string)
    requires multiset(a) == multiset(b)
    ensures x in IdSet(a) ==> x in IdSet(b)
  {
    if x in IdSet(a) {
      var i :| 0 <= i < |a| && a[i].id == x;
      assert a[i] in multiset(b);
      assert a[i] in b;
    }
  }

  /** The correlation of any two members, as computed for them, is at most the cap. */
  lemma MembersCapped(cs: seq<Candidate>, i: nat, j: nat, logs: Logs, root: real -> real)
    requires DistinctIds(cs) && i < j < |cs|
    requires cs[i] in Members(cs, logs, root) && cs[j] in Members(cs, logs, root)
    ensures PairCorrelation(cs[i], cs[j], logs, root) <= MAX_CORRELATION
  {
    var ranked := Sorting.StableSort(NegReturn, cs);
    var table := Table(cs, logs, root);
    ChosenCompatible(ranked, table, |ranked|);
    TableLookup(cs, i, j, logs, root);
    var s := Members(cs, logs, root);
    hide Sorting.StableSort, Table, PairCorrelation, Members;
    var x :| 0 <= x < |s| && s[x] == cs[i];
    var y :| 0 <= y < |s| && s[y] == cs[j];
    if x < y {
      assert Corr(table, s[y].id, s[x].id) <= MAX_CORRELATION;
    } else {
      assert Corr(table, s[x].id, s[y].id) <= MAX_CORRELATION;
    }
  }

  /** Without trade logs, as the discovery engine calls it, members have pairwise distinct strategy types. */
  lemma DistinctTypes(cs: seq<Candidate>, i: nat, j: nat, root: real -> real)
    requires DistinctIds(cs) && i < j < |cs|
    requires cs[i] in Members(cs, map[], root) && cs[j] in Members(cs, map[], root)
    ensures cs[i].kind != cs[j].kind
  {
    MembersCapped(cs, i, j, map[], root);
    hide Members, Pearson;
  }

  /** `type_diversity`: how many strategy types the members have. */
  function TypeDiversity(cs: seq<Candidate>): nat {
    |Kinds(cs)|
  }

  function Kinds(cs: seq<Candidate>): set<StrategyType> {
    set i | 0 <= i < |cs| :: cs[i].kind
  }

  lemma {:induction false} DistinctKindsCount(cs: seq<Candidate>)
    requires forall i, j :: 0 <= i < j < |cs| ==> cs[i].kind != cs[j].kind
    ensures |Kinds(cs)| == |cs|
  {
    if cs == [] {
    } else {
      var n := |cs| - 1;
      DistinctKindsCount(cs[..n]);
      KindsSnoc(cs, n);
      hide Kinds;
    }
  }

  lemma KindsSnoc(cs: seq<Candidate>, n: nat)
    requires |cs| == n + 1 && forall i, j :: 0 <= i < j < |cs| ==> cs[i].kind != cs[j].kind
    ensures Kinds(cs) == Kinds(cs[..n]) + {cs[n].kind} && cs[n].kind !in Kinds(cs[..n])
  {
    assert forall i :: 0 <= i < n ==> cs[..n][i] == cs[i];
  }

  /** Then the reported type diversity is the number of members. */
  lemma FullDiversity(cs: seq<Candidate>, root: real -> real)
    requires DistinctIds(cs)
    ensures TypeDiversity(Members(cs, map[], root)) == |Members(cs, map[], root)|
  {
    var s := Members(cs, map[], root);
    MembersDistinct(cs, map[], root);
    MembersFromInput(cs, map[], root);
    hide Members;
    forall x, y | 0 <= x < y < |s| ensures s[x].kind != s[y].kind {
      assert s[x] in s && s[y] in s;
      var i :| 0 <= i < |cs| && cs[i] == s[x];
      var j :| 0 <= j < |cs| && cs[j] == s[y];
      if i < j {
        DistinctTypes(cs, i, j, root);
      } else {
        DistinctTypes(cs, j, i, root);
      }
    }
    DistinctKindsCount(s);
  }

  // ---------------------------------------------------------------- capital allocation

  /** `round(x, 1)`: to the nearest tenth, ties to the even one. */
  function Round1(x: real): real {
    var f := (x * 10.0).Floor;
    var d := x * 10.0 - f as real;
    var n := if d < 0.5 then f else if d > 0.5 then f + 1 else if f % 2 == 0 then f else f + 1;
    n as real / 10.0
  }

  lemma Round1Close(x: real)
    ensures x - 0.05 <= Round1(x) <= x + 0.05
    ensures x >= 0.0 ==> Round1(x) >= 0.0
  {
  }

  function Weight(c: Candidate): real {
    Max(c.sharpe, 0.1)
  }

  function TotalWeight(cs: seq<Candidate>): (r: real)
    ensures r >= 0.0 && (cs != [] ==> r > 0.0)
  {
    if cs == [] then 0.0 else TotalWeight(cs[..|cs| - 1]) + Weight(cs[|cs| - 1])
  }

  /** `_allocate_capital`: Sharpe-proportional percentages, rounded. */
  function Allocations(cs: seq<Candidate>): (r: seq<real>)
    ensures |r| == |cs|
  {
    seq(|cs|, i requires 0 <= i < |cs| => if TotalWeight(cs) == 0.0 then 0.0 else Round1(Weight(cs[i]) / TotalWeight(cs) * 100.0))
  }

  method AllocateCapital(cs: seq<Candidate>) returns (allocations: seq<real>)
    ensures allocations == Allocations(cs)
  {
    hide Round1;
    if cs == [] {
      return [];
    }
    var total := 0.0;
    for i := 0 to |cs|
      invariant total == TotalWeight(cs[..i])
    {
      assert cs[..i + 1][..i] == cs[..i];
      total := total + Max(cs[i].sharpe, 0.1);
    }
    assert cs[..|cs|] == cs;
    allocations := [];
    for i := 0 to |cs|
      invariant |allocations| == i
      invariant forall j :: 0 <= j < i ==> allocations[j] == Round1(Weight(cs[j]) / total * 100.0)
    {
      allocations := allocations + [Round1(Max(cs[i].sharpe, 0.1) / total * 100.0)];
    }
  }

  ghost function Shares(cs: seq<Candidate>, total: real): (r: seq<real>)
    requires total > 0.0
    ensures |r| == |cs|
  {
    seq(|cs|, i requires 0 <= i < |cs| => Weight(cs[i]) / total * 100.0)
  }

  lemma {:induction false} SharesSum(cs: seq<Candidate>, total: real)
    requires total > 0.0
    ensures Sum(Shares(cs, total)) == TotalWeight(cs) / total * 100.0
  {
    if cs == [] {
      DivUnique(0.0, total, 0.0);
    } else {
      var n := |cs| - 1;
      SharesSum(cs[..n], total);
      assert Shares(cs, total)[..n] == Shares(cs[..n], total);
      AddQuotients(TotalWeight(cs[..n]), Weight(cs[n]), total);
    }
  }

  lemma AddQuotients(a: real, b: real, n: real)
    requires n > 0.0
    ensures (a + b) / n == a / n + b / n
  {
    DivMul(a, n);
    DivMul(b, n);
    Distribute(a / n, b / n, n);
    DivUnique(a + b, n, a / n + b / n);
  }

  lemma {:induction false} RoundedSum(exact: seq<real>, rounded: seq<real>)
    requires |exact| == |rounded| && forall i :: 0 <= i < |exact| ==> rounded[i] == Round1(exact[i])
    ensures Sum(exact) - 0.05 * |exact| as real <= Sum(rounded) <= Sum(exact) + 0.05 * |exact| as real
  {
    if exact == [] {
    } else {
      var n := |exact| - 1;
      RoundedSum(exact[..n], rounded[..n]);
      Round1Close(exact[n]);
    }
  }

  /** The percentages add up to 100 within a twentieth of a point per member; each is non-negative. */
  lemma AllocationTotal(cs: seq<Candidate>)
    requires cs != []
    ensures 100.0 - 0.05 * |cs| as real <= Sum(Allocations(cs)) <= 100.0 + 0.05 * |cs| as real
    ensures forall i :: 0 <= i < |cs| ==> Allocations(cs)[i] >= 0.0
  {
    var total := TotalWeight(cs);
    hide Round1;
    SharesSum(cs, total);
    DivUnique(total, total, 1.0);
    RoundedSum(Shares(cs, total), Allocations(cs));
    forall i | 0 <= i < |cs| ensures Allocations(cs)[i] >= 0.0 {
      DivSign(Weight(cs[i]), total);
      Round1Close(Weight(cs[i]) / total * 100.0);
    }
  }

  // ---------------------------------------------------------------- expected drawdown

  function Relevant(pairs: seq<Pair>, ids: set<string>): seq<real> {
    if pairs == [] then []
    else
      var p := pairs[|pairs| - 1];
      Relevant(pairs[..|pairs| - 1], ids) + if p.a in ids && p.b in ids then [p.correlation] else []
  }

  /** The average correlation of the members' pairs; 0 if there is none. */
  function AverageCorrelation(pairs: seq<Pair>, members: seq<Candidate>): real {
    var relevant := Relevant(pairs, set i | 0 <= i < |members| :: members[i].id);
    if relevant == [] then 0.0 else Sum(relevant) / |relevant| as real
  }

  function Largest(r: seq<real>): (m: real)
    requires r != []
    ensures m in r && forall i :: 0 <= i < |r| ==> r[i] <= m
  {
    if |r| == 1 then r[0] else Max(Largest(r[..|r| - 1]), r[|r| - 1])
  }

  /** `max_correlation`; 0 if the members have no pair. */
  function MaxCorrelation(pairs: seq<Pair>, members: seq<Candidate>): real {
    var relevant := Relevant(pairs, set i | 0 <= i < |members| :: members[i].id);
    if relevant == [] then 0.0 else Largest(relevant)
  }

  lemma {:induction false} RelevantWithin(pairs: seq<Pair>, ids: set<string>, lo: real, hi: real)
    requires forall p :: p in pairs && p.a in ids && p.b in ids ==> lo <= p.correlation <= hi
    ensures forall v :: v in Relevant(pairs, ids) ==> lo <= v <= hi
  {
    if pairs == [] {
    } else {
      RelevantWithin(pairs[..|pairs| - 1], ids, lo, hi);
    }
  }

  function DiversityFactor(average: real): real {
    Max(0.5, 1.0 - average * 0.3)
  }

  /** The mean of r is in [lo, hi], stated without dividing. */
  ghost predicate MeanWithin(r: seq<real>, lo: real, hi: real) {
    lo * |r| as real <= Sum(r) <= hi * |r| as real
  }

  lemma {:induction false} RelevantBounds(pairs: seq<Pair>, ids: set<string>, lo: real, hi: real)
    requires forall p :: p in pairs && p.a in ids && p.b in ids ==> lo <= p.correlation <= hi
    ensures MeanWithin(Relevant(pairs, ids), lo, hi)
  {
    if pairs == [] {
      assert Relevant(pairs, ids) == [];
    } else {
      hide MeanWithin;
      var n := |pairs| - 1;
      RelevantBounds(pairs[..n], ids, lo, hi);
      var r := Relevant(pairs[..n], ids);
      if pairs[n].a in ids && pairs[n].b in ids {
        BoundsSnoc(r, pairs[n].correlation, lo, hi);
      } else {
        assert r + [] == r;
      }
    }
  }

  lemma BoundsSnoc(r: seq<real>, x: real, lo: real, hi: real)
    requires MeanWithin(r, lo, hi) && lo <= x <= hi
    ensures MeanWithin(r + [x], lo, hi)
  {
    SumSnoc(r, x);
    Distribute(|r| as real, 1.0, lo);
    Distribute(|r| as real, 1.0, hi);
  }

  /** The correlations that enter the result are those of two different members. */
  lemma RelevantCapped(cs: seq<Candidate>, p: Pair, logs: Logs, root: real -> real)
    requires DistinctIds(cs) && IsSquareRoot(root) && IsPairOf(p, cs, logs, root)
    requires p.a in IdSet(Members(cs, logs, root)) && p.b in IdSet(Members(cs, logs, root))
    ensures -1.0 <= p.correlation <= MAX_CORRELATION
  {
    MembersFromInput(cs, logs, root);
    hide Members, PairCorrelation;
    var s := Members(cs, logs, root);
    var i, j :| 0 <= i < j < |cs| && p == PairOf(cs, i, j, logs, root);
    var x :| 0 <= x < |s| && s[x].id == p.a;
    var y :| 0 <= y < |s| && s[y].id == p.b;
    assert s[x] in s && s[y] in s;
    assert s[x] == cs[i] && s[y] == cs[j];
    MembersCapped(cs, i, j, logs, root);
    PairCorrelationRange(cs[i], cs[j], logs, root);
  }

  /** The whole chain, for any candidates and logs: Cauchy-Schwarz and the greedy cap keep the average
      correlation in [-1, 0.7], hence the factor in [0.79, 1.3] - its floor of 0.5 is never reached. */
  lemma DiversityFactorRange(cs: seq<Candidate>, logs: Logs, root: real -> real)
    requires DistinctIds(cs) && IsSquareRoot(root)
    ensures var average := AverageCorrelation(AllPairs(cs, |cs|, logs, root), Members(cs, logs, root));
            && -1.0 <= average <= MAX_CORRELATION
            && 0.79 <= DiversityFactor(average) <= 1.3
            && DiversityFactor(average) == 1.0 - average * 0.3
    ensures -1.0 <= MaxCorrelation(AllPairs(cs, |cs|, logs, root), Members(cs, logs, root)) <= MAX_CORRELATION
  {
    var pairs, s := AllPairs(cs, |cs|, logs, root), Members(cs, logs, root);
    AllPairsMembers(cs, |cs|, logs, root);
    hide Members, AllPairs, IsPairOf, IsSquareRoot;
    forall p | p in pairs && p.a in IdSet(s) && p.b in IdSet(s) ensures -1.0 <= p.correlation <= MAX_CORRELATION {
      RelevantCapped(cs, p, logs, root);
    }
    AverageBounds(pairs, s);
  }

  lemma AverageBounds(pairs: seq<Pair>, s: seq<Candidate>)
    requires forall p :: p in pairs && p.a in IdSet(s) && p.b in IdSet(s) ==> -1.0 <= p.correlation <= MAX_CORRELATION
    ensures -1.0 <= AverageCorrelation(pairs, s) <= MAX_CORRELATION
    ensures -1.0 <= MaxCorrelation(pairs, s) <= MAX_CORRELATION
  {
    var ids := set i | 0 <= i < |s| :: s[i].id;
    assert ids == IdSet(s);
    RelevantWithin(pairs, ids, -1.0, MAX_CORRELATION);
    RelevantBounds(pairs, ids, -1.0, MAX_CORRELATION);
    var r := Relevant(pairs, ids);
    if r != [] {
      DivBounds(Sum(r), |r| as real, -1.0, MAX_CORRELATION);
    }
  }

  function Term(v: real, w: real, total: real): real
    requires total != 0.0
  {
    v * w / total
  }

  /** `sum(x * alloc / total)` */
  function WeightedMean(values: seq<real>, weights: seq<real>, total: real): real
    requires |values| == |weights| && total != 0.0
  {
    if values == [] then 0.0
    else
      var n := |values| - 1;
      WeightedMean(values[..n], weights[..n], total) + Term(values[n], weights[n], total)
  }

  ghost predicate MeanBetween(mean: real, weight: real, total: real, lo: real, hi: real)
    requires total != 0.0
  {
    lo * (weight / total) <= mean <= hi * (weight / total)
  }

  lemma {:induction false} WeightedMeanBounds(values: seq<real>, weights: seq<real>, total: real, lo: real, hi: real)
    requires |values| == |weights| && total > 0.0
    requires forall i :: 0 <= i < |values| ==> lo <= values[i] <= hi && weights[i] >= 0.0
    ensures MeanBetween(WeightedMean(values, weights, total), Sum(weights), total, lo, hi)
  {
    if values == [] {
      ZeroMean(total, lo, hi);
    } else {
      hide MeanBetween, Term;
      var n := |values| - 1;
      WeightedMeanBounds(values[..n], weights[..n], total, lo, hi);
      MeanStep(WeightedMean(values[..n], weights[..n], total), Sum(weights[..n]), values[n], weights[n], total, lo, hi);
    }
  }

  lemma ZeroMean(total: real, lo: real, hi: real)
    requires total > 0.0
    ensures MeanBetween(0.0, 0.0, total, lo, hi)
  {
    DivUnique(0.0, total, 0.0);
  }

  lemma MeanStep(mean: real, weight: real, v: real, w: real, total: real, lo: real, hi: real)
    requires total > 0.0 && lo <= v <= hi && w >= 0.0 && MeanBetween(mean, weight, total, lo, hi)
    ensures MeanBetween(mean + Term(v, w, total), weight + w, total, lo, hi)
  {
    WeightedTerm(v, w, total, lo, hi);
    AddBounds(weight, w, total, lo);
    AddBounds(weight, w, total, hi);
  }

  lemma AddBounds(a: real, b: real, n: real, k: real)
    requires n > 0.0
    ensures k * ((a + b) / n) == k * (a / n) + k * (b / n)
  {
    AddQuotients(a, b, n);
    Distribute(a / n, b / n, k);
  }

  lemma WeightedTerm(v: real, w: real, total: real, lo: real, hi: real)
    requires total > 0.0 && lo <= v <= hi && w >= 0.0
    ensures lo * (w / total) <= Term(v, w, total) <= hi * (w / total)
  {
    var q := w / total;
    DivMul(w, total);
    DivOrder(0.0, w, total);
    DivUnique(0.0, total, 0.0);
    Associate(v, q, total);
    DivUnique(v * w, total, v * q);
    MulLe(lo, v, q);
    MulLe(v, hi, q);
  }

  function Total(members: seq<Candidate>): real {
    Sum(Allocations(members))
  }

  function MaxDrawdown(c: Candidate): real {
    c.maxDd
  }

  function Return(c: Candidate): real {
    c.returnPct
  }

  function Sharpe(c: Candidate): real {
    c.sharpe
  }

  /** The allocation-weighted mean of a figure of the members. */
  function Expected(figure: Candidate -> real, members: seq<Candidate>): real {
    if members == [] || Total(members) <= 0.0 then 0.0
    else WeightedMean(Map(figure, members), Allocations(members), Total(members))
  }

  /** `expected_max_dd` of `_build_result` */
  function ExpectedDrawdown(pairs: seq<Pair>, members: seq<Candidate>): real {
    Expected(MaxDrawdown, members) * DiversityFactor(AverageCorrelation(pairs, members))
  }

  /** The expected return and Sharpe ratio - any figure so weighted - lie within the members' own. */
  lemma ExpectedRange(cs: seq<Candidate>, logs: Logs, root: real -> real, figure: Candidate -> real, lo: real, hi: real)
    requires Members(cs, logs, root) != [] && forall c :: c in Members(cs, logs, root) ==> lo <= figure(c) <= hi
    ensures lo <= Expected(figure, Members(cs, logs, root)) <= hi
  {
    MembersFew(cs, logs, root);
    hide Members;
    MeanFigure(figure, Members(cs, logs, root), lo, hi);
  }

  /** The reported drawdown lies between 0.79 times the smallest and 1.3 times the largest member drawdown. */
  lemma ExpectedDrawdownRange(cs: seq<Candidate>, logs: Logs, root: real -> real, lo: real, hi: real)
    requires DistinctIds(cs) && IsSquareRoot(root) && Members(cs, logs, root) != [] && lo >= 0.0
    requires forall c :: c in Members(cs, logs, root) ==> lo <= c.maxDd <= hi
    ensures 0.79 * lo <= ExpectedDrawdown(AllPairs(cs, |cs|, logs, root), Members(cs, logs, root)) <= 1.3 * hi
  {
    DiversityFactorRange(cs, logs, root);
    MembersFew(cs, logs, root);
    hide Members, AllPairs, IsSquareRoot;
    DrawdownFromFactor(AllPairs(cs, |cs|, logs, root), Members(cs, logs, root), lo, hi);
  }

  lemma MembersFew(cs: seq<Candidate>, logs: Logs, root: real -> real)
    ensures |Members(cs, logs, root)| <= MAX_SIZE
  {
    var ranked := Sorting.StableSort(NegReturn, cs);
    hide Table;
    ChosenCompatible(ranked, Table(cs, logs, root), |ranked|);
  }

  lemma DrawdownFromFactor(pairs: seq<Pair>, s: seq<Candidate>, lo: real, hi: real)
    requires s != [] && |s| <= MAX_SIZE && lo >= 0.0 && forall c :: c in s ==> lo <= c.maxDd <= hi
    requires 0.79 <= DiversityFactor(AverageCorrelation(pairs, s)) <= 1.3
    ensures 0.79 * lo <= ExpectedDrawdown(pairs, s) <= 1.3 * hi
  {
    hide AverageCorrelation, DiversityFactor, Expected;
    MeanFigure(MaxDrawdown, s, lo, hi);
    ScaleBounds(Expected(MaxDrawdown, s), DiversityFactor(AverageCorrelation(pairs, s)), lo, hi);
  }

  lemma MeanFigure(figure: Candidate -> real, s: seq<Candidate>, lo: real, hi: real)
    requires s != [] && |s| <= MAX_SIZE && forall c :: c in s ==> lo <= figure(c) <= hi
    ensures lo <= Expected(figure, s) <= hi
  {
    hide Allocations, WeightedMean, Sum, Map, Total;
    PositiveTotal(s);
    AllocationTotal(s);
    WeightedMeanBounds(Map(figure, s), Allocations(s), Total(s), lo, hi);
    UnitMean(WeightedMean(Map(figure, s), Allocations(s), Total(s)), Total(s), lo, hi);
  }

  lemma UnitMean(mean: real, total: real, lo: real, hi: real)
    requires total > 0.0 && MeanBetween(mean, total, total, lo, hi)
    ensures lo <= mean <= hi
  {
    DivUnique(total, total, 1.0);
  }

  lemma PositiveTotal(s: seq<Candidate>)
    requires s != [] && |s| <= MAX_SIZE
    ensures Total(s) > 0.0 && Total(s) == Sum(Allocations(s))
  {
    AllocationTotal(s);
  }

  lemma ScaleBounds(mean: real, factor: real, lo: real, hi: real)
    requires 0.0 <= lo <= mean <= hi && 0.79 <= factor <= 1.3
    ensures 0.79 * lo <= mean * factor <= 1.3 * hi
  {
    MulLe(0.79, factor, mean);
    MulLe(factor, 1.3, mean);
  }

  // ---------------------------------------------------------------- the whole analysis

  datatype Result = Result(members: seq<Candidate>, allocations: seq<real>, pairs: seq<Pair>, maxCorrelation: real,
                           averageCorrelation: real, typeDiversity: nat, expectedReturn: real, expectedSharpe: real,
                           drawdown: real)

  /** `analyze`: nothing below two candidates, otherwise correlations, greedy choice, allocation and expectations. */
  method Analyze(cs: seq<Candidate>, logs: Logs, root: real -> real) returns (r: Result)
    ensures |cs| < MIN_SIZE ==> r == Result([], [], [], 0.0, 0.0, 0, 0.0, 0.0, 0.0)
    ensures |cs| >= MIN_SIZE ==>
              && r.members == Members(cs, logs, root)
              && r.allocations == Allocations(r.members)
              && r.pairs == AllPairs(cs, |cs|, logs, root)
              && r.maxCorrelation == MaxCorrelation(r.pairs, r.members)
              && r.averageCorrelation == AverageCorrelation(r.pairs, r.members)
              && r.typeDiversity == TypeDiversity(r.members)
              && r.expectedReturn == Expected(Return, r.members)
              && r.expectedSharpe == Expected(Sharpe, r.members)
              && r.drawdown == ExpectedDrawdown(r.pairs, r.members)
  {
    if |cs| < MIN_SIZE {
      return Result([], [], [], 0.0, 0.0, 0, 0.0, 0.0, 0.0);
    }
    var pairs := ComputeCorrelations(cs, logs, root);
    var members := FindBestCombination(cs, pairs);
    var allocations := AllocateCapital(members);
    hide ExpectedDrawdown, Expected, Allocations, AllPairs, MaxCorrelation, AverageCorrelation, TypeDiversity;
    r := Result(members, allocations, pairs, MaxCorrelation(pairs, members), AverageCorrelation(pairs, members),
                TypeDiversity(members), Expected(Return, members), Expected(Sharpe, members),
                ExpectedDrawdown(pairs, members));
  }
}
