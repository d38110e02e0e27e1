/** Recall, reciprocal rank and nDCG of a ranking cut off at `k`, for any discount by position. */
module RankingMetrics {
  import opened Wrappers

  datatype Metrics = Metrics(recall: real, mrr: real, ndcg: real)

  /** Positive, and smaller at every later position, as 1 / log2(position + 2) is. */
  ghost predicate IsDiscount(d: nat -> real) {
    && (forall i :: d(i) > 0.0)
    && (forall i, j :: i < j ==> d(i) > d(j))
  }

  function ToSet(ids: seq<string>): set<string> { set id | id in ids }

  function Hits(ranked: seq<string>, relevant: set<string>): (r: seq<bool>)
    ensures |r| == |ranked| && forall i :: 0 <= i < |r| ==> (r[i] <==> ranked[i] in relevant)
  {
    seq(|ranked|, i requires 0 <= i < |ranked| => ranked[i] in relevant)
  }

  function Count(hits: seq<bool>): nat {
    if hits == [] then 0 else Count(hits[..|hits| - 1]) + (if hits[|hits| - 1] then 1 else 0)
  }

  /** One over the rank of the first hit. */
  function ReciprocalRank(hits: seq<bool>, rank: nat): real
    requires rank >= 1
  {
    if hits == [] then 0.0 else if hits[0] then 1.0 / rank as real else ReciprocalRank(hits[1..], rank + 1)
  }

  function Dcg(hits: seq<bool>, d: nat -> real): real {
    if hits == [] then 0.0 else Dcg(hits[..|hits| - 1], d) + (if hits[|hits| - 1] then d(|hits| - 1) else 0.0)
  }

  function IdealDcg(n: nat, d: nat -> real): real {
    if n == 0 then 0.0 else IdealDcg(n - 1, d) + d(n - 1)
  }

  function Min(a: nat, b: nat): nat { if a <= b then a else b }

  function Cut(ranked: seq<string>, k: nat): seq<string> { ranked[..Min(k, |ranked|)] }

  function MetricsAtK(ranked: seq<string>, relevantIds: seq<string>, k: nat, d: nat -> real): Metrics {
    var relevant := ToSet(relevantIds);
    if relevant == {} then Metrics(0.0, 0.0, 0.0)
    else
      var hits := Hits(Cut(ranked, k), relevant);
      var ideal := IdealDcg(Min(|relevant|, k), d);
      Metrics(Count(hits) as real / |relevant| as real, ReciprocalRank(hits, 1),
        if ideal > 0.0 then Dcg(hits, d) / ideal else 0.0)
  }

  // ---- counting hits ----

  predicate Distinct(ids: seq<string>) {
    forall i, j :: 0 <= i < j < |ids| ==> ids[i] != ids[j]
  }

  lemma SplitLast(ids: seq<string>)
    requires Distinct(ids) && ids != []
    ensures var n := |ids| - 1;
      Distinct(ids[..n]) && ToSet(ids) == ToSet(ids[..n]) + {ids[n]} && ids[n] !in ToSet(ids[..n])
  {
  }

  /** Without duplicates, hits are counted once each. */
  lemma CountIsSize(ids: seq<string>, relevant: set<string>)
    requires Distinct(ids)
    ensures Count(Hits(ids, relevant)) == |ToSet(ids) * relevant|
  {
    if ids == [] {
      assert ToSet(ids) * relevant == {};
    } else {
      var n := |ids| - 1;
      SplitLast(ids);
      hide ToSet, Distinct;
      CountIsSize(ids[..n], relevant);
      assert Hits(ids, relevant)[..n] == Hits(ids[..n], relevant);
      OneMoreRelevant(ToSet(ids[..n]), ids[n], relevant);
    }
  }

  lemma OneMoreRelevant(ids: set<string>, id: string, relevant: set<string>)
    requires id !in ids
    ensures |(ids + {id}) * relevant| == |ids * relevant| + (if id in relevant then 1 else 0)
  {
    assert (ids + {id}) * relevant == ids * relevant + (if id in relevant then {id} else {});
  }

  // ---- gain ----

  predicate AllTrue(hits: seq<bool>, n: nat) {
    n <= |hits| && forall i :: 0 <= i < n ==> hits[i]
  }

  lemma CountBounds(hits: seq<bool>)
    ensures Count(hits) <= |hits| && (Count(hits) == |hits| <==> AllTrue(hits, |hits|))
  {
    if hits != [] {
      var init := hits[..|hits| - 1];
      CountBounds(init);
      assert AllTrue(hits, |hits|) <==> AllTrue(init, |init|) && hits[|hits| - 1];
    }
  }

  /** Hits gain at most what as many hits gain at the top, and reach that only at the top. */
  lemma {:induction false} GainIsIdealAtTop(hits: seq<bool>, d: nat -> real)
    requires IsDiscount(d)
    ensures 0.0 <= Dcg(hits, d) <= IdealDcg(Count(hits), d)
    ensures Dcg(hits, d) == IdealDcg(Count(hits), d) <==> AllTrue(hits, Count(hits))
  {
    if hits != [] {
      var n, init := |hits| - 1, hits[..|hits| - 1];
      GainIsIdealAtTop(init, d);
      CountBounds(init);
      CountBounds(hits);
      assert Count(init) < n ==> d(Count(init)) > d(n);
      assert AllTrue(hits, Count(init)) <==> AllTrue(init, Count(init));
      if hits[n] && Count(init) < n && AllTrue(hits, Count(hits)) {
        AllTrueCounts(init, Count(init) + 1);
      }
    }
  }

  lemma AllTrueCounts(hits: seq<bool>, n: nat)
    requires AllTrue(hits, n)
    ensures Count(hits) >= n
  {
    if |hits| > n {
      AllTrueCounts(hits[..|hits| - 1], n);
    } else if n > 0 {
      AllTrueCounts(hits[..n - 1], n - 1);
    }
  }

  lemma IdealGrows(m: nat, n: nat, d: nat -> real)
    requires IsDiscount(d) && m <= n
    ensures 0.0 <= IdealDcg(m, d) <= IdealDcg(n, d)
    ensures m < n ==> IdealDcg(m, d) < IdealDcg(n, d)
  {
    if m < n { IdealGrows(m, n - 1, d); } else if m > 0 { IdealGrows(m - 1, n - 1, d); }
  }

  lemma Reciprocals(a: real, b: real)
    requires 0.0 < a < b
    ensures 0.0 < 1.0 / b < 1.0 / a
  {
    var x, y := 1.0 / a, 1.0 / b;
    assert x * a == 1.0 && y * b == 1.0;
    if y >= x {
      assert y * b >= x * b;
      assert x * b > x * a;
    }
  }

  lemma RankBounds(hits: seq<bool>, rank: nat)
    requires rank >= 1
    ensures 0.0 <= ReciprocalRank(hits, rank) <= 1.0 / rank as real
    ensures ReciprocalRank(hits, rank) > 0.0 <==> exists i :: 0 <= i < |hits| && hits[i]
    ensures ReciprocalRank(hits, rank) == 1.0 / rank as real <==> hits != [] && hits[0]
  {
    if hits != [] && !hits[0] {
      RankBounds(hits[1..], rank + 1);
      Reciprocals(rank as real, (rank + 1) as real);
      assert forall i :: 1 <= i < |hits| ==> hits[i] == hits[1..][i - 1];
    }
  }

  lemma QuotientBounds(a: real, b: real)
    requires 0.0 <= a <= b && b > 0.0
    ensures 0.0 <= a / b <= 1.0 && (a / b == 1.0 <==> a == b)
  {
    assert a == a / b * b;
  }

  lemma RecallIsNormalised(cut: seq<string>, relevant: set<string>)
    requires Distinct(cut) && relevant != {}
    ensures var recall := Count(Hits(cut, relevant)) as real / |relevant| as real;
      0.0 <= recall <= 1.0 && (recall == 1.0 <==> relevant <= ToSet(cut))
  {
    CountIsSize(cut, relevant);
    SubsetSize(ToSet(cut) * relevant, relevant);
    QuotientBounds(Count(Hits(cut, relevant)) as real, |relevant| as real);
    assert relevant <= ToSet(cut) <==> ToSet(cut) * relevant == relevant;
  }

  lemma RankIsNormalised(cut: seq<string>, relevant: set<string>)
    ensures var mrr := ReciprocalRank(Hits(cut, relevant), 1);
      && 0.0 <= mrr <= 1.0
      && (mrr > 0.0 <==> relevant * ToSet(cut) != {})
      && (mrr == 1.0 <==> cut != [] && cut[0] in relevant)
  {
    var hits := Hits(cut, relevant);
    RankBounds(hits, 1);
    if i :| 0 <= i < |hits| && hits[i] { assert cut[i] in relevant * ToSet(cut); }
    if relevant * ToSet(cut) != {} {
      var id :| id in relevant * ToSet(cut);
      var i :| 0 <= i < |cut| && cut[i] == id;
      assert hits[i];
    }
  }

  lemma GainIsNormalised(cut: seq<string>, relevant: set<string>, most: nat, d: nat -> real)
    requires IsDiscount(d) && Distinct(cut) && 1 <= most && Count(Hits(cut, relevant)) <= most
    ensures var (hits, ideal) := (Hits(cut, relevant), IdealDcg(most, d));
      ideal > 0.0 && 0.0 <= Dcg(hits, d) / ideal <= 1.0 && (Dcg(hits, d) / ideal == 1.0 <==> AllTrue(hits, most))
  {
    var hits := Hits(cut, relevant);
    GainIsIdealAtTop(hits, d);
    IdealGrows(0, most, d);
    IdealGrows(Count(hits), most, d);
    QuotientBounds(Dcg(hits, d), IdealDcg(most, d));
    if AllTrue(hits, most) { AllTrueCounts(hits, most); }
  }

  /** On a ranking without duplicates every metric lies between 0 and 1. When anything is relevant, recall
      is 1 exactly when the first k ranks contain all of it, the reciprocal rank exactly when the first rank
      is relevant, and nDCG exactly when the first ranks, as many as could be, are all relevant. */
  lemma MetricsAreNormalised(ranked: seq<string>, relevantIds: seq<string>, k: nat, d: nat -> real)
    requires IsDiscount(d) && Distinct(ranked) && k >= 1
    ensures var m, relevant := MetricsAtK(ranked, relevantIds, k, d), ToSet(relevantIds);
      && 0.0 <= m.recall <= 1.0 && 0.0 <= m.mrr <= 1.0 && 0.0 <= m.ndcg <= 1.0
      && (relevantIds == [] ==> m == Metrics(0.0, 0.0, 0.0))
      && (m.mrr > 0.0 <==> relevant * ToSet(Cut(ranked, k)) != {})
      && (relevantIds != [] ==>
           && (m.recall == 1.0 <==> relevant <= ToSet(Cut(ranked, k)))
           && (m.mrr == 1.0 <==> ranked != [] && ranked[0] in relevant)
           && (m.ndcg == 1.0 <==> AllTrue(Hits(ranked, relevant), Min(|relevant|, k))))
  {
    hide Dcg, IdealDcg, ReciprocalRank, Count;
    var cut, relevant := Cut(ranked, k), ToSet(relevantIds);
    var hits, most := Hits(cut, relevant), Min(|relevant|, k);
    if relevantIds != [] {
      assert relevantIds[0] in relevant;
      RecallIsNormalised(cut, relevant);
      RankIsNormalised(cut, relevant);
      FewHits(cut, relevant);
      GainIsNormalised(cut, relevant, most, d);
      assert AllTrue(hits, most) <==> AllTrue(Hits(ranked, relevant), most);
    }
  }

  lemma FewHits(cut: seq<string>, relevant: set<string>)
    requires Distinct(cut)
    ensures Count(Hits(cut, relevant)) <= |relevant| && Count(Hits(cut, relevant)) <= |cut|
  {
    CountIsSize(cut, relevant);
    SubsetSize(ToSet(cut) * relevant, relevant);
    CountBounds(Hits(cut, relevant));
  }

  // ---- what the metrics measure ----

  /** Gain adds up over the hits: each adds the discount at its position. */
  lemma {:induction false} EachHitGains(hits: seq<bool>, i: nat, d: nat -> real)
    requires i < |hits| && !hits[i]
    ensures Dcg(hits[i := true], d) == Dcg(hits, d) + d(i)
  {
    var n := |hits| - 1;
    assert hits[i := true][..n] == if i < n then hits[..n][i := true] else hits[..n];
    if i < n { EachHitGains(hits[..n], i, d); }
  }

  lemma {:induction false} NoHitNoGain(hits: seq<bool>, d: nat -> real)
    requires forall i :: 0 <= i < |hits| ==> !hits[i]
    ensures Dcg(hits, d) == 0.0
  {
    if hits != [] { NoHitNoGain(hits[..|hits| - 1], d); }
  }

  function AllHits(n: nat): seq<bool> { seq(n, _ => true) }

  /** The ideal gain is that of hits only. */
  lemma {:induction false} IdealIsAllHits(n: nat, d: nat -> real)
    ensures IdealDcg(n, d) == Dcg(AllHits(n), d)
  {
    if n > 0 {
      IdealIsAllHits(n - 1, d);
      assert AllHits(n)[..n - 1] == AllHits(n - 1);
    }
  }

  lemma {:induction false} RankIs(hits: seq<bool>, rank: nat, i: nat)
    requires rank >= 1 && i < |hits| && hits[i] && forall j :: 0 <= j < i ==> !hits[j]
    ensures ReciprocalRank(hits, rank) == 1.0 / (rank + i) as real
  {
    if i > 0 { RankIs(hits[1..], rank + 1, i - 1); }
  }

  /** Recall is the share of the relevant ids among the first k, and the reciprocal rank that of the first of them. */
  lemma RecallAndRankAre(ranked: seq<string>, relevantIds: seq<string>, k: nat, d: nat -> real)
    requires Distinct(ranked) && relevantIds != []
    ensures var m, relevant, cut := MetricsAtK(ranked, relevantIds, k, d), ToSet(relevantIds),
        if k < |ranked| then ranked[..k] else ranked;
      && relevant != {} && m.recall == |ToSet(cut) * relevant| as real / |relevant| as real
      && forall i :: 0 <= i < |cut| && cut[i] in relevant && (forall j :: 0 <= j < i ==> cut[j] !in relevant) ==>
           m.mrr == 1.0 / (i + 1) as real
  {
    hide Dcg, IdealDcg, Count, ReciprocalRank, Hits, Distinct, Cut;
    var relevant, cut := ToSet(relevantIds), Cut(ranked, k);
    assert relevantIds[0] in relevant;
    CutIs(ranked, k);
    CountIsSize(cut, relevant);
    forall i | 0 <= i < |cut| && cut[i] in relevant && (forall j :: 0 <= j < i ==> cut[j] !in relevant)
      ensures ReciprocalRank(Hits(cut, relevant), 1) == 1.0 / (i + 1) as real
    {
      RankIs(Hits(cut, relevant), 1, i);
    }
  }

  /** nDCG is the gain over the gain of as many hits as there could be. */
  lemma GainIs(ranked: seq<string>, relevantIds: seq<string>, k: nat, d: nat -> real)
    requires IsDiscount(d) && k >= 1 && relevantIds != []
    ensures var m, relevant, cut := MetricsAtK(ranked, relevantIds, k, d), ToSet(relevantIds),
        if k < |ranked| then ranked[..k] else ranked;
      var ideal := Dcg(AllHits(if k < |relevant| then k else |relevant|), d);
      ideal > 0.0 && m.ndcg == Dcg(Hits(cut, relevant), d) / ideal
  {
    hide Dcg, IdealDcg, Count, ReciprocalRank, Hits, AllHits;
    var relevant := ToSet(relevantIds);
    assert relevantIds[0] in relevant;
    assert Cut(ranked, k) == if k < |ranked| then ranked[..k] else ranked;
    IdealIsAllHits(Min(|relevant|, k), d);
    IdealGrows(0, Min(|relevant|, k), d);
  }

  lemma CutIs(ranked: seq<string>, k: nat)
    requires Distinct(ranked)
    ensures Cut(ranked, k) == (if k < |ranked| then ranked[..k] else ranked) && Distinct(Cut(ranked, k))
  {
  }

  // ---- averages ----

  function Sum(values: seq<real>): real {
    if values == [] then 0.0 else Sum(values[..|values| - 1]) + values[|values| - 1]
  }

  function Average(values: seq<real>): real {
    if values == [] then 0.0 else Sum(values) / |values| as real
  }

  lemma {:induction false} SumCompares(a: seq<real>, b: seq<real>)
    requires |a| == |b| && forall i :: 0 <= i < |a| ==> a[i] <= b[i]
    ensures Sum(a) <= Sum(b)
    ensures Sum(a) == Sum(b) <==> a == b
  {
    if a != [] {
      var n := |a| - 1;
      SumCompares(a[..n], b[..n]);
      assert a == a[..n] + [a[n]] && b == b[..n] + [b[n]];
    }
  }

  lemma Quotient(a: real, b: real, n: real)
    requires n > 0.0
    ensures a <= b <==> a / n <= b / n
    ensures a == b <==> a / n == b / n
  {
    assert a == a / n * n && b == b / n * n;
  }

  lemma {:induction false} SumConcat(a: seq<real>, b: seq<real>)
    ensures Sum(a + b) == Sum(a) + Sum(b)
  {
    if b == [] {
      assert a + b == a;
    } else {
      SumConcat(a, b[..|b| - 1]);
      assert (a + b)[..|a + b| - 1] == a + b[..|b| - 1];
    }
  }

  /** Averages weigh by the number of values, and the average of one value is that value. */
  lemma AverageIs(a: seq<real>, b: seq<real>, x: real)
    ensures Average(a + b) * |a + b| as real == Average(a) * |a| as real + Average(b) * |b| as real
    ensures Average([x]) == x
  {
    hide Sum, Average;
    SumConcat(a, b);
    AverageTimes(a);
    AverageTimes(b);
    AverageTimes(a + b);
    AverageTimes([x]);
    SumOne(x);
  }

  lemma AverageTimes(a: seq<real>)
    ensures Average(a) * |a| as real == Sum(a)
  {
    if a != [] { QuotientTimes(Sum(a), |a| as real); }
  }

  lemma QuotientTimes(a: real, b: real)
    requires b > 0.0
    ensures a / b * b == a
  {
  }

  lemma SumOne(x: real)
    ensures Sum([x]) == x
  {
    assert [x][..0] == [];
  }

  /** A candidate at least as good on every query is at least as good on average, and equally good only
      when it is on every query. */
  lemma BetterEverywhereIsBetter(baseline: seq<real>, candidate: seq<real>)
    requires |baseline| == |candidate| && forall i :: 0 <= i < |baseline| ==> baseline[i] <= candidate[i]
    ensures Average(baseline) <= Average(candidate)
    ensures Average(baseline) == Average(candidate) <==> baseline == candidate
  {
    SumCompares(baseline, candidate);
    if baseline != [] { Quotient(Sum(baseline), Sum(candidate), |baseline| as real); }
  }
}
