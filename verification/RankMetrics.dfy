/**
 Ranked retrieval scores (`scripts/benchmark_contract/metrics.py`, lines 14-36, and
 `scripts/benchmark_contract/evaluation.py`, lines 62-92 and 135-138) over exact
 reals. The discount is any positive, strictly decreasing function of the position.
 */
module RankMetrics {
  import opened Bounds
  import opened Wrappers
  import opened FirstSeen

  const CUTOFF := 5

  ghost predicate Discount(d: nat -> real) {
    (forall i :: d(i) > 0.0) && forall i, j :: i < j ==> d(i) > d(j)
  }

  /** The summed discount of the first `n` positions. */
  function Gain(d: nat -> real, n: nat): real {
    if n == 0 then 0.0 else Gain(d, n - 1) + d(n - 1)
  }

  /** The hits among the first `n` retrieved, and their summed discount. */
  function Hits(retrieved: seq<string>, relevant: set<string>, n: nat): nat
    requires n <= |retrieved|
  {
    if n == 0 then 0 else Hits(retrieved, relevant, n - 1) + if retrieved[n - 1] in relevant then 1 else 0
  }

  function Dcg(retrieved: seq<string>, relevant: set<string>, d: nat -> real, n: nat): real
    requires n <= |retrieved|
  {
    if n == 0 then 0.0
    else Dcg(retrieved, relevant, d, n - 1) + if retrieved[n - 1] in relevant then d(n - 1) else 0.0
  }

  function Ideal(relevant: set<string>, d: nat -> real): real { Gain(d, Min(CUTOFF, |relevant|)) }

  lemma {:induction false} GainGrows(d: nat -> real, m: nat, n: nat)
    requires Discount(d) && m <= n
    ensures Gain(d, m) <= Gain(d, n) && (Gain(d, m) == Gain(d, n) <==> m == n) && Gain(d, m) >= 0.0
    decreases n
  {
    if m < n { GainGrows(d, m, n - 1); } else if n > 0 { GainGrows(d, n - 1, n - 1); assert d(n - 1) > 0.0; }
  }

  ghost function NdcgAtFive(retrieved: seq<string>, relevant: set<string>, d: nat -> real): Option<real>
    requires Discount(d)
  {
    if relevant == {} then None
    else
      IdealIsPositive(relevant, d);
      Some(Dcg(retrieved, relevant, d, Min(CUTOFF, |retrieved|)) / Ideal(relevant, d))
  }

  lemma IdealIsPositive(relevant: set<string>, d: nat -> real)
    requires Discount(d) && relevant != {}
    ensures Ideal(relevant, d) > 0.0
  {
    assert |relevant| > 0;
    GainGrows(d, 0, Min(CUTOFF, |relevant|));
  }

  function RecallAtFive(retrieved: seq<string>, relevant: set<string>): Option<real> {
    if relevant == {} then None
    else Some(Hits(retrieved, relevant, |retrieved|) as real / |relevant| as real)
  }

  // -------------------------------------------------------------------- bounds

  /** The hits come first. */
  predicate HitsLead(retrieved: seq<string>, relevant: set<string>, n: nat)
    requires n <= |retrieved|
  {
    var h := Hits(retrieved, relevant, n);
    h <= n && forall i :: 0 <= i < h ==> retrieved[i] in relevant
  }

  /** Hits are worth no more than as many first positions, and as much only if they are those. */
  lemma {:induction false} DcgIsAtMostItsHits(retrieved: seq<string>, relevant: set<string>, d: nat -> real, n: nat)
    requires Discount(d) && n <= |retrieved|
    ensures Hits(retrieved, relevant, n) <= n
    ensures 0.0 <= Dcg(retrieved, relevant, d, n) <= Gain(d, Hits(retrieved, relevant, n))
    ensures Dcg(retrieved, relevant, d, n) == Gain(d, Hits(retrieved, relevant, n)) <==>
              HitsLead(retrieved, relevant, n)
    decreases n
  {
    if n > 0 {
      DcgIsAtMostItsHits(retrieved, relevant, d, n - 1);
      var h := Hits(retrieved, relevant, n - 1);
      assert d(n - 1) > 0.0;
      if retrieved[n - 1] in relevant {
        if h < n - 1 {
          assert d(h) > d(n - 1);
          if HitsLead(retrieved, relevant, n) { LeadingHits(retrieved, relevant, h + 1, n - 1); }
        }
      }
    }
  }

  /** If the first `m` are all hits there are at least `m` among the first `n`. */
  lemma {:induction false} LeadingHits(retrieved: seq<string>, relevant: set<string>, m: nat, n: nat)
    requires m <= n <= |retrieved| && forall i :: 0 <= i < m ==> retrieved[i] in relevant
    ensures Hits(retrieved, relevant, n) >= m
    decreases n
  {
    if n > 0 { LeadingHits(retrieved, relevant, Min(m, n - 1), n - 1); }
  }

  /** Distinct hits are distinct relevant ids. */
  lemma {:induction false} DistinctHits(retrieved: seq<string>, relevant: set<string>, n: nat)
    returns (found: set<string>)
    requires NoDuplicates(retrieved) && n <= |retrieved|
    ensures found <= relevant && |found| == Hits(retrieved, relevant, n)
    ensures forall x :: x in found <==> x in retrieved[..n] && x in relevant
    decreases n
  {
    found := {};
    if n > 0 {
      found := DistinctHits(retrieved, relevant, n - 1);
      var last := retrieved[n - 1];
      assert retrieved[..n] == retrieved[..n - 1] + [last];
      if last in relevant {
        assert last !in retrieved[..n - 1];
        assert last !in found;
        found := found + {last};
      }
    }
  }

  lemma SubsetSize(a: set<string>, b: set<string>)
    requires a <= b
    ensures |a| <= |b|
  {
    assert b == a + (b - a);
  }

  lemma HitsAreBounded(retrieved: seq<string>, relevant: set<string>, n: nat)
    requires NoDuplicates(retrieved) && n <= |retrieved|
    ensures Hits(retrieved, relevant, n) <= |relevant|
  {
    var found := DistinctHits(retrieved, relevant, n);
    SubsetSize(found, relevant);
  }

  lemma RatioWithinOne(a: real, b: real)
    requires 0.0 <= a <= b && b > 0.0
    ensures 0.0 <= a / b <= 1.0 && (a / b == 1.0 <==> a == b)
  {
    assert (a / b) * b == a;
  }

  /**
   With distinct results nDCG lies in [0, 1], and it is 1 exactly when the first
   min(5, number of relevant ids) results are all relevant.
   */
  lemma NdcgBound(retrieved: seq<string>, relevant: set<string>, d: nat -> real)
    requires Discount(d) && NoDuplicates(retrieved) && relevant != {}
    ensures var score := NdcgAtFive(retrieved, relevant, d);
            var best := Min(5, |relevant|);
            && score.Some? && 0.0 <= score.value <= 1.0
            && (score.value == 1.0 <==> |retrieved| >= best && forall i :: 0 <= i < best ==> retrieved[i] in relevant)
  {
    var n, best := Min(CUTOFF, |retrieved|), Min(CUTOFF, |relevant|);
    var h := Hits(retrieved, relevant, n);
    assert |relevant| > 0;
    IdealIsPositive(relevant, d);
    DcgIsAtMostItsHits(retrieved, relevant, d, n);
    HitsAreBounded(retrieved, relevant, n);
    assert h <= best;
    GainGrows(d, h, best);
    RatioWithinOne(Dcg(retrieved, relevant, d, n), Ideal(relevant, d));
    if |retrieved| >= best && forall i :: 0 <= i < best ==> retrieved[i] in relevant {
      LeadingHits(retrieved, relevant, best, n);
    }
  }

  /** With distinct results recall is the share of the relevant ids that were retrieved. */
  lemma RecallIsShare(retrieved: seq<string>, relevant: set<string>)
    requires NoDuplicates(retrieved) && relevant != {}
    ensures RecallAtFive(retrieved, relevant)
            == Some(|Elements(retrieved) * relevant| as real / |relevant| as real)
  {
    var found := DistinctHits(retrieved, relevant, |retrieved|);
    assert found == Elements(retrieved) * relevant;
  }

  /**
   The gain of a ranking among its first `n` results is worth the discount of its position
   for each relevant id, and gains of different ids add up.
   */
  lemma {:induction false} DcgOfOne(retrieved: seq<string>, d: nat -> real, i: nat, n: nat)
    requires NoDuplicates(retrieved) && i < |retrieved| && n <= |retrieved|
    ensures Dcg(retrieved, {retrieved[i]}, d, n) == if i < n then d(i) else 0.0
    decreases n
  {
    if n > 0 { DcgOfOne(retrieved, d, i, n - 1); }
  }

  lemma {:induction false} DcgAdds(retrieved: seq<string>, a: set<string>, b: set<string>, d: nat -> real, n: nat)
    requires n <= |retrieved| && a !! b
    ensures Dcg(retrieved, a + b, d, n) == Dcg(retrieved, a, d, n) + Dcg(retrieved, b, d, n)
    decreases n
  {
    if n > 0 { DcgAdds(retrieved, a, b, d, n - 1); }
  }

  /** Recall lies in [0, 1] for every relevance judgement. */
  ghost predicate RecallBounded(retrieved: seq<string>) {
    forall relevant: set<string> :: relevant != {} ==> RecallWithin(retrieved, relevant)
  }

  ghost predicate RecallWithin(retrieved: seq<string>, relevant: set<string>) {
    var score := RecallAtFive(retrieved, relevant);
    score.Some? && 0.0 <= score.value <= 1.0
  }

  /** Recall lies in [0, 1] for every relevance judgement exactly when no result occurs twice. */
  lemma RecallBoundedIff(retrieved: seq<string>)
    ensures RecallBounded(retrieved) <==> NoDuplicates(retrieved)
  {
    if NoDuplicates(retrieved) {
      forall relevant: set<string> | relevant != {} ensures RecallWithin(retrieved, relevant) {
        HitsAreBounded(retrieved, relevant, |retrieved|);
        assert |relevant| > 0;
        RatioWithinOne(Hits(retrieved, relevant, |retrieved|) as real, |relevant| as real);
      }
    } else {
      var i, j :| 0 <= i < j < |retrieved| && retrieved[i] == retrieved[j];
      TwiceHit(retrieved, i, j, |retrieved|);
      assert !RecallWithin(retrieved, {retrieved[i]});
    }
  }

  lemma {:induction false} AllHits(retrieved: seq<string>, relevant: set<string>, d: nat -> real, n: nat)
    requires n <= |retrieved| && forall i :: 0 <= i < n ==> retrieved[i] in relevant
    ensures Dcg(retrieved, relevant, d, n) == Gain(d, n)
    decreases n
  {
    if n > 0 { AllHits(retrieved, relevant, d, n - 1); }
  }

  /** nDCG lies in [0, 1] for every relevance judgement. */
  ghost predicate NdcgBounded(retrieved: seq<string>, d: nat -> real)
    requires Discount(d)
  {
    forall relevant: set<string> :: relevant != {} ==> NdcgWithin(retrieved, relevant, d)
  }

  ghost predicate NdcgWithin(retrieved: seq<string>, relevant: set<string>, d: nat -> real)
    requires Discount(d)
  {
    var score := NdcgAtFive(retrieved, relevant, d);
    score.Some? && 0.0 <= score.value <= 1.0
  }

  /** With a repeat, judging everything retrieved relevant gives more than the ideal. */
  lemma RepeatExceedsIdeal(retrieved: seq<string>, d: nat -> real)
    requires Discount(d) && |retrieved| <= CUTOFF && !NoDuplicates(retrieved)
    ensures Elements(retrieved) != {} && !NdcgWithin(retrieved, Elements(retrieved), d)
  {
    var relevant := Elements(retrieved);
    assert retrieved[0] in relevant;
    DistinctValues(retrieved);
    AllHits(retrieved, relevant, d, |retrieved|);
    GainGrows(d, |relevant|, |retrieved|);
    IdealIsPositive(relevant, d);
    RatioAboveOne(Gain(d, |retrieved|), Ideal(relevant, d));
  }

  lemma RatioAboveOne(a: real, b: real)
    requires a > b > 0.0
    ensures a / b > 1.0
  {
    assert (a / b) * b == a;
  }

  /** nDCG, too, lies in [0, 1] for every judgement exactly when no result occurs twice. */
  lemma NdcgBoundedIff(retrieved: seq<string>, d: nat -> real)
    requires Discount(d) && |retrieved| <= 5
    ensures NdcgBounded(retrieved, d) <==> NoDuplicates(retrieved)
  {
    if NoDuplicates(retrieved) {
      forall relevant: set<string> | relevant != {} ensures NdcgWithin(retrieved, relevant, d) {
        NdcgBound(retrieved, relevant, d);
      }
    } else {
      RepeatExceedsIdeal(retrieved, d);
    }
  }

  lemma {:induction false} TwiceHit(retrieved: seq<string>, i: nat, j: nat, n: nat)
    requires i < j < n <= |retrieved| && retrieved[i] == retrieved[j]
    ensures Hits(retrieved, {retrieved[i]}, n) >= 2
    decreases n
  {
    if j < n - 1 { TwiceHit(retrieved, i, j, n - 1); } else { OnceHit(retrieved, {retrieved[i]}, i, n - 1); }
  }

  lemma {:induction false} OnceHit(retrieved: seq<string>, relevant: set<string>, i: nat, n: nat)
    requires i < n <= |retrieved| && retrieved[i] in relevant
    ensures Hits(retrieved, relevant, n) >= 1
    decreases n
  {
    if i < n - 1 { OnceHit(retrieved, relevant, i, n - 1); }
  }

  // --------------------------------------------------- opaque and original names

  /** Opaque names of a job's corpus, each of a different original. */
  predicate Injective(names: map<string, string>) {
    forall x, y :: x in names && y in names && names[x] == names[y] ==> x == y
  }

  function Original(names: map<string, string>, id: string): string { if id in names then names[id] else id }

  function FirstFive(ids: seq<string>): (r: seq<string>)
    ensures r <= Dedupe(ids) && |r| == if |Dedupe(ids)| < 5 then |Dedupe(ids)| else 5
  {
    Dedupe(ids)[..Min(CUTOFF, |Dedupe(ids)|)]
  }

  function Retrieved(names: map<string, string>, raw: seq<string>): (r: seq<string>)
    ensures |r| == |FirstFive(raw)| && forall i :: 0 <= i < |r| ==> r[i] == Original(names, FirstFive(raw)[i])
  {
    seq(|FirstFive(raw)|, i requires 0 <= i < |FirstFive(raw)| => Original(names, FirstFive(raw)[i]))
  }

  /** Some original is named both ways. */
  predicate NamedBothWays(names: map<string, string>, ids: seq<string>) {
    exists i :: 0 <= i < |ids| && ids[i] in names && names[ids[i]] in ids && names[ids[i]] !in names
  }

  /** Mapping after removing duplicates keeps them out exactly when no original is named both ways. */
  lemma DistinctIff(names: map<string, string>, raw: seq<string>)
    requires Injective(names)
    ensures NoDuplicates(Retrieved(names, raw)) <==> !NamedBothWays(names, FirstFive(raw))
  {
    var ids, r := FirstFive(raw), Retrieved(names, raw);
    AppendNewMeaning([], raw);
    assert NoDuplicates(ids);
    if NamedBothWays(names, ids) {
      var i :| 0 <= i < |ids| && ids[i] in names && names[ids[i]] in ids && names[ids[i]] !in names;
      var j :| 0 <= j < |ids| && ids[j] == names[ids[i]];
      assert r[i] == r[j] && i != j;
      if i < j { assert r[i] == r[j]; } else { assert r[j] == r[i]; }
    }
  }

  /**
   Either score lies in [0, 1] for every relevance judgement exactly when none of the first
   five results names by its own id an original that another names by its opaque one.
   */
  lemma ScoresBoundedIff(names: map<string, string>, raw: seq<string>, d: nat -> real)
    requires Injective(names) && Discount(d)
    ensures RecallBounded(Retrieved(names, raw)) <==> !NamedBothWays(names, FirstFive(raw))
    ensures NdcgBounded(Retrieved(names, raw), d) <==> !NamedBothWays(names, FirstFive(raw))
  {
    DistinctIff(names, raw);
    RecallBoundedIff(Retrieved(names, raw));
    NdcgBoundedIff(Retrieved(names, raw), d);
  }

  /** Results that keep to one namespace, all opaque or none, score within [0, 1]. */
  lemma OneNamespaceIsBounded(names: map<string, string>, raw: seq<string>, relevant: set<string>, d: nat -> real)
    requires Injective(names) && Discount(d) && relevant != {}
    requires (forall x :: x in raw ==> x in names) || (forall x :: x in raw ==> x !in names)
    ensures RecallWithin(Retrieved(names, raw), relevant) && NdcgWithin(Retrieved(names, raw), relevant, d)
  {
    AppendNewMeaning([], raw);
    assert forall i :: 0 <= i < |FirstFive(raw)| ==> FirstFive(raw)[i] in raw;
    ScoresBoundedIff(names, raw, d);
  }

  /** A result list naming one original both ways counts it twice. */
  lemma BothWaysCountsTwice(names: map<string, string>, opaqueName: string, original: string)
    requires Injective(names) && opaqueName in names && names[opaqueName] == original && original !in names
    ensures RecallAtFive(Retrieved(names, [opaqueName, original]), {original}) == Some(2.0)
  {
    var raw := [opaqueName, original];
    assert raw[1..] == [original] && raw[1..][1..] == [] && opaqueName != original;
    assert [] + [opaqueName] == [opaqueName] && [opaqueName] + [original] == raw;
    assert AppendNew([opaqueName], raw[1..]) == AppendNew(raw, raw[1..][1..]);
    assert Dedupe(raw) == raw && raw[..2] == raw;
    var r := Retrieved(names, raw);
    assert r[0] == original && r[1] == original;
    assert Hits(r, {original}, 1) == 1 && Hits(r, {original}, 2) == 2;
  }

  // ---------------------------------------------------------------------- loops

  method DedupeIds(values: seq<string>) returns (output: seq<string>)
    ensures output == Dedupe(values)
  {
    output := [];
    for i := 0 to |values|
      invariant AppendNew(output, values[i..]) == Dedupe(values)
    {
      assert values[i..][1..] == values[i + 1..];
      if values[i] !in output {
        output := output + [values[i]];
      }
    }
  }

  function Measured(values: seq<Option<real>>): seq<real> {
    if values == [] then []
    else Measured(values[..|values| - 1]) + match values[|values| - 1] case Some(v) => [v] case None => []
  }

  function Sum(values: seq<real>): real {
    if values == [] then 0.0 else Sum(values[..|values| - 1]) + values[|values| - 1]
  }

  function Mean(values: seq<Option<real>>): Option<real> {
    var measured := Measured(values);
    if measured == [] then None else Some(Sum(measured) / |measured| as real)
  }

  predicate AllWithin(values: seq<Option<real>>, low: real, high: real) {
    forall i :: 0 <= i < |values| && values[i].Some? ==> low <= values[i].value <= high
  }

  lemma {:induction false} SumWithin(values: seq<real>, low: real, high: real)
    requires forall i :: 0 <= i < |values| ==> low <= values[i] <= high
    ensures low * |values| as real <= Sum(values) <= high * |values| as real
  {
    if values != [] { SumWithin(values[..|values| - 1], low, high); }
  }

  lemma {:induction false} MeasuredWithin(values: seq<Option<real>>, low: real, high: real)
    requires AllWithin(values, low, high)
    ensures forall i :: 0 <= i < |Measured(values)| ==> low <= Measured(values)[i] <= high
    ensures Measured(values) == [] <==> forall i :: 0 <= i < |values| ==> values[i].None?
  {
    if values != [] {
      var front := values[..|values| - 1];
      assert forall i :: 0 <= i < |front| ==> front[i] == values[i];
      MeasuredWithin(front, low, high);
    }
  }

  lemma QuotientWithin(sum: real, n: real, low: real, high: real)
    requires n > 0.0 && low * n <= sum <= high * n
    ensures low <= sum / n <= high
  {
    var q := sum / n;
    assert q * n == sum;
    if q < low { ProductGrows(q, low, n); }
    if q > high { ProductGrows(high, q, n); }
  }

  lemma AverageWithin(values: seq<real>, low: real, high: real)
    requires values != [] && forall i :: 0 <= i < |values| ==> low <= values[i] <= high
    ensures low <= Sum(values) / |values| as real <= high
  {
    SumWithin(values, low, high);
    QuotientWithin(Sum(values), |values| as real, low, high);
  }

  lemma ProductGrows(a: real, b: real, n: real)
    requires a < b && n > 0.0
    ensures a * n < b * n
  {
    assert (b - a) * n > 0.0;
  }

  /** A mean of scores stays within their bounds; there is one exactly when something was measured. */
  lemma MeanWithin(values: seq<Option<real>>, low: real, high: real)
    requires AllWithin(values, low, high)
    ensures Mean(values).None? <==> forall i :: 0 <= i < |values| ==> values[i].None?
    ensures Mean(values).Some? ==> low <= Mean(values).value <= high
  {
    MeasuredWithin(values, low, high);
    if Measured(values) != [] { AverageWithin(Measured(values), low, high); }
  }
}
