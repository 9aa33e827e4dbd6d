/** The partnership calculator of one village (`calculate_partnership_kpis`):
    application status shares, processing time, the service distribution
    entry and the month-over-month growth of verified applications. */
module PartnershipKpi {
  import opened Common
  import opened Records
  import opened Ratios
  import opened GlobalAggregates

  datatype PartnershipKpis = PartnershipKpis(
    totalAplikasi: nat,
    verifiedRate: real,
    rejectedRate: real,
    inProgressRate: real,
    waktuProses: real,
    distribusiLayanan: nat,
    growthRate: real)

  /** The applications of the village's cooperatives. */
  function ScopedPartnerships(ids: seq<int>, ps: seq<Partnership>): seq<Partnership> {
    Filter(ps, (p: Partnership) => p.cooperativeId in ids)
  }

  function IsVerified(p: Partnership): bool { p.status == "Verified" }

  function IsRejected(p: Partnership): bool { p.status == "Rejected" }

  /** The statuses counted as in progress. */
  function IsInProgress(p: Partnership): bool {
    p.status == "Requested" || p.status == "InReview" || p.status == "In Progress"
  }

  /** A status share, 0 for a village without applications. */
  function StatusShare(vp: seq<Partnership>, q: Partnership -> bool): real {
    if vp != [] then ShareWhere(vp, q) else 0.0
  }

  /** A share in [0, 100] that is 100 exactly when there are applications
      and all satisfy `q`, and 0 exactly when none does. */
  predicate StatusShareFacts(vp: seq<Partnership>, q: Partnership -> bool) {
    0.0 <= StatusShare(vp, q) <= 100.0 &&
    (StatusShare(vp, q) == 100.0 <==> (vp != [] && forall i :: 0 <= i < |vp| ==> q(vp[i]))) &&
    (StatusShare(vp, q) == 0.0 <==> forall i :: 0 <= i < |vp| ==> !q(vp[i]))
  }

  /** Each status share lies in [0, 100], is 100 exactly when there are
      applications and all have that status, and is 0 exactly when none has
      it; the three shares add up to at most 100, as the statuses exclude
      one another. */
  lemma StatusShares(vp: seq<Partnership>)
    ensures StatusShareFacts(vp, IsVerified)
    ensures StatusShareFacts(vp, IsRejected)
    ensures StatusShareFacts(vp, IsInProgress)
    ensures StatusShare(vp, IsVerified) + StatusShare(vp, IsRejected) + StatusShare(vp, IsInProgress) <= 100.0
  {
    ShareWhereFacts(vp, IsVerified);
    ShareWhereFacts(vp, IsRejected);
    ShareWhereFacts(vp, IsInProgress);
    CountDisjoint3(vp, IsVerified, IsRejected, IsInProgress);
    ShareSum3(Count(vp, IsVerified), Count(vp, IsRejected), Count(vp, IsInProgress), |vp|);
  }

  // ---------------------------------------------------------------------------
  // Processing time (KPI 53)
  // ---------------------------------------------------------------------------

  function DurationOf(p: Partnership): Option<real> { p.durationHours }

  function IsPositive(d: real): bool { d > 0.0 }

  /** `clip(upper=72)`. */
  function CapAt72(d: real): real { if d > 72.0 then 72.0 else d }

  /** The positive, known durations, capped at 72 hours. */
  function CappedDurations(vp: seq<Partnership>): seq<real> {
    Project(Filter(Present(Project(vp, DurationOf)), IsPositive), CapAt72)
  }

  /** The mean capped duration, raised to at least 5 hours; 0 without a
      usable duration. */
  function ProcessingTime(vp: seq<Partnership>): real {
    var capped := CappedDurations(vp);
    if capped == [] then 0.0
    else
      var average := Mean(capped);
      if average > 0.0 then (if average > 5.0 then average else 5.0) else 0.0
  }

  /** The processing time is 0 exactly when no application of the village
      has a positive duration, and lies in [5, 72] otherwise. */
  lemma ProcessingTimeFacts(vp: seq<Partnership>)
    ensures var positive := Filter(Present(Project(vp, DurationOf)), IsPositive);
            (positive == [] ==> ProcessingTime(vp) == 0.0) &&
            (positive != [] ==> 5.0 <= ProcessingTime(vp) <= 72.0)
  {
    var capped := CappedDurations(vp);
    if capped != [] {
      var positive := Filter(Present(Project(vp, DurationOf)), IsPositive);
      assert forall i :: 0 <= i < |capped| ==> 0.0 < capped[i] <= 72.0 by {
        forall i | 0 <= i < |capped| ensures 0.0 < capped[i] <= 72.0 {
          assert capped[i] == CapAt72(positive[i]);
        }
      }
      MeanBounds(capped, 0.0, 72.0);
      PositiveSum(capped);
    }
  }

  // ---------------------------------------------------------------------------
  // Service distribution (KPI 37)
  // ---------------------------------------------------------------------------

  /** The global count of the service of the village's first application. */
  function FirstServiceCount(vp: seq<Partnership>, agg: GlobalAgg): nat {
    if vp != [] then Get(agg.serviceDistribution, vp[0].serviceId).GetOr(0) else 0
  }

  /** When the aggregate comes from all applications, the entry counts the
      applications for the village's first service: at least one, and at
      least as many as the village has for it. Without applications it is 0. */
  lemma FirstServiceCountFacts(ids: seq<int>, ps: seq<Partnership>, agg: GlobalAgg)
    requires agg.serviceDistribution == ServiceDistribution(ps)
    ensures var vp := ScopedPartnerships(ids, ps);
            (vp == [] ==> FirstServiceCount(vp, agg) == 0) &&
            (vp != [] ==> FirstServiceCount(vp, agg) == ServiceCount(ps, vp[0].serviceId) &&
                          FirstServiceCount(vp, agg) >= 1 &&
                          FirstServiceCount(vp, agg) >= ServiceCount(vp, vp[0].serviceId))
  {
    var vp := ScopedPartnerships(ids, ps);
    if vp != [] {
      var sid := vp[0].serviceId;
      ServiceDistributionLookup(ps, sid);
      assert vp[0] in ps;
      var i :| 0 <= i < |ps| && ps[i] == vp[0];
      CountOfFilter(ps, (p: Partnership) => p.cooperativeId in ids, (p: Partnership) => p.serviceId == sid);
    }
  }

  // ---------------------------------------------------------------------------
  // Growth of verified applications (KPI 38), over all applications
  // ---------------------------------------------------------------------------

  predicate StrictlyIncreasing(s: seq<int>) {
    forall i, j :: 0 <= i < j < |s| ==> s[i] < s[j]
  }

  /** `x` put into its place in a strictly increasing sequence, unless there. */
  function Insert(sorted: seq<int>, x: int): (r: seq<int>)
    requires StrictlyIncreasing(sorted)
    ensures StrictlyIncreasing(r)
    ensures forall y :: y in r <==> y in sorted || y == x
    ensures r != [] && (r[0] == x || (sorted != [] && r[0] == sorted[0]))
  {
    if sorted == [] then [x]
    else if x < sorted[0] then [x] + sorted
    else if x == sorted[0] then sorted
    else [sorted[0]] + Insert(sorted[1..], x)
  }

  /** The distinct values of `s` in ascending order: the group keys of
      `groupby`, which sorts them. */
  function SortedKeys(s: seq<int>): (r: seq<int>)
    ensures StrictlyIncreasing(r)
    ensures forall y :: y in r <==> y in s
  {
    if s == [] then [] else Insert(SortedKeys(s[..|s| - 1]), s[|s| - 1])
  }

  function CreatedMonthOf(p: Partnership): Option<int> { p.createdMonth }

  /** The creation months of the verified applications; an unparsable date
      falls out of the grouping. */
  function VerifiedMonths(ps: seq<Partnership>): seq<int> {
    Present(Project(Filter(ps, IsVerified), CreatedMonthOf))
  }

  /** `groupby('created_month').size()`: verified applications per month,
      months in ascending order. */
  function MonthlyCounts(ps: seq<Partnership>): seq<nat> {
    var months := VerifiedMonths(ps);
    var keys := SortedKeys(months);
    seq(|keys|, i requires 0 <= i < |keys| => Occurrences(months, keys[i]))
  }

  /** Every month of the grouping has at least one verified application. */
  lemma MonthlyCountsPositive(ps: seq<Partnership>)
    ensures forall i :: 0 <= i < |MonthlyCounts(ps)| ==> MonthlyCounts(ps)[i] >= 1
  {
    var months := VerifiedMonths(ps);
    var keys := SortedKeys(months);
    forall i | 0 <= i < |keys| ensures Occurrences(months, keys[i]) >= 1 {
      assert keys[i] in months;
    }
  }

  /** The growth from one month to the next, in percent. */
  function Rate(prev: nat, curr: nat): real
    requires prev > 0
  {
    ((curr as real - prev as real) / (prev as real)) * 100.0
  }

  /** A rate is never below -100; it is 0 for no change, positive for more
      applications and negative for fewer. */
  lemma RateFacts(prev: nat, curr: nat)
    requires prev > 0
    ensures Rate(prev, curr) >= -100.0
    ensures Rate(prev, curr) == 0.0 <==> curr == prev
    ensures Rate(prev, curr) > 0.0 <==> curr > prev
    ensures Rate(prev, curr) < 0.0 <==> curr < prev
  {
    var p := prev as real;
    var d := curr as real - p;
    assert d >= -p;
    assert d / p >= -1.0;
  }

  /** The rates of the first `n` months, skipping a month after an empty one. */
  function GrowthRatesOf(counts: seq<nat>, n: nat): seq<real>
    requires n <= |counts|
  {
    if n <= 1 then []
    else GrowthRatesOf(counts, n - 1) +
         (if counts[n - 2] > 0 then [Rate(counts[n - 2], counts[n - 1])] else [])
  }

  /** The loop over consecutive months. */
  method GrowthRates(counts: seq<nat>) returns (rates: seq<real>)
    ensures rates == GrowthRatesOf(counts, |counts|)
  {
    rates := [];
    if counts != [] {
      for i := 1 to |counts|
        invariant rates == GrowthRatesOf(counts, i)
      {
        var prev := counts[i - 1];
        var curr := counts[i];
        if prev > 0 {
          rates := rates + [Rate(prev, curr)];
        }
      }
    }
  }

  /** With no empty month, there is one rate per pair of consecutive
      months, the rate from month `i` to month `i + 1`. */
  lemma {:induction false} GrowthRatesShape(counts: seq<nat>, n: nat)
    requires 1 <= n <= |counts|
    requires forall i :: 0 <= i < |counts| ==> counts[i] > 0
    ensures |GrowthRatesOf(counts, n)| == n - 1
    ensures forall i :: 0 <= i < n - 1 ==> GrowthRatesOf(counts, n)[i] == Rate(counts[i], counts[i + 1])
  {
    if n > 1 {
      GrowthRatesShape(counts, n - 1);
    }
  }

  /** The mean growth rate clamped to [0, 100]; 0 without applications,
      without verified ones, with fewer than two months or without rates. */
  function GrowthRate(ps: seq<Partnership>): real {
    if ps == [] || Filter(ps, IsVerified) == [] then 0.0
    else
      var counts := MonthlyCounts(ps);
      if |counts| < 2 then 0.0
      else
        var rates := GrowthRatesOf(counts, |counts|);
        if rates != [] then Clamp(Mean(rates), 0.0, 100.0) else 0.0
  }

  /** The growth rate lies in [0, 100], and is 0 when the verified
      applications fall every month. */
  lemma GrowthRateFacts(ps: seq<Partnership>)
    ensures 0.0 <= GrowthRate(ps) <= 100.0
    ensures (forall i :: 0 <= i < |MonthlyCounts(ps)| - 1 ==> MonthlyCounts(ps)[i + 1] < MonthlyCounts(ps)[i]) ==>
            GrowthRate(ps) == 0.0
  {
    var counts := MonthlyCounts(ps);
    if ps != [] && Filter(ps, IsVerified) != [] && |counts| >= 2 &&
       forall i :: 0 <= i < |counts| - 1 ==> counts[i + 1] < counts[i] {
      MonthlyCountsPositive(ps);
      GrowthRatesShape(counts, |counts|);
      var rates := GrowthRatesOf(counts, |counts|);
      forall i | 0 <= i < |rates| ensures rates[i] <= 0.0 {
        RateFacts(counts[i], counts[i + 1]);
      }
      MeanBounds(rates, -100.0, 0.0) by {
        forall i | 0 <= i < |rates| ensures -100.0 <= rates[i] <= 0.0 {
          RateFacts(counts[i], counts[i + 1]);
        }
      }
    }
  }

  // ---------------------------------------------------------------------------
  // The calculator
  // ---------------------------------------------------------------------------

  /** `calculate_partnership_kpis`: the growth rate is computed over all
      applications, not the village's. */
  function CalculatePartnershipKpis(ids: seq<int>, ps: seq<Partnership>, agg: GlobalAgg): PartnershipKpis {
    var vp := ScopedPartnerships(ids, ps);
    PartnershipKpis(
      |vp|,
      StatusShare(vp, IsVerified),
      StatusShare(vp, IsRejected),
      StatusShare(vp, IsInProgress),
      if vp != [] then ProcessingTime(vp) else 0.0,
      FirstServiceCount(vp, agg),
      GrowthRate(ps))
  }

  /** The village's status shares lie in [0, 100] and add up to at most 100. */
  lemma PartnershipShares(ids: seq<int>, ps: seq<Partnership>, agg: GlobalAgg)
    ensures var k := CalculatePartnershipKpis(ids, ps, agg);
            k.totalAplikasi == |ScopedPartnerships(ids, ps)| &&
            0.0 <= k.verifiedRate <= 100.0 && 0.0 <= k.rejectedRate <= 100.0 &&
            0.0 <= k.inProgressRate <= 100.0 &&
            k.verifiedRate + k.rejectedRate + k.inProgressRate <= 100.0
  {
    StatusShares(ScopedPartnerships(ids, ps));
  }

  /** The growth rate lies in [0, 100] and does not depend on the village. */
  lemma GrowthRateGlobal(ids: seq<int>, other: seq<int>, ps: seq<Partnership>, agg: GlobalAgg)
    ensures 0.0 <= CalculatePartnershipKpis(ids, ps, agg).growthRate <= 100.0
    ensures CalculatePartnershipKpis(other, ps, agg).growthRate == CalculatePartnershipKpis(ids, ps, agg).growthRate
  {
    GrowthRateFacts(ps);
  }
}
