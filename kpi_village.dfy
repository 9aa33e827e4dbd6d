/** The calculators that look at one village id rather than at the village's
    cooperatives (`calculate_upkdk_kpis`, `calculate_geo_kpis`) and the
    domain calculator (`calculate_domain_kpis`), which reads only the global
    aggregates. */
module VillageKpi {
  import opened Common
  import opened Records
  import opened Ratios
  import opened GlobalAggregates
  import opened CooperativeKpi

  // ---------------------------------------------------------------------------
  // Village service units (KPI 41 to 44 and 54)
  // ---------------------------------------------------------------------------

  datatype UpkdkKpis = UpkdkKpis(
    totalUpkdk: nat,
    proporsiJenis: real,
    aksesInternet: real,
    bangunanLayak: real,
    airListrik: real)

  /** The units registered under village id `vid`. */
  function UnitsOf(vid: int, units: seq<Upkdk>): seq<Upkdk> {
    Filter(units, (u: Upkdk) => u.villageId == vid)
  }

  function UnitTypeOf(u: Upkdk): Option<string> { u.unitType }

  function HasInternet(u: Upkdk): bool { u.internetAccess == "Ada" }

  function InGoodCondition(u: Upkdk): bool { u.buildingCondition == "Baik" }

  function HasWaterAndElectricity(u: Upkdk): bool { u.waterElectricity == "Ya" }

  /** A facility share among the village's units, 0 without units. */
  function UnitShare(vu: seq<Upkdk>, q: Upkdk -> bool): real {
    if vu != [] then ShareWhere(vu, q) else 0.0
  }

  /** The share of the most common known unit type among the village's
      units, 0 without units. */
  function UnitTypeShare(vu: seq<Upkdk>): real {
    if vu != [] then ModeShare(Project(vu, UnitTypeOf)) else 0.0
  }

  /** `calculate_upkdk_kpis` for village id `vid`. */
  function CalculateUpkdkKpis(vid: int, units: seq<Upkdk>): UpkdkKpis {
    var vu := UnitsOf(vid, units);
    UpkdkKpis(
      |vu|,
      UnitTypeShare(vu),
      UnitShare(vu, HasInternet),
      UnitShare(vu, InGoodCondition),
      UnitShare(vu, HasWaterAndElectricity))
  }

  /** A share in [0, 100] that is 100 exactly when there are units and all
      satisfy `q`, and 0 exactly when none does. */
  predicate UnitShareFacts(vu: seq<Upkdk>, q: Upkdk -> bool) {
    0.0 <= UnitShare(vu, q) <= 100.0 &&
    (UnitShare(vu, q) == 100.0 <==> (vu != [] && forall i :: 0 <= i < |vu| ==> q(vu[i]))) &&
    (UnitShare(vu, q) == 0.0 <==> forall i :: 0 <= i < |vu| ==> !q(vu[i]))
  }

  /** The three facility shares are percentages that reach 100 exactly when
      every unit of the village has the facility and 0 exactly when none
      has. */
  lemma UnitShares(vu: seq<Upkdk>)
    ensures UnitShareFacts(vu, HasInternet)
    ensures UnitShareFacts(vu, InGoodCondition)
    ensures UnitShareFacts(vu, HasWaterAndElectricity)
  {
    ShareWhereFacts(vu, HasInternet);
    ShareWhereFacts(vu, InGoodCondition);
    ShareWhereFacts(vu, HasWaterAndElectricity);
  }

  /** The type share is a percentage, 0 exactly when no unit has a known
      type, and 100 when all units share one known type. */
  lemma UnitTypeShareFacts(vu: seq<Upkdk>)
    ensures 0.0 <= UnitTypeShare(vu) <= 100.0
    ensures UnitTypeShare(vu) == 0.0 <==> forall i :: 0 <= i < |vu| ==> vu[i].unitType.None?
    ensures forall t: string :: (vu != [] && forall i :: 0 <= i < |vu| ==> vu[i].unitType == Some(t)) ==>
              UnitTypeShare(vu) == 100.0
  {
    var types := Project(vu, UnitTypeOf);
    ModeShareFacts(types);
    forall t: string | vu != [] && forall i :: 0 <= i < |vu| ==> vu[i].unitType == Some(t)
      ensures UnitTypeShare(vu) == 100.0
    {
      UniformModeShare(types, t);
    }
  }

  /** The KPIs of a village are its unit count, its type share and the three
      facility shares among its units; each share is 0 for a village without
      units. */
  lemma UpkdkFacilityShares(vid: int, units: seq<Upkdk>)
    ensures var k := CalculateUpkdkKpis(vid, units);
            UnitShareFacts(UnitsOf(vid, units), HasInternet) && k.aksesInternet == UnitShare(UnitsOf(vid, units), HasInternet) &&
            UnitShareFacts(UnitsOf(vid, units), InGoodCondition) && k.bangunanLayak == UnitShare(UnitsOf(vid, units), InGoodCondition) &&
            UnitShareFacts(UnitsOf(vid, units), HasWaterAndElectricity) &&
            k.airListrik == UnitShare(UnitsOf(vid, units), HasWaterAndElectricity)
    ensures CalculateUpkdkKpis(vid, units).totalUpkdk == |UnitsOf(vid, units)|
    ensures CalculateUpkdkKpis(vid, units).proporsiJenis == UnitTypeShare(UnitsOf(vid, units))
    ensures UnitsOf(vid, units) == [] ==>
              var k := CalculateUpkdkKpis(vid, units);
              k.aksesInternet == 0.0 && k.bangunanLayak == 0.0 && k.airListrik == 0.0
  {
    UnitShares(UnitsOf(vid, units));
  }

  // ---------------------------------------------------------------------------
  // Domains (KPI 45 and 46)
  // ---------------------------------------------------------------------------

  datatype DomainKpis = DomainKpis(totalDomain: nat, terverifikasi: real)

  /** `calculate_domain_kpis`. */
  function CalculateDomainKpis(agg: GlobalAgg): DomainKpis {
    DomainKpis(
      agg.totalDomains,
      if agg.totalDomains > 0 then Share(agg.verifiedDomains, agg.totalDomains) else 0.0)
  }

  /** With the aggregates taken from the domain table, the verified share
      lies in [0, 100], is 100 exactly when there are domains and all are
      verified, and 0 exactly when none is. */
  lemma DomainKpiFacts(klus: seq<CooperativeKlu>, outlets: seq<Outlet>, coops: seq<Cooperative>,
                       partnerships: seq<Partnership>, domains: seq<Domain>)
    ensures var k := CalculateDomainKpis(CalculateGlobalAggregates(klus, outlets, coops, partnerships, domains));
            k.totalDomain == |domains| &&
            0.0 <= k.terverifikasi <= 100.0 &&
            (k.terverifikasi == 100.0 <==>
               (domains != [] && forall i :: 0 <= i < |domains| ==> domains[i].verificationStatus == "Verified")) &&
            (k.terverifikasi == 0.0 <==>
               forall i :: 0 <= i < |domains| ==> domains[i].verificationStatus != "Verified")
  {
    ShareWhereFacts(domains, IsVerifiedDomain);
  }

  // ---------------------------------------------------------------------------
  // Geography (KPI 08 and 47 to 50)
  // ---------------------------------------------------------------------------

  datatype GeoKpis = GeoKpis(
    per10000Penduduk: real,
    koperasiPerDesa: real,
    penggabunganDesa: nat,
    completenessScore: real)

  /** The population of a village row: unknown when either age group is
      missing (a NaN survives `or 0` and the sum). */
  function Population(v: Village): Option<real> {
    if v.totalU17.Some? && v.totalA17.Some? then Some(v.totalU17.value + v.totalA17.value) else None
  }

  /** The cooperatives registered under village id `vid`. */
  function CooperativesOf(vid: int, coops: seq<Cooperative>): seq<Cooperative> {
    Filter(coops, (c: Cooperative) => c.villageId == vid)
  }

  /** KPI 08: the cooperatives of village id `vid` per 10,000 inhabitants of
      the first village row with that id; 0 without such a row or without a
      positive population. */
  function CooperativesPer10000(vid: int, villages: seq<Village>, coops: seq<Cooperative>): real {
    match FirstWhere(villages, (v: Village) => v.villageId == vid)
    case None => 0.0
    case Some(v) =>
      match Population(v)
      case Some(p) =>
        if p > 0.0 then ((|CooperativesOf(vid, coops)| as real) / p) * 10000.0 else 0.0
      case None => 0.0
  }

  /** The rate is never negative; it is positive exactly when the first row
      of the village has a positive population and the village has
      cooperatives, and is then the cooperatives over the population times
      10,000. */
  lemma CooperativesPer10000Facts(vid: int, villages: seq<Village>, coops: seq<Cooperative>)
    ensures CooperativesPer10000(vid, villages, coops) >= 0.0
    ensures var first := FirstWhere(villages, (v: Village) => v.villageId == vid);
            CooperativesPer10000(vid, villages, coops) > 0.0 <==>
              (first.Some? && Population(first.value).Some? && Population(first.value).value > 0.0 &&
               CooperativesOf(vid, coops) != [])
  {
    var first := FirstWhere(villages, (v: Village) => v.villageId == vid);
    if first.Some? && Population(first.value).Some? {
      var p := Population(first.value).value;
      if p > 0.0 {
        var n := |CooperativesOf(vid, coops)| as real;
        DivideMonotone(0.0, n, p);
        if n > 0.0 {
          assert n / p > 0.0;
        }
      }
    }
  }

  /** The cooperatives of a subdistrict, selected by the geography row's
      province code and the internal district and subdistrict ids. */
  function SubdistrictCooperatives(coops: seq<Cooperative>, provinceId: Option<string>,
                                   districtInternal: Option<int>, subdistrictInternal: Option<int>): seq<Cooperative> {
    Filter(coops, (c: Cooperative) =>
      Matches(c.provinceId, provinceId) && Matches(c.districtId, districtInternal) &&
      Matches(c.subdistrictId, subdistrictInternal))
  }

  function VillageIdOf(c: Cooperative): int { c.villageId }

  /** KPI 47: cooperatives per village of the subdistrict, clipped to
      [1, 3]; 1 for a subdistrict without cooperatives. */
  function CooperativesPerVillage(sc: seq<Cooperative>): real {
    if sc != [] then
      var villages := Distinct(Project(sc, VillageIdOf));
      if villages > 0 then Clamp((|sc| as real) / (villages as real), 1.0, 3.0) else 1.0
    else 1.0
  }

  /** The value lies in [1, 3]; it is 1 when every cooperative of the
      subdistrict is in a village of its own, and 3 when there are at least
      three cooperatives per village. */
  lemma CooperativesPerVillageFacts(sc: seq<Cooperative>)
    ensures 1.0 <= CooperativesPerVillage(sc) <= 3.0
    ensures Distinct(Project(sc, VillageIdOf)) == |sc| ==> CooperativesPerVillage(sc) == 1.0
    ensures |sc| >= 3 * Distinct(Project(sc, VillageIdOf)) && sc != [] ==> CooperativesPerVillage(sc) == 3.0
  {
    if sc != [] {
      ClampedRatio(|sc|, Distinct(Project(sc, VillageIdOf)));
    }
  }

  /** The clipped ratio of two positive counts is 1 for equal counts and 3
      when the first is at least three times the second. */
  lemma ClampedRatio(n: nat, u: nat)
    requires u > 0
    ensures u == n ==> Clamp((n as real) / (u as real), 1.0, 3.0) == 1.0
    ensures n >= 3 * u ==> Clamp((n as real) / (u as real), 1.0, 3.0) == 3.0
  {
    var x := u as real;
    if n >= 3 * u {
      DivideMonotone(3.0 * x, n as real, x);
      assert (3.0 * x) / x == 3.0;
    }
  }

  /** A text cell that is present and not empty. */
  function FilledField(o: Option<string>): nat {
    if o.Some? && o.value != "" then 1 else 0
  }

  function CooperativeFilled(c: Cooperative): nat {
    FilledField(c.longitude) + FilledField(c.latitude) + FilledField(c.address)
  }

  function UnitFilled(u: Upkdk): nat {
    FilledField(u.longitude) + FilledField(u.latitude) + FilledField(u.address)
  }

  /** Filled location fields of the first `n` cooperatives. */
  function FilledCooperativePoints(vc: seq<Cooperative>, n: nat): nat
    requires n <= |vc|
  {
    if n == 0 then 0 else FilledCooperativePoints(vc, n - 1) + CooperativeFilled(vc[n - 1])
  }

  /** Filled location fields of the first `n` units. */
  function FilledUnitPoints(vu: seq<Upkdk>, n: nat): nat
    requires n <= |vu|
  {
    if n == 0 then 0 else FilledUnitPoints(vu, n - 1) + UnitFilled(vu[n - 1])
  }

  /** The point counters of KPI 49: three points (longitude, latitude,
      address) per cooperative and per unit of village id `vid`, and how many
      of them are filled. Outlets carry no location and add nothing. */
  method CountGeoPoints(vid: int, coops: seq<Cooperative>, units: seq<Upkdk>) returns (total: nat, filled: nat)
    ensures total == 3 * (|CooperativesOf(vid, coops)| + |UnitsOf(vid, units)|)
    ensures filled == FilledCooperativePoints(CooperativesOf(vid, coops), |CooperativesOf(vid, coops)|) +
                      FilledUnitPoints(UnitsOf(vid, units), |UnitsOf(vid, units)|)
  {
    total := 0;
    filled := 0;
    var vc := CooperativesOf(vid, coops);
    for i := 0 to |vc|
      invariant total == 3 * i
      invariant filled == FilledCooperativePoints(vc, i)
    {
      total := total + 3;
      if vc[i].longitude.Some? && vc[i].longitude.value != "" { filled := filled + 1; }
      if vc[i].latitude.Some? && vc[i].latitude.value != "" { filled := filled + 1; }
      if vc[i].address.Some? && vc[i].address.value != "" { filled := filled + 1; }
    }
    var vu := UnitsOf(vid, units);
    for i := 0 to |vu|
      invariant total == 3 * (|vc| + i)
      invariant filled == FilledCooperativePoints(vc, |vc|) + FilledUnitPoints(vu, i)
    {
      total := total + 3;
      if vu[i].longitude.Some? && vu[i].longitude.value != "" { filled := filled + 1; }
      if vu[i].latitude.Some? && vu[i].latitude.value != "" { filled := filled + 1; }
      if vu[i].address.Some? && vu[i].address.value != "" { filled := filled + 1; }
    }
  }

  /** Whether all three location fields of a cooperative or unit are filled. */
  predicate CooperativeComplete(c: Cooperative) { CooperativeFilled(c) == 3 }

  predicate UnitComplete(u: Upkdk) { UnitFilled(u) == 3 }

  /** At most three filled points per row, exactly three for every row
      exactly when all rows are complete, and none exactly when no row has
      a filled field. */
  lemma {:induction false} FilledCooperativeBounds(vc: seq<Cooperative>, n: nat)
    requires n <= |vc|
    ensures FilledCooperativePoints(vc, n) <= 3 * n
    ensures FilledCooperativePoints(vc, n) == 3 * n <==> forall i :: 0 <= i < n ==> CooperativeComplete(vc[i])
    ensures FilledCooperativePoints(vc, n) == 0 <==> forall i :: 0 <= i < n ==> CooperativeFilled(vc[i]) == 0
  {
    if n > 0 {
      FilledCooperativeBounds(vc, n - 1);
    }
  }

  lemma {:induction false} FilledUnitBounds(vu: seq<Upkdk>, n: nat)
    requires n <= |vu|
    ensures FilledUnitPoints(vu, n) <= 3 * n
    ensures FilledUnitPoints(vu, n) == 3 * n <==> forall i :: 0 <= i < n ==> UnitComplete(vu[i])
    ensures FilledUnitPoints(vu, n) == 0 <==> forall i :: 0 <= i < n ==> UnitFilled(vu[i]) == 0
  {
    if n > 0 {
      FilledUnitBounds(vu, n - 1);
    }
  }

  /** The share of the location points filled among those of `vc` and
      `vu`, three points per row; 0 without rows. */
  function LocatedShare(vc: seq<Cooperative>, vu: seq<Upkdk>): real {
    Share(FilledCooperativePoints(vc, |vc|) + FilledUnitPoints(vu, |vu|), 3 * (|vc| + |vu|))
  }

  /** KPI 49: filled points over all points of the village's cooperatives
      and units, in percent; 0 without points. */
  function CompletenessScore(vid: int, coops: seq<Cooperative>, units: seq<Upkdk>): real {
    LocatedShare(CooperativesOf(vid, coops), UnitsOf(vid, units))
  }

  /** Every cooperative and every unit has all three location fields. */
  predicate AllLocated(vc: seq<Cooperative>, vu: seq<Upkdk>) {
    (forall i :: 0 <= i < |vc| ==> CooperativeComplete(vc[i])) &&
    (forall i :: 0 <= i < |vu| ==> UnitComplete(vu[i]))
  }

  /** No cooperative and no unit has any location field. */
  predicate NoneLocated(vc: seq<Cooperative>, vu: seq<Upkdk>) {
    (forall i :: 0 <= i < |vc| ==> CooperativeFilled(vc[i]) == 0) &&
    (forall i :: 0 <= i < |vu| ==> UnitFilled(vu[i]) == 0)
  }

  /** The located share lies in [0, 100]; it is 100 exactly when there are
      rows and every one has all three location fields filled, and 0
      exactly when no field is filled. */
  lemma LocatedShareFacts(vc: seq<Cooperative>, vu: seq<Upkdk>)
    ensures 0.0 <= LocatedShare(vc, vu) <= 100.0
    ensures LocatedShare(vc, vu) == 100.0 <==> (vc != [] || vu != []) && AllLocated(vc, vu)
    ensures LocatedShare(vc, vu) == 0.0 <==> NoneLocated(vc, vu)
  {
    FilledCooperativeBounds(vc, |vc|);
    FilledUnitBounds(vu, |vu|);
    var a := FilledCooperativePoints(vc, |vc|);
    var b := FilledUnitPoints(vu, |vu|);
    PooledShare(a, |vc|, b, |vu|);
  }

  /** The completeness score lies in [0, 100]; it is 100 exactly when the
      village has cooperatives or units and all of them are fully located,
      and 0 exactly when none of their location fields is filled. */
  lemma CompletenessScoreFacts(vid: int, coops: seq<Cooperative>, units: seq<Upkdk>)
    ensures 0.0 <= CompletenessScore(vid, coops, units) <= 100.0
    ensures CompletenessScore(vid, coops, units) == 100.0 <==>
              (CooperativesOf(vid, coops) != [] || UnitsOf(vid, units) != []) &&
              AllLocated(CooperativesOf(vid, coops), UnitsOf(vid, units))
    ensures CompletenessScore(vid, coops, units) == 0.0 <==>
              NoneLocated(CooperativesOf(vid, coops), UnitsOf(vid, units))
  {
    LocatedShareFacts(CooperativesOf(vid, coops), UnitsOf(vid, units));
  }

  /** Pooling two point counts, each out of three points per row: the share
      is full exactly when both are, and empty exactly when both are. */
  lemma PooledShare(a: nat, n1: nat, b: nat, n2: nat)
    requires a <= 3 * n1 && b <= 3 * n2
    ensures 0.0 <= Share(a + b, 3 * (n1 + n2)) <= 100.0
    ensures Share(a + b, 3 * (n1 + n2)) == 100.0 <==> n1 + n2 > 0 && a == 3 * n1 && b == 3 * n2
    ensures Share(a + b, 3 * (n1 + n2)) == 0.0 <==> a == 0 && b == 0
  {
    ShareBounds(a + b, 3 * (n1 + n2));
  }

  /** `calculate_geo_kpis` for village id `vid` and the geography row's
      province code and internal district and subdistrict ids. */
  function CalculateGeoKpis(vid: int, villages: seq<Village>, coops: seq<Cooperative>,
                            mergers: seq<VillageMerger>, units: seq<Upkdk>,
                            provinceId: Option<string>, districtInternal: Option<int>,
                            subdistrictInternal: Option<int>): GeoKpis {
    GeoKpis(
      CooperativesPer10000(vid, villages, coops),
      CooperativesPerVillage(SubdistrictCooperatives(coops, provinceId, districtInternal, subdistrictInternal)),
      Count(mergers, (m: VillageMerger) => m.villageId == vid),
      CompletenessScore(vid, coops, units))
  }
}
