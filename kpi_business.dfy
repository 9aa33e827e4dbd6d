/** The outlet and business-classification calculators of one village
    (`calculate_outlet_kpis`, `calculate_klu_kpis`). */
module BusinessKpi {
  import opened Common
  import opened Records
  import opened Ratios
  import opened GlobalAggregates

  // ---------------------------------------------------------------------------
  // Outlets (KPI 19 to 24, 51 and 52)
  // ---------------------------------------------------------------------------

  datatype OutletKpis = OutletKpis(
    totalGerai: nat,
    geraiPerKoperasi: real,
    sebaranGeraiPerProvinsi: nat,
    persentaseFoto: real,
    distribusiJenis: real)

  /** The outlets of the village's cooperatives. */
  function ScopedOutlets(ids: seq<int>, outlets: seq<Outlet>): seq<Outlet> {
    Filter(outlets, (o: Outlet) => o.cooperativeId in ids)
  }

  function HasPhoto(o: Outlet): bool { o.hasPrimaryImage }

  function TypeIdOf(o: Outlet): Option<int> { o.cooperativeTypeId }

  /** KPI 52: the share of the most common known type among all of the
      village's outlets. */
  function TypeShare(vo: seq<Outlet>): real {
    ModeShare(Project(vo, TypeIdOf))
  }

  /** A row count per cooperative of the village, 0 without cooperatives. */
  function PerCooperativeOf(count: nat, ids: seq<int>): real {
    SafeDivide(count as real, |ids| as real, 0.0)
  }

  /** KPI 20: outlets per cooperative. */
  function OutletsPerCooperative(ids: seq<int>, outlets: seq<Outlet>): real {
    PerCooperativeOf(|ScopedOutlets(ids, outlets)|, ids)
  }

  /** KPI 51: the share of the village's outlets with a photo. */
  function PhotoShare(vo: seq<Outlet>): real {
    if vo != [] then ShareWhere(vo, HasPhoto) else 0.0
  }

  /** KPI 21: the province's entry of the global outlet count, 0 when the
      province is missing or has no outlets. */
  function ProvinceSpread(agg: GlobalAgg, provinceId: Option<string>): nat {
    match provinceId
    case Some(p) => Get(agg.geraiPerProvinsi, p).GetOr(0)
    case None => 0
  }

  /** `calculate_outlet_kpis`; `provinceId` is the province code of the
      geography row, which may be missing. */
  function CalculateOutletKpis(ids: seq<int>, outlets: seq<Outlet>, agg: GlobalAgg,
                               provinceId: Option<string>): OutletKpis {
    var vo := ScopedOutlets(ids, outlets);
    OutletKpis(
      |vo|,
      OutletsPerCooperative(ids, outlets),
      ProvinceSpread(agg, provinceId),
      PhotoShare(vo),
      TypeShare(vo))
  }

  /** Outlets per cooperative are the village's outlets over its
      cooperatives; the province spread is the size of that
      province's group in the global outlet count, and 0 for a missing
      province. */
  lemma OutletCounts(ids: seq<int>, outlets: seq<Outlet>, coops: seq<Cooperative>,
                     agg: GlobalAgg, provinceId: Option<string>)
    requires agg.geraiPerProvinsi == GeraiPerProvinsi(outlets, coops)
    ensures var k := CalculateOutletKpis(ids, outlets, agg, provinceId);
            var vo := ScopedOutlets(ids, outlets);
            k.totalGerai == |vo| <= |outlets| &&
            (ids != [] ==> k.geraiPerKoperasi == (|vo| as real) / (|ids| as real)) &&
            (ids == [] ==> k.geraiPerKoperasi == 0.0) &&
            (provinceId.Some? ==> k.sebaranGeraiPerProvinsi == GeraiCount(outlets, coops, provinceId.value)) &&
            (provinceId.None? ==> k.sebaranGeraiPerProvinsi == 0)
  {
    if provinceId.Some? {
      GeraiPerProvinsiLookup(outlets, coops, provinceId.value);
    }
  }

  /** The photo share lies in [0, 100] and is 100 exactly when the village
      has outlets and all have a photo. */
  lemma OutletPhotoShare(ids: seq<int>, outlets: seq<Outlet>, agg: GlobalAgg, provinceId: Option<string>)
    ensures var k := CalculateOutletKpis(ids, outlets, agg, provinceId);
            var vo := ScopedOutlets(ids, outlets);
            0.0 <= k.persentaseFoto <= 100.0 &&
            (k.persentaseFoto == 100.0 <==> (vo != [] && forall i :: 0 <= i < |vo| ==> vo[i].hasPrimaryImage)) &&
            (k.persentaseFoto == 0.0 <==> forall i :: 0 <= i < |vo| ==> !vo[i].hasPrimaryImage)
  {
    ShareWhereFacts(ScopedOutlets(ids, outlets), HasPhoto);
  }

  /** The type share lies in [0, 100]; it is 0 exactly when no outlet of
      the village has a known type, and 100 when all outlets have the same
      known type. */
  lemma TypeShareFacts(vo: seq<Outlet>)
    ensures 0.0 <= TypeShare(vo) <= 100.0
    ensures TypeShare(vo) == 0.0 <==> forall i :: 0 <= i < |vo| ==> vo[i].cooperativeTypeId.None?
    ensures forall t :: vo != [] && (forall i :: 0 <= i < |vo| ==> vo[i].cooperativeTypeId == Some(t)) ==>
                        TypeShare(vo) == 100.0
  {
    var column := Project(vo, TypeIdOf);
    ModeShareFacts(column);
    forall t | vo != [] && (forall i :: 0 <= i < |vo| ==> vo[i].cooperativeTypeId == Some(t))
      ensures TypeShare(vo) == 100.0
    {
      UniformModeShare(column, t);
    }
  }

  // ---------------------------------------------------------------------------
  // Business classifications (KPI 27 to 32)
  // ---------------------------------------------------------------------------

  datatype KluKpis = KluKpis(
    totalKlu: nat,
    top10Kbli: nat,
    proporsiSektorUtama: real,
    rataRataKluPerKoperasi: real,
    diversificationIndex: real)

  /** The classification rows of the village's cooperatives. */
  function ScopedKlus(ids: seq<int>, klus: seq<CooperativeKlu>): seq<CooperativeKlu> {
    Filter(klus, (k: CooperativeKlu) => k.cooperativeId in ids)
  }

  function CooperativeIdOf(k: CooperativeKlu): int { k.cooperativeId }

  /** The sectors `dim_klu` gives a KLU id, one per matching row, in order. */
  function MatchingSectors(dim: seq<KluSector>, kluId: int): seq<Option<string>> {
    if dim == [] then []
    else (if dim[0].kluId == kluId then [dim[0].sector] else []) + MatchingSectors(dim[1..], kluId)
  }

  /** The merged rows of one classification: one per matching `dim_klu` row,
      or a single row without a sector when there is none (a left merge). */
  function MergedRows(k: CooperativeKlu, dim: seq<KluSector>): seq<Option<string>> {
    var m := MatchingSectors(dim, k.kluId);
    if m == [] then [None] else m
  }

  /** The sector column of `village_klus.merge(dim_klu, on='kluId', how='left')`. */
  function MergedSectors(vk: seq<CooperativeKlu>, dim: seq<KluSector>): seq<Option<string>> {
    if vk == [] then [] else MergedRows(vk[0], dim) + MergedSectors(vk[1..], dim)
  }

  /** The count of the most common known sector over the number of the
      village's classifications (not of merged rows). */
  function SectorShare(vk: seq<CooperativeKlu>, dim: seq<KluSector>): real {
    var sectors := Present(MergedSectors(vk, dim));
    if sectors != [] then Share(MaxMultiplicity(sectors), |vk|) else 0.0
  }

  /** KPI 27: the number of distinct KLUs of the village. */
  function DistinctKlus(ids: seq<int>, klus: seq<CooperativeKlu>): nat {
    Distinct(Project(ScopedKlus(ids, klus), KluIdOf))
  }

  /** KPI 31: classification rows per cooperative. */
  function KlusPerCooperative(ids: seq<int>, klus: seq<CooperativeKlu>): real {
    PerCooperativeOf(|ScopedKlus(ids, klus)|, ids)
  }

  /** KPI 32: distinct KLUs over the number of cooperatives, taken as at
      least one. */
  function DiversificationIndex(ids: seq<int>, klus: seq<CooperativeKlu>): real {
    SafeDivide(DistinctKlus(ids, klus) as real, (if ids == [] then 1 else |ids|) as real, 0.0)
  }

  /** `calculate_klu_kpis`. */
  function CalculateKluKpis(ids: seq<int>, klus: seq<CooperativeKlu>, dim: seq<KluSector>,
                            agg: GlobalAgg): KluKpis {
    var vk := ScopedKlus(ids, klus);
    var inTop := Filter(vk, (k: CooperativeKlu) => k.kluId in agg.top10Klu);
    KluKpis(
      DistinctKlus(ids, klus),
      Distinct(Project(inTop, CooperativeIdOf)),
      if vk != [] then SectorShare(vk, dim) else 0.0,
      KlusPerCooperative(ids, klus),
      DiversificationIndex(ids, klus))
  }

  /** The classification counts: at most one distinct KLU per row and 0
      exactly when the village has no classification rows; the top-ten count
      is 0 exactly when none of them is a top-ten KLU. */
  lemma KluCounts(ids: seq<int>, klus: seq<CooperativeKlu>, dim: seq<KluSector>, agg: GlobalAgg)
    ensures var k := CalculateKluKpis(ids, klus, dim, agg);
            var vk := ScopedKlus(ids, klus);
            k.totalKlu <= |vk| && (k.totalKlu == 0 <==> vk == []) &&
            k.top10Kbli <= |vk| &&
            (k.top10Kbli == 0 <==> forall i :: 0 <= i < |vk| ==> vk[i].kluId !in agg.top10Klu)
  {
    var vk := ScopedKlus(ids, klus);
    FilterEmpty(vk, (k: CooperativeKlu) => k.kluId in agg.top10Klu);
  }

  /** KLUs per cooperative are the village's classification rows over its
      cooperatives; the diversification index is its distinct KLUs over
      the cooperatives taken as at least one. */
  lemma KluPerCooperative(ids: seq<int>, klus: seq<CooperativeKlu>, dim: seq<KluSector>, agg: GlobalAgg)
    ensures var k := CalculateKluKpis(ids, klus, dim, agg);
            var vk := ScopedKlus(ids, klus);
            (ids != [] ==> k.rataRataKluPerKoperasi == (|vk| as real) / (|ids| as real)) &&
            (ids == [] ==> k.rataRataKluPerKoperasi == 0.0) &&
            (ids != [] ==> k.diversificationIndex == (k.totalKlu as real) / (|ids| as real)) &&
            (ids == [] ==> k.diversificationIndex == k.totalKlu as real)
  {
  }

  /** The diversification index is never negative and, for a village with
      cooperatives, never exceeds the KLUs per cooperative. */
  lemma DiversificationAtMostAverage(ids: seq<int>, klus: seq<CooperativeKlu>)
    ensures 0.0 <= DiversificationIndex(ids, klus)
    ensures ids != [] ==> DiversificationIndex(ids, klus) <= KlusPerCooperative(ids, klus)
  {
    var d := DistinctKlus(ids, klus) as real;
    var n := (if ids == [] then 1 else |ids|) as real;
    DivideMonotone(0.0, d, n);
    if ids != [] {
      assert DistinctKlus(ids, klus) <= |ScopedKlus(ids, klus)|;
      DivideMonotone(d, |ScopedKlus(ids, klus)| as real, n);
    }
  }

  /** A KLU id matches at most one row of a `dim_klu` without repeated ids. */
  predicate UniqueKluIds(dim: seq<KluSector>) {
    forall i, j :: 0 <= i < j < |dim| ==> dim[i].kluId != dim[j].kluId
  }

  lemma {:induction false} MatchingSectorsAtMostOne(dim: seq<KluSector>, kluId: int)
    requires UniqueKluIds(dim)
    ensures |MatchingSectors(dim, kluId)| <= 1
  {
    if dim != [] {
      assert UniqueKluIds(dim[1..]) by {
        forall i, j | 0 <= i < j < |dim| - 1 ensures dim[1..][i].kluId != dim[1..][j].kluId {
          assert dim[1..][i] == dim[i + 1] && dim[1..][j] == dim[j + 1];
        }
      }
      if dim[0].kluId == kluId {
        NoMatchingSectors(dim[1..], kluId);
      } else {
        MatchingSectorsAtMostOne(dim[1..], kluId);
      }
    }
  }

  lemma {:induction false} NoMatchingSectors(dim: seq<KluSector>, kluId: int)
    requires forall i :: 0 <= i < |dim| ==> dim[i].kluId != kluId
    ensures MatchingSectors(dim, kluId) == []
  {
    if dim != [] {
      NoMatchingSectors(dim[1..], kluId);
    }
  }

  /** Without repeated KLU ids in `dim_klu`, the merge keeps one row per
      classification. */
  lemma {:induction false} MergedSectorsLength(vk: seq<CooperativeKlu>, dim: seq<KluSector>)
    requires UniqueKluIds(dim)
    ensures |MergedSectors(vk, dim)| == |vk|
  {
    if vk != [] {
      MatchingSectorsAtMostOne(dim, vk[0].kluId);
      MergedSectorsLength(vk[1..], dim);
    }
  }

  /** The main-sector share is never negative; when `dim_klu` repeats no
      KLU id it is at most 100. With repeated ids the merge can hold more
      rows than the village has classifications, and the share can exceed
      100 until the table is clipped. */
  lemma SectorShareFacts(vk: seq<CooperativeKlu>, dim: seq<KluSector>)
    ensures SectorShare(vk, dim) >= 0.0
    ensures UniqueKluIds(dim) ==> SectorShare(vk, dim) <= 100.0
    ensures vk == [] ==> SectorShare(vk, dim) == 0.0
  {
    var sectors := Present(MergedSectors(vk, dim));
    if sectors != [] {
      ShareNonNegative(MaxMultiplicity(sectors), |vk|);
      if UniqueKluIds(dim) {
        MergedSectorsLength(vk, dim);
        ShareBounds(MaxMultiplicity(sectors), |vk|);
      }
    }
  }
}
