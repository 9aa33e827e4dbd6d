/** The fact generation (`generate_fact_kpi`): it picks the latest week of
    the period dimension, maps district and subdistrict codes to internal
    ids, and walks the village rows of the geography dimension, emitting
    one fact row per village that has cooperatives. */
module FactEngine {
  import opened Common
  import opened Records
  import opened Columns
  import opened PeriodDimension
  import opened GeographyDimension
  import opened GlobalAggregates
  import CooperativeKpi
  import BusinessKpi
  import PartnershipKpi
  import VillageKpi

  /** The loaded source tables (`load_all_data`). */
  datatype Tables = Tables(
    villages: seq<Village>,
    districts: seq<District>,
    subdistricts: seq<Subdistrict>,
    coops: seq<Cooperative>,
    members: seq<Member>,
    managers: seq<Manager>,
    outlets: seq<Outlet>,
    klus: seq<CooperativeKlu>,
    dimKlu: seq<KluSector>,
    partnerships: seq<Partnership>,
    units: seq<Upkdk>,
    domains: seq<Domain>,
    mergers: seq<VillageMerger>,
    dimPeriod: seq<PeriodRow>,
    dimGeography: seq<GeoRow>)

  // ---------------------------------------------------------------------------
  // Step 4: the latest period
  // ---------------------------------------------------------------------------

  /** A period row with both a week and a month: a week row. */
  predicate IsWeekRow(r: PeriodRow) {
    r.period.week.Some? && r.period.month.Some?
  }

  /** The largest `date_key` among the week rows, `None` when there is none
      (the source then fails on `iloc[0]`). */
  function LatestDateKey(rows: seq<PeriodRow>): (k: Option<int>)
    ensures k.None? <==> forall i :: 0 <= i < |rows| ==> !IsWeekRow(rows[i])
    ensures k.Some? ==> exists i :: 0 <= i < |rows| && IsWeekRow(rows[i]) && rows[i].dateKey == k.value
    ensures k.Some? ==> forall i :: 0 <= i < |rows| && IsWeekRow(rows[i]) ==> rows[i].dateKey <= k.value
  {
    if rows == [] then None
    else
      var rest := LatestDateKey(rows[1..]);
      assert forall i :: 1 <= i < |rows| ==> rows[i] == rows[1..][i - 1];
      if !IsWeekRow(rows[0]) then rest
      else if rest.Some? && rest.value > rows[0].dateKey then rest
      else Some(rows[0].dateKey)
  }

  // ---------------------------------------------------------------------------
  // Steps 4.6 and 4.7: code-to-id maps
  // ---------------------------------------------------------------------------

  /** A dict filled row by row, `d[key(row)] = val(row)`: the last row with a
      key wins. */
  method BuildLookup<T, K, V>(s: seq<T>, key: T -> K, val: T -> V) returns (d: map<K, V>)
    ensures d == ZipDict(s, key, val)
  {
    d := map[];
    for i := 0 to |s|
      invariant d == ZipDict(s[..i], key, val)
    {
      assert s[..i + 1][..i] == s[..i];
      d := d[key(s[i]) := val(s[i])];
    }
    assert s[..|s|] == s;
  }

  function DistrictCodeOf(d: District): string { d.code }
  function DistrictIdOf(d: District): int { d.districtId }
  function SubdistrictCodeOf(s: Subdistrict): string { s.code }
  function SubdistrictIdOf(s: Subdistrict): int { s.subdistrictId }

  /** `district_code_to_id` and `subdistrict_code_to_id`. */
  function DistrictIds(ds: seq<District>): map<string, int> { ZipDict(ds, DistrictCodeOf, DistrictIdOf) }
  function SubdistrictIds(ss: seq<Subdistrict>): map<string, int> { ZipDict(ss, SubdistrictCodeOf, SubdistrictIdOf) }

  /** A district code maps to an id exactly when some district has that
      code, and it maps to the id of the last such district. */
  lemma DistrictIdsFacts(ds: seq<District>, code: string)
    ensures code in DistrictIds(ds) <==> exists i :: 0 <= i < |ds| && ds[i].code == code
    ensures code in DistrictIds(ds) ==>
              exists i :: 0 <= i < |ds| && ds[i].code == code && DistrictIds(ds)[code] == ds[i].districtId &&
                          forall j :: i < j < |ds| ==> ds[j].code != code
  {
    ZipDictFacts(ds, DistrictCodeOf, DistrictIdOf, code);
  }

  // ---------------------------------------------------------------------------
  // Step 6: one fact row per village
  // ---------------------------------------------------------------------------

  /** What every village row of the loop shares: the tables, the global
      aggregates, the chosen date key and the two code maps. */
  datatype Context = Context(
    t: Tables,
    agg: GlobalAgg,
    dateKey: int,
    districtIds: map<string, int>,
    subdistrictIds: map<string, int>)

  function VillageIdOf(v: Village): int { v.villageId }
  function CooperativeIdOf(c: Cooperative): int { c.cooperativeId }

  /** The village ids registered under a village code (codes repeat). */
  function MatchingVillageIds(villages: seq<Village>, code: string): seq<int> {
    Project(Filter(villages, (v: Village) => v.code == code), VillageIdOf)
  }

  /** The ids of the cooperatives in any of the villages `vids`. */
  function VillageCooperativeIds(coops: seq<Cooperative>, vids: seq<int>): seq<int> {
    Project(Filter(coops, (c: Cooperative) => c.villageId in vids), CooperativeIdOf)
  }

  /** `district_code_to_id.get(district_id)` for a present code. */
  function DistrictInternal(ctx: Context, g: GeoRow): Option<int> {
    match g.districtId
    case Some(code) => Get(ctx.districtIds, code)
    case None => None
  }

  /** The subdistrict lookup; an empty code counts as missing. */
  function SubdistrictInternal(ctx: Context, g: GeoRow): Option<int> {
    match g.subdistrictId
    case Some(code) => if code != "" then Get(ctx.subdistrictIds, code) else None
    case None => None
  }

  /** The id of the first row of `s` that satisfies `p`, or 0 when no row
      does (`df[mask][col].iloc[0] if len(df[mask]) > 0 else 0`). */
  function FirstIdWhere<T>(s: seq<T>, p: T -> bool, id: T -> int): int {
    match FirstWhere(s, p)
    case Some(x) => id(x)
    case None => 0
  }

  /** With no matching row the id is 0; otherwise it is the id of the
      first matching row. */
  lemma FirstIdWhereFacts<T>(s: seq<T>, p: T -> bool, id: T -> int)
    ensures (forall i :: 0 <= i < |s| ==> !p(s[i])) ==> FirstIdWhere(s, p, id) == 0
    ensures forall i :: 0 <= i < |s| && p(s[i]) && (forall j :: 0 <= j < i ==> !p(s[j])) ==>
              FirstIdWhere(s, p, id) == id(s[i])
  {
    FirstWhereFound(s, p);
    forall i | 0 <= i < |s| && p(s[i]) && (forall j :: 0 <= j < i ==> !p(s[j]))
      ensures FirstIdWhere(s, p, id) == id(s[i])
    {
      var k :| 0 <= k < |s| && s[k] == FirstWhere(s, p).value && p(s[k]) && forall j :: 0 <= j < k ==> !p(s[j]);
      assert !(k < i) && !(i < k);
    }
  }

  /** The representative dimension keys: the first matching row of each
      table, 0 when there is none. */
  function FirstOutletId(outlets: seq<Outlet>, ids: seq<int>): int {
    FirstIdWhere(outlets, (o: Outlet) => o.cooperativeId in ids, (o: Outlet) => o.outletId)
  }

  function FirstServiceId(ps: seq<Partnership>, ids: seq<int>): int {
    FirstIdWhere(ps, (p: Partnership) => p.cooperativeId in ids, (p: Partnership) => p.serviceId)
  }

  function FirstUnitId(units: seq<Upkdk>, vids: seq<int>): int {
    FirstIdWhere(units, (u: Upkdk) => u.villageId in vids, (u: Upkdk) => u.upkdkId)
  }

  function FirstKluId(klus: seq<CooperativeKlu>, ids: seq<int>): int {
    FirstIdWhere(klus, (k: CooperativeKlu) => k.cooperativeId in ids, (k: CooperativeKlu) => k.kluId)
  }

  /** The six dimension keys of a fact row. */
  datatype DimensionKeys = DimensionKeys(dateKey: int, geoKey: int, outletId: int, serviceId: int,
                                         upkdkId: int, kluId: int)

  function KeysOf(ctx: Context, g: GeoRow, vids: seq<int>, ids: seq<int>): DimensionKeys {
    DimensionKeys(ctx.dateKey, g.geoKey, FirstOutletId(ctx.t.outlets, ids), FirstServiceId(ctx.t.partnerships, ids),
                  FirstUnitId(ctx.t.units, vids), FirstKluId(ctx.t.klus, ids))
  }

  /** A village's dimension keys: the run's date key, the geography row's
      key, and for each of outlets, partnership applications, UPKDK units
      and KLUs the id of the first row in scope, or 0 when none is. Outlets,
      applications and KLUs are scoped by cooperative, units by village. */
  lemma RepresentativeKeys(ctx: Context, g: GeoRow, vids: seq<int>, ids: seq<int>)
    ensures KeysOf(ctx, g, vids, ids).dateKey == ctx.dateKey
    ensures KeysOf(ctx, g, vids, ids).geoKey == g.geoKey
    ensures var os := ctx.t.outlets;
            ((forall i :: 0 <= i < |os| ==> os[i].cooperativeId !in ids) ==> KeysOf(ctx, g, vids, ids).outletId == 0) &&
            forall i :: 0 <= i < |os| && os[i].cooperativeId in ids && (forall j :: 0 <= j < i ==> os[j].cooperativeId !in ids) ==>
              KeysOf(ctx, g, vids, ids).outletId == os[i].outletId
    ensures var ps := ctx.t.partnerships;
            ((forall i :: 0 <= i < |ps| ==> ps[i].cooperativeId !in ids) ==> KeysOf(ctx, g, vids, ids).serviceId == 0) &&
            forall i :: 0 <= i < |ps| && ps[i].cooperativeId in ids && (forall j :: 0 <= j < i ==> ps[j].cooperativeId !in ids) ==>
              KeysOf(ctx, g, vids, ids).serviceId == ps[i].serviceId
    ensures var us := ctx.t.units;
            ((forall i :: 0 <= i < |us| ==> us[i].villageId !in vids) ==> KeysOf(ctx, g, vids, ids).upkdkId == 0) &&
            forall i :: 0 <= i < |us| && us[i].villageId in vids && (forall j :: 0 <= j < i ==> us[j].villageId !in vids) ==>
              KeysOf(ctx, g, vids, ids).upkdkId == us[i].upkdkId
    ensures var ks := ctx.t.klus;
            ((forall i :: 0 <= i < |ks| ==> ks[i].cooperativeId !in ids) ==> KeysOf(ctx, g, vids, ids).kluId == 0) &&
            forall i :: 0 <= i < |ks| && ks[i].cooperativeId in ids && (forall j :: 0 <= j < i ==> ks[j].cooperativeId !in ids) ==>
              KeysOf(ctx, g, vids, ids).kluId == ks[i].kluId
  {
    FirstIdWhereFacts(ctx.t.outlets, (o: Outlet) => o.cooperativeId in ids, (o: Outlet) => o.outletId);
    FirstIdWhereFacts(ctx.t.partnerships, (p: Partnership) => p.cooperativeId in ids, (p: Partnership) => p.serviceId);
    FirstIdWhereFacts(ctx.t.units, (u: Upkdk) => u.villageId in vids, (u: Upkdk) => u.upkdkId);
    FirstIdWhereFacts(ctx.t.klus, (k: CooperativeKlu) => k.cooperativeId in ids, (k: CooperativeKlu) => k.kluId);
  }

  /** The results of the nine calculators for one village. */
  datatype VillageKpis = VillageKpis(
    cooperative: CooperativeKpi.CooperativeKpis,
    geo: VillageKpi.GeoKpis,
    member: CooperativeKpi.MemberKpis,
    management: CooperativeKpi.ManagementKpis,
    outlet: BusinessKpi.OutletKpis,
    klu: BusinessKpi.KluKpis,
    partnership: PartnershipKpi.PartnershipKpis,
    upkdk: VillageKpi.UpkdkKpis,
    domain: VillageKpi.DomainKpis)

  /** The nine calculators on one village; the geography and UPKDK
      calculators see the first matching village id. */
  function CalculateVillageKpis(ctx: Context, g: GeoRow, vids: seq<int>, ids: seq<int>): VillageKpis
    requires vids != []
  {
    var t := ctx.t;
    var d := DistrictInternal(ctx, g);
    VillageKpis(
      CooperativeKpi.CalculateCooperativeKpis(ids, t.coops, g.provinceId, d),
      VillageKpi.CalculateGeoKpis(vids[0], t.villages, t.coops, t.mergers, t.units, g.provinceId, d,
                                  SubdistrictInternal(ctx, g)),
      CooperativeKpi.CalculateMemberKpis(ids, t.members),
      CooperativeKpi.CalculateManagementKpis(ids, t.managers),
      BusinessKpi.CalculateOutletKpis(ids, t.outlets, ctx.agg, g.provinceId),
      BusinessKpi.CalculateKluKpis(ids, t.klus, t.dimKlu, ctx.agg),
      PartnershipKpi.CalculatePartnershipKpis(ids, t.partnerships, ctx.agg),
      VillageKpi.CalculateUpkdkKpis(vids[0], t.units),
      VillageKpi.CalculateDomainKpis(ctx.agg))
  }

  /** The six dimension keys. */
  function KeyCells(keys: DimensionKeys): map<Column, real> {
    map[
      OutletId := keys.outletId as real,
      BusinessPartnerServiceId := keys.serviceId as real,
      UpkdkId := keys.upkdkId as real,
      KluId := keys.kluId as real,
      GeoKey := keys.geoKey as real,
      DateKey := keys.dateKey as real]
  }

  /** The cells of the geography, member, management and cooperative
      calculators. */
  function CooperativeCells(k: VillageKpis): map<Column, real> {
    map[
      TotalKoperasiPerProvinsi := k.cooperative.totalKoperasiPerProvinsi as real,
      TotalKoperasiPerKabupatenKota := k.cooperative.totalKoperasiPerKabupatenKota as real,
      RataRataModalAwalKoperasi := k.cooperative.rataRataModalAwal,
      TotalModalAwalKoperasi := k.cooperative.totalModalAwal,
      RasioKoperasiBaruVsTotal := k.cooperative.rasioKoperasiBaru,
      RasioPendaftaranMandiriVsPendamping := k.cooperative.rasioPendaftaranMandiri,
      KoperasiPer10000PendudukDesa := k.geo.per10000Penduduk,
      TotalAnggotaKoperasi := k.member.totalAnggota as real,
      RasioGenderAnggotaLP := k.member.rasioGenderAnggota,
      RataRataSimpananPokokPerAnggota := k.member.rataRataSimpananPokok,
      RataRataSimpananWajibPerAnggota := k.member.rataRataSimpananWajib,
      RasioAnggotaDenganBICheckingLancar := k.member.rasioBiCheckingLancar,
      TotalPengurusKoperasi := k.management.totalPengurus as real,
      TotalPengawasKoperasi := k.management.totalPengawas as real,
      RasioGenderPengurus := k.management.rasioGenderPengurus,
      RatioStrukturJabatanLengkap := k.management.rasioStrukturLengkap,
      RataRataAnggotaPerKoperasi := k.member.rataRataAnggotaPerKoperasi as real,
      KoperasiPerDesa := k.geo.koperasiPerDesa,
      JumlahPenggabunganDesa := k.geo.penggabunganDesa as real,
      GeoSpatialDataCompletenessScore := k.geo.completenessScore,
      TotalKoperasiTerdaftar := k.cooperative.totalKoperasiTerdaftar as real]
  }

  /** The cells of the outlet, KLU, partnership, UPKDK and domain
      calculators. */
  function BusinessAndServiceCells(k: VillageKpis): map<Column, real> {
    map[
      TotalGeraiKoperasi := k.outlet.totalGerai as real,
      GeraiPerKoperasi := k.outlet.geraiPerKoperasi,
      SebaranGeraiPerProvinsi := k.outlet.sebaranGeraiPerProvinsi as real,
      KomposisiTipeGerai := 0.0,
      ColdStorageCoverage := 0.0,
      OutletExpansionRate := 0.0,
      TotalKLUTerdaftar := k.klu.totalKlu as real,
      Top10KBLITerbanyak := k.klu.top10Kbli as real,
      DistribusiKLUPerProvinsi := k.klu.totalKlu as real,
      ProporsiSektorUtama := k.klu.proporsiSektorUtama,
      RataRataKLUPerKoperasi := k.klu.rataRataKluPerKoperasi,
      KluDiversificationIndex := k.klu.diversificationIndex,
      TotalAplikasiKemitraan := k.partnership.totalAplikasi as real,
      VerifiedPartnershipRate := k.partnership.verifiedRate,
      RejectedPartnershipRate := k.partnership.rejectedRate,
      InProgressPartnershipRate := k.partnership.inProgressRate,
      DistribusiJenisLayananKemitraan := k.partnership.distribusiLayanan as real,
      PartnershipGrowthRate := k.partnership.growthRate,
      KemitraanPerProvinsi := k.partnership.totalAplikasi as real,
      TotalUPKDKAktif := k.upkdk.totalUpkdk as real,
      ProporsiJenisUPKDK := k.upkdk.proporsiJenis,
      UpkdkDenganAksesInternet := k.upkdk.aksesInternet,
      KondisiBangunanUpkdkLayak := k.upkdk.bangunanLayak,
      TotalDomainKoperasiTerdaftar := k.domain.totalDomain as real,
      DomainKoperasiTerverifikasi := k.domain.terverifikasi,
      PersentaseGeraiDenganFotoTerunggah := k.outlet.persentaseFoto,
      DistribusiJenisGeraiKoperasi := k.outlet.distribusiJenis,
      RataRataWaktuProsesAplikasiKemitraan := k.partnership.waktuProses,
      PersentaseUpkdkDenganAksesAirListrikMemadai := k.upkdk.airListrik]
  }

  /** The fact row of a village. The calculators'
      dicts share no key, so the order of the source's `row.update` calls
      does not matter. Three outlet KPIs without source data are 0;
      `DistribusiKLUPerProvinsi` repeats the village's distinct KLU count
      and `KemitraanPerProvinsi` its number of applications. */
  function RowOf(keys: DimensionKeys, k: VillageKpis): FactRow {
    BusinessAndServiceCells(k) + CooperativeCells(k) + KeyCells(keys)
  }

  lemma KeyColumns(keys: DimensionKeys)
    ensures KeyCells(keys).Keys ==
              {DateKey, GeoKey, OutletId, BusinessPartnerServiceId, UpkdkId, KluId}
  {
  }

  lemma CooperativeColumns(k: VillageKpis)
    ensures CooperativeCells(k).Keys ==
              {TotalKoperasiPerProvinsi, TotalKoperasiPerKabupatenKota, RataRataModalAwalKoperasi,
               TotalModalAwalKoperasi, RasioKoperasiBaruVsTotal, RasioPendaftaranMandiriVsPendamping,
               KoperasiPer10000PendudukDesa, TotalAnggotaKoperasi, RasioGenderAnggotaLP,
               RataRataSimpananPokokPerAnggota, RataRataSimpananWajibPerAnggota,
               RasioAnggotaDenganBICheckingLancar, TotalPengurusKoperasi, TotalPengawasKoperasi,
               RasioGenderPengurus, RatioStrukturJabatanLengkap, RataRataAnggotaPerKoperasi,
               KoperasiPerDesa, JumlahPenggabunganDesa, GeoSpatialDataCompletenessScore,
               TotalKoperasiTerdaftar}
  {
  }

  lemma BusinessAndServiceColumns(k: VillageKpis)
    ensures BusinessAndServiceCells(k).Keys ==
              {TotalGeraiKoperasi, GeraiPerKoperasi, SebaranGeraiPerProvinsi, KomposisiTipeGerai,
               ColdStorageCoverage, OutletExpansionRate, TotalKLUTerdaftar, Top10KBLITerbanyak,
               DistribusiKLUPerProvinsi, ProporsiSektorUtama, RataRataKLUPerKoperasi,
               KluDiversificationIndex, TotalAplikasiKemitraan, VerifiedPartnershipRate,
               RejectedPartnershipRate, InProgressPartnershipRate, DistribusiJenisLayananKemitraan,
               PartnershipGrowthRate, KemitraanPerProvinsi, TotalUPKDKAktif, ProporsiJenisUPKDK,
               UpkdkDenganAksesInternet, KondisiBangunanUpkdkLayak, TotalDomainKoperasiTerdaftar,
               DomainKoperasiTerverifikasi, PersentaseGeraiDenganFotoTerunggah,
               DistribusiJenisGeraiKoperasi, RataRataWaktuProsesAplikasiKemitraan,
               PersentaseUpkdkDenganAksesAirListrikMemadai}
  {
  }

  /** Every column of a village's row is set. */
  lemma RowOfCovers(keys: DimensionKeys, k: VillageKpis)
    ensures forall c: Column :: c in RowOf(keys, k)
  {
    KeyColumns(keys);
    CooperativeColumns(k);
    BusinessAndServiceColumns(k);
    var first := KeyCells(keys).Keys;
    var second := CooperativeCells(k).Keys;
    var third := BusinessAndServiceCells(k).Keys;
    forall c: Column ensures c in RowOf(keys, k) {
      assert c in first + second + third by {
        match c
        case DateKey =>
        case GeoKey =>
        case OutletId =>
        case BusinessPartnerServiceId =>
        case UpkdkId =>
        case KluId =>
        case TotalKoperasiTerdaftar =>
        case TotalKoperasiPerProvinsi =>
        case TotalKoperasiPerKabupatenKota =>
        case RataRataModalAwalKoperasi =>
        case TotalModalAwalKoperasi =>
        case RasioKoperasiBaruVsTotal =>
        case RasioPendaftaranMandiriVsPendamping =>
        case KoperasiPer10000PendudukDesa =>
        case TotalAnggotaKoperasi =>
        case RasioGenderAnggotaLP =>
        case RataRataSimpananPokokPerAnggota =>
        case RataRataSimpananWajibPerAnggota =>
        case RasioAnggotaDenganBICheckingLancar =>
        case TotalPengurusKoperasi =>
        case TotalPengawasKoperasi =>
        case RasioGenderPengurus =>
        case RatioStrukturJabatanLengkap =>
        case RataRataAnggotaPerKoperasi =>
        case KoperasiPerDesa =>
        case JumlahPenggabunganDesa =>
        case GeoSpatialDataCompletenessScore =>
        case TotalGeraiKoperasi =>
        case GeraiPerKoperasi =>
        case SebaranGeraiPerProvinsi =>
        case KomposisiTipeGerai =>
        case ColdStorageCoverage =>
        case OutletExpansionRate =>
        case TotalKLUTerdaftar =>
        case Top10KBLITerbanyak =>
        case DistribusiKLUPerProvinsi =>
        case ProporsiSektorUtama =>
        case RataRataKLUPerKoperasi =>
        case KluDiversificationIndex =>
        case TotalAplikasiKemitraan =>
        case VerifiedPartnershipRate =>
        case RejectedPartnershipRate =>
        case InProgressPartnershipRate =>
        case DistribusiJenisLayananKemitraan =>
        case PartnershipGrowthRate =>
        case KemitraanPerProvinsi =>
        case TotalUPKDKAktif =>
        case ProporsiJenisUPKDK =>
        case UpkdkDenganAksesInternet =>
        case KondisiBangunanUpkdkLayak =>
        case TotalDomainKoperasiTerdaftar =>
        case DomainKoperasiTerverifikasi =>
        case PersentaseGeraiDenganFotoTerunggah =>
        case DistribusiJenisGeraiKoperasi =>
        case RataRataWaktuProsesAplikasiKemitraan =>
        case PersentaseUpkdkDenganAksesAirListrikMemadai =>
      }
    }
  }

  /** The dimension keys and the cooperative count reach the row
      unchanged. */
  lemma RowOfKeys(keys: DimensionKeys, k: VillageKpis)
    ensures RowOf(keys, k)[DateKey] == keys.dateKey as real
    ensures RowOf(keys, k)[GeoKey] == keys.geoKey as real
    ensures RowOf(keys, k)[TotalKoperasiTerdaftar] == k.cooperative.totalKoperasiTerdaftar as real
  {
  }

  /** The villages and cooperatives a geography row stands for. */
  datatype Scope = Scope(vids: seq<int>, ids: seq<int>)

  /** `None` when the row is not a village row, when no village has its
      code, or when none of those villages has a cooperative; otherwise the
      matching village ids and the ids of their cooperatives. */
  function VillageScope(villages: seq<Village>, coops: seq<Cooperative>, g: GeoRow): (r: Option<Scope>)
    ensures r.Some? ==> r.value.vids != [] && r.value.ids != []
  {
    match g.villageId
    case None => None
    case Some(code) =>
      var vids := MatchingVillageIds(villages, code);
      if vids == [] then None
      else
        var ids := VillageCooperativeIds(coops, vids);
        if ids == [] then None else Some(Scope(vids, ids))
  }

  /** The fact row of one geography row, if it has a scope. */
  function VillageRow(ctx: Context, g: GeoRow): Option<FactRow> {
    match VillageScope(ctx.t.villages, ctx.t.coops, g)
    case None => None
    case Some(sc) =>
      var keys := KeysOf(ctx, g, sc.vids, sc.ids);
      var k := CalculateVillageKpis(ctx, g, sc.vids, sc.ids);
      Some(RowOf(keys, k))
  }

  /** `VillageRow` for one context, as a function of the geography row. */
  function Emit(ctx: Context): GeoRow -> Option<FactRow> {
    g => VillageRow(ctx, g)
  }

  /** The rows collected from the first `n` geography rows, in order. */
  function FactRows(ctx: Context, geo: seq<GeoRow>, n: nat): seq<FactRow>
    requires n <= |geo|
  {
    Collect(geo, Emit(ctx), n)
  }

  /** The loop of step 6 over the village rows of the geography dimension. */
  method CollectFactRows(ctx: Context, geo: seq<GeoRow>) returns (rows: seq<FactRow>)
    ensures rows == FactRows(ctx, geo, |geo|)
  {
    rows := CollectLoop(geo, Emit(ctx));
  }

  /** Some village carries `code` and some cooperative sits in a village
      with that code. */
  predicate HasCooperativeVillage(vs: seq<Village>, cs: seq<Cooperative>, code: string) {
    exists i, j :: 0 <= i < |vs| && 0 <= j < |cs| && vs[i].code == code && cs[j].villageId == vs[i].villageId
  }

  /** A geography row has a scope, and so yields a fact row, exactly when
      it is a village row, some village carries its code, and some
      cooperative sits in a village with that code. */
  lemma ScopeExactly(vs: seq<Village>, cs: seq<Cooperative>, g: GeoRow)
    ensures VillageScope(vs, cs, g).Some? <==> g.villageId.Some? && HasCooperativeVillage(vs, cs, g.villageId.value)
  {
    if g.villageId.Some? {
      var code := g.villageId.value;
      if VillageScope(vs, cs, g).Some? {
        ScopeWitness(vs, cs, code);
      }
      if HasCooperativeVillage(vs, cs, code) {
        WitnessScope(vs, cs, code);
      }
    }
  }

  lemma ScopeWitness(vs: seq<Village>, cs: seq<Cooperative>, code: string)
    requires VillageCooperativeIds(cs, MatchingVillageIds(vs, code)) != []
    ensures HasCooperativeVillage(vs, cs, code)
  {
    var matching := Filter(vs, (v: Village) => v.code == code);
    var vids := MatchingVillageIds(vs, code);
    var inVillage := Filter(cs, (c: Cooperative) => c.villageId in vids);
    var c := inVillage[0];
    var j :| 0 <= j < |cs| && cs[j] == c;
    var k :| 0 <= k < |vids| && vids[k] == c.villageId;
    var i :| 0 <= i < |vs| && vs[i] == matching[k];
  }

  lemma WitnessScope(vs: seq<Village>, cs: seq<Cooperative>, code: string)
    requires HasCooperativeVillage(vs, cs, code)
    ensures MatchingVillageIds(vs, code) != []
    ensures VillageCooperativeIds(cs, MatchingVillageIds(vs, code)) != []
  {
    var matching := Filter(vs, (v: Village) => v.code == code);
    var vids := MatchingVillageIds(vs, code);
    var inVillage := Filter(cs, (c: Cooperative) => c.villageId in vids);
    var i, j :| 0 <= i < |vs| && 0 <= j < |cs| && vs[i].code == code && cs[j].villageId == vs[i].villageId;
    var k :| 0 <= k < |matching| && matching[k] == vs[i];
    assert vids[k] == vs[i].villageId;
    assert cs[j] in inVillage;
  }

  /** A village fact row sets every column, so the zero fill of the
      finalisation never applies; its date and geography keys are the chosen
      date key and the geography row's key, and it counts the cooperatives
      in scope. */
  lemma VillageRowCells(ctx: Context, g: GeoRow)
    requires VillageScope(ctx.t.villages, ctx.t.coops, g).Some?
    ensures VillageRow(ctx, g).Some?
    ensures forall c: Column :: c in VillageRow(ctx, g).value
    ensures VillageRow(ctx, g).value[DateKey] == ctx.dateKey as real
    ensures VillageRow(ctx, g).value[GeoKey] == g.geoKey as real
    ensures VillageRow(ctx, g).value[TotalKoperasiTerdaftar] ==
              |VillageScope(ctx.t.villages, ctx.t.coops, g).value.ids| as real >= 1.0
  {
    var sc := VillageScope(ctx.t.villages, ctx.t.coops, g).value;
    var k := CalculateVillageKpis(ctx, g, sc.vids, sc.ids);
    RowOfCovers(KeysOf(ctx, g, sc.vids, sc.ids), k);
    RowOfKeys(KeysOf(ctx, g, sc.vids, sc.ids), k);
    assert k.cooperative.totalKoperasiTerdaftar == |sc.ids|;
  }

  /** A row as every village row is: all columns set, the chosen date key,
      and at least one cooperative. */
  predicate WellFormedRow(ctx: Context, r: FactRow) {
    (forall c: Column :: c in r) && r[DateKey] == ctx.dateKey as real && r[TotalKoperasiTerdaftar] >= 1.0
  }

  /** Every collected row is well formed. */
  lemma FactRowsWellFormed(ctx: Context, geo: seq<GeoRow>, n: nat)
    requires n <= |geo|
    ensures forall i :: 0 <= i < |FactRows(ctx, geo, n)| ==> WellFormedRow(ctx, FactRows(ctx, geo, n)[i])
  {
    forall i | 0 <= i < |geo| && Emit(ctx)(geo[i]).Some?
      ensures WellFormedRow(ctx, Emit(ctx)(geo[i]).value)
    {
      VillageRowCells(ctx, geo[i]);
    }
    CollectAll(geo, Emit(ctx), n, r => WellFormedRow(ctx, r));
  }

  /** The geography key a row carries, 0 when it has none. */
  function GeoKeyOf(r: FactRow): real {
    if GeoKey in r then r[GeoKey] else 0.0
  }

  /** With the geography keys strictly increasing, as the geography
      dimension numbers them, the rows come out in strictly increasing
      geography key order, none beyond the key of the last row read. */
  lemma FactRowsOrdered(ctx: Context, geo: seq<GeoRow>, n: nat)
    requires n <= |geo|
    requires forall a, b :: 0 <= a < b < |geo| ==> geo[a].geoKey < geo[b].geoKey
    ensures forall a, b :: 0 <= a < b < |FactRows(ctx, geo, n)| ==>
              GeoKeyOf(FactRows(ctx, geo, n)[a]) < GeoKeyOf(FactRows(ctx, geo, n)[b])
    ensures n > 0 ==> forall i :: 0 <= i < |FactRows(ctx, geo, n)| ==>
              GeoKeyOf(FactRows(ctx, geo, n)[i]) <= geo[n - 1].geoKey as real
  {
    var at := (g: GeoRow) => g.geoKey as real;
    forall i | 0 <= i < |geo| && Emit(ctx)(geo[i]).Some?
      ensures GeoKeyOf(Emit(ctx)(geo[i]).value) == at(geo[i])
    {
      VillageRowCells(ctx, geo[i]);
    }
    CollectOrdered(geo, Emit(ctx), n, GeoKeyOf, at);
  }

  /** Whether a geography row has a scope, for one context. */
  function HasScope(ctx: Context): GeoRow -> bool {
    g => VillageScope(ctx.t.villages, ctx.t.coops, g).Some?
  }

  /** Some collected row carries geography key `key`. */
  predicate HasKeyRow(rows: seq<FactRow>, key: int) {
    exists i :: 0 <= i < |rows| && GeoKeyOf(rows[i]) == key as real
  }

  /** The collected table is exactly the scoped village rows: there are as
      many rows as geography rows with a scope, and, the geography keys
      being distinct, a geography row's key appears among the collected rows
      exactly when it has a scope. */
  lemma FactRowsExactly(ctx: Context, geo: seq<GeoRow>, n: nat)
    requires n <= |geo|
    requires forall a, b :: 0 <= a < b < |geo| ==> geo[a].geoKey < geo[b].geoKey
    ensures |FactRows(ctx, geo, n)| == Count(geo[..n], HasScope(ctx))
    ensures forall j :: 0 <= j < n ==> (HasScope(ctx)(geo[j]) <==> HasKeyRow(FactRows(ctx, geo, n), geo[j].geoKey))
  {
    var at := (g: GeoRow) => g.geoKey as real;
    forall i | 0 <= i < |geo|
      ensures HasScope(ctx)(geo[i]) <==> Emit(ctx)(geo[i]).Some?
      ensures Emit(ctx)(geo[i]).Some? ==> GeoKeyOf(Emit(ctx)(geo[i]).value) == at(geo[i])
    {
      EmittedKey(ctx, geo[i]);
    }
    CollectCount(geo, Emit(ctx), n, HasScope(ctx));
    forall j | 0 <= j < n ensures HasScope(ctx)(geo[j]) <==> HasKeyRow(FactRows(ctx, geo, n), geo[j].geoKey) {
      CollectKeyed(geo, Emit(ctx), n, GeoKeyOf, at, j);
    }
  }

  /** A geography row yields a row exactly when it has a scope, and the
      row carries the geography row's key. */
  lemma EmittedKey(ctx: Context, g: GeoRow)
    ensures Emit(ctx)(g).Some? <==> HasScope(ctx)(g)
    ensures Emit(ctx)(g).Some? ==> GeoKeyOf(Emit(ctx)(g).value) == g.geoKey as real
  {
    if HasScope(ctx)(g) {
      VillageRowCells(ctx, g);
    }
  }

  /** The geography rows of the village level: `village_id` is set. */
  function VillageGeography(geo: seq<GeoRow>): seq<GeoRow> {
    Filter(geo, (g: GeoRow) => g.villageId.Some?)
  }

  /** The context of a run: the global aggregates of the tables, the chosen
      date key and the two code maps. */
  function ContextOf(t: Tables, dateKey: int): Context {
    Context(t, CalculateGlobalAggregates(t.klus, t.outlets, t.coops, t.partnerships, t.domains), dateKey,
            DistrictIds(t.districts), SubdistrictIds(t.subdistricts))
  }

  /** The rows of a run on the latest date key. */
  function FactTableRows(t: Tables, dateKey: int): seq<FactRow> {
    var geo := VillageGeography(t.dimGeography);
    FactRows(ContextOf(t, dateKey), geo, |geo|)
  }

  /** `generate_fact_kpi` up to the file write: `None` when the period
      dimension has no week row; otherwise one finalised row per collected
      village row. */
  method GenerateFactKpi(t: Tables) returns (table: Option<seq<seq<real>>>)
    ensures LatestDateKey(t.dimPeriod).None? ==> table.None?
    ensures LatestDateKey(t.dimPeriod).Some? ==>
              var rows := FactTableRows(t, LatestDateKey(t.dimPeriod).value);
              table.Some? && |table.value| == |rows| &&
              forall i :: 0 <= i < |rows| ==> table.value[i] == FinalRow(rows[i])
  {
    var agg := CalculateGlobalAggregates(t.klus, t.outlets, t.coops, t.partnerships, t.domains);
    var latest := LatestDateKey(t.dimPeriod);
    if latest.None? {
      return None;
    }
    var districtIds := BuildLookup(t.districts, DistrictCodeOf, DistrictIdOf);
    var subdistrictIds := BuildLookup(t.subdistricts, SubdistrictCodeOf, SubdistrictIdOf);
    var geo := VillageGeography(t.dimGeography);
    var ctx := Context(t, agg, latest.value, districtIds, subdistrictIds);
    var rows := CollectFactRows(ctx, geo);
    var finalised := FinaliseTable(rows);
    table := Some(finalised);
  }
}
