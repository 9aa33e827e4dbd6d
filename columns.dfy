/** The columns of the FACT_KPI table, in the order the table is written,
    and the last step before writing: every expected column is present
    (missing ones hold 0), integer columns are truncated, and percentage
    columns are clipped to [0, 100]. */
module Columns {
  import opened Common
  import opened Ratios

  /** One constructor per output column, declared in output order. */
  datatype Column =
    DateKey | GeoKey | OutletId
    | BusinessPartnerServiceId | UpkdkId | KluId
    | TotalKoperasiTerdaftar | TotalKoperasiPerProvinsi | TotalKoperasiPerKabupatenKota
    | RataRataModalAwalKoperasi | TotalModalAwalKoperasi | RasioKoperasiBaruVsTotal
    | RasioPendaftaranMandiriVsPendamping | KoperasiPer10000PendudukDesa | TotalAnggotaKoperasi
    | RasioGenderAnggotaLP | RataRataSimpananPokokPerAnggota | RataRataSimpananWajibPerAnggota
    | RasioAnggotaDenganBICheckingLancar | TotalPengurusKoperasi | TotalPengawasKoperasi
    | RasioGenderPengurus | RatioStrukturJabatanLengkap | RataRataAnggotaPerKoperasi
    | TotalGeraiKoperasi | GeraiPerKoperasi | SebaranGeraiPerProvinsi
    | KomposisiTipeGerai | ColdStorageCoverage | OutletExpansionRate
    | TotalKLUTerdaftar | Top10KBLITerbanyak | DistribusiKLUPerProvinsi
    | ProporsiSektorUtama | RataRataKLUPerKoperasi | KluDiversificationIndex
    | TotalAplikasiKemitraan | VerifiedPartnershipRate | RejectedPartnershipRate
    | InProgressPartnershipRate | DistribusiJenisLayananKemitraan | PartnershipGrowthRate
    | KemitraanPerProvinsi | TotalUPKDKAktif | ProporsiJenisUPKDK
    | UpkdkDenganAksesInternet | KondisiBangunanUpkdkLayak | TotalDomainKoperasiTerdaftar
    | DomainKoperasiTerverifikasi | KoperasiPerDesa | JumlahPenggabunganDesa
    | GeoSpatialDataCompletenessScore | PersentaseGeraiDenganFotoTerunggah | DistribusiJenisGeraiKoperasi
    | RataRataWaktuProsesAplikasiKemitraan | PersentaseUpkdkDenganAksesAirListrikMemadai

  /** One fact row before finalisation: the cells the KPI calculators set. */
  type FactRow = map<Column, real>

  /** `expected_columns`: the output order. */
  const ExpectedColumns: seq<Column> := [
      DateKey, GeoKey, OutletId,
      BusinessPartnerServiceId, UpkdkId, KluId,
      TotalKoperasiTerdaftar, TotalKoperasiPerProvinsi, TotalKoperasiPerKabupatenKota,
      RataRataModalAwalKoperasi, TotalModalAwalKoperasi, RasioKoperasiBaruVsTotal,
      RasioPendaftaranMandiriVsPendamping, KoperasiPer10000PendudukDesa, TotalAnggotaKoperasi,
      RasioGenderAnggotaLP, RataRataSimpananPokokPerAnggota, RataRataSimpananWajibPerAnggota,
      RasioAnggotaDenganBICheckingLancar, TotalPengurusKoperasi, TotalPengawasKoperasi,
      RasioGenderPengurus, RatioStrukturJabatanLengkap, RataRataAnggotaPerKoperasi,
      TotalGeraiKoperasi, GeraiPerKoperasi, SebaranGeraiPerProvinsi,
      KomposisiTipeGerai, ColdStorageCoverage, OutletExpansionRate,
      TotalKLUTerdaftar, Top10KBLITerbanyak, DistribusiKLUPerProvinsi,
      ProporsiSektorUtama, RataRataKLUPerKoperasi, KluDiversificationIndex,
      TotalAplikasiKemitraan, VerifiedPartnershipRate, RejectedPartnershipRate,
      InProgressPartnershipRate, DistribusiJenisLayananKemitraan, PartnershipGrowthRate,
      KemitraanPerProvinsi, TotalUPKDKAktif, ProporsiJenisUPKDK,
      UpkdkDenganAksesInternet, KondisiBangunanUpkdkLayak, TotalDomainKoperasiTerdaftar,
      DomainKoperasiTerverifikasi, KoperasiPerDesa, JumlahPenggabunganDesa,
      GeoSpatialDataCompletenessScore, PersentaseGeraiDenganFotoTerunggah, DistribusiJenisGeraiKoperasi,
      RataRataWaktuProsesAplikasiKemitraan, PersentaseUpkdkDenganAksesAirListrikMemadai
  ]

  /** The SQL type a column is written as. */
  datatype SqlType = BigInt | Decimal18 | Decimal5

  /** `int_columns` (BIGINT), `dec_18_2_columns` (DECIMAL(18,2)) and
      `dec_5_4_columns` (DECIMAL(5,4)): every column is in exactly one list. */
  function TypeOf(c: Column): SqlType {
    match c
    case DateKey | GeoKey | OutletId
      | BusinessPartnerServiceId | UpkdkId | KluId
      | TotalKoperasiTerdaftar | TotalKoperasiPerProvinsi | TotalKoperasiPerKabupatenKota
      | TotalAnggotaKoperasi | TotalPengurusKoperasi | TotalPengawasKoperasi
      | RataRataAnggotaPerKoperasi | TotalGeraiKoperasi | SebaranGeraiPerProvinsi
      | TotalKLUTerdaftar | Top10KBLITerbanyak | DistribusiKLUPerProvinsi
      | TotalAplikasiKemitraan | DistribusiJenisLayananKemitraan | KemitraanPerProvinsi
      | TotalUPKDKAktif | TotalDomainKoperasiTerdaftar | JumlahPenggabunganDesa
        => BigInt
    case RataRataModalAwalKoperasi | TotalModalAwalKoperasi | RataRataSimpananPokokPerAnggota
      | RataRataSimpananWajibPerAnggota | GeraiPerKoperasi | RataRataKLUPerKoperasi
      | KoperasiPer10000PendudukDesa | KoperasiPerDesa | RataRataWaktuProsesAplikasiKemitraan
        => Decimal18
    case RasioKoperasiBaruVsTotal | RasioPendaftaranMandiriVsPendamping | RasioGenderAnggotaLP
      | RasioAnggotaDenganBICheckingLancar | RasioGenderPengurus | RatioStrukturJabatanLengkap
      | KomposisiTipeGerai | ColdStorageCoverage | OutletExpansionRate
      | ProporsiSektorUtama | KluDiversificationIndex | VerifiedPartnershipRate
      | RejectedPartnershipRate | InProgressPartnershipRate | PartnershipGrowthRate
      | ProporsiJenisUPKDK | UpkdkDenganAksesInternet | KondisiBangunanUpkdkLayak
      | DomainKoperasiTerverifikasi | GeoSpatialDataCompletenessScore | PersentaseGeraiDenganFotoTerunggah
      | DistribusiJenisGeraiKoperasi | PersentaseUpkdkDenganAksesAirListrikMemadai
        => Decimal5
  }

  /** The value of a column after the missing-column fill and `fillna(0)`. */
  function Filled(row: FactRow, c: Column): real {
    Get(row, c).GetOr(0.0)
  }

  /** The type conversion of one column: truncation for BIGINT columns,
      clipping for DECIMAL(5,4) columns, the value itself for DECIMAL(18,2)
      columns (rounding is not modelled). */
  function Converted(c: Column, v: real): real {
    match TypeOf(c)
    case BigInt => Truncate(v) as real
    case Decimal5 => Clamp(v, 0.0, 100.0)
    case Decimal18 => v
  }

  /** One output row: the converted cells in `expected_columns` order. */
  function FinalRow(row: FactRow): seq<real> {
    seq(|ExpectedColumns|, j requires 0 <= j < |ExpectedColumns| => Converted(ExpectedColumns[j], Filled(row, ExpectedColumns[j])))
  }

  /** Steps 7 and 8 of the fact generation: the frame of the collected rows,
      reordered to the expected columns, with the type conversions applied. */
  method FinaliseTable(rows: seq<FactRow>) returns (table: seq<seq<real>>)
    ensures |table| == |rows|
    ensures forall i :: 0 <= i < |rows| ==> table[i] == FinalRow(rows[i])
  {
    table := [];
    for i := 0 to |rows|
      invariant |table| == i
      invariant forall k :: 0 <= k < i ==> table[k] == FinalRow(rows[k])
    {
      var out: seq<real> := [];
      for j := 0 to |ExpectedColumns|
        invariant |out| == j
        invariant forall k :: 0 <= k < j ==> out[k] == Converted(ExpectedColumns[k], Filled(rows[i], ExpectedColumns[k]))
      {
        var c := ExpectedColumns[j];
        var v := if c in rows[i] then rows[i][c] else 0.0;
        if TypeOf(c) == BigInt {
          v := Truncate(v) as real;
        } else if TypeOf(c) == Decimal5 {
          v := Clamp(v, 0.0, 100.0);
        }
        out := out + [v];
      }
      table := table + [out];
    }
  }

  /** Every output cell comes from its column: a column the row does not
      set holds 0; a BIGINT cell is the truncated value, so a count keeps
      its value; a DECIMAL(5,4) cell
      lies in [0, 100] and keeps any value already in that range; a
      DECIMAL(18,2) cell keeps the value. */
  lemma FinalRowCell(row: FactRow, j: int)
    requires 0 <= j < |ExpectedColumns|
    ensures |FinalRow(row)| == 56
    ensures ExpectedColumns[j] !in row ==> FinalRow(row)[j] == 0.0
    ensures TypeOf(ExpectedColumns[j]) == BigInt ==>
              FinalRow(row)[j] == Truncate(Filled(row, ExpectedColumns[j])) as real
    ensures TypeOf(ExpectedColumns[j]) == BigInt && Filled(row, ExpectedColumns[j]) == Filled(row, ExpectedColumns[j]).Floor as real ==>
              FinalRow(row)[j] == Filled(row, ExpectedColumns[j])
    ensures TypeOf(ExpectedColumns[j]) == Decimal5 ==> 0.0 <= FinalRow(row)[j] <= 100.0
    ensures TypeOf(ExpectedColumns[j]) == Decimal5 && 0.0 <= Filled(row, ExpectedColumns[j]) <= 100.0 ==>
              FinalRow(row)[j] == Filled(row, ExpectedColumns[j])
    ensures TypeOf(ExpectedColumns[j]) == Decimal18 ==> FinalRow(row)[j] == Filled(row, ExpectedColumns[j])
  {
    var v := Filled(row, ExpectedColumns[j]);
    if v == v.Floor as real {
      TruncateIntegral(v.Floor);
    }
  }
}
