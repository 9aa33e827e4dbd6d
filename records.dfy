/** The input tables, one record type per CSV source, with only the columns
    the dimension builders and the KPI calculators read. Codes (`"11.05"`,
    `"11.05.07"`) are strings; internal ids are integers. A cell that pandas
    may read as missing (NaN) is an `Option`; text cells compared with a
    literal are plain strings, where a missing cell simply never matches. */
module Records {
  import opened Common

  // ---------------------------------------------------------------------------
  // Reference geography (provinces.csv, districts.csv, subdistricts.csv, villages.csv)
  // ---------------------------------------------------------------------------

  datatype Province = Province(code: string, provinceId: int, name: string)

  datatype District = District(districtId: int, code: string, provinceCode: string, name: string)

  datatype Subdistrict = Subdistrict(subdistrictId: int, code: string, districtCode: string, name: string)

  /** `villages.csv`. The same `code` may appear under several `villageId`s.
      The population columns are coerced with `pd.to_numeric(errors='coerce')`,
      so an unparsable cell is `None`. */
  datatype Village = Village(
    villageId: int,
    code: string,
    subdistrictCode: string,
    name: string,
    totalU17: Option<real>,
    totalA17: Option<real>)

  // ---------------------------------------------------------------------------
  // Cooperative sources
  // ---------------------------------------------------------------------------

  /** `cooperative.csv`. `provinceId` is compared with the province code of a
      geography row; `capital` is coerced to a number, missing meaning NaN. */
  datatype Cooperative = Cooperative(
    cooperativeId: int,
    villageId: int,
    provinceId: string,
    districtId: int,
    subdistrictId: int,
    capital: Option<real>,
    registrationType: string,
    fillingMethod: string,
    longitude: Option<string>,
    latitude: Option<string>,
    address: Option<string>)

  /** `cooperative_members.csv`. */
  datatype Member = Member(
    cooperativeId: int,
    gender: string,
    principalSaving: Option<real>,
    mandatorySaving: Option<real>,
    biChecking: string)

  /** `cooperative_management.csv`. */
  datatype Manager = Manager(cooperativeId: int, role: string, gender: string)

  /** `cooperative_outlets.csv`. Only whether `primary_image` is present matters. */
  datatype Outlet = Outlet(
    outletId: int,
    cooperativeId: int,
    hasPrimaryImage: bool,
    cooperativeTypeId: Option<int>)

  /** `cooperative_klus.csv`: one business classification (KLU) of a cooperative. */
  datatype CooperativeKlu = CooperativeKlu(cooperativeId: int, kluId: int)

  /** `dim_klu.csv`: the sector of a KLU; several rows may share a `kluId`. */
  datatype KluSector = KluSector(kluId: int, sector: Option<string>)

  /** `business_partnership_applications.csv`. `durationHours` is
      `(updated_at - created_at)` in hours and `createdMonth` the month of
      `created_at` as an ordered key; either is `None` when a timestamp
      does not parse. */
  datatype Partnership = Partnership(
    cooperativeId: int,
    serviceId: int,
    status: string,
    durationHours: Option<real>,
    createdMonth: Option<int>)

  /** `upkdk.csv`: a village service unit. */
  datatype Upkdk = Upkdk(
    upkdkId: int,
    villageId: int,
    unitType: Option<string>,
    internetAccess: string,
    buildingCondition: string,
    waterElectricity: string,
    longitude: Option<string>,
    latitude: Option<string>,
    address: Option<string>)

  /** `domains.csv`. */
  datatype Domain = Domain(verificationStatus: string)

  /** `cooperative_village_mergers.csv`. */
  datatype VillageMerger = VillageMerger(villageId: int)
}
