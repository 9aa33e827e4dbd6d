/** DIM_GEOGRAPHY: the four-level geography dimension (province, district,
    subdistrict, village) built from the reference tables. Each level is a
    loop that skips keys it has already recorded, drops children whose parent
    cannot be found, and appends one row per kept record with the next dense
    `geo_key`. Fields deeper than a row's own level stay `None`. */
module GeographyDimension {
  import opened Common
  import opened Records

  /** One row of DIM_GEOGRAPHY. The `...Id` fields hold codes. */
  datatype GeoRow = GeoRow(
    geoKey: int,
    provinceId: Option<string>,
    districtId: Option<string>,
    subdistrictId: Option<string>,
    villageId: Option<string>,
    provinceName: Option<string>,
    districtName: Option<string>,
    subdistrictName: Option<string>,
    villageName: Option<string>)
  {
    /** 1 for a province row up to 4 for a village row. */
    function Level(): int {
      if villageId.Some? then 4
      else if subdistrictId.Some? then 3
      else if districtId.Some? then 2
      else 1
    }

    /** The codes present form a prefix of the hierarchy, and no name is set
        below the row's own level. */
    predicate NullFilled() {
      provinceId.Some? &&
      (districtId.None? ==> subdistrictId.None? && districtName.None?) &&
      (subdistrictId.None? ==> villageId.None? && subdistrictName.None?) &&
      (villageId.None? ==> villageName.None?)
    }
  }

  // ---------------------------------------------------------------------------
  // Lookups
  // ---------------------------------------------------------------------------

  function ProvinceCode(p: Province): string { p.code }
  function ProvinceLabel(p: Province): string { p.name }
  function DistrictCode(d: District): string { d.code }
  function DistrictLabel(d: District): string { d.name }

  /** `province_map`, reduced to the name it is used for: code to the name of
      the last province row with that code. */
  function ProvinceMap(ps: seq<Province>): map<string, string> {
    ZipDict(ps, ProvinceCode, ProvinceLabel)
  }

  /** `district_map`, reduced to the name: code to the name of the last
      district row with that code. */
  function DistrictMap(ds: seq<District>): map<string, string> {
    ZipDict(ds, DistrictCode, DistrictLabel)
  }

  /** `districts[districts['code'] == code].iloc[0]`, if any. */
  function DistrictWithCode(ds: seq<District>, code: string): Option<District> {
    FirstWhere(ds, (d: District) => d.code == code)
  }

  /** `subdistricts[subdistricts['code'] == code].iloc[0]`, if any. */
  function SubdistrictWithCode(ss: seq<Subdistrict>, code: string): Option<Subdistrict> {
    FirstWhere(ss, (s: Subdistrict) => s.code == code)
  }

  /** The district lookup finds the first district with the code, if there is one. */
  lemma DistrictWithCodeFound(ds: seq<District>, code: string)
    ensures DistrictWithCode(ds, code).None? <==> forall i :: 0 <= i < |ds| ==> ds[i].code != code
    ensures DistrictWithCode(ds, code).Some? ==>
              exists i :: 0 <= i < |ds| && ds[i] == DistrictWithCode(ds, code).value && ds[i].code == code &&
                          forall j :: 0 <= j < i ==> ds[j].code != code
  {
    FirstWhereFound(ds, (d: District) => d.code == code);
  }

  /** The subdistrict lookup finds the first subdistrict with the code, if there is one. */
  lemma SubdistrictWithCodeFound(ss: seq<Subdistrict>, code: string)
    ensures SubdistrictWithCode(ss, code).None? <==> forall i :: 0 <= i < |ss| ==> ss[i].code != code
    ensures SubdistrictWithCode(ss, code).Some? ==>
              exists i :: 0 <= i < |ss| && ss[i] == SubdistrictWithCode(ss, code).value && ss[i].code == code &&
                          forall j :: 0 <= j < i ==> ss[j].code != code
  {
    FirstWhereFound(ss, (s: Subdistrict) => s.code == code);
  }

  /** Whether a subdistrict can be placed: some district has its district code. */
  predicate HasDistrict(ds: seq<District>, s: Subdistrict) {
    DistrictWithCode(ds, s.districtCode).Some?
  }

  /** Whether a village can be placed: its subdistrict exists and the first
      subdistrict with that code names a district that exists. */
  predicate HasParents(ds: seq<District>, ss: seq<Subdistrict>, v: Village) {
    var s := SubdistrictWithCode(ss, v.subdistrictCode);
    s.Some? && DistrictWithCode(ds, s.value.districtCode).Some?
  }

  /** The subdistrict and district a placeable village hangs under. */
  function ParentsOf(ds: seq<District>, ss: seq<Subdistrict>, v: Village): (Subdistrict, District)
    requires HasParents(ds, ss, v)
  {
    var s := SubdistrictWithCode(ss, v.subdistrictCode).value;
    (s, DistrictWithCode(ds, s.districtCode).value)
  }

  // ---------------------------------------------------------------------------
  // De-duplication keys and the records each level keeps
  // ---------------------------------------------------------------------------

  function DistrictKey(d: District): (string, string) { (d.provinceCode, d.code) }
  function SubdistrictKey(s: Subdistrict): (string, string) { (s.districtCode, s.code) }
  function VillageCode(v: Village): string { v.code }

  /** A province code is emitted once, at its first occurrence (dict key order). */
  predicate ProvinceKept(ps: seq<Province>, i: int) {
    FirstOccurrence(ps, ProvinceCode, i)
  }

  /** A district is emitted at the first occurrence of its key, whatever its province. */
  predicate DistrictKept(ds: seq<District>, i: int) {
    FirstOccurrence(ds, DistrictKey, i)
  }

  /** A subdistrict is emitted at the first occurrence of its key if its district exists. */
  predicate SubdistrictKept(ds: seq<District>, ss: seq<Subdistrict>, i: int) {
    FirstOccurrence(ss, SubdistrictKey, i) && HasDistrict(ds, ss[i])
  }

  /** A village is emitted at the first occurrence of its code if that
      occurrence has parents; later duplicates are skipped either way. */
  predicate VillageKept(ds: seq<District>, ss: seq<Subdistrict>, vs: seq<Village>, i: int) {
    FirstOccurrence(vs, VillageCode, i) && HasParents(ds, ss, vs[i])
  }

  // ---------------------------------------------------------------------------
  // Row builders
  // ---------------------------------------------------------------------------

  function ProvinceRow(key: int, pm: map<string, string>, p: Province): GeoRow {
    GeoRow(key, Some(p.code), None, None, None, Get(pm, p.code), None, None, None)
  }

  function DistrictRow(key: int, pm: map<string, string>, d: District): GeoRow {
    GeoRow(key, Some(d.provinceCode), Some(d.code), None, None,
           Get(pm, d.provinceCode), Some(d.name), None, None)
  }

  /** `d` is the first district with the subdistrict's district code. */
  function SubdistrictRow(key: int, pm: map<string, string>, dm: map<string, string>,
                          s: Subdistrict, d: District): GeoRow {
    GeoRow(key, Some(d.provinceCode), Some(s.districtCode), Some(s.code), None,
           Get(pm, d.provinceCode), Get(dm, s.districtCode), Some(s.name), None)
  }

  /** `parents` are the first subdistrict with the village's subdistrict code
      and the first district with that subdistrict's district code. */
  function VillageRow(key: int, pm: map<string, string>, dm: map<string, string>,
                      v: Village, parents: (Subdistrict, District)): GeoRow {
    var (s, d) := parents;
    GeoRow(key, Some(d.provinceCode), Some(s.districtCode), Some(v.subdistrictCode), Some(v.code),
           Get(pm, d.provinceCode), Get(dm, s.districtCode), Some(s.name), Some(v.name))
  }

  // ---------------------------------------------------------------------------
  // The rows of each level over the first n input records
  // ---------------------------------------------------------------------------

  function ProvinceRows(pm: map<string, string>, ps: seq<Province>, n: nat, firstKey: int): seq<GeoRow>
    requires n <= |ps|
  {
    if n == 0 then []
    else
      var prev := ProvinceRows(pm, ps, n - 1, firstKey);
      if ProvinceKept(ps, n - 1) then prev + [ProvinceRow(firstKey + |prev|, pm, ps[n - 1])]
      else prev
  }

  function DistrictRows(pm: map<string, string>, ds: seq<District>, n: nat, firstKey: int): seq<GeoRow>
    requires n <= |ds|
  {
    if n == 0 then []
    else
      var prev := DistrictRows(pm, ds, n - 1, firstKey);
      if DistrictKept(ds, n - 1) then prev + [DistrictRow(firstKey + |prev|, pm, ds[n - 1])]
      else prev
  }

  function SubdistrictRows(pm: map<string, string>, dm: map<string, string>, ds: seq<District>,
                           ss: seq<Subdistrict>, n: nat, firstKey: int): seq<GeoRow>
    requires n <= |ss|
  {
    if n == 0 then []
    else
      var prev := SubdistrictRows(pm, dm, ds, ss, n - 1, firstKey);
      if SubdistrictKept(ds, ss, n - 1) then
        prev + [SubdistrictRow(firstKey + |prev|, pm, dm, ss[n - 1], DistrictWithCode(ds, ss[n - 1].districtCode).value)]
      else prev
  }

  function VillageRows(pm: map<string, string>, dm: map<string, string>, ds: seq<District>,
                       ss: seq<Subdistrict>, vs: seq<Village>, n: nat, firstKey: int): seq<GeoRow>
    requires n <= |vs|
  {
    if n == 0 then []
    else
      var prev := VillageRows(pm, dm, ds, ss, vs, n - 1, firstKey);
      if VillageKept(ds, ss, vs, n - 1) then
        prev + [VillageRow(firstKey + |prev|, pm, dm, vs[n - 1], ParentsOf(ds, ss, vs[n - 1]))]
      else prev
  }

  /** Province, district and subdistrict rows, with `geo_key` from 1. */
  function UpperLevels(ps: seq<Province>, ds: seq<District>, ss: seq<Subdistrict>): seq<GeoRow> {
    var pm := ProvinceMap(ps);
    var p := ProvinceRows(pm, ps, |ps|, 1);
    var d := DistrictRows(pm, ds, |ds|, 1 + |p|);
    var s := SubdistrictRows(pm, DistrictMap(ds), ds, ss, |ss|, 1 + |p| + |d|);
    p + d + s
  }

  /** The whole dimension: provinces, then districts, subdistricts and
      villages, with `geo_key` counting from 1 across the levels. */
  function DimGeography(ps: seq<Province>, ds: seq<District>, ss: seq<Subdistrict>,
                        vs: seq<Village>): seq<GeoRow>
  {
    var upper := UpperLevels(ps, ds, ss);
    upper + VillageRows(ProvinceMap(ps), DistrictMap(ds), ds, ss, vs, |vs|, 1 + |upper|)
  }

  // ---------------------------------------------------------------------------
  // The builder (generate_dim_geography)
  // ---------------------------------------------------------------------------

  method GenerateProvinceRows(pm: map<string, string>, ps: seq<Province>, firstKey: int)
    returns (rows: seq<GeoRow>, nextKey: int)
    ensures rows == ProvinceRows(pm, ps, |ps|, firstKey)
    ensures nextKey == firstKey + |rows|
  {
    rows := [];
    nextKey := firstKey;
    var processed: set<string> := {};
    for i := 0 to |ps|
      invariant rows == ProvinceRows(pm, ps, i, firstKey)
      invariant nextKey == firstKey + |rows|
      invariant processed == KeysBefore(ps, ProvinceCode, i)
    {
      var code := ProvinceCode(ps[i]);
      ProcessedStep(ps, ProvinceCode, i);
      if code !in processed {
        processed := processed + {code};
        rows := rows + [ProvinceRow(nextKey, pm, ps[i])];
        nextKey := nextKey + 1;
      }
    }
  }

  method GenerateDistrictRows(pm: map<string, string>, ds: seq<District>, firstKey: int)
    returns (rows: seq<GeoRow>, nextKey: int)
    ensures rows == DistrictRows(pm, ds, |ds|, firstKey)
    ensures nextKey == firstKey + |rows|
  {
    rows := [];
    nextKey := firstKey;
    var processed: set<(string, string)> := {};
    for i := 0 to |ds|
      invariant rows == DistrictRows(pm, ds, i, firstKey)
      invariant nextKey == firstKey + |rows|
      invariant processed == KeysBefore(ds, DistrictKey, i)
    {
      var key := DistrictKey(ds[i]);
      ProcessedStep(ds, DistrictKey, i);
      if key !in processed {
        processed := processed + {key};
        rows := rows + [DistrictRow(nextKey, pm, ds[i])];
        nextKey := nextKey + 1;
      }
    }
  }

  method GenerateSubdistrictRows(pm: map<string, string>, dm: map<string, string>, ds: seq<District>,
                                 ss: seq<Subdistrict>, firstKey: int)
    returns (rows: seq<GeoRow>, nextKey: int)
    ensures rows == SubdistrictRows(pm, dm, ds, ss, |ss|, firstKey)
    ensures nextKey == firstKey + |rows|
  {
    rows := [];
    nextKey := firstKey;
    var processed: set<(string, string)> := {};
    for i := 0 to |ss|
      invariant rows == SubdistrictRows(pm, dm, ds, ss, i, firstKey)
      invariant nextKey == firstKey + |rows|
      invariant processed == KeysBefore(ss, SubdistrictKey, i)
    {
      var key := SubdistrictKey(ss[i]);
      ProcessedStep(ss, SubdistrictKey, i);
      if key !in processed {
        processed := processed + {key};
        var districtInfo := DistrictWithCode(ds, ss[i].districtCode);
        if districtInfo.Some? {
          rows := rows + [SubdistrictRow(nextKey, pm, dm, ss[i], districtInfo.value)];
          nextKey := nextKey + 1;
        }
      }
    }
  }

  method GenerateVillageRows(pm: map<string, string>, dm: map<string, string>, ds: seq<District>,
                             ss: seq<Subdistrict>, vs: seq<Village>, firstKey: int)
    returns (rows: seq<GeoRow>, nextKey: int)
    ensures rows == VillageRows(pm, dm, ds, ss, vs, |vs|, firstKey)
    ensures nextKey == firstKey + |rows|
  {
    rows := [];
    nextKey := firstKey;
    var processed: set<string> := {};
    for i := 0 to |vs|
      invariant rows == VillageRows(pm, dm, ds, ss, vs, i, firstKey)
      invariant nextKey == firstKey + |rows|
      invariant processed == KeysBefore(vs, VillageCode, i)
    {
      var code := VillageCode(vs[i]);
      ProcessedStep(vs, VillageCode, i);
      if code !in processed {
        processed := processed + {code};
        var subdistrictInfo := SubdistrictWithCode(ss, vs[i].subdistrictCode);
        if subdistrictInfo.Some? {
          var districtInfo := DistrictWithCode(ds, subdistrictInfo.value.districtCode);
          if districtInfo.Some? {
            rows := rows + [VillageRow(nextKey, pm, dm, vs[i], (subdistrictInfo.value, districtInfo.value))];
            nextKey := nextKey + 1;
          }
        }
      }
    }
  }

  method GenerateUpperLevels(pm: map<string, string>, dm: map<string, string>, ps: seq<Province>,
                             ds: seq<District>, ss: seq<Subdistrict>)
    returns (rows: seq<GeoRow>, nextKey: int)
    requires pm == ProvinceMap(ps) && dm == DistrictMap(ds)
    ensures rows == UpperLevels(ps, ds, ss)
    ensures nextKey == 1 + |rows|
  {
    var p, k1 := GenerateProvinceRows(pm, ps, 1);
    var d, k2 := GenerateDistrictRows(pm, ds, k1);
    var s, k3 := GenerateSubdistrictRows(pm, dm, ds, ss, k2);
    rows := p + d + s;
    nextKey := k3;
  }

  /** `generate_dim_geography`: build the name maps, then run the four level
      loops in sequence, sharing the `geo_key` counter, which starts at 1. */
  method GenerateDimGeography(ps: seq<Province>, ds: seq<District>, ss: seq<Subdistrict>, vs: seq<Village>)
    returns (rows: seq<GeoRow>)
    ensures rows == DimGeography(ps, ds, ss, vs)
  {
    var provinceMap := ProvinceMap(ps);
    var districtMap := DistrictMap(ds);
    var upper, nextKey := GenerateUpperLevels(provinceMap, districtMap, ps, ds, ss);
    var v, k4 := GenerateVillageRows(provinceMap, districtMap, ds, ss, vs, nextKey);
    rows := upper + v;
  }


  // ---------------------------------------------------------------------------
  // Each level emits exactly its kept records, in input order, numbered densely
  // from its first key, and never the same key twice.
  // ---------------------------------------------------------------------------

  /** Row `k` of `rows` is the row of some kept record among the first `n`, keyed `firstKey + k`. */
  ghost predicate ProvinceProvenance(pm: map<string, string>, ps: seq<Province>, n: nat, firstKey: int, rows: seq<GeoRow>)
    requires n <= |ps|
  {
    forall k :: 0 <= k < |rows| ==>
      exists i :: 0 <= i < n && ProvinceKept(ps, i) && rows[k] == ProvinceRow(firstKey + k, pm, ps[i])
  }

  /** Every kept record among the first `n` has its row in `rows`. */
  ghost predicate ProvinceCompleteness(pm: map<string, string>, ps: seq<Province>, n: nat, firstKey: int, rows: seq<GeoRow>)
    requires n <= |ps|
  {
    forall i :: 0 <= i < n && ProvinceKept(ps, i) ==>
      exists k :: 0 <= k < |rows| && rows[k] == ProvinceRow(firstKey + k, pm, ps[i])
  }

  /** No two rows share the province code. */
  ghost predicate ProvinceKeysUnique(rows: seq<GeoRow>) {
    forall a, b :: 0 <= a < b < |rows| ==> rows[a].provinceId != rows[b].provinceId
  }

  lemma {:induction false} ProvinceRowsFrom(pm: map<string, string>, ps: seq<Province>, n: nat, firstKey: int)
    requires n <= |ps|
    ensures ProvinceProvenance(pm, ps, n, firstKey, ProvinceRows(pm, ps, n, firstKey))
  {
    if n > 0 {
      var prev := ProvinceRows(pm, ps, n - 1, firstKey);
      var rows := ProvinceRows(pm, ps, n, firstKey);
      if ProvinceKept(ps, n - 1) {
        assert rows == prev + [ProvinceRow(firstKey + |prev|, pm, ps[n - 1])];
      } else {
        assert rows == prev;
      }
      forall k | 0 <= k < |rows|
        ensures exists i :: 0 <= i < n && ProvinceKept(ps, i) && rows[k] == ProvinceRow(firstKey + k, pm, ps[i])
      {
        if k < |prev| {
          assert rows[k] == prev[k];
          ProvinceRowsFrom(pm, ps, n - 1, firstKey);
          var i :| 0 <= i < n - 1 && ProvinceKept(ps, i) && prev[k] == ProvinceRow(firstKey + k, pm, ps[i]);
          assert 0 <= i < n && ProvinceKept(ps, i) && rows[k] == ProvinceRow(firstKey + k, pm, ps[i]);
        } else {
          assert ProvinceKept(ps, n - 1) && rows[k] == ProvinceRow(firstKey + k, pm, ps[n - 1]);
        }
      }
      assert ProvinceProvenance(pm, ps, n, firstKey, rows);
    } else {
      assert ProvinceRows(pm, ps, n, firstKey) == [];
    }
  }

  lemma {:induction false} ProvinceRowsComplete(pm: map<string, string>, ps: seq<Province>, n: nat, firstKey: int)
    requires n <= |ps|
    ensures ProvinceCompleteness(pm, ps, n, firstKey, ProvinceRows(pm, ps, n, firstKey))
  {
    forall i | 0 <= i < n && ProvinceKept(ps, i)
      ensures exists k :: 0 <= k < |ProvinceRows(pm, ps, n, firstKey)| && ProvinceRows(pm, ps, n, firstKey)[k] == ProvinceRow(firstKey + k, pm, ps[i])
    {
      ProvinceRowAt(pm, ps, n, firstKey, i);
    }
  }

  /** The row of kept record `i` is among the rows of the first `n` records. */
  lemma {:induction false} ProvinceRowAt(pm: map<string, string>, ps: seq<Province>, n: nat, firstKey: int, i: nat)
    requires i < n <= |ps| && ProvinceKept(ps, i)
    ensures exists k :: 0 <= k < |ProvinceRows(pm, ps, n, firstKey)| && ProvinceRows(pm, ps, n, firstKey)[k] == ProvinceRow(firstKey + k, pm, ps[i])
  {
    var prev := ProvinceRows(pm, ps, n - 1, firstKey);
    var rows := ProvinceRows(pm, ps, n, firstKey);
    if i == n - 1 {
      assert rows == prev + [ProvinceRow(firstKey + |prev|, pm, ps[n - 1])];
      assert rows[|prev|] == ProvinceRow(firstKey + |prev|, pm, ps[i]);
    } else {
      ProvinceRowAt(pm, ps, n - 1, firstKey, i);
      var k :| 0 <= k < |prev| && prev[k] == ProvinceRow(firstKey + k, pm, ps[i]);
      if ProvinceKept(ps, n - 1) {
        assert rows == prev + [ProvinceRow(firstKey + |prev|, pm, ps[n - 1])];
      } else {
        assert rows == prev;
      }
      assert rows[k] == prev[k];
    }
  }

  lemma {:induction false} ProvinceRowsUnique(pm: map<string, string>, ps: seq<Province>, n: nat, firstKey: int)
    requires n <= |ps|
    ensures ProvinceKeysUnique(ProvinceRows(pm, ps, n, firstKey))
  {
    if n > 0 {
      var prev := ProvinceRows(pm, ps, n - 1, firstKey);
      var rows := ProvinceRows(pm, ps, n, firstKey);
      if ProvinceKept(ps, n - 1) {
        assert rows == prev + [ProvinceRow(firstKey + |prev|, pm, ps[n - 1])];
      } else {
        assert rows == prev;
      }
      forall a, b | 0 <= a < b < |rows| ensures rows[a].provinceId != rows[b].provinceId {
        assert rows[a] == prev[a];
        if b < |prev| {
          ProvinceRowsUnique(pm, ps, n - 1, firstKey);
          assert rows[b] == prev[b];
        } else {
          ProvinceRowsFrom(pm, ps, n - 1, firstKey);
          var i :| 0 <= i < n - 1 && ProvinceKept(ps, i) && prev[a] == ProvinceRow(firstKey + a, pm, ps[i]);
          assert ProvinceCode(ps[i]) != ProvinceCode(ps[n - 1]);
        }
      }
      assert ProvinceKeysUnique(rows);
    } else {
      assert ProvinceRows(pm, ps, n, firstKey) == [];
    }
  }

  /** Row `k` of `rows` is the row of some kept record among the first `n`, keyed `firstKey + k`. */
  ghost predicate DistrictProvenance(pm: map<string, string>, ds: seq<District>, n: nat, firstKey: int, rows: seq<GeoRow>)
    requires n <= |ds|
  {
    forall k :: 0 <= k < |rows| ==>
      exists i :: 0 <= i < n && DistrictKept(ds, i) && rows[k] == DistrictRow(firstKey + k, pm, ds[i])
  }

  /** Every kept record among the first `n` has its row in `rows`. */
  ghost predicate DistrictCompleteness(pm: map<string, string>, ds: seq<District>, n: nat, firstKey: int, rows: seq<GeoRow>)
    requires n <= |ds|
  {
    forall i :: 0 <= i < n && DistrictKept(ds, i) ==>
      exists k :: 0 <= k < |rows| && rows[k] == DistrictRow(firstKey + k, pm, ds[i])
  }

  /** No two rows share the (province code, district code) pair. */
  ghost predicate DistrictKeysUnique(rows: seq<GeoRow>) {
    forall a, b :: 0 <= a < b < |rows| ==> (rows[a].provinceId, rows[a].districtId) != (rows[b].provinceId, rows[b].districtId)
  }

  lemma {:induction false} DistrictRowsFrom(pm: map<string, string>, ds: seq<District>, n: nat, firstKey: int)
    requires n <= |ds|
    ensures DistrictProvenance(pm, ds, n, firstKey, DistrictRows(pm, ds, n, firstKey))
  {
    if n > 0 {
      var prev := DistrictRows(pm, ds, n - 1, firstKey);
      var rows := DistrictRows(pm, ds, n, firstKey);
      if DistrictKept(ds, n - 1) {
        assert rows == prev + [DistrictRow(firstKey + |prev|, pm, ds[n - 1])];
      } else {
        assert rows == prev;
      }
      forall k | 0 <= k < |rows|
        ensures exists i :: 0 <= i < n && DistrictKept(ds, i) && rows[k] == DistrictRow(firstKey + k, pm, ds[i])
      {
        if k < |prev| {
          assert rows[k] == prev[k];
          DistrictRowsFrom(pm, ds, n - 1, firstKey);
          var i :| 0 <= i < n - 1 && DistrictKept(ds, i) && prev[k] == DistrictRow(firstKey + k, pm, ds[i]);
          assert 0 <= i < n && DistrictKept(ds, i) && rows[k] == DistrictRow(firstKey + k, pm, ds[i]);
        } else {
          assert DistrictKept(ds, n - 1) && rows[k] == DistrictRow(firstKey + k, pm, ds[n - 1]);
        }
      }
      assert DistrictProvenance(pm, ds, n, firstKey, rows);
    } else {
      assert DistrictRows(pm, ds, n, firstKey) == [];
    }
  }

  lemma {:induction false} DistrictRowsComplete(pm: map<string, string>, ds: seq<District>, n: nat, firstKey: int)
    requires n <= |ds|
    ensures DistrictCompleteness(pm, ds, n, firstKey, DistrictRows(pm, ds, n, firstKey))
  {
    forall i | 0 <= i < n && DistrictKept(ds, i)
      ensures exists k :: 0 <= k < |DistrictRows(pm, ds, n, firstKey)| && DistrictRows(pm, ds, n, firstKey)[k] == DistrictRow(firstKey + k, pm, ds[i])
    {
      DistrictRowAt(pm, ds, n, firstKey, i);
    }
  }

  /** The row of kept record `i` is among the rows of the first `n` records. */
  lemma {:induction false} DistrictRowAt(pm: map<string, string>, ds: seq<District>, n: nat, firstKey: int, i: nat)
    requires i < n <= |ds| && DistrictKept(ds, i)
    ensures exists k :: 0 <= k < |DistrictRows(pm, ds, n, firstKey)| && DistrictRows(pm, ds, n, firstKey)[k] == DistrictRow(firstKey + k, pm, ds[i])
  {
    var prev := DistrictRows(pm, ds, n - 1, firstKey);
    var rows := DistrictRows(pm, ds, n, firstKey);
    if i == n - 1 {
      assert rows == prev + [DistrictRow(firstKey + |prev|, pm, ds[n - 1])];
      assert rows[|prev|] == DistrictRow(firstKey + |prev|, pm, ds[i]);
    } else {
      DistrictRowAt(pm, ds, n - 1, firstKey, i);
      var k :| 0 <= k < |prev| && prev[k] == DistrictRow(firstKey + k, pm, ds[i]);
      if DistrictKept(ds, n - 1) {
        assert rows == prev + [DistrictRow(firstKey + |prev|, pm, ds[n - 1])];
      } else {
        assert rows == prev;
      }
      assert rows[k] == prev[k];
    }
  }

  lemma {:induction false} DistrictRowsUnique(pm: map<string, string>, ds: seq<District>, n: nat, firstKey: int)
    requires n <= |ds|
    ensures DistrictKeysUnique(DistrictRows(pm, ds, n, firstKey))
  {
    if n > 0 {
      var prev := DistrictRows(pm, ds, n - 1, firstKey);
      var rows := DistrictRows(pm, ds, n, firstKey);
      if DistrictKept(ds, n - 1) {
        assert rows == prev + [DistrictRow(firstKey + |prev|, pm, ds[n - 1])];
      } else {
        assert rows == prev;
      }
      forall a, b | 0 <= a < b < |rows| ensures (rows[a].provinceId, rows[a].districtId) != (rows[b].provinceId, rows[b].districtId) {
        assert rows[a] == prev[a];
        if b < |prev| {
          DistrictRowsUnique(pm, ds, n - 1, firstKey);
          assert rows[b] == prev[b];
        } else {
          DistrictRowsFrom(pm, ds, n - 1, firstKey);
          var i :| 0 <= i < n - 1 && DistrictKept(ds, i) && prev[a] == DistrictRow(firstKey + a, pm, ds[i]);
          assert DistrictKey(ds[i]) != DistrictKey(ds[n - 1]);
        }
      }
      assert DistrictKeysUnique(rows);
    } else {
      assert DistrictRows(pm, ds, n, firstKey) == [];
    }
  }

  /** Row `k` of `rows` is the row of some kept record among the first `n`, keyed `firstKey + k`. */
  ghost predicate SubdistrictProvenance(pm: map<string, string>, dm: map<string, string>, ds: seq<District>,
    ss: seq<Subdistrict>, n: nat, firstKey: int, rows: seq<GeoRow>)
    requires n <= |ss|
  {
    forall k :: 0 <= k < |rows| ==> SubdistrictSource(pm, dm, ds, ss, n, firstKey + k, rows[k])
  }

  /** `r` is the row, keyed `key`, of some kept record among the first `n`. */
  ghost predicate SubdistrictSource(pm: map<string, string>, dm: map<string, string>, ds: seq<District>,
    ss: seq<Subdistrict>, n: nat, key: int, r: GeoRow)
    requires n <= |ss|
  {
    exists i :: 0 <= i < n && SubdistrictKept(ds, ss, i) && r == SubdistrictRow(key, pm, dm, ss[i], DistrictWithCode(ds, ss[i].districtCode).value)
  }

  /** Every kept record among the first `n` has its row in `rows`. */
  ghost predicate SubdistrictCompleteness(pm: map<string, string>, dm: map<string, string>, ds: seq<District>,
    ss: seq<Subdistrict>, n: nat, firstKey: int, rows: seq<GeoRow>)
    requires n <= |ss|
  {
    forall i :: 0 <= i < n && SubdistrictKept(ds, ss, i) ==>
      exists k :: 0 <= k < |rows| && rows[k] == SubdistrictRow(firstKey + k, pm, dm, ss[i], DistrictWithCode(ds, ss[i].districtCode).value)
  }

  /** No two rows share the (district code, subdistrict code) pair. */
  ghost predicate SubdistrictKeysUnique(rows: seq<GeoRow>) {
    forall a, b :: 0 <= a < b < |rows| ==> (rows[a].districtId, rows[a].subdistrictId) != (rows[b].districtId, rows[b].subdistrictId)
  }

  lemma {:induction false} SubdistrictRowsFrom(pm: map<string, string>, dm: map<string, string>, ds: seq<District>,
    ss: seq<Subdistrict>, n: nat, firstKey: int)
    requires n <= |ss|
    ensures SubdistrictProvenance(pm, dm, ds, ss, n, firstKey, SubdistrictRows(pm, dm, ds, ss, n, firstKey))
  {
    if n > 0 {
      var prev := SubdistrictRows(pm, dm, ds, ss, n - 1, firstKey);
      SubdistrictRowsFrom(pm, dm, ds, ss, n - 1, firstKey);
      SubdistrictRowsStep(pm, dm, ds, ss, n, firstKey);
      if SubdistrictKept(ds, ss, n - 1) {
        SubdistrictProvenanceExtend(pm, dm, ds, ss, n, firstKey, prev);
      } else {
        SubdistrictProvenanceWiden(pm, dm, ds, ss, n, firstKey, prev);
      }
    } else {
      assert SubdistrictRows(pm, dm, ds, ss, n, firstKey) == [];
    }
  }

  /** One more record adds its row exactly when it is kept. */
  lemma SubdistrictRowsStep(pm: map<string, string>, dm: map<string, string>, ds: seq<District>,
    ss: seq<Subdistrict>, n: nat, firstKey: int)
    requires 0 < n <= |ss|
    ensures var prev := SubdistrictRows(pm, dm, ds, ss, n - 1, firstKey);
      SubdistrictRows(pm, dm, ds, ss, n, firstKey) ==
        if SubdistrictKept(ds, ss, n - 1)
        then prev + [SubdistrictRow(firstKey + |prev|, pm, dm, ss[n - 1], DistrictWithCode(ds, ss[n - 1].districtCode).value)]
        else prev
  {
  }

  /** Appending the row of kept record `n - 1` keeps the provenance. */
  lemma SubdistrictProvenanceExtend(pm: map<string, string>, dm: map<string, string>, ds: seq<District>,
    ss: seq<Subdistrict>, n: nat, firstKey: int, prev: seq<GeoRow>)
    requires 0 < n <= |ss| && SubdistrictKept(ds, ss, n - 1)
    requires SubdistrictProvenance(pm, dm, ds, ss, n - 1, firstKey, prev)
    ensures SubdistrictProvenance(pm, dm, ds, ss, n, firstKey, prev + [SubdistrictRow(firstKey + |prev|, pm, dm, ss[n - 1], DistrictWithCode(ds, ss[n - 1].districtCode).value)])
  {
    var rows := prev + [SubdistrictRow(firstKey + |prev|, pm, dm, ss[n - 1], DistrictWithCode(ds, ss[n - 1].districtCode).value)];
    forall k | 0 <= k < |rows|
      ensures SubdistrictSource(pm, dm, ds, ss, n, firstKey + k, rows[k])
    {
      if k < |prev| {
        assert SubdistrictSource(pm, dm, ds, ss, n - 1, firstKey + k, prev[k]);
        var i :| 0 <= i < n - 1 && SubdistrictKept(ds, ss, i) && prev[k] == SubdistrictRow(firstKey + k, pm, dm, ss[i], DistrictWithCode(ds, ss[i].districtCode).value);
        assert rows[k] == prev[k];
      } else {
        assert rows[k] == SubdistrictRow(firstKey + k, pm, dm, ss[n - 1], DistrictWithCode(ds, ss[n - 1].districtCode).value);
      }
    }
    assert SubdistrictProvenance(pm, dm, ds, ss, n, firstKey, rows);
  }

  /** Reading one more record without a row keeps the provenance. */
  lemma SubdistrictProvenanceWiden(pm: map<string, string>, dm: map<string, string>, ds: seq<District>,
    ss: seq<Subdistrict>, n: nat, firstKey: int, rows: seq<GeoRow>)
    requires 0 < n <= |ss|
    requires SubdistrictProvenance(pm, dm, ds, ss, n - 1, firstKey, rows)
    ensures SubdistrictProvenance(pm, dm, ds, ss, n, firstKey, rows)
  {
    forall k | 0 <= k < |rows|
      ensures SubdistrictSource(pm, dm, ds, ss, n, firstKey + k, rows[k])
    {
      assert SubdistrictSource(pm, dm, ds, ss, n - 1, firstKey + k, rows[k]);
      var i :| 0 <= i < n - 1 && SubdistrictKept(ds, ss, i) && rows[k] == SubdistrictRow(firstKey + k, pm, dm, ss[i], DistrictWithCode(ds, ss[i].districtCode).value);
      assert 0 <= i < n;
    }
  }

  lemma {:induction false} SubdistrictRowsComplete(pm: map<string, string>, dm: map<string, string>, ds: seq<District>,
    ss: seq<Subdistrict>, n: nat, firstKey: int)
    requires n <= |ss|
    ensures SubdistrictCompleteness(pm, dm, ds, ss, n, firstKey, SubdistrictRows(pm, dm, ds, ss, n, firstKey))
  {
    forall i | 0 <= i < n && SubdistrictKept(ds, ss, i)
      ensures exists k :: 0 <= k < |SubdistrictRows(pm, dm, ds, ss, n, firstKey)| && SubdistrictRows(pm, dm, ds, ss, n, firstKey)[k] == SubdistrictRow(firstKey + k, pm, dm, ss[i], DistrictWithCode(ds, ss[i].districtCode).value)
    {
      SubdistrictRowAt(pm, dm, ds, ss, n, firstKey, i);
    }
  }

  /** The row of kept record `i` is among the rows of the first `n` records. */
  lemma {:induction false} SubdistrictRowAt(pm: map<string, string>, dm: map<string, string>, ds: seq<District>,
    ss: seq<Subdistrict>, n: nat, firstKey: int, i: nat)
    requires i < n <= |ss| && SubdistrictKept(ds, ss, i)
    ensures exists k :: 0 <= k < |SubdistrictRows(pm, dm, ds, ss, n, firstKey)| && SubdistrictRows(pm, dm, ds, ss, n, firstKey)[k] == SubdistrictRow(firstKey + k, pm, dm, ss[i], DistrictWithCode(ds, ss[i].districtCode).value)
  {
    var prev := SubdistrictRows(pm, dm, ds, ss, n - 1, firstKey);
    var rows := SubdistrictRows(pm, dm, ds, ss, n, firstKey);
    if i == n - 1 {
      assert rows == prev + [SubdistrictRow(firstKey + |prev|, pm, dm, ss[n - 1], DistrictWithCode(ds, ss[n - 1].districtCode).value)];
      assert rows[|prev|] == SubdistrictRow(firstKey + |prev|, pm, dm, ss[i], DistrictWithCode(ds, ss[i].districtCode).value);
    } else {
      SubdistrictRowAt(pm, dm, ds, ss, n - 1, firstKey, i);
      var k :| 0 <= k < |prev| && prev[k] == SubdistrictRow(firstKey + k, pm, dm, ss[i], DistrictWithCode(ds, ss[i].districtCode).value);
      if SubdistrictKept(ds, ss, n - 1) {
        assert rows == prev + [SubdistrictRow(firstKey + |prev|, pm, dm, ss[n - 1], DistrictWithCode(ds, ss[n - 1].districtCode).value)];
      } else {
        assert rows == prev;
      }
      assert rows[k] == prev[k];
    }
  }

  lemma {:induction false} SubdistrictRowsUnique(pm: map<string, string>, dm: map<string, string>, ds: seq<District>,
    ss: seq<Subdistrict>, n: nat, firstKey: int)
    requires n <= |ss|
    ensures SubdistrictKeysUnique(SubdistrictRows(pm, dm, ds, ss, n, firstKey))
  {
    if n > 0 {
      var prev := SubdistrictRows(pm, dm, ds, ss, n - 1, firstKey);
      var rows := SubdistrictRows(pm, dm, ds, ss, n, firstKey);
      if SubdistrictKept(ds, ss, n - 1) {
        assert rows == prev + [SubdistrictRow(firstKey + |prev|, pm, dm, ss[n - 1], DistrictWithCode(ds, ss[n - 1].districtCode).value)];
      } else {
        assert rows == prev;
      }
      forall a, b | 0 <= a < b < |rows| ensures (rows[a].districtId, rows[a].subdistrictId) != (rows[b].districtId, rows[b].subdistrictId) {
        assert rows[a] == prev[a];
        if b < |prev| {
          SubdistrictRowsUnique(pm, dm, ds, ss, n - 1, firstKey);
          assert rows[b] == prev[b];
        } else {
          SubdistrictRowsFrom(pm, dm, ds, ss, n - 1, firstKey);
          var i :| 0 <= i < n - 1 && SubdistrictKept(ds, ss, i) && prev[a] == SubdistrictRow(firstKey + a, pm, dm, ss[i], DistrictWithCode(ds, ss[i].districtCode).value);
          assert SubdistrictKey(ss[i]) != SubdistrictKey(ss[n - 1]);
        }
      }
      assert SubdistrictKeysUnique(rows);
    } else {
      assert SubdistrictRows(pm, dm, ds, ss, n, firstKey) == [];
    }
  }

  /** Row `k` of `rows` is the row of some kept record among the first `n`, keyed `firstKey + k`. */
  ghost predicate VillageProvenance(pm: map<string, string>, dm: map<string, string>, ds: seq<District>,
    ss: seq<Subdistrict>, vs: seq<Village>, n: nat, firstKey: int, rows: seq<GeoRow>)
    requires n <= |vs|
  {
    forall k :: 0 <= k < |rows| ==>
      exists i :: 0 <= i < n && VillageKept(ds, ss, vs, i) && rows[k] == VillageRow(firstKey + k, pm, dm, vs[i], ParentsOf(ds, ss, vs[i]))
  }

  /** Every kept record among the first `n` has its row in `rows`. */
  ghost predicate VillageCompleteness(pm: map<string, string>, dm: map<string, string>, ds: seq<District>,
    ss: seq<Subdistrict>, vs: seq<Village>, n: nat, firstKey: int, rows: seq<GeoRow>)
    requires n <= |vs|
  {
    forall i :: 0 <= i < n && VillageKept(ds, ss, vs, i) ==>
      exists k :: 0 <= k < |rows| && rows[k] == VillageRow(firstKey + k, pm, dm, vs[i], ParentsOf(ds, ss, vs[i]))
  }

  /** No two rows share the village code. */
  ghost predicate VillageKeysUnique(rows: seq<GeoRow>) {
    forall a, b :: 0 <= a < b < |rows| ==> rows[a].villageId != rows[b].villageId
  }

  lemma {:induction false} VillageRowsFrom(pm: map<string, string>, dm: map<string, string>, ds: seq<District>,
    ss: seq<Subdistrict>, vs: seq<Village>, n: nat, firstKey: int)
    requires n <= |vs|
    ensures VillageProvenance(pm, dm, ds, ss, vs, n, firstKey, VillageRows(pm, dm, ds, ss, vs, n, firstKey))
  {
    if n > 0 {
      var prev := VillageRows(pm, dm, ds, ss, vs, n - 1, firstKey);
      var rows := VillageRows(pm, dm, ds, ss, vs, n, firstKey);
      if VillageKept(ds, ss, vs, n - 1) {
        assert rows == prev + [VillageRow(firstKey + |prev|, pm, dm, vs[n - 1], ParentsOf(ds, ss, vs[n - 1]))];
      } else {
        assert rows == prev;
      }
      forall k | 0 <= k < |rows|
        ensures exists i :: 0 <= i < n && VillageKept(ds, ss, vs, i) && rows[k] == VillageRow(firstKey + k, pm, dm, vs[i], ParentsOf(ds, ss, vs[i]))
      {
        if k < |prev| {
          assert rows[k] == prev[k];
          VillageRowsFrom(pm, dm, ds, ss, vs, n - 1, firstKey);
          var i :| 0 <= i < n - 1 && VillageKept(ds, ss, vs, i) && prev[k] == VillageRow(firstKey + k, pm, dm, vs[i], ParentsOf(ds, ss, vs[i]));
          assert 0 <= i < n && VillageKept(ds, ss, vs, i) && rows[k] == VillageRow(firstKey + k, pm, dm, vs[i], ParentsOf(ds, ss, vs[i]));
        } else {
          assert VillageKept(ds, ss, vs, n - 1) && rows[k] == VillageRow(firstKey + k, pm, dm, vs[n - 1], ParentsOf(ds, ss, vs[n - 1]));
        }
      }
      assert VillageProvenance(pm, dm, ds, ss, vs, n, firstKey, rows);
    } else {
      assert VillageRows(pm, dm, ds, ss, vs, n, firstKey) == [];
    }
  }

  lemma {:induction false} VillageRowsComplete(pm: map<string, string>, dm: map<string, string>, ds: seq<District>,
    ss: seq<Subdistrict>, vs: seq<Village>, n: nat, firstKey: int)
    requires n <= |vs|
    ensures VillageCompleteness(pm, dm, ds, ss, vs, n, firstKey, VillageRows(pm, dm, ds, ss, vs, n, firstKey))
  {
    forall i | 0 <= i < n && VillageKept(ds, ss, vs, i)
      ensures exists k :: 0 <= k < |VillageRows(pm, dm, ds, ss, vs, n, firstKey)| && VillageRows(pm, dm, ds, ss, vs, n, firstKey)[k] == VillageRow(firstKey + k, pm, dm, vs[i], ParentsOf(ds, ss, vs[i]))
    {
      VillageRowAt(pm, dm, ds, ss, vs, n, firstKey, i);
    }
  }

  /** The row of kept record `i` is among the rows of the first `n` records. */
  lemma {:induction false} VillageRowAt(pm: map<string, string>, dm: map<string, string>, ds: seq<District>,
    ss: seq<Subdistrict>, vs: seq<Village>, n: nat, firstKey: int, i: nat)
    requires i < n <= |vs| && VillageKept(ds, ss, vs, i)
    ensures exists k :: 0 <= k < |VillageRows(pm, dm, ds, ss, vs, n, firstKey)| && VillageRows(pm, dm, ds, ss, vs, n, firstKey)[k] == VillageRow(firstKey + k, pm, dm, vs[i], ParentsOf(ds, ss, vs[i]))
  {
    var prev := VillageRows(pm, dm, ds, ss, vs, n - 1, firstKey);
    var rows := VillageRows(pm, dm, ds, ss, vs, n, firstKey);
    if i == n - 1 {
      assert rows == prev + [VillageRow(firstKey + |prev|, pm, dm, vs[n - 1], ParentsOf(ds, ss, vs[n - 1]))];
      assert rows[|prev|] == VillageRow(firstKey + |prev|, pm, dm, vs[i], ParentsOf(ds, ss, vs[i]));
    } else {
      VillageRowAt(pm, dm, ds, ss, vs, n - 1, firstKey, i);
      var k :| 0 <= k < |prev| && prev[k] == VillageRow(firstKey + k, pm, dm, vs[i], ParentsOf(ds, ss, vs[i]));
      if VillageKept(ds, ss, vs, n - 1) {
        assert rows == prev + [VillageRow(firstKey + |prev|, pm, dm, vs[n - 1], ParentsOf(ds, ss, vs[n - 1]))];
      } else {
        assert rows == prev;
      }
      assert rows[k] == prev[k];
    }
  }

  lemma {:induction false} VillageRowsUnique(pm: map<string, string>, dm: map<string, string>, ds: seq<District>,
    ss: seq<Subdistrict>, vs: seq<Village>, n: nat, firstKey: int)
    requires n <= |vs|
    ensures VillageKeysUnique(VillageRows(pm, dm, ds, ss, vs, n, firstKey))
  {
    if n > 0 {
      var prev := VillageRows(pm, dm, ds, ss, vs, n - 1, firstKey);
      var rows := VillageRows(pm, dm, ds, ss, vs, n, firstKey);
      if VillageKept(ds, ss, vs, n - 1) {
        assert rows == prev + [VillageRow(firstKey + |prev|, pm, dm, vs[n - 1], ParentsOf(ds, ss, vs[n - 1]))];
      } else {
        assert rows == prev;
      }
      forall a, b | 0 <= a < b < |rows| ensures rows[a].villageId != rows[b].villageId {
        assert rows[a] == prev[a];
        if b < |prev| {
          VillageRowsUnique(pm, dm, ds, ss, vs, n - 1, firstKey);
          assert rows[b] == prev[b];
        } else {
          VillageRowsFrom(pm, dm, ds, ss, vs, n - 1, firstKey);
          var i :| 0 <= i < n - 1 && VillageKept(ds, ss, vs, i) && prev[a] == VillageRow(firstKey + a, pm, dm, vs[i], ParentsOf(ds, ss, vs[i]));
          assert VillageCode(vs[i]) != VillageCode(vs[n - 1]);
        }
      }
      assert VillageKeysUnique(rows);
    } else {
      assert VillageRows(pm, dm, ds, ss, vs, n, firstKey) == [];
    }
  }
}
