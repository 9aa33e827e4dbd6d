/** What DIM_GEOGRAPHY looks like as a whole: dense keys from 1, every row
    null-filled below its level, levels in order, and which input records
    get a row at each level. */
module GeographyFacts {
  import opened Common
  import opened Records
  import opened GeographyDimension

  // ---------------------------------------------------------------------------
  // Shape of the dimension
  // ---------------------------------------------------------------------------

  /** Rows keyed densely from `firstKey`, all of level `level`, all null-filled. */
  ghost predicate Layer(rows: seq<GeoRow>, firstKey: int, level: int) {
    forall k :: 0 <= k < |rows| ==>
      rows[k].geoKey == firstKey + k && rows[k].Level() == level && rows[k].NullFilled()
  }

  /** Rows keyed densely from `firstKey`, null-filled, with levels between
      `lo` and `hi` that never decrease along the sequence. */
  ghost predicate Layered(rows: seq<GeoRow>, firstKey: int, lo: int, hi: int) {
    (forall k :: 0 <= k < |rows| ==>
       rows[k].geoKey == firstKey + k && lo <= rows[k].Level() <= hi && rows[k].NullFilled()) &&
    (forall a, b :: 0 <= a <= b < |rows| ==> rows[a].Level() <= rows[b].Level())
  }

  lemma ProvinceLayer(pm: map<string, string>, ps: seq<Province>, firstKey: int)
    ensures Layer(ProvinceRows(pm, ps, |ps|, firstKey), firstKey, 1)
  {
    ProvinceRowsFrom(pm, ps, |ps|, firstKey);
  }

  lemma DistrictLayer(pm: map<string, string>, ds: seq<District>, firstKey: int)
    ensures Layer(DistrictRows(pm, ds, |ds|, firstKey), firstKey, 2)
  {
    DistrictRowsFrom(pm, ds, |ds|, firstKey);
  }

  lemma SubdistrictLayer(pm: map<string, string>, dm: map<string, string>, ds: seq<District>,
                         ss: seq<Subdistrict>, firstKey: int)
    ensures Layer(SubdistrictRows(pm, dm, ds, ss, |ss|, firstKey), firstKey, 3)
  {
    SubdistrictRowsFrom(pm, dm, ds, ss, |ss|, firstKey);
  }

  lemma VillageLayer(pm: map<string, string>, dm: map<string, string>, ds: seq<District>,
                     ss: seq<Subdistrict>, vs: seq<Village>, firstKey: int)
    ensures Layer(VillageRows(pm, dm, ds, ss, vs, |vs|, firstKey), firstKey, 4)
  {
    VillageRowsFrom(pm, dm, ds, ss, vs, |vs|, firstKey);
  }

  lemma LayerIsLayered(rows: seq<GeoRow>, firstKey: int, level: int)
    requires Layer(rows, firstKey, level)
    ensures Layered(rows, firstKey, level, level)
  {
  }

  /** Two layered blocks, the second keyed on from the first and not below it,
      form one layered block. */
  lemma LayeredConcat(a: seq<GeoRow>, b: seq<GeoRow>, firstKey: int, lo1: int, hi1: int, lo2: int, hi2: int)
    requires Layered(a, firstKey, lo1, hi1) && Layered(b, firstKey + |a|, lo2, hi2)
    requires lo1 <= hi1 <= lo2 <= hi2
    ensures Layered(a + b, firstKey, lo1, hi2)
  {
    var ab := a + b;
    forall k | 0 <= k < |ab|
      ensures ab[k].geoKey == firstKey + k && lo1 <= ab[k].Level() <= hi2 && ab[k].NullFilled()
    {
      if k < |a| {
        assert ab[k] == a[k];
      } else {
        assert ab[k] == b[k - |a|];
      }
    }
    forall x, y | 0 <= x <= y < |ab| ensures ab[x].Level() <= ab[y].Level() {
      if y < |a| {
        assert ab[x] == a[x] && ab[y] == a[y];
      } else if x >= |a| {
        assert ab[x] == b[x - |a|] && ab[y] == b[y - |a|];
      } else {
        assert ab[x] == a[x] && ab[y] == b[y - |a|];
      }
    }
  }

  lemma UpperLevelsLayered(ps: seq<Province>, ds: seq<District>, ss: seq<Subdistrict>)
    ensures Layered(UpperLevels(ps, ds, ss), 1, 1, 3)
  {
    var pm := ProvinceMap(ps);
    var p := ProvinceRows(pm, ps, |ps|, 1);
    var d := DistrictRows(pm, ds, |ds|, 1 + |p|);
    var s := SubdistrictRows(pm, DistrictMap(ds), ds, ss, |ss|, 1 + |p| + |d|);
    ProvinceLayer(pm, ps, 1);
    LayerIsLayered(p, 1, 1);
    DistrictLayer(pm, ds, 1 + |p|);
    LayerIsLayered(d, 1 + |p|, 2);
    SubdistrictLayer(pm, DistrictMap(ds), ds, ss, 1 + |p| + |d|);
    LayerIsLayered(s, 1 + |p| + |d|, 3);
    LayeredConcat(p, d, 1, 1, 1, 2, 2);
    assert |p + d| == |p| + |d|;
    LayeredConcat(p + d, s, 1, 1, 2, 3, 3);
  }

  /** `geo_key` runs 1, 2, 3, ... over the whole dimension; every row is
      null-filled below its level; provinces come first, then districts,
      subdistricts and villages. */
  lemma DimGeographyShape(ps: seq<Province>, ds: seq<District>, ss: seq<Subdistrict>, vs: seq<Village>)
    ensures var g := DimGeography(ps, ds, ss, vs);
            forall k :: 0 <= k < |g| ==> g[k].geoKey == k + 1 && g[k].NullFilled() && 1 <= g[k].Level() <= 4
    ensures var g := DimGeography(ps, ds, ss, vs);
            forall a, b :: 0 <= a <= b < |g| ==> g[a].Level() <= g[b].Level()
  {
    var upper := UpperLevels(ps, ds, ss);
    var v := VillageRows(ProvinceMap(ps), DistrictMap(ds), ds, ss, vs, |vs|, 1 + |upper|);
    UpperLevelsLayered(ps, ds, ss);
    VillageLayer(ProvinceMap(ps), DistrictMap(ds), ds, ss, vs, 1 + |upper|);
    LayerIsLayered(v, 1 + |upper|, 4);
    LayeredConcat(upper, v, 1, 1, 3, 4, 4);
  }

  // ---------------------------------------------------------------------------
  // Which records get a row
  // ---------------------------------------------------------------------------

  /** Some row carries this (province code, district code) pair. */
  ghost predicate HasDistrictRow(rows: seq<GeoRow>, provinceCode: string, code: string) {
    exists k :: 0 <= k < |rows| && rows[k].provinceId == Some(provinceCode) && rows[k].districtId == Some(code)
  }

  /** Some row carries this (district code, subdistrict code) pair. */
  ghost predicate HasSubdistrictRow(rows: seq<GeoRow>, districtCode: string, code: string) {
    exists k :: 0 <= k < |rows| && rows[k].districtId == Some(districtCode) && rows[k].subdistrictId == Some(code)
  }

  /** Some row carries this village code. */
  ghost predicate HasVillageRow(rows: seq<GeoRow>, code: string) {
    exists k :: 0 <= k < |rows| && rows[k].villageId == Some(code)
  }

  /** Every (province code, district code) pair gets a district row, whether
      or not a province with that code exists. */
  lemma DistrictRowsCoverEveryKey(pm: map<string, string>, ds: seq<District>, firstKey: int, i: int)
    requires 0 <= i < |ds|
    ensures HasDistrictRow(DistrictRows(pm, ds, |ds|, firstKey), ds[i].provinceCode, ds[i].code)
  {
    var rows := DistrictRows(pm, ds, |ds|, firstKey);
    FirstOccurrenceExists(ds, DistrictKey, i);
    var j :| 0 <= j <= i && FirstOccurrence(ds, DistrictKey, j) && DistrictKey(ds[j]) == DistrictKey(ds[i]);
    assert DistrictKept(ds, j);
    assert ds[j].provinceCode == ds[i].provinceCode && ds[j].code == ds[i].code;
    DistrictRowsComplete(pm, ds, |ds|, firstKey);
    var k :| 0 <= k < |rows| && rows[k] == DistrictRow(firstKey + k, pm, ds[j]);
    assert rows[k].provinceId == Some(ds[i].provinceCode) && rows[k].districtId == Some(ds[i].code);
    assert HasDistrictRow(rows, ds[i].provinceCode, ds[i].code);
  }

  /** A subdistrict whose district exists has a row for its key. */
  lemma SubdistrictRowFor(pm: map<string, string>, dm: map<string, string>, ds: seq<District>,
                          ss: seq<Subdistrict>, firstKey: int, i: int)
    requires 0 <= i < |ss| && HasDistrict(ds, ss[i])
    ensures HasSubdistrictRow(SubdistrictRows(pm, dm, ds, ss, |ss|, firstKey), ss[i].districtCode, ss[i].code)
  {
    var rows := SubdistrictRows(pm, dm, ds, ss, |ss|, firstKey);
    FirstOccurrenceExists(ss, SubdistrictKey, i);
    var j :| 0 <= j <= i && FirstOccurrence(ss, SubdistrictKey, j) && SubdistrictKey(ss[j]) == SubdistrictKey(ss[i]);
    assert ss[j].districtCode == ss[i].districtCode && ss[j].code == ss[i].code;
    assert SubdistrictKept(ds, ss, j);
    SubdistrictRowsComplete(pm, dm, ds, ss, |ss|, firstKey);
    var k :| 0 <= k < |rows| &&
             rows[k] == SubdistrictRow(firstKey + k, pm, dm, ss[j], DistrictWithCode(ds, ss[j].districtCode).value);
    assert rows[k].districtId == Some(ss[i].districtCode) && rows[k].subdistrictId == Some(ss[i].code);
    assert HasSubdistrictRow(rows, ss[i].districtCode, ss[i].code);
  }

  /** Every subdistrict row's district code is the code of some district. */
  lemma SubdistrictRowHasDistrict(pm: map<string, string>, dm: map<string, string>, ds: seq<District>,
                                  ss: seq<Subdistrict>, firstKey: int, k: int)
    requires 0 <= k < |SubdistrictRows(pm, dm, ds, ss, |ss|, firstKey)|
    ensures var r := SubdistrictRows(pm, dm, ds, ss, |ss|, firstKey)[k];
            exists j :: 0 <= j < |ds| && r.districtId == Some(ds[j].code)
  {
    var rows := SubdistrictRows(pm, dm, ds, ss, |ss|, firstKey);
    SubdistrictRowsFrom(pm, dm, ds, ss, |ss|, firstKey);
    assert SubdistrictSource(pm, dm, ds, ss, |ss|, firstKey + k, rows[k]);
    var i :| 0 <= i < |ss| && SubdistrictKept(ds, ss, i) &&
             rows[k] == SubdistrictRow(firstKey + k, pm, dm, ss[i], DistrictWithCode(ds, ss[i].districtCode).value);
    DistrictWithCodeFound(ds, ss[i].districtCode);
  }

  /** A (district code, subdistrict code) pair gets a subdistrict row exactly
      when some district has that district code. */
  lemma SubdistrictRowsPlaced(pm: map<string, string>, dm: map<string, string>, ds: seq<District>,
                              ss: seq<Subdistrict>, firstKey: int, i: int)
    requires 0 <= i < |ss|
    ensures HasSubdistrictRow(SubdistrictRows(pm, dm, ds, ss, |ss|, firstKey), ss[i].districtCode, ss[i].code)
            <==> (exists j :: 0 <= j < |ds| && ds[j].code == ss[i].districtCode)
  {
    var rows := SubdistrictRows(pm, dm, ds, ss, |ss|, firstKey);
    if exists j :: 0 <= j < |ds| && ds[j].code == ss[i].districtCode {
      DistrictWithCodeFound(ds, ss[i].districtCode);
      SubdistrictRowFor(pm, dm, ds, ss, firstKey, i);
    }
    if HasSubdistrictRow(rows, ss[i].districtCode, ss[i].code) {
      var k :| 0 <= k < |rows| &&
               rows[k].districtId == Some(ss[i].districtCode) && rows[k].subdistrictId == Some(ss[i].code);
      SubdistrictRowHasDistrict(pm, dm, ds, ss, firstKey, k);
    }
  }

  /** Every village row belongs to the first village with its code, and that
      village can be placed. */
  lemma VillageRowOrigin(pm: map<string, string>, dm: map<string, string>, ds: seq<District>,
                         ss: seq<Subdistrict>, vs: seq<Village>, firstKey: int, k: int)
    requires 0 <= k < |VillageRows(pm, dm, ds, ss, vs, |vs|, firstKey)|
    ensures var r := VillageRows(pm, dm, ds, ss, vs, |vs|, firstKey)[k];
            exists j :: FirstOccurrence(vs, VillageCode, j) && r.villageId == Some(vs[j].code) &&
                        HasParents(ds, ss, vs[j])
  {
    var rows := VillageRows(pm, dm, ds, ss, vs, |vs|, firstKey);
    VillageRowsFrom(pm, dm, ds, ss, vs, |vs|, firstKey);
    var j :| 0 <= j < |vs| && VillageKept(ds, ss, vs, j) &&
             rows[k] == VillageRow(firstKey + k, pm, dm, vs[j], ParentsOf(ds, ss, vs[j]));
    assert rows[k].villageId == Some(vs[j].code);
  }

  /** A village code gets a village row exactly when the FIRST village with
      that code can be placed: a later duplicate is skipped even when the
      first one was dropped for a missing parent. */
  lemma VillageRowsPlaced(pm: map<string, string>, dm: map<string, string>, ds: seq<District>,
                          ss: seq<Subdistrict>, vs: seq<Village>, firstKey: int, i: int)
    requires 0 <= i < |vs|
    ensures HasVillageRow(VillageRows(pm, dm, ds, ss, vs, |vs|, firstKey), vs[i].code)
            <==> (exists j :: FirstOccurrence(vs, VillageCode, j) && vs[j].code == vs[i].code &&
                              HasParents(ds, ss, vs[j]))
  {
    var rows := VillageRows(pm, dm, ds, ss, vs, |vs|, firstKey);
    if exists j :: FirstOccurrence(vs, VillageCode, j) && vs[j].code == vs[i].code && HasParents(ds, ss, vs[j]) {
      var j :| FirstOccurrence(vs, VillageCode, j) && vs[j].code == vs[i].code && HasParents(ds, ss, vs[j]);
      assert VillageKept(ds, ss, vs, j);
      VillageRowsComplete(pm, dm, ds, ss, vs, |vs|, firstKey);
      var k :| 0 <= k < |rows| && rows[k] == VillageRow(firstKey + k, pm, dm, vs[j], ParentsOf(ds, ss, vs[j]));
      assert rows[k].villageId == Some(vs[i].code);
      assert HasVillageRow(rows, vs[i].code);
    }
    if HasVillageRow(rows, vs[i].code) {
      var k :| 0 <= k < |rows| && rows[k].villageId == Some(vs[i].code);
      VillageRowOrigin(pm, dm, ds, ss, vs, firstKey, k);
    }
  }

  // ---------------------------------------------------------------------------
  // Names
  // ---------------------------------------------------------------------------

  /** A row's province name is missing exactly when no province has its
      province code, and otherwise is the name of the last province with it. */
  lemma ProvinceNameLookup(ps: seq<Province>, code: string)
    ensures Get(ProvinceMap(ps), code).None? <==> forall j :: 0 <= j < |ps| ==> ps[j].code != code
    ensures Get(ProvinceMap(ps), code).Some? ==>
              exists j :: 0 <= j < |ps| && ps[j].code == code && ps[j].name == Get(ProvinceMap(ps), code).value &&
                          forall l :: j < l < |ps| ==> ps[l].code != code
  {
    ZipDictFacts(ps, ProvinceCode, ProvinceLabel, code);
  }

  /** Likewise for district names, looked up by the district code. */
  lemma DistrictNameLookup(ds: seq<District>, code: string)
    ensures Get(DistrictMap(ds), code).None? <==> forall j :: 0 <= j < |ds| ==> ds[j].code != code
    ensures Get(DistrictMap(ds), code).Some? ==>
              exists j :: 0 <= j < |ds| && ds[j].code == code && ds[j].name == Get(DistrictMap(ds), code).value &&
                          forall l :: j < l < |ds| ==> ds[l].code != code
  {
    ZipDictFacts(ds, DistrictCode, DistrictLabel, code);
  }
}
