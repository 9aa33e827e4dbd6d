/** The version number of the output file `FACT_KPI_V<nnn>.csv`: one more
    than the largest version already present among the result directory's
    file names, or 1 when there is none. The directory listing is a
    parameter (a sequence of base names). */
module Versioning {
  import opened Common

  const Prefix: string := "FACT_KPI_V"
  const Suffix: string := ".csv"

  /** The glob `FACT_KPI_V*.csv`: the prefix, anything, then the suffix. */
  predicate MatchesPattern(name: string) {
    |name| >= |Prefix| + |Suffix| &&
    name[..|Prefix|] == Prefix && name[|name| - |Suffix|..] == Suffix
  }

  /** `s.replace(pat, "")`: every occurrence of `pat`, scanning left to right
      without overlaps, is removed. */
  function RemoveAll(s: string, pat: string): string
    requires |pat| > 0
    decreases |s|
  {
    if |s| < |pat| then s
    else if s[..|pat|] == pat then RemoveAll(s[|pat|..], pat)
    else [s[0]] + RemoveAll(s[1..], pat)
  }

  predicate IsDigit(c: char) { '0' <= c <= '9' }

  predicate AllDigits(s: string) { forall i :: 0 <= i < |s| ==> IsDigit(s[i]) }

  /** The decimal value of a string of digits; leading zeros are allowed. */
  function DigitsValue(s: string): nat
    requires AllDigits(s)
  {
    if s == [] then 0
    else DigitsValue(s[..|s| - 1]) * 10 + ((s[|s| - 1] as int) - ('0' as int))
  }

  /** `int(s)` on a non-empty string of decimal digits; anything else raises
      `ValueError`, here `None`. */
  function ParseInt(s: string): Option<nat> {
    if |s| > 0 && AllDigits(s) then Some(DigitsValue(s)) else None
  }

  /** The version a file name carries: prefix and suffix removed, then parsed. */
  function VersionOf(name: string): Option<nat> {
    ParseInt(RemoveAll(RemoveAll(name, Prefix), Suffix))
  }

  /** `glob.glob(pattern)`: the listed names that match, in listing order. */
  function Existing(files: seq<string>): seq<string> {
    Filter(files, MatchesPattern)
  }

  /** The `versions` list built from the matched names: the parsed version of
      each, in order; names that do not parse are skipped. */
  function ParsedVersions(names: seq<string>): seq<nat> {
    if names == [] then []
    else
      var rest := ParsedVersions(names[..|names| - 1]);
      var v := VersionOf(names[|names| - 1]);
      if v.Some? then rest + [v.value] else rest
  }

  function Versions(files: seq<string>): seq<nat> {
    ParsedVersions(Existing(files))
  }

  function MaxOf(xs: seq<nat>): nat
    requires xs != []
  {
    if |xs| == 1 then xs[0]
    else
      var m := MaxOf(xs[1..]);
      if xs[0] >= m then xs[0] else m
  }

  /** `max(versions) + 1 if versions else 1`. */
  function NextVersion(files: seq<string>): nat {
    var vs := Versions(files);
    if vs == [] then 1 else MaxOf(vs) + 1
  }

  /** `get_next_version_number`, over the directory listing. */
  method GetNextVersionNumber(files: seq<string>) returns (next: nat)
    ensures next == NextVersion(files)
  {
    var existing := Existing(files);
    if existing == [] {
      return 1;
    }
    var versions: seq<nat> := [];
    for i := 0 to |existing|
      invariant versions == ParsedVersions(existing[..i])
    {
      assert existing[..i + 1][..i] == existing[..i];
      var versionStr := RemoveAll(RemoveAll(existing[i], Prefix), Suffix);
      var parsed := ParseInt(versionStr);
      if parsed.Some? {
        versions := versions + [parsed.value];
      }
    }
    assert existing[..|existing|] == existing;
    if versions == [] {
      next := 1;
    } else {
      next := MaxOf(versions) + 1;
    }
  }

  // ---------------------------------------------------------------------------
  // The output file name
  // ---------------------------------------------------------------------------

  /** The decimal digits of `v`, without leading zeros. */
  function Digits(v: nat): string {
    if v < 10 then [('0' as int + v) as char]
    else Digits(v / 10) + [('0' as int + v % 10) as char]
  }

  /** Left-pads a digit string with zeros to width 3. */
  function ZeroPad3(d: string): string {
    if |d| >= 3 then d else "000"[..3 - |d|] + d
  }

  /** `f"{v:03d}"`: the digits of `v`, left-padded with zeros to width 3. */
  function Pad3(v: nat): string {
    ZeroPad3(Digits(v))
  }

  /** `f"{OUTPUT_FILE_PREFIX}{version:03d}.csv"`. */
  function OutputFileName(v: nat): string {
    Prefix + Pad3(v) + Suffix
  }

  // ---------------------------------------------------------------------------
  // Properties
  // ---------------------------------------------------------------------------

  lemma {:induction false} MaxOfFacts(xs: seq<nat>)
    requires xs != []
    ensures forall i :: 0 <= i < |xs| ==> xs[i] <= MaxOf(xs)
    ensures exists i :: 0 <= i < |xs| && xs[i] == MaxOf(xs)
  {
    if |xs| > 1 {
      MaxOfFacts(xs[1..]);
      var j :| 0 <= j < |xs[1..]| && xs[1..][j] == MaxOf(xs[1..]);
      assert xs[j + 1] == xs[1..][j];
      forall i | 1 <= i < |xs| ensures xs[i] <= MaxOf(xs) {
        assert xs[i] == xs[1..][i - 1];
      }
      if xs[0] >= MaxOf(xs[1..]) {
        assert xs[0] == MaxOf(xs);
      } else {
        assert xs[j + 1] == MaxOf(xs);
      }
    } else {
      assert xs[0] == MaxOf(xs);
    }
  }

  lemma {:induction false} ParsedVersionsFacts(names: seq<string>, v: int)
    ensures v in ParsedVersions(names) <==> exists i :: 0 <= i < |names| && VersionOf(names[i]) == Some(v)
  {
    if names != [] {
      var init := names[..|names| - 1];
      ParsedVersionsFacts(init, v);
      forall i | 0 <= i < |init| ensures init[i] == names[i] { }
    }
  }

  /** A version is collected exactly when some matching file name parses to it. */
  lemma VersionsAreParsed(files: seq<string>, v: int)
    ensures v in Versions(files) <==>
              exists i :: 0 <= i < |files| && MatchesPattern(files[i]) && VersionOf(files[i]) == Some(v)
  {
    var e := Existing(files);
    ParsedVersionsFacts(e, v);
    if exists i :: 0 <= i < |files| && MatchesPattern(files[i]) && VersionOf(files[i]) == Some(v) {
      var i :| 0 <= i < |files| && MatchesPattern(files[i]) && VersionOf(files[i]) == Some(v);
      assert files[i] in e;
      var k :| 0 <= k < |e| && e[k] == files[i];
    }
    if v in Versions(files) {
      var k :| 0 <= k < |e| && VersionOf(e[k]) == Some(v);
      assert e[k] in files && MatchesPattern(e[k]);
      var i :| 0 <= i < |files| && files[i] == e[k];
    }
  }

  /** The next version is greater than every version already present. */
  lemma NextVersionExceedsExisting(files: seq<string>, i: int)
    requires 0 <= i < |files| && MatchesPattern(files[i]) && VersionOf(files[i]).Some?
    ensures NextVersion(files) > VersionOf(files[i]).value
  {
    VersionsAreParsed(files, VersionOf(files[i]).value);
    var vs := Versions(files);
    MaxOfFacts(vs);
  }

  /** The next version is 1 exactly when no matching file name parses to a
      positive version; otherwise it is one more than some present version. */
  lemma NextVersionCases(files: seq<string>)
    ensures NextVersion(files) >= 1
    ensures NextVersion(files) == 1 <==>
              forall i :: 0 <= i < |files| && MatchesPattern(files[i]) && VersionOf(files[i]).Some? ==>
                VersionOf(files[i]).value == 0
    ensures NextVersion(files) > 1 ==>
              exists i :: 0 <= i < |files| && MatchesPattern(files[i]) && VersionOf(files[i]) == Some(NextVersion(files) - 1)
  {
    var vs := Versions(files);
    if vs != [] {
      MaxOfFacts(vs);
      var j :| 0 <= j < |vs| && vs[j] == MaxOf(vs);
      VersionsAreParsed(files, vs[j]);
      forall i | 0 <= i < |files| && MatchesPattern(files[i]) && VersionOf(files[i]).Some?
        ensures VersionOf(files[i]).value <= MaxOf(vs)
      {
        VersionsAreParsed(files, VersionOf(files[i]).value);
      }
      var i :| 0 <= i < |files| && MatchesPattern(files[i]) && VersionOf(files[i]) == Some(vs[j]);
      assert VersionOf(files[i]).value >= 0;
    } else {
      forall i | 0 <= i < |files| && MatchesPattern(files[i]) && VersionOf(files[i]).Some?
        ensures false
      {
        VersionsAreParsed(files, VersionOf(files[i]).value);
      }
    }
  }

  lemma {:induction false} RemoveAllAbsent(s: string, pat: string)
    requires |pat| > 0
    requires forall i :: 0 <= i < |s| ==> s[i] != pat[0]
    ensures RemoveAll(s, pat) == s
    decreases |s|
  {
    if |s| >= |pat| {
      assert s[..|pat|][0] == s[0];
      RemoveAllAbsent(s[1..], pat);
      assert [s[0]] + s[1..] == s;
    }
  }

  lemma {:induction false} DigitsAreDigits(v: nat)
    ensures |Digits(v)| >= 1 && AllDigits(Digits(v))
    ensures DigitsValue(Digits(v)) == v
  {
    if v >= 10 {
      DigitsAreDigits(v / 10);
      var d := Digits(v);
      assert d[..|d| - 1] == Digits(v / 10);
    }
  }

  /** Leading zeros do not change the value. */
  lemma {:induction false} LeadingZeros(z: string, d: string)
    requires AllDigits(z) && DigitsValue(z) == 0 && AllDigits(d)
    ensures AllDigits(z + d) && DigitsValue(z + d) == DigitsValue(d)
    decreases |d|
  {
    if d != [] {
      var d' := d[..|d| - 1];
      LeadingZeros(z, d');
      assert (z + d)[..|z + d| - 1] == z + d';
    } else {
      assert z + d == z;
    }
  }

  lemma ZeroPad3Facts(d: string)
    requires AllDigits(d)
    ensures |ZeroPad3(d)| >= 3 && AllDigits(ZeroPad3(d)) && DigitsValue(ZeroPad3(d)) == DigitsValue(d)
  {
    if |d| < 3 {
      var z := "000"[..3 - |d|];
      assert DigitsValue("00") == 0;
      assert z == "" || z == "0" || z == "00" || z == "000";
      LeadingZeros(z, d);
    }
  }

  /** The padded digits of `v` are at least three digits that read back as `v`. */
  lemma Pad3Facts(v: nat)
    ensures |Pad3(v)| >= 3 && AllDigits(Pad3(v)) && DigitsValue(Pad3(v)) == v
  {
    DigitsAreDigits(v);
    ZeroPad3Facts(Digits(v));
  }

  /** Removing `.csv` from digits followed by `.csv` leaves the digits. */
  lemma {:induction false} RemoveSuffixFromDigits(d: string)
    requires AllDigits(d)
    ensures RemoveAll(d + Suffix, Suffix) == d
    decreases |d|
  {
    if d == [] {
      assert (d + Suffix)[..|Suffix|] == Suffix;
      assert (d + Suffix)[|Suffix|..] == [];
    } else {
      assert (d + Suffix)[..|Suffix|][0] == d[0];
      assert (d + Suffix)[1..] == d[1..] + Suffix;
      RemoveSuffixFromDigits(d[1..]);
      assert [d[0]] + d[1..] == d;
    }
  }

  /** The file written for version `v` matches the pattern and reads back as `v`. */
  lemma OutputFileNameRoundTrip(v: nat)
    ensures MatchesPattern(OutputFileName(v))
    ensures VersionOf(OutputFileName(v)) == Some(v)
  {
    Pad3Facts(v);
    var p := Pad3(v);
    var name := OutputFileName(v);
    assert name[..|Prefix|] == Prefix;
    assert name[|name| - |Suffix|..] == Suffix;
    assert name[|Prefix|..] == p + Suffix;
    assert name[..|Prefix|] == Prefix;
    RemoveAllAbsent(p + Suffix, Prefix);
    assert RemoveAll(name, Prefix) == RemoveAll(name[|Prefix|..], Prefix);
    RemoveSuffixFromDigits(p);
  }

  /** Running again after the file for the chosen version has been written
      chooses the following version. */
  lemma NextVersionAfterWrite(files: seq<string>)
    ensures NextVersion(files + [OutputFileName(NextVersion(files))]) == NextVersion(files) + 1
  {
    var n := NextVersion(files);
    NextVersionCases(files);
    OutputFileNameRoundTrip(n);
    var files' := files + [OutputFileName(n)];
    FilterAppend(files, OutputFileName(n));
    var e' := Existing(files');
    assert e'[..|e'| - 1] == Existing(files);
    var vs := Versions(files);
    assert Versions(files') == vs + [n];
    if vs != [] {
      MaxOfFacts(vs);
      MaxOfFacts(vs + [n]);
      assert (vs + [n])[|vs|] == n;
      forall i | 0 <= i < |vs + [n]| ensures (vs + [n])[i] <= n {
        if i < |vs| {
          assert (vs + [n])[i] == vs[i];
        }
      }
    }
  }

  lemma {:induction false} FilterAppend(files: seq<string>, name: string)
    requires MatchesPattern(name)
    ensures Existing(files + [name]) == Existing(files) + [name]
    decreases |files|
  {
    if files != [] {
      assert (files + [name])[1..] == files[1..] + [name];
      FilterAppend(files[1..], name);
    }
  }
}
