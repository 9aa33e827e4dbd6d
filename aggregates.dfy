/** The global aggregates computed once before the village loop: the ten most
    used KLUs, the number of outlets per province, the number of partnership
    applications per service, and the domain totals. */
module GlobalAggregates {
  import opened Common
  import opened Records

  /** No value occurs twice. */
  predicate Unique<T(==)>(s: seq<T>) {
    forall i, j :: 0 <= i < j < |s| ==> s[i] != s[j]
  }

  // ---------------------------------------------------------------------------
  // Top 10 KLU: value_counts().head(10).index
  // ---------------------------------------------------------------------------

  /** The distinct values of a column, in order of first appearance. */
  function Candidates<T(==)>(s: seq<T>): (c: seq<T>)
    ensures Unique(c)
    ensures forall i :: 0 <= i < |c| ==> c[i] in s
    ensures forall i :: 0 <= i < |s| ==> s[i] in c
  {
    if s == [] then []
    else
      var init := Candidates(s[..|s| - 1]);
      assert s == s[..|s| - 1] + [s[|s| - 1]];
      if s[|s| - 1] in init then init else init + [s[|s| - 1]]
  }

  /** The first candidate with the highest count in `s`. */
  function MostFrequent<T(==)>(s: seq<T>, cands: seq<T>): (m: T)
    requires cands != []
    ensures m in cands
    ensures forall i :: 0 <= i < |cands| ==> Occurrences(s, cands[i]) <= Occurrences(s, m)
  {
    if |cands| == 1 then cands[0]
    else
      var rest := MostFrequent(s, cands[1..]);
      if Occurrences(s, cands[0]) >= Occurrences(s, rest) then cands[0] else rest
  }

  function Without<T(==)>(s: seq<T>, x: T): seq<T> {
    Filter(s, y => y != x)
  }

  /** Removing a value that occurs once from a sequence without repeats
      shortens it by one and keeps it without repeats. */
  lemma {:induction false} WithoutFacts<T>(s: seq<T>, x: T)
    requires Unique(s) && x in s
    ensures |Without(s, x)| == |s| - 1
    ensures Unique(Without(s, x))
  {
    var r := Without(s, x);
    if s[0] == x {
      assert r == Without(s[1..], x);
      WithoutAbsent(s[1..], x);
    } else {
      assert r == [s[0]] + Without(s[1..], x);
      WithoutFacts(s[1..], x);
      assert s[0] !in s[1..];
    }
  }

  /** The values left after removing `x` are the others. */
  lemma WithoutMembers<T>(s: seq<T>, x: T)
    ensures forall y :: y in Without(s, x) <==> y in s && y != x
  {
    forall y | y in s && y != x ensures y in Without(s, x) {
      var i :| 0 <= i < |s| && s[i] == y;
    }
  }

  lemma {:induction false} WithoutAbsent<T>(s: seq<T>, x: T)
    requires x !in s
    ensures Without(s, x) == s
  {
    if s != [] {
      WithoutAbsent(s[1..], x);
      assert s == [s[0]] + s[1..];
    }
  }

  /** The `k` most frequent candidates, most frequent first; among equal
      counts the earlier candidate is taken first. */
  function TopValues<T(==)>(s: seq<T>, cands: seq<T>, k: nat): seq<T>
    decreases k
  {
    if k == 0 || cands == [] then []
    else
      var m := MostFrequent(s, cands);
      [m] + TopValues(s, Without(cands, m), k - 1)
  }

  /** The selection has `min(k, |cands|)` distinct candidates, and none of
      the candidates left out occurs more often than any chosen one. */
  ghost predicate IsTopSelection<T>(s: seq<T>, cands: seq<T>, k: nat, top: seq<T>) {
    TopShape(cands, k, top) && Dominates(s, cands, top)
  }

  /** No candidate left out of `top` occurs more often than a chosen one. */
  ghost predicate Dominates<T>(s: seq<T>, cands: seq<T>, top: seq<T>) {
    forall i, x :: 0 <= i < |top| && x in cands && x !in top ==> Occurrences(s, x) <= Occurrences(s, top[i])
  }

  ghost predicate TopShape<T>(cands: seq<T>, k: nat, top: seq<T>) {
    |top| == (if k < |cands| then k else |cands|) &&
    Unique(top) &&
    (forall x :: x in top ==> x in cands)
  }

  lemma {:induction false} TopValuesShape<T>(s: seq<T>, cands: seq<T>, k: nat)
    requires Unique(cands)
    ensures TopShape(cands, k, TopValues(s, cands, k))
    decreases k
  {
    if k > 0 && cands != [] {
      WithoutFacts(cands, MostFrequent(s, cands));
      TopValuesShape(s, Without(cands, MostFrequent(s, cands)), k - 1);
      TopShapeStep(s, cands, k);
    } else {
      assert TopValues(s, cands, k) == [];
    }
  }

  lemma TopShapeStep<T>(s: seq<T>, cands: seq<T>, k: nat)
    requires Unique(cands) && k > 0 && cands != []
    requires TopShape(Without(cands, MostFrequent(s, cands)), k - 1, TopValues(s, Without(cands, MostFrequent(s, cands)), k - 1))
    ensures TopShape(cands, k, TopValues(s, cands, k))
  {
    var m := MostFrequent(s, cands);
    WithoutFacts(cands, m);
    WithoutMembers(cands, m);
    ShapeCons(cands, k, m, Without(cands, m), TopValues(s, Without(cands, m), k - 1));
  }

  /** A candidate put in front of a selection among the other candidates
      gives a selection one longer, still without repeats. */
  lemma ShapeCons<T>(cands: seq<T>, k: nat, m: T, rest: seq<T>, tail: seq<T>)
    requires k > 0 && m in cands && |rest| == |cands| - 1
    requires forall y :: y in rest <==> y in cands && y != m
    requires TopShape(rest, k - 1, tail)
    ensures TopShape(cands, k, [m] + tail)
  {
    var top := [m] + tail;
    forall i, j | 0 <= i < j < |top| ensures top[i] != top[j] {
      assert top[j] == tail[j - 1];
      if i > 0 {
        assert top[i] == tail[i - 1];
      }
    }
  }

  lemma {:induction false} TopValuesDominate<T>(s: seq<T>, cands: seq<T>, k: nat)
    requires Unique(cands)
    ensures Dominates(s, cands, TopValues(s, cands, k))
    decreases k
  {
    if k > 0 && cands != [] {
      WithoutFacts(cands, MostFrequent(s, cands));
      TopValuesDominate(s, Without(cands, MostFrequent(s, cands)), k - 1);
      TopValuesStep(s, cands, k);
    } else {
      assert TopValues(s, cands, k) == [];
    }
  }

  lemma TopValuesStep<T>(s: seq<T>, cands: seq<T>, k: nat)
    requires k > 0 && cands != []
    requires Dominates(s, Without(cands, MostFrequent(s, cands)), TopValues(s, Without(cands, MostFrequent(s, cands)), k - 1))
    ensures Dominates(s, cands, TopValues(s, cands, k))
  {
    DominatesCons(s, cands, MostFrequent(s, cands), TopValues(s, Without(cands, MostFrequent(s, cands)), k - 1));
  }

  /** Putting the most frequent candidate in front of a dominating
      selection among the other candidates dominates all candidates. */
  lemma DominatesCons<T>(s: seq<T>, cands: seq<T>, m: T, tail: seq<T>)
    requires forall j :: 0 <= j < |cands| ==> Occurrences(s, cands[j]) <= Occurrences(s, m)
    requires Dominates(s, Without(cands, m), tail)
    ensures Dominates(s, cands, [m] + tail)
  {
    var top := [m] + tail;
    WithoutMembers(cands, m);
    forall i, x | 0 <= i < |top| && x in cands && x !in top
      ensures Occurrences(s, x) <= Occurrences(s, top[i])
    {
      var j :| 0 <= j < |cands| && cands[j] == x;
      if i > 0 {
        assert x in Without(cands, m) && x !in tail;
        assert top[i] == tail[i - 1];
      }
    }
  }

  lemma TopValuesFacts<T>(s: seq<T>, cands: seq<T>, k: nat)
    requires Unique(cands)
    ensures IsTopSelection(s, cands, k, TopValues(s, cands, k))
  {
    TopValuesShape(s, cands, k);
    TopValuesDominate(s, cands, k);
  }

  function KluIdOf(k: CooperativeKlu): int { k.kluId }

  /** `top_10_klu`: the ten most used KLU ids. */
  function Top10Klu(klus: seq<CooperativeKlu>): seq<int> {
    var ids := Project(klus, KluIdOf);
    TopValues(ids, Candidates(ids), 10)
  }

  /** At most ten KLU ids, each used by some cooperative, none repeated, and
      no KLU left out is used more often than one taken. */
  lemma Top10KluFacts(klus: seq<CooperativeKlu>)
    ensures var ids := Project(klus, KluIdOf);
            IsTopSelection(ids, Candidates(ids), 10, Top10Klu(klus))
    ensures forall x :: x in Top10Klu(klus) ==> exists i :: 0 <= i < |klus| && klus[i].kluId == x
  {
    var ids := Project(klus, KluIdOf);
    TopValuesFacts(ids, Candidates(ids), 10);
    forall x | x in Top10Klu(klus) ensures exists i :: 0 <= i < |klus| && klus[i].kluId == x {
      assert x in ids;
      var i :| 0 <= i < |ids| && ids[i] == x;
      assert klus[i].kluId == x;
    }
  }

  // ---------------------------------------------------------------------------
  // Outlets per province: outlets left-merged with cooperatives, grouped
  // ---------------------------------------------------------------------------

  /** Whether some outlet belongs to cooperative id `id`. */
  predicate HasOutlet(outlets: seq<Outlet>, id: int) {
    exists o :: o in outlets && o.cooperativeId == id
  }

  /** The merged rows of one outlet that carry province `p`: one per
      cooperative row with the outlet's `cooperativeId` in that province. */
  function OutletRowsIn(coops: seq<Cooperative>, o: Outlet, p: string): nat {
    Count(coops, (c: Cooperative) => c.cooperativeId == o.cooperativeId && c.provinceId == p)
  }

  /** The size of group `p` of the merged table. An outlet with no
      cooperative has no province and falls out of the grouping. */
  function GeraiCount(outlets: seq<Outlet>, coops: seq<Cooperative>, p: string): nat {
    if outlets == [] then 0
    else OutletRowsIn(coops, outlets[0], p) + GeraiCount(outlets[1..], coops, p)
  }

  /** The provinces that appear in the merged table. */
  function JoinedProvinces(outlets: seq<Outlet>, coops: seq<Cooperative>): set<string> {
    set c | c in coops && HasOutlet(outlets, c.cooperativeId) :: c.provinceId
  }

  /** `gerai_per_provinsi`. */
  function GeraiPerProvinsi(outlets: seq<Outlet>, coops: seq<Cooperative>): map<string, nat> {
    map p | p in JoinedProvinces(outlets, coops) :: GeraiCount(outlets, coops, p)
  }

  lemma {:induction false} GeraiCountZero(outlets: seq<Outlet>, coops: seq<Cooperative>, p: string)
    requires p !in JoinedProvinces(outlets, coops)
    ensures GeraiCount(outlets, coops, p) == 0
  {
    if outlets != [] {
      var o := outlets[0];
      forall i | 0 <= i < |coops| && coops[i].cooperativeId == o.cooperativeId
        ensures coops[i].provinceId != p
      {
        assert HasOutlet(outlets, coops[i].cooperativeId);
        assert coops[i].provinceId in JoinedProvinces(outlets, coops);
      }
      assert OutletRowsIn(coops, o, p) == 0;
      forall c | c in coops && HasOutlet(outlets[1..], c.cooperativeId) ensures HasOutlet(outlets, c.cooperativeId) {
        var o' :| o' in outlets[1..] && o'.cooperativeId == c.cooperativeId;
      }
      assert p !in JoinedProvinces(outlets[1..], coops);
      GeraiCountZero(outlets[1..], coops, p);
    }
  }

  lemma {:induction false} GeraiCountPositive(outlets: seq<Outlet>, coops: seq<Cooperative>, p: string, k: nat, j: nat)
    requires k < |outlets| && j < |coops|
    requires coops[j].cooperativeId == outlets[k].cooperativeId && coops[j].provinceId == p
    ensures GeraiCount(outlets, coops, p) > 0
    decreases k
  {
    if k == 0 {
      assert OutletRowsIn(coops, outlets[0], p) > 0;
    } else {
      assert outlets[1..][k - 1] == outlets[k];
      GeraiCountPositive(outlets[1..], coops, p, k - 1, j);
    }
  }

  /** `gerai_per_provinsi.get(p, 0)` is the number of merged rows in
      province `p`, and `p` is a key exactly when that number is positive. */
  lemma GeraiPerProvinsiLookup(outlets: seq<Outlet>, coops: seq<Cooperative>, p: string)
    ensures Get(GeraiPerProvinsi(outlets, coops), p).GetOr(0) == GeraiCount(outlets, coops, p)
    ensures p in GeraiPerProvinsi(outlets, coops) <==> GeraiCount(outlets, coops, p) > 0
  {
    if p in JoinedProvinces(outlets, coops) {
      var c :| c in coops && HasOutlet(outlets, c.cooperativeId) && c.provinceId == p;
      var o :| o in outlets && o.cooperativeId == c.cooperativeId;
      var j :| 0 <= j < |coops| && coops[j] == c;
      var k :| 0 <= k < |outlets| && outlets[k] == o;
      GeraiCountPositive(outlets, coops, p, k, j);
    } else {
      GeraiCountZero(outlets, coops, p);
    }
  }

  // ---------------------------------------------------------------------------
  // Service distribution and domains
  // ---------------------------------------------------------------------------

  /** Number of partnership applications for service `sid`. */
  function ServiceCount(ps: seq<Partnership>, sid: int): nat {
    Count(ps, (p: Partnership) => p.serviceId == sid)
  }

  /** `service_distribution`: `value_counts()` of the service id. */
  function ServiceDistribution(ps: seq<Partnership>): map<int, nat> {
    map sid | sid in (set p | p in ps :: p.serviceId) :: ServiceCount(ps, sid)
  }

  /** `service_distribution.get(sid, 0)` counts the applications for `sid`,
      and `sid` is a key exactly when some application names it. */
  lemma ServiceDistributionLookup(ps: seq<Partnership>, sid: int)
    ensures Get(ServiceDistribution(ps), sid).GetOr(0) == ServiceCount(ps, sid)
    ensures sid in ServiceDistribution(ps) <==> exists i :: 0 <= i < |ps| && ps[i].serviceId == sid
  {
    if sid !in ServiceDistribution(ps) {
      forall i | 0 <= i < |ps| ensures ps[i].serviceId != sid {
        assert ps[i] in ps;
      }
    } else {
      var p :| p in ps && p.serviceId == sid;
      var i :| 0 <= i < |ps| && ps[i] == p;
      assert ps[i].serviceId == sid;
    }
  }

  /** The aggregates the calculators read. */
  datatype GlobalAgg = GlobalAgg(
    top10Klu: seq<int>,
    geraiPerProvinsi: map<string, nat>,
    serviceDistribution: map<int, nat>,
    totalDomains: nat,
    verifiedDomains: nat)

  function IsVerifiedDomain(d: Domain): bool { d.verificationStatus == "Verified" }

  /** `calculate_global_aggregates`. */
  function CalculateGlobalAggregates(klus: seq<CooperativeKlu>, outlets: seq<Outlet>,
                                     coops: seq<Cooperative>, partnerships: seq<Partnership>,
                                     domains: seq<Domain>): (g: GlobalAgg)
    ensures g.verifiedDomains <= g.totalDomains
    ensures g.totalDomains == |domains|
    ensures g.verifiedDomains == 0 <==> forall i :: 0 <= i < |domains| ==> domains[i].verificationStatus != "Verified"
  {
    GlobalAgg(Top10Klu(klus), GeraiPerProvinsi(outlets, coops), ServiceDistribution(partnerships),
              |domains|, Count(domains, IsVerifiedDomain))
  }
}
