/** The KPIs of a village's cooperatives, their members and their boards
    (`calculate_cooperative_kpis`, `calculate_member_kpis`,
    `calculate_management_kpis`). Every calculator receives `ids`, the
    `cooperative_id` list of the village's cooperatives (repeats included),
    and selects rows with `isin(ids)`. */
module CooperativeKpi {
  import opened Common
  import opened Records
  import opened Ratios

  /** A column compared with a scalar taken from a geography row: a missing
      scalar (NaN or `None`) never compares equal. */
  predicate Matches<T(==)>(x: T, o: Option<T>) {
    o == Some(x)
  }

  // ---------------------------------------------------------------------------
  // Cooperatives (KPI 01 to 07)
  // ---------------------------------------------------------------------------

  datatype CooperativeKpis = CooperativeKpis(
    totalKoperasiTerdaftar: nat,
    totalKoperasiPerProvinsi: nat,
    totalKoperasiPerKabupatenKota: nat,
    rataRataModalAwal: real,
    totalModalAwal: real,
    rasioKoperasiBaru: real,
    rasioPendaftaranMandiri: real)

  /** The cooperative rows whose `cooperative_id` is in `ids`. */
  function ScopedCooperatives(ids: seq<int>, coops: seq<Cooperative>): seq<Cooperative> {
    Filter(coops, (c: Cooperative) => c.cooperativeId in ids)
  }

  /** `capital`, with a missing value read as 0 (`fillna(0)`). */
  function CapitalOf(c: Cooperative): real { c.capital.GetOr(0.0) }

  function IsNewRegistration(c: Cooperative): bool { c.registrationType == "Pendaftaran Baru" }

  function IsSelfFiled(c: Cooperative): bool { c.fillingMethod == "Mandiri" }

  /** KPI 04: the mean capital of the village's cooperatives, 0 without any. */
  function AverageCapital(ids: seq<int>, coops: seq<Cooperative>): real {
    var capital := Project(ScopedCooperatives(ids, coops), CapitalOf);
    if ids != [] && capital != [] then Mean(capital) else 0.0
  }

  /** KPI 05: the total capital of the village's cooperatives. */
  function TotalCapital(ids: seq<int>, coops: seq<Cooperative>): real {
    if ids != [] then Sum(Project(ScopedCooperatives(ids, coops), CapitalOf)) else 0.0
  }

  /** `calculate_cooperative_kpis`. `provinceId` is the province code of the
      geography row; `districtInternal` the internal district id found for
      its district code, if any. */
  function CalculateCooperativeKpis(ids: seq<int>, coops: seq<Cooperative>, provinceId: Option<string>,
                                    districtInternal: Option<int>): CooperativeKpis
  {
    var scoped := ScopedCooperatives(ids, coops);
    CooperativeKpis(
      |ids|,
      Count(coops, (c: Cooperative) => Matches(c.provinceId, provinceId)),
      match districtInternal
      case Some(d) => Count(coops, (c: Cooperative) => c.districtId == d)
      case None => 0,
      AverageCapital(ids, coops),
      TotalCapital(ids, coops),
      if ids != [] then ShareWhere(scoped, IsNewRegistration) else 0.0,
      if ids != [] then ShareWhere(scoped, IsSelfFiled) else 0.0)
  }

  /** The counts: one per listed id, the province and district counts over
      all cooperatives, and no district count without a district id. */
  lemma CooperativeCounts(ids: seq<int>, coops: seq<Cooperative>, provinceId: Option<string>,
                          districtInternal: Option<int>)
    ensures var k := CalculateCooperativeKpis(ids, coops, provinceId, districtInternal);
            k.totalKoperasiTerdaftar == |ids| &&
            k.totalKoperasiPerProvinsi <= |coops| && k.totalKoperasiPerKabupatenKota <= |coops| &&
            (provinceId.None? ==> k.totalKoperasiPerProvinsi == 0) &&
            (districtInternal.None? ==> k.totalKoperasiPerKabupatenKota == 0)
  {
    var k := CalculateCooperativeKpis(ids, coops, provinceId, districtInternal);
    if provinceId.None? {
      assert k.totalKoperasiPerProvinsi == 0;
    }
  }

  /** The average capital is the total capital over the number of the
      village's cooperatives, and neither is negative when no capital is. */
  lemma CooperativeCapital(ids: seq<int>, coops: seq<Cooperative>)
    ensures ids != [] && ScopedCooperatives(ids, coops) != [] ==>
              AverageCapital(ids, coops) == TotalCapital(ids, coops) / (|ScopedCooperatives(ids, coops)| as real)
    ensures (forall i :: 0 <= i < |coops| ==> CapitalOf(coops[i]) >= 0.0) ==>
              TotalCapital(ids, coops) >= 0.0 && AverageCapital(ids, coops) >= 0.0
  {
    var scoped := ScopedCooperatives(ids, coops);
    var capital := Project(scoped, CapitalOf);
    if forall i :: 0 <= i < |coops| ==> CapitalOf(coops[i]) >= 0.0 {
      forall i | 0 <= i < |capital| ensures capital[i] >= 0.0 {
        assert scoped[i] in coops;
      }
      NonNegativeSum(capital);
    }
  }

  /** Both registration ratios lie in [0, 100]; each is 100 exactly when the
      village has cooperatives and all of them qualify, and 0 exactly when
      none does. */
  lemma CooperativeRatios(ids: seq<int>, coops: seq<Cooperative>, provinceId: Option<string>,
                          districtInternal: Option<int>)
    ensures var k := CalculateCooperativeKpis(ids, coops, provinceId, districtInternal);
            var scoped := ScopedCooperatives(ids, coops);
            0.0 <= k.rasioKoperasiBaru <= 100.0 && 0.0 <= k.rasioPendaftaranMandiri <= 100.0 &&
            (k.rasioKoperasiBaru == 100.0 <==>
               (ids != [] && scoped != [] && forall i :: 0 <= i < |scoped| ==> IsNewRegistration(scoped[i]))) &&
            (k.rasioPendaftaranMandiri == 100.0 <==>
               (ids != [] && scoped != [] && forall i :: 0 <= i < |scoped| ==> IsSelfFiled(scoped[i]))) &&
            (k.rasioKoperasiBaru == 0.0 <==>
               (ids == [] || forall i :: 0 <= i < |scoped| ==> !IsNewRegistration(scoped[i]))) &&
            (k.rasioPendaftaranMandiri == 0.0 <==>
               (ids == [] || forall i :: 0 <= i < |scoped| ==> !IsSelfFiled(scoped[i])))
  {
    var scoped := ScopedCooperatives(ids, coops);
    ShareWhereFacts(scoped, IsNewRegistration);
    ShareWhereFacts(scoped, IsSelfFiled);
  }

  // ---------------------------------------------------------------------------
  // Members (KPI 09 to 13 and 18)
  // ---------------------------------------------------------------------------

  datatype MemberKpis = MemberKpis(
    totalAnggota: nat,
    rasioGenderAnggota: real,
    rataRataSimpananPokok: real,
    rataRataSimpananWajib: real,
    rasioBiCheckingLancar: real,
    rataRataAnggotaPerKoperasi: nat)

  /** The member rows of the village's cooperatives. */
  function ScopedMembers(ids: seq<int>, members: seq<Member>): seq<Member> {
    Filter(members, (m: Member) => m.cooperativeId in ids)
  }

  /** Member gender is stored in capitals. */
  function IsFemaleMember(m: Member): bool { m.gender == "PEREMPUAN" }

  function HasGoodCredit(m: Member): bool { m.biChecking == "Lancar" }

  function PrincipalOf(m: Member): real { m.principalSaving.GetOr(0.0) }

  function MandatoryOf(m: Member): real { m.mandatorySaving.GetOr(0.0) }

  /** The mean of a saving column with missing values read as 0, or 0 for
      a village without members. */
  function AverageSaving(vm: seq<Member>, saving: Member -> real): real {
    if vm != [] then Mean(Project(vm, saving)) else 0.0
  }

  /** `calculate_member_kpis`. */
  function CalculateMemberKpis(ids: seq<int>, members: seq<Member>): MemberKpis {
    var vm := ScopedMembers(ids, members);
    MemberKpis(
      |vm|,
      if vm != [] then ShareWhere(vm, IsFemaleMember) else 0.0,
      AverageSaving(vm, PrincipalOf),
      AverageSaving(vm, MandatoryOf),
      if vm != [] then ShareWhere(vm, HasGoodCredit) else 0.0,
      FloorDivide(|vm|, |ids|))
  }

  /** The member counts: the number of the village's members, and members
      per cooperative rounded down (0 without cooperatives). */
  lemma MemberCounts(ids: seq<int>, members: seq<Member>)
    ensures var k := CalculateMemberKpis(ids, members);
            k.totalAnggota == |ScopedMembers(ids, members)| && k.totalAnggota <= |members| &&
            (ids != [] ==> k.rataRataAnggotaPerKoperasi * |ids| <= k.totalAnggota <
                           (k.rataRataAnggotaPerKoperasi + 1) * |ids|) &&
            (ids == [] ==> k.rataRataAnggotaPerKoperasi == 0)
  {
  }

  /** Both member ratios lie in [0, 100]; each is 100 exactly when the
      village has members and all of them qualify, and 0 exactly when none
      does. */
  lemma MemberRatios(ids: seq<int>, members: seq<Member>)
    ensures var k := CalculateMemberKpis(ids, members);
            var vm := ScopedMembers(ids, members);
            0.0 <= k.rasioGenderAnggota <= 100.0 && 0.0 <= k.rasioBiCheckingLancar <= 100.0 &&
            (k.rasioGenderAnggota == 100.0 <==> (vm != [] && forall i :: 0 <= i < |vm| ==> IsFemaleMember(vm[i]))) &&
            (k.rasioGenderAnggota == 0.0 <==> forall i :: 0 <= i < |vm| ==> !IsFemaleMember(vm[i])) &&
            (k.rasioBiCheckingLancar == 100.0 <==> (vm != [] && forall i :: 0 <= i < |vm| ==> HasGoodCredit(vm[i]))) &&
            (k.rasioBiCheckingLancar == 0.0 <==> forall i :: 0 <= i < |vm| ==> !HasGoodCredit(vm[i]))
  {
    var vm := ScopedMembers(ids, members);
    ShareWhereFacts(vm, IsFemaleMember);
    ShareWhereFacts(vm, HasGoodCredit);
  }

  /** An average saving is the total saving over the number of members, and
      is not negative when no saving is. */
  lemma AverageSavingFacts(vm: seq<Member>, saving: Member -> real)
    ensures vm != [] ==> AverageSaving(vm, saving) == Sum(Project(vm, saving)) / (|vm| as real)
    ensures vm == [] ==> AverageSaving(vm, saving) == 0.0
    ensures (forall i :: 0 <= i < |vm| ==> saving(vm[i]) >= 0.0) ==> AverageSaving(vm, saving) >= 0.0
  {
    var xs := Project(vm, saving);
    if forall i :: 0 <= i < |vm| ==> saving(vm[i]) >= 0.0 {
      NonNegativeSum(xs);
    }
  }

  // ---------------------------------------------------------------------------
  // Management (KPI 14 to 17)
  // ---------------------------------------------------------------------------

  datatype ManagementKpis = ManagementKpis(
    totalPengurus: nat,
    totalPengawas: nat,
    rasioGenderPengurus: real,
    rasioStrukturLengkap: real)

  /** The management rows of the village's cooperatives. */
  function ScopedManagers(ids: seq<int>, managers: seq<Manager>): seq<Manager> {
    Filter(managers, (m: Manager) => m.cooperativeId in ids)
  }

  /** The board roles (`pengurus_roles`). */
  function IsBoardRole(role: string): bool {
    role == "Ketua" || role == "Sekretaris" || role == "Bendahara"
  }

  function IsBoardMember(m: Manager): bool { IsBoardRole(m.role) }

  function IsSupervisor(m: Manager): bool { m.role == "Pengawas" }

  /** Management gender is stored capitalised, unlike member gender. */
  function IsFemaleManager(m: Manager): bool { m.gender == "Perempuan" }

  function RoleOf(m: Manager): string { m.role }

  /** Whether some management row of cooperative `id` holds `role`. */
  predicate HasRole(vm: seq<Manager>, id: int, role: string) {
    exists i :: 0 <= i < |vm| && vm[i].cooperativeId == id && vm[i].role == role
  }

  /** A chair, a secretary and a treasurer. */
  predicate HasCompleteBoard(vm: seq<Manager>, id: int) {
    HasRole(vm, id, "Ketua") && HasRole(vm, id, "Sekretaris") && HasRole(vm, id, "Bendahara")
  }

  /** How many of the first `n` listed ids have a complete board; a repeated
      id counts at each of its positions. */
  function CompleteBoards(ids: seq<int>, vm: seq<Manager>, n: nat): nat
    requires n <= |ids|
  {
    if n == 0 then 0
    else CompleteBoards(ids, vm, n - 1) + (if HasCompleteBoard(vm, ids[n - 1]) then 1 else 0)
  }

  /** The roles of the management rows of cooperative `id`, in row order. */
  function CooperativeRoles(vm: seq<Manager>, id: int): seq<string> {
    Project(Filter(vm, (m: Manager) => m.cooperativeId == id), RoleOf)
  }

  /** Whether a role list holds the three board roles. */
  predicate HasBoardRoles(roles: seq<string>) {
    "Ketua" in roles && "Sekretaris" in roles && "Bendahara" in roles
  }

  /** The loop of KPI 17: for every listed id, the roles of its management
      rows are looked up for the three board roles. */
  method CountCompleteStructures(ids: seq<int>, vm: seq<Manager>) returns (count: nat)
    ensures count == CompleteBoards(ids, vm, |ids|)
  {
    count := 0;
    for i := 0 to |ids|
      invariant count == CompleteBoards(ids, vm, i)
    {
      var roles := CooperativeRoles(vm, ids[i]);
      CompleteBoardRoles(vm, ids[i]);
      if HasBoardRoles(roles) {
        count := count + 1;
      }
    }
  }

  /** Looking the three roles up in a cooperative's role list decides
      whether it has a complete board. */
  lemma CompleteBoardRoles(vm: seq<Manager>, id: int)
    ensures HasBoardRoles(CooperativeRoles(vm, id)) <==> HasCompleteBoard(vm, id)
  {
    RolesOfCooperative(vm, id, "Ketua");
    RolesOfCooperative(vm, id, "Sekretaris");
    RolesOfCooperative(vm, id, "Bendahara");
  }

  /** A role is among the roles of a cooperative's rows exactly when one of
      them holds it. */
  lemma RolesOfCooperative(vm: seq<Manager>, id: int, role: string)
    ensures role in CooperativeRoles(vm, id) <==> HasRole(vm, id, role)
  {
    var rows := Filter(vm, (m: Manager) => m.cooperativeId == id);
    var roles := CooperativeRoles(vm, id);
    assert roles == Project(rows, RoleOf);
    if role in roles {
      var j :| 0 <= j < |roles| && roles[j] == role;
      var r := rows[j];
      assert r in vm && r.cooperativeId == id && r.role == role;
      var i :| 0 <= i < |vm| && vm[i] == r;
    }
    if HasRole(vm, id, role) {
      var i :| 0 <= i < |vm| && vm[i].cooperativeId == id && vm[i].role == role;
      assert vm[i] in rows;
      var j :| 0 <= j < |rows| && rows[j] == vm[i];
      assert roles[j] == role;
    }
  }

  /** The complete-board count never exceeds the ids counted; it equals
      them exactly when every listed id has a complete board, and is 0
      exactly when none has. */
  lemma {:induction false} CompleteBoardsFacts(ids: seq<int>, vm: seq<Manager>, n: nat)
    requires n <= |ids|
    ensures CompleteBoards(ids, vm, n) <= n
    ensures CompleteBoards(ids, vm, n) == n <==> forall i :: 0 <= i < n ==> HasCompleteBoard(vm, ids[i])
    ensures CompleteBoards(ids, vm, n) == 0 <==> forall i :: 0 <= i < n ==> !HasCompleteBoard(vm, ids[i])
  {
    if n > 0 {
      CompleteBoardsFacts(ids, vm, n - 1);
    }
  }

  /** `calculate_management_kpis`. */
  function CalculateManagementKpis(ids: seq<int>, managers: seq<Manager>): ManagementKpis {
    var vm := ScopedManagers(ids, managers);
    var board := Filter(vm, IsBoardMember);
    ManagementKpis(
      |board|,
      Count(vm, IsSupervisor),
      if board != [] then ShareWhere(board, IsFemaleManager) else 0.0,
      if ids != [] && vm != [] then Share(CompleteBoards(ids, vm, |ids|), |ids|) else 0.0)
  }

  /** Board members and supervisors are distinct rows of the village's
      management; the board gender ratio lies in [0, 100] and is 100 exactly
      when there is a board and every board member is a woman. */
  lemma ManagementCounts(ids: seq<int>, managers: seq<Manager>)
    ensures var k := CalculateManagementKpis(ids, managers);
            var vm := ScopedManagers(ids, managers);
            var board := Filter(vm, IsBoardMember);
            k.totalPengurus + k.totalPengawas <= |vm| &&
            0.0 <= k.rasioGenderPengurus <= 100.0 &&
            (k.rasioGenderPengurus == 100.0 <==> (board != [] && forall i :: 0 <= i < |board| ==> IsFemaleManager(board[i]))) &&
            (k.rasioGenderPengurus == 0.0 <==> forall i :: 0 <= i < |board| ==> !IsFemaleManager(board[i]))
  {
    var vm := ScopedManagers(ids, managers);
    var board := Filter(vm, IsBoardMember);
    CountDisjoint(vm, IsBoardMember, IsSupervisor);
    ShareWhereFacts(board, IsFemaleManager);
  }

  /** The complete-structure ratio lies in [0, 100]; it is 100 exactly when
      the village has cooperatives and management rows and every listed
      cooperative has a chair, a secretary and a treasurer, and 0 exactly
      when it has none of these or no cooperative has all three. */
  lemma ManagementStructure(ids: seq<int>, managers: seq<Manager>)
    ensures var k := CalculateManagementKpis(ids, managers);
            var vm := ScopedManagers(ids, managers);
            0.0 <= k.rasioStrukturLengkap <= 100.0 &&
            (k.rasioStrukturLengkap == 100.0 <==>
               (ids != [] && vm != [] && forall i :: 0 <= i < |ids| ==> HasCompleteBoard(vm, ids[i]))) &&
            (k.rasioStrukturLengkap == 0.0 <==>
               (ids == [] || vm == [] || forall i :: 0 <= i < |ids| ==> !HasCompleteBoard(vm, ids[i])))
  {
    var vm := ScopedManagers(ids, managers);
    CompleteBoardsFacts(ids, vm, |ids|);
    ShareBounds(CompleteBoards(ids, vm, |ids|), |ids|);
  }
}
