/** Admission of one memory limit per coordination role under a floor-divided formation reserve. */
module RedisCapacity {
  import opened Basics
  import QuotaGuard

  const KIB := 1024
  const MIB := 1024 * KIB
  const U64_MAX := U64_LIMIT - 1
  const MIN_RESERVE := 8 * MIB
  const RESERVE_DIVISOR := 20
  const ROLES := 13

  /** The thirteen coordination roles, by their number. */
  type Role = r: nat | r < 13

  datatype Measurement = Measurement(records: nat, pending: nat, script: nat, aof: nat, restart: nat) {
    function Total(): nat { records + pending + script + aof + restart }
  }

  datatype Calibration = Calibration(measurement: Measurement, defaultBytes: nat) {
    function Minimum(): nat { (measurement.Total() + MIB - 1) / MIB * MIB }
    function Maximum(): nat { defaultBytes }
  }

  function Measured(records: nat, pending: nat, scriptKib: nat, aof: nat, restart: nat): Measurement {
    Measurement(records * MIB, pending * MIB, scriptKib * KIB, aof * MIB, restart * MIB)
  }

  function MeasuredKib(records: nat, pending: nat, script: nat, aof: nat, restart: nat): Measurement {
    Measurement(records * KIB, pending * KIB, script * KIB, aof * KIB, restart * KIB)
  }

  function Calibrated(role: Role): Calibration {
    match role
    case 0 => Calibration(Measured(10, 1, 128, 1, 1), 16 * MIB)
    case 1 => Calibration(Measured(56, 4, 256, 2, 2), 80 * MIB)
    case 2 => Calibration(Measured(56, 4, 256, 2, 2), 80 * MIB)
    case 3 => Calibration(Measured(28, 2, 128, 1, 1), 40 * MIB)
    case 4 => Calibration(Measured(256, 16, 256, 8, 8), 320 * MIB)
    case 5 => Calibration(MeasuredKib(512, 256, 128, 512, 512), 4 * MIB)
    case 6 => Calibration(Measured(256, 16, 256, 8, 8), 320 * MIB)
    case 7 => Calibration(Measured(256, 16, 256, 8, 8), 320 * MIB)
    case 8 => Calibration(Measured(56, 4, 256, 2, 2), 80 * MIB)
    case 9 => Calibration(Measured(32, 2, 256, 1, 1), 48 * MIB)
    case 10 => Calibration(MeasuredKib(512, 256, 128, 512, 512), 4 * MIB)
    case 11 => Calibration(MeasuredKib(2048, 512, 128, 512, 512), 8 * MIB)
    case 12 => Calibration(Measured(56, 4, 256, 2, 2), 80 * MIB)
  }

  datatype Limit = Limit(role: Role, bytes: nat)

  datatype Failure =
    | UnboundedCapacity
    | EvictionPolicy
    | CapacityMismatch
    | MissingRoleLimit
    | DuplicateRoleLimit
    | RoleLimitOutsideBounds
    | InsufficientReserve
    | CapacityOverflow

  datatype Profile = Profile(capacity: nat, reserve: nat, roles: seq<nat>, sum: nat)

  function InBounds(limit: Limit): bool {
    Calibrated(limit.role).Minimum() <= limit.bytes <= Calibrated(limit.role).Maximum()
  }

  function Total(s: seq<nat>): nat { if s == [] then 0 else Total(s[..|s| - 1]) + s[|s| - 1] }

  /** A share of the capacity, rounded down, but never less than the minimum. */
  function Reserve(capacity: nat): (r: nat)
    ensures MIN_RESERVE <= r && capacity < RESERVE_DIVISOR * (r + 1)
    ensures r == MIN_RESERVE || RESERVE_DIVISOR * r <= capacity
  {
    if MIN_RESERVE < capacity / RESERVE_DIVISOR then capacity / RESERVE_DIVISOR else MIN_RESERVE
  }

  // ------------------------------------------------------------ what a good list is

  ghost predicate Repeats(limits: seq<Limit>, k: int)
    requires 0 <= k < |limits|
  {
    exists i :: 0 <= i < k && limits[i].role == limits[k].role
  }

  /** The first `k` limits are in bounds and name distinct roles. */
  ghost predicate GoodUpTo(limits: seq<Limit>, k: int) {
    && 0 <= k <= |limits|
    && (forall i :: 0 <= i < k ==>
          && Calibrated(limits[i].role).Minimum() <= limits[i].bytes <= Calibrated(limits[i].role).Maximum()
          && !Repeats(limits, i))
  }

  ghost predicate Names(limits: seq<Limit>, role: Role) { exists i :: 0 <= i < |limits| && limits[i].role == role }

  ghost predicate OnePerRole(limits: seq<Limit>) {
    GoodUpTo(limits, |limits|) && forall role: Role :: Names(limits, role)
  }

  /** `table` holds, for every role, the limit that the list gives it. */
  ghost predicate Tabulates(limits: seq<Limit>, table: seq<nat>) {
    |table| == ROLES && forall i :: 0 <= i < |limits| ==> table[limits[i].role] == limits[i].bytes
  }

  /** The list and the reserve that goes with the capacity fit into it. */
  ghost predicate Fits(capacity: nat, limits: seq<Limit>) {
    OnePerRole(limits) && forall table :: Tabulates(limits, table) ==> Total(table) + Reserve(capacity) <= capacity
  }

  lemma OneTable(limits: seq<Limit>, a: seq<nat>, b: seq<nat>)
    requires OnePerRole(limits) && Tabulates(limits, a) && Tabulates(limits, b)
    ensures a == b
  {
    forall role: Role
      ensures a[role] == b[role]
    {
      assert Names(limits, role);
      var i :| 0 <= i < |limits| && limits[i].role == role;
    }
  }

  // ------------------------------------------------------------ admission

  lemma {:induction false} TotalBound(s: seq<nat>, most: nat)
    requires forall i :: 0 <= i < |s| ==> s[i] <= most
    ensures Total(s) <= |s| * most
  {
    if s != [] { TotalBound(s[..|s| - 1], most); }
  }

  /** Adds up the table with checked 64-bit addition. */
  method CheckedTotal(table: seq<nat>) returns (r: Option<nat>)
    ensures Total(table) <= U64_MAX ==> r == Some(Total(table))
    ensures Total(table) > U64_MAX ==> r.None?
  {
    var sum, i := 0, 0;
    while i < |table|
      invariant i <= |table| && sum == Total(table[..i]) <= U64_MAX
    {
      assert table[..i + 1][..i] == table[..i];
      if sum + table[i] > U64_MAX {
        TotalGrows(table, i + 1);
        return None;
      }
      sum, i := sum + table[i], i + 1;
    }
    assert table[..i] == table;
    return Some(sum);
  }

  lemma {:induction false} TotalGrows(s: seq<nat>, k: nat)
    requires k <= |s|
    ensures Total(s[..k]) <= Total(s)
    decreases |s|
  {
    if k < |s| {
      assert s[..|s| - 1][..k] == s[..k];
      TotalGrows(s[..|s| - 1], k);
    } else {
      assert s[..k] == s;
    }
  }

  /** Some limit repeats a role that the good limits before it already named. */
  ghost predicate StopsAtRepeat(limits: seq<Limit>) {
    exists k :: 0 <= k < |limits| && GoodUpTo(limits, k) && Repeats(limits, k)
  }

  /** What a list without one in-bounds limit per role is refused for: the first fault in it. */
  ghost function ListFailure(limits: seq<Limit>): Failure
    requires !OnePerRole(limits)
  {
    if GoodUpTo(limits, |limits|) then MissingRoleLimit
    else if StopsAtRepeat(limits) then DuplicateRoleLimit
    else RoleLimitOutsideBounds
  }

  /** Fills the table and the `seen` flags one limit at a time. */
  method Tabulate(limits: seq<Limit>) returns (r: Result<seq<nat>, Failure>)
    ensures r.Ok? <==> OnePerRole(limits)
    ensures r.Ok? ==> Tabulates(limits, r.value) && forall i :: 0 <= i < ROLES ==> r.value[i] <= 320 * MIB
    ensures r.Err? ==> r.error == ListFailure(limits)
  {
    var table := new nat[ROLES](_ => 0);
    var seen := new bool[ROLES](_ => false);
    var k := 0;
    while k < |limits|
      invariant 0 <= k <= |limits| && GoodUpTo(limits, k)
      invariant forall role: Role :: seen[role] <==> exists i :: 0 <= i < k && limits[i].role == role
      invariant forall i :: 0 <= i < k ==> table[limits[i].role] == limits[i].bytes
      invariant forall i :: 0 <= i < ROLES ==> table[i] <= 320 * MIB
    {
      var limit := limits[k];
      if seen[limit.role] {
        FirstBad(limits, k);
        return Err(DuplicateRoleLimit);
      }
      assert !Repeats(limits, k);
      seen[limit.role] := true;
      if !InBounds(limit) {
        FirstBad(limits, k);
        return Err(RoleLimitOutsideBounds);
      }
      MaximumBound(limit.role);
      table[limit.role] := limit.bytes;
      k := k + 1;
    }
    var role := 0;
    while role < ROLES
      invariant 0 <= role <= ROLES && forall i :: 0 <= i < role ==> seen[i]
    {
      if !seen[role] {
        assert !Names(limits, role);
        return Err(MissingRoleLimit);
      }
      role := role + 1;
    }
    forall r: Role
      ensures Names(limits, r)
    {
      assert seen[r];
    }
    return Ok(table[..]);
  }

  lemma MaximumBound(role: Role)
    ensures Calibrated(role).Maximum() <= 320 * MIB
  {
  }

  /** There is at most one first bad limit. */
  lemma FirstBad(limits: seq<Limit>, k: int)
    requires 0 <= k < |limits| && GoodUpTo(limits, k) && (Repeats(limits, k) || !InBounds(limits[k]))
    ensures forall j :: k < j <= |limits| ==> !GoodUpTo(limits, j)
    ensures forall j :: 0 <= j < k ==> InBounds(limits[j]) && !Repeats(limits, j)
  {
  }

  /** Succeeds exactly on a list that fits; the checked additions never overflow. */
  method Admit(capacity: nat, limits: seq<Limit>) returns (r: Result<Profile, Failure>)
    requires capacity <= U64_MAX
    ensures r.Ok? <==> capacity > 0 && Fits(capacity, limits)
    ensures r.Ok? ==> && r.value.capacity == capacity && r.value.reserve == Reserve(capacity)
                      && Tabulates(limits, r.value.roles) && r.value.sum == Total(r.value.roles)
                      && r.value.sum + r.value.reserve <= capacity
    ensures r == Err(UnboundedCapacity) <==> capacity == 0
    ensures capacity > 0 && !OnePerRole(limits) ==> r == Err(ListFailure(limits))
    ensures r == Err(InsufficientReserve) <==> capacity > 0 && OnePerRole(limits) && !Fits(capacity, limits)
    ensures r != Err(CapacityOverflow)
  {
    if capacity == 0 {
      return Err(UnboundedCapacity);
    }
    var tabulated := Tabulate(limits);
    if tabulated.Err? {
      return Err(tabulated.error);
    }
    var table := tabulated.value;
    TotalBound(table, 320 * MIB);
    forall other | Tabulates(limits, other)
      ensures other == table
    {
      OneTable(limits, other, table);
    }
    var sum := CheckedTotal(table);
    if sum.None? {
      return Err(CapacityOverflow);
    }
    var reserve := Reserve(capacity);
    if sum.value + reserve > U64_MAX {
      return Err(CapacityOverflow);
    }
    if sum.value + reserve > capacity {
      return Err(InsufficientReserve);
    }
    return Ok(Profile(capacity, reserve, table, sum.value));
  }

  /** More capacity never turns an admitted list away, although the reserve grows in steps. */
  lemma AdmissionIsMonotone(limits: seq<Limit>, less: nat, more: nat)
    requires less <= more && Fits(less, limits)
    ensures Fits(more, limits)
  {
    assert Reserve(more) - Reserve(less) <= more - less;
  }

  // ------------------------------------------------------------ the defaults

  function Defaults(n: nat): seq<Limit>
    requires n <= ROLES
  {
    seq(n, role requires 0 <= role < n => Limit(role as Role, Calibrated(role as Role).defaultBytes))
  }

  function DefaultTable(n: nat): seq<nat>
    requires n <= ROLES
  {
    seq(n, role requires 0 <= role < n => Calibrated(role as Role).defaultBytes)
  }

  lemma DefaultTotal(n: nat)
    requires 0 < n <= ROLES
    ensures Total(DefaultTable(n)) == Total(DefaultTable(n - 1)) + Calibrated((n - 1) as Role).defaultBytes
  {
    assert DefaultTable(n)[..n - 1] == DefaultTable(n - 1);
  }

  lemma DefaultsTotal1400MiB()
    ensures Total(DefaultTable(ROLES)) == 1400 * MIB
  {
    DefaultTotal(1); DefaultTotal(2); DefaultTotal(3); DefaultTotal(4); DefaultTotal(5); DefaultTotal(6);
    DefaultTotal(7); DefaultTotal(8); DefaultTotal(9); DefaultTotal(10); DefaultTotal(11); DefaultTotal(12);
    DefaultTotal(13);
  }

  lemma DefaultInBounds(role: Role)
    ensures Calibrated(role).Minimum() <= Calibrated(role).defaultBytes
  {
  }

  lemma DefaultsAreOnePerRole()
    ensures OnePerRole(Defaults(ROLES)) && Tabulates(Defaults(ROLES), DefaultTable(ROLES))
  {
    var limits := Defaults(ROLES);
    forall i | 0 <= i < ROLES
      ensures InBounds(limits[i]) && !Repeats(limits, i)
    {
      DefaultInBounds(i as Role);
    }
    forall role: Role
      ensures Names(limits, role)
    {
      assert limits[role].role == role;
    }
  }

  /** The default candidate is admitted exactly from 1 545 269 894 bytes of capacity on. */
  lemma DefaultCandidateThreshold(capacity: nat)
    ensures Fits(capacity, Defaults(ROLES)) <==> capacity >= 1_545_269_894
  {
    var limits, table := Defaults(ROLES), DefaultTable(ROLES);
    DefaultsAreOnePerRole();
    DefaultsTotal1400MiB();
    forall other | Tabulates(limits, other)
      ensures other == table
    {
      OneTable(limits, other, table);
    }
    assert 1400 * MIB + Reserve(capacity) <= capacity <==> capacity >= 1_545_269_894;
  }

  // ------------------------------------------------------------ the server, and the guards together

  function ValidateServer(p: Profile, maxMemory: nat, policy: string, used: nat): Result<(), Failure> {
    if maxMemory == 0 then Err(UnboundedCapacity)
    else if policy != "noeviction" then Err(EvictionPolicy)
    else if maxMemory != p.capacity then Err(CapacityMismatch)
    else if used + p.sum > U64_MAX || used + p.sum + p.reserve > U64_MAX then Err(CapacityOverflow)
    else if used + p.sum + p.reserve > maxMemory then Err(InsufficientReserve)
    else Ok(())
  }

  /** The checked additions refuse no server that has the room. */
  lemma ServerAcceptedIffRoom(p: Profile, maxMemory: nat, policy: string, used: nat)
    requires maxMemory <= U64_MAX
    ensures ValidateServer(p, maxMemory, policy, used).Ok? <==>
              0 < maxMemory == p.capacity && policy == "noeviction" && used + p.sum + p.reserve <= maxMemory
    ensures ValidateServer(p, maxMemory, policy, used) == Err(CapacityOverflow) <==>
              0 < maxMemory == p.capacity && policy == "noeviction" && used + p.sum + p.reserve > U64_MAX
  {
  }

  datatype Event = Event(role: Role, op: QuotaGuard.Op)

  /** One quota per role, each with its own hard limit. */
  function RunAll(quotas: seq<QuotaGuard.Quota>, hard: seq<nat>, events: seq<Event>): seq<QuotaGuard.Quota>
    requires |quotas| == |hard| == ROLES
    ensures |RunAll(quotas, hard, events)| == ROLES
    decreases |events|
  {
    if events == [] then quotas
    else
      var role := events[0].role;
      RunAll(quotas[role := QuotaGuard.Step(quotas[role], events[0].op, hard[role])], hard, events[1..])
  }

  ghost predicate AllExact(quotas: seq<QuotaGuard.Quota>, hard: seq<nat>) {
    |quotas| == |hard| == ROLES && forall i :: 0 <= i < ROLES ==> QuotaGuard.Exact(quotas[i], hard[i])
  }

  ghost function InUse(quotas: seq<QuotaGuard.Quota>): int {
    if quotas == [] then 0 else InUse(quotas[..|quotas| - 1]) + quotas[|quotas| - 1].used
  }

  lemma {:induction false} InUseBound(quotas: seq<QuotaGuard.Quota>, roles: seq<nat>)
    requires |quotas| == |roles| && forall i :: 0 <= i < |quotas| ==> quotas[i].used <= roles[i]
    ensures InUse(quotas) <= Total(roles)
  {
    if quotas != [] { InUseBound(quotas[..|quotas| - 1], roles[..|roles| - 1]); }
  }

  lemma {:induction false} RunAllKeepsExact(quotas: seq<QuotaGuard.Quota>, hard: seq<nat>, events: seq<Event>)
    requires AllExact(quotas, hard)
    ensures AllExact(RunAll(quotas, hard, events), hard)
    decreases |events|
  {
    if events != [] {
      var role, op := events[0].role, events[0].op;
      QuotaGuard.RunKeepsExact(quotas[role], [op], hard[role]);
      assert QuotaGuard.Run(quotas[role], [op], hard[role]) == QuotaGuard.Step(quotas[role], op, hard[role]);
      RunAllKeepsExact(quotas[role := QuotaGuard.Step(quotas[role], op, hard[role])], hard, events[1..]);
    }
  }

  /**
   After the server is validated, guards whose hard limits stay within the admitted role limits
   never together consume the reserve, whatever they accept and release in whatever order.
   */
  lemma GuardsLeaveTheReserve(p: Profile, maxMemory: nat, policy: string, base: nat,
                              quotas: seq<QuotaGuard.Quota>, hard: seq<nat>, events: seq<Event>)
    requires |p.roles| == ROLES && p.sum == Total(p.roles)
    requires ValidateServer(p, maxMemory, policy, base).Ok?
    requires AllExact(quotas, hard) && forall i :: 0 <= i < ROLES ==> hard[i] <= p.roles[i]
    ensures base + InUse(RunAll(quotas, hard, events)) + p.reserve <= maxMemory
  {
    RunAllKeepsExact(quotas, hard, events);
    InUseBound(RunAll(quotas, hard, events), p.roles);
  }
}
