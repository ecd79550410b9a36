/** Host admission: the arithmetic of the shared pools, and the bound they keep over every run. */
module Admission {
  import opened BuildRows
  import opened BuildProtocol
  import opened Sums
  import Runs

  datatype Outcome = Admitted | HostExhausted | LimitExceeded | MetricsFailed

  /** A host metric: not configured, not readable, or a value. */
  datatype Metric = Absent | Unreadable | Reading(value: int)

  datatype Config = Config(
    reservedMemory: int, memoryFactor: real, reservedCPU: int, cpuFactor: real,
    buildMemory: int, buildCPUQuota: int, buildCPUPeriod: int, maxQueuedPerUser: int)

  /** The largest whole number within the factor times what is available; nothing if either is not positive. */
  function Pool(available: int, factor: real): (pool: int)
    ensures pool >= 0
    ensures available > 0 && factor > 0.0 ==> pool as real <= available as real * factor < pool as real + 1.0
    ensures available <= 0 || factor <= 0.0 ==> pool == 0
  {
    if factor <= 0.0 || available <= 0 then 0
    else
      assert available as real * factor > 0.0;
      (available as real * factor).Floor
  }

  function HostMemoryPool(total: int, reserved: int, factor: real): int {
    Pool(total - reserved, factor)
  }

  function HostCPUPool(logicalCPUs: int, reserved: int, factor: real): int {
    if logicalCPUs <= 0 then 0 else Pool(logicalCPUs * 1000 - reserved, factor)
  }

  function BuildCPUMillicores(cfg: Config): (cpu: int)
    ensures cpu >= 0
    ensures cfg.buildCPUQuota > 0 && cfg.buildCPUPeriod > 0 ==>
              cpu * cfg.buildCPUPeriod <= cfg.buildCPUQuota * 1000 < (cpu + 1) * cfg.buildCPUPeriod
  {
    if cfg.buildCPUQuota <= 0 || cfg.buildCPUPeriod <= 0 then 0
    else cfg.buildCPUQuota * 1000 / cfg.buildCPUPeriod
  }

  /** Admission into a pool: exactly when the pool is not empty and the clamped request still fits. */
  function EnsurePoolAdmission(pool: int, reserved: int, requested: int): (outcome: Outcome)
    ensures outcome.Admitted? <==> pool > 0 && reserved + requested <= pool && reserved <= pool
    ensures !outcome.Admitted? ==> outcome.HostExhausted?
  {
    var request := if requested < 0 then 0 else requested;
    if pool <= 0 then HostExhausted
    else if reserved + request > pool then HostExhausted
    else Admitted
  }

  function EnsureHostMemoryCapacity(memory: Metric, cfg: Config, reserved: int, requested: int): Outcome {
    match memory
    case Absent => Admitted
    case Unreadable => MetricsFailed
    case Reading(total) => EnsurePoolAdmission(HostMemoryPool(total, cfg.reservedMemory, cfg.memoryFactor), reserved, requested)
  }

  function EnsureHostCPUCapacity(cpus: Metric, cfg: Config, reserved: int, requested: int): Outcome {
    match cpus
    case Absent => Admitted
    case Unreadable => MetricsFailed
    case Reading(n) => EnsurePoolAdmission(HostCPUPool(n, cfg.reservedCPU, cfg.cpuFactor), reserved, requested)
  }

  /* ---- What the checks read ---- */

  datatype Reservation = Reservation(memory: nat, cpu: nat)

  datatype ContainerStatus =
    | Pending | Creating | Created | Starting | Running | Stopping
    | Exited | Exposing | Error | Missing | Deleting | Reconciling

  datatype Container = Container(reserved: Reservation, status: ContainerStatus, desired: ContainerStatus)

  /** Whether a row counts: a reservation is not stored, it is read off the two statuses each time it is summed. */
  predicate Holding(c: Container) {
    c.status != ContainerStatus.Missing && (c.status == ContainerStatus.Running || c.desired == ContainerStatus.Running)
  }

  function HeldMemory(c: Container): nat {
    if Holding(c) then c.reserved.memory else 0
  }

  function HeldCPU(c: Container): nat {
    if Holding(c) then c.reserved.cpu else 0
  }

  function MemoryOf(containers: map<Id, Container>): Id -> int {
    c => if c in containers then HeldMemory(containers[c]) else 0
  }

  function CPUOf(containers: map<Id, Container>): Id -> int {
    c => if c in containers then HeldCPU(containers[c]) else 0
  }

  ghost function TotalMemory(containers: map<Id, Container>): int {
    SumOver(containers.Keys, MemoryOf(containers))
  }

  ghost function TotalCPU(containers: map<Id, Container>): int {
    SumOver(containers.Keys, CPUOf(containers))
  }

  /** The pending and running builds with their owners: what CountActive and CountActiveByOwner count. */
  function ActiveBuilds(r: Rows): map<Id, Id> {
    map b | b in r.builds && !Terminal(r.builds[b].status) :: r.builds[b].owner
  }

  function OwnedBy(active: map<Id, Id>, owner: Id): set<Id> {
    set b | b in active && active[b] == owner
  }

  /** Who holds the capacity lock, after its checks passed and before its write. */
  datatype Lock = Free | ForBuild(owner: Id) | ForStart(id: Id, request: Reservation)

  datatype Host = Host(active: map<Id, Id>, containers: map<Id, Container>, lock: Lock)

  const EmptyHost := Host(map[], map[], Free)

  /** What containers hold, plus the active builds at so much each. */
  ghost function ReservedMemory(h: Host, buildMemory: int): int {
    TotalMemory(h.containers) + |h.active| * buildMemory
  }

  ghost function ReservedCPU(h: Host, buildCPU: int): int {
    TotalCPU(h.containers) + |h.active| * buildCPU
  }

  /** The queue limit and host capacity checks of build creation, in their order. */
  ghost function CheckBuild(h: Host, cfg: Config, memory: Metric, cpus: Metric, owner: Id): Outcome {
    if cfg.maxQueuedPerUser > 0 && |OwnedBy(h.active, owner)| >= cfg.maxQueuedPerUser then LimitExceeded
    else
      var byMemory := EnsureHostMemoryCapacity(memory, cfg, ReservedMemory(h, cfg.buildMemory), cfg.buildMemory);
      if !byMemory.Admitted? then byMemory
      else EnsureHostCPUCapacity(cpus, cfg, ReservedCPU(h, BuildCPUMillicores(cfg)), BuildCPUMillicores(cfg))
  }

  /** The container side counts builds against the CPU pool, but not against the memory pool. */
  ghost function CheckContainer(h: Host, cfg: Config, memory: Metric, cpus: Metric, request: Reservation): Outcome {
    var byMemory := EnsureHostMemoryCapacity(memory, cfg, TotalMemory(h.containers), request.memory);
    if !byMemory.Admitted? then byMemory
    else EnsureHostCPUCapacity(cpus, cfg, ReservedCPU(h, BuildCPUMillicores(cfg)), request.cpu)
  }

  /**
   Checks and writes under the lock, and what may happen at any time without it: a container is created, holding nothing
   yet; its row is removed; builds end; and any of the unchecked status writes, by which stops, deletions, failures and
   observations set one or both statuses.
   */
  datatype Step =
    | AdmitBuild(owner: Id)
    | InsertBuild(b: Id)
    | AdmitStart(id: Id, request: Reservation)
    | RecordStart
    | Unlock
    | CreateContainer(id: Id, reserved: Reservation)
    | Write(id: Id, status: ContainerStatus, desired: ContainerStatus)
    | Remove(id: Id)
    | BuildsEnd(left: map<Id, Id>)

  /** A start requests no less than its row reserves: an unset reservation is replaced by the default. */
  predicate Covers(request: Reservation, reserved: Reservation) {
    reserved.memory <= request.memory && reserved.cpu <= request.cpu
  }

  ghost predicate CanStep(h: Host, cfg: Config, memory: Metric, cpus: Metric, step: Step) {
    match step
    case AdmitBuild(owner) => h.lock.Free? && CheckBuild(h, cfg, memory, cpus, owner).Admitted?
    case InsertBuild(b) => h.lock.ForBuild? && b !in h.active
    case AdmitStart(id, request) =>
      && h.lock.Free? && id in h.containers && Covers(request, h.containers[id].reserved)
      && CheckContainer(h, cfg, memory, cpus, request).Admitted?
    case RecordStart => h.lock.ForStart?
    case Unlock => true
    case CreateContainer(id, reserved) => id !in h.containers && !(h.lock.ForStart? && h.lock.id == id)  // ids are fresh
    case Write(id, status, desired) => id in h.containers
    case Remove(id) => true
    case BuildsEnd(left) => left.Items <= h.active.Items
  }

  ghost function Next(h: Host, step: Step): Host {
    match step
    case AdmitBuild(owner) => h.(lock := ForBuild(owner))
    case InsertBuild(b) => if h.lock.ForBuild? then h.(active := h.active[b := h.lock.owner], lock := Free) else h
    case AdmitStart(id, request) => h.(lock := ForStart(id, request))
    case RecordStart =>
      if h.lock.ForStart? && h.lock.id in h.containers then
        h.(containers := SetStatus(h.containers, h.lock.id, ContainerStatus.Starting, ContainerStatus.Running), lock := Free)
      else h.(lock := Free)
    case Unlock => h.(lock := Free)
    case CreateContainer(id, reserved) =>
      h.(containers := h.containers[id := Container(reserved, ContainerStatus.Pending, ContainerStatus.Created)])
    case Write(id, status, desired) =>
      if id in h.containers then h.(containers := SetStatus(h.containers, id, status, desired)) else h
    case Remove(id) => h.(containers := h.containers - {id})
    case BuildsEnd(left) => h.(active := left)
  }

  function SetStatus(containers: map<Id, Container>, id: Id, status: ContainerStatus, desired: ContainerStatus): map<Id, Container>
    requires id in containers
  {
    containers[id := containers[id].(status := status, desired := desired)]
  }

  /** A row that did not count and counts after an unchecked write: its reservation comes back without admission. */
  predicate Returns(h: Host, step: Step) {
    && step.Write? && step.id in h.containers && !Holding(h.containers[step.id])
    && Holding(h.containers[step.id].(status := step.status, desired := step.desired))
  }

  function ReturnedCPU(h: Host, step: Step): nat {
    if Returns(h, step) then h.containers[step.id].reserved.cpu else 0
  }

  function ReturnedMemory(h: Host, step: Step): nat {
    if Returns(h, step) then h.containers[step.id].reserved.memory else 0
  }

  /** On the protocol's side: creation adds its build to the active ones, and no other step adds any. */
  lemma ProtocolStepsAreHostSteps(s: State, a: Action)
    requires RowsLinked(s) && Enabled(s, a)
    ensures a.Create? ==> a.b !in ActiveBuilds(s.rows)
                          && ActiveBuilds(Apply(s, a).rows) == ActiveBuilds(s.rows)[a.b := a.owner]
    ensures !a.Create? ==> ActiveBuilds(Apply(s, a).rows).Items <= ActiveBuilds(s.rows).Items
  {
    if !a.Create? { OnlyCreationAdds(s, a); }
  }

  lemma OnlyCreationAdds(s: State, a: Action)
    requires RowsLinked(s) && Enabled(s, a) && !a.Create?
    ensures ActiveBuilds(Apply(s, a).rows).Items <= ActiveBuilds(s.rows).Items
  {
    var t := Apply(s, a);
    forall item | item in ActiveBuilds(t.rows).Items ensures item in ActiveBuilds(s.rows).Items {
      BuildMovesStep(s, a, item.0);
      KeptActive(s, t, item.0);
    }
  }

  lemma KeptActive(s: State, t: State, b: Id)
    requires RowsLinked(s) && BuildMoves(s, t, b) && ActiveBuild(t.rows, b) && b in s.rows.builds
    ensures ActiveBuild(s.rows, b) && s.rows.builds[b].owner == t.rows.builds[b].owner
  {
  }

  /* ---- Sums over changing rows ---- */

  lemma SubsetSize<T>(small: set<T>, big: set<T>)
    requires small <= big
    ensures |small| <= |big|
  {
    assert big == small + (big - small);
  }

  lemma FewerActive(left: map<Id, Id>, active: map<Id, Id>, owner: Id)
    requires left.Items <= active.Items
    ensures |left| <= |active| && |OwnedBy(left, owner)| <= |OwnedBy(active, owner)|
  {
    forall b | b in left ensures b in active && left[b] == active[b] {
      assert (b, left[b]) in active.Items;
    }
    SubsetSize(left.Keys, active.Keys);
    SubsetSize(OwnedBy(left, owner), OwnedBy(active, owner));
  }

  lemma Scale(n: int, m: int, x: int)
    requires n <= m && x >= 0
    ensures n * x <= m * x
  {
  }

  lemma RowSet(containers: map<Id, Container>, id: Id, row: Container)
    ensures TotalCPU(containers[id := row])
            == TotalCPU(containers) - (if id in containers then HeldCPU(containers[id]) else 0) + HeldCPU(row)
    ensures TotalMemory(containers[id := row])
            == TotalMemory(containers) - (if id in containers then HeldMemory(containers[id]) else 0) + HeldMemory(row)
  {
    var more := containers[id := row];
    SumRemove(more.Keys, id, CPUOf(more));
    SumRemove(more.Keys, id, MemoryOf(more));
    assert more.Keys - {id} == containers.Keys - {id};
    SumSame(containers.Keys - {id}, CPUOf(containers), CPUOf(more));
    SumSame(containers.Keys - {id}, MemoryOf(containers), MemoryOf(more));
    if id in containers {
      SumRemove(containers.Keys, id, CPUOf(containers));
      SumRemove(containers.Keys, id, MemoryOf(containers));
    } else {
      assert containers.Keys - {id} == containers.Keys;
    }
  }

  lemma RowRemoved(containers: map<Id, Container>, id: Id)
    ensures TotalCPU(containers - {id}) <= TotalCPU(containers)
    ensures TotalMemory(containers - {id}) <= TotalMemory(containers)
  {
    var less := containers - {id};
    SumSame(less.Keys, CPUOf(less), CPUOf(containers));
    SumSame(less.Keys, MemoryOf(less), MemoryOf(containers));
    assert less.Keys == containers.Keys - {id};
    SumPart(less.Keys, containers.Keys, CPUOf(containers));
    SumPart(less.Keys, containers.Keys, MemoryOf(containers));
  }

  lemma OneMore(active: map<Id, Id>, b: Id, owner: Id)
    requires b !in active
    ensures |active[b := owner]| == |active| + 1
  {
    assert active[b := owner].Keys == active.Keys + {b};
  }

  lemma Distribute(n: int, unit: int)
    ensures (n + 1) * unit == n * unit + unit
  {
  }

  lemma OneMoreOwned(active: map<Id, Id>, b: Id, whose: Id, owner: Id)
    requires b !in active
    ensures |OwnedBy(active[b := whose], owner)| == |OwnedBy(active, owner)| + if whose == owner then 1 else 0
  {
    assert OwnedBy(active[b := whose], owner) == OwnedBy(active, owner) + if whose == owner then {b} else {};
  }

  lemma InsertAddsUnit(h: Host, b: Id, owner: Id, unit: int)
    requires b !in h.active
    ensures ReservedCPU(h.(active := h.active[b := owner], lock := Free), unit) == ReservedCPU(h, unit) + unit
    ensures ReservedMemory(h.(active := h.active[b := owner], lock := Free), unit) == ReservedMemory(h, unit) + unit
  {
    OneMore(h.active, b, owner);
    Distribute(|h.active|, unit);
  }

  lemma EndsShrink(h: Host, left: map<Id, Id>, unit: int)
    requires unit >= 0 && left.Items <= h.active.Items
    ensures ReservedCPU(h.(active := left), unit) <= ReservedCPU(h, unit)
    ensures ReservedMemory(h.(active := left), unit) <= ReservedMemory(h, unit)
  {
    FewerActive(left, h.active, 0);
    Scale(|left|, |h.active|, unit);
  }

  /* ---- The bounds ---- */

  /** What the holder of the lock may still add. */
  function PromisedCPU(h: Host, buildCPU: int): int {
    match h.lock
    case Free => 0
    case ForBuild(_) => buildCPU
    case ForStart(_, request) => request.cpu
  }

  predicate PromiseCovers(h: Host) {
    h.lock.ForStart? && h.lock.id in h.containers ==> Covers(h.lock.request, h.containers[h.lock.id].reserved)
  }

  /** The CPU reserved, and promised under the lock, fits the pool. */
  ghost predicate WithinCPU(h: Host, buildCPU: int, pool: int) {
    PromiseCovers(h) && ReservedCPU(h, buildCPU) + PromisedCPU(h, buildCPU) <= pool
  }

  ghost predicate WithinMemory(h: Host, buildMemory: int, pool: int) {
    ReservedMemory(h, buildMemory) + (if h.lock.ForBuild? then buildMemory else 0) <= pool
  }

  ghost predicate WithinQueue(h: Host, limit: int, owner: Id) {
    |OwnedBy(h.active, owner)| + (if h.lock == ForBuild(owner) then 1 else 0) <= limit
  }

  /** The checks that admission makes, against any bound. */
  ghost predicate AdmitsCPU(h: Host, unit: int, bound: int, step: Step) {
    && (step.AdmitBuild? ==> ReservedCPU(h, unit) + unit <= bound)
    && (step.AdmitStart? ==> step.id in h.containers && Covers(step.request, h.containers[step.id].reserved)
                             && ReservedCPU(h, unit) + step.request.cpu <= bound)
    && (step.InsertBuild? ==> step.b !in h.active)
    && (step.CreateContainer? ==> step.id !in h.containers && !(h.lock.ForStart? && h.lock.id == step.id))
    && (step.BuildsEnd? ==> step.left.Items <= h.active.Items)
  }

  /** One step adds no more than what it returns. */
  lemma StepKeepsCPU(h: Host, unit: int, bound: int, step: Step)
    requires unit >= 0 && WithinCPU(h, unit, bound) && AdmitsCPU(h, unit, bound, step)
    ensures WithinCPU(Next(h, step), unit, bound + ReturnedCPU(h, step))
  {
    match step
    case AdmitBuild(_) | InsertBuild(_) | BuildsEnd(_) => BuildStepKeepsCPU(h, unit, bound, step);
    case CreateContainer(_, _) => CreateKeepsCPU(h, unit, bound, step);
    case Write(_, _, _) => WriteKeepsCPU(h, unit, bound, step);
    case Remove(_) => RemoveKeepsCPU(h, unit, bound, step);
    case RecordStart => if h.lock.ForStart? && h.lock.id in h.containers { StartAdds(h); }
    case _ =>
  }

  lemma BuildStepKeepsCPU(h: Host, unit: int, bound: int, step: Step)
    requires unit >= 0 && WithinCPU(h, unit, bound) && AdmitsCPU(h, unit, bound, step)
    requires step.AdmitBuild? || step.InsertBuild? || step.BuildsEnd?
    ensures WithinCPU(Next(h, step), unit, bound)
  {
    match step
    case InsertBuild(b) => if h.lock.ForBuild? { InsertAddsUnit(h, b, h.lock.owner, unit); }
    case BuildsEnd(left) => EndsShrink(h, left, unit);
    case _ =>
  }

  lemma CreateKeepsCPU(h: Host, unit: int, bound: int, step: Step)
    requires WithinCPU(h, unit, bound) && AdmitsCPU(h, unit, bound, step) && step.CreateContainer?
    ensures WithinCPU(Next(h, step), unit, bound)
  {
    var row := Container(step.reserved, ContainerStatus.Pending, ContainerStatus.Created);
    RowSet(h.containers, step.id, row);
    assert Next(h, step) == h.(containers := h.containers[step.id := row]) && HeldCPU(row) == 0;
  }

  lemma WriteKeepsCPU(h: Host, unit: int, bound: int, step: Step)
    requires WithinCPU(h, unit, bound) && step.Write?
    ensures WithinCPU(Next(h, step), unit, bound + ReturnedCPU(h, step))
  {
    if step.id in h.containers { WriteChanges(h, step, unit); }
  }

  lemma RemoveKeepsCPU(h: Host, unit: int, bound: int, step: Step)
    requires WithinCPU(h, unit, bound) && step.Remove?
    ensures WithinCPU(Next(h, step), unit, bound)
  {
    RowRemoved(h.containers, step.id);
  }

  /** A status write changes the sums by what the row held and holds, and no promise. */
  lemma WriteChanges(h: Host, step: Step, unit: int)
    requires step.Write? && step.id in h.containers
    ensures var row, row' := h.containers[step.id], Next(h, step).containers[step.id];
            && ReservedCPU(Next(h, step), unit) == ReservedCPU(h, unit) - HeldCPU(row) + HeldCPU(row')
            && HeldCPU(row') - HeldCPU(row) <= ReturnedCPU(h, step)
            && (Returns(h, step) ==> HeldCPU(row) == 0 && HeldCPU(row') == ReturnedCPU(h, step))
    ensures PromiseCovers(Next(h, step)) == PromiseCovers(h) && PromisedCPU(Next(h, step), unit) == PromisedCPU(h, unit)
  {
    RowSet(h.containers, step.id, Next(h, step).containers[step.id]);
  }

  lemma StartAdds(h: Host)
    requires h.lock.ForStart? && h.lock.id in h.containers
    ensures var row := h.containers[h.lock.id];
            && TotalCPU(Next(h, RecordStart).containers) == TotalCPU(h.containers) + row.reserved.cpu - HeldCPU(row)
            && TotalMemory(Next(h, RecordStart).containers) == TotalMemory(h.containers) + row.reserved.memory - HeldMemory(row)
  {
    RowSet(h.containers, h.lock.id, Next(h, RecordStart).containers[h.lock.id]);
  }

  /** Whether what an unchecked write returns still fits beside what is reserved and promised. */
  ghost predicate ReturnFits(h: Host, unit: int, pool: int, step: Step) {
    Returns(h, step) ==> ReservedCPU(h, unit) + PromisedCPU(h, unit) + ReturnedCPU(h, step) <= pool
  }

  /** A status write keeps the CPU bound exactly when what it returns fits. */
  lemma ReturnFitsExactly(h: Host, unit: int, pool: int, step: Step)
    requires WithinCPU(h, unit, pool) && step.Write? && step.id in h.containers
    ensures WithinCPU(Next(h, step), unit, pool) <==> ReturnFits(h, unit, pool, step)
  {
    WriteChanges(h, step, unit);
  }

  lemma StepKeepsMemory(h: Host, unit: int, bound: int, step: Step)
    requires unit >= 0 && WithinMemory(h, unit, bound) && !step.RecordStart?
    requires step.AdmitBuild? ==> ReservedMemory(h, unit) + unit <= bound
    requires step.InsertBuild? ==> step.b !in h.active
    requires step.CreateContainer? ==> step.id !in h.containers
    requires step.BuildsEnd? ==> step.left.Items <= h.active.Items
    ensures WithinMemory(Next(h, step), unit, bound + ReturnedMemory(h, step))
  {
    match step
    case InsertBuild(b) => if h.lock.ForBuild? { InsertAddsUnit(h, b, h.lock.owner, unit); }
    case CreateContainer(id, reserved) => RowSet(h.containers, id, Next(h, step).containers[id]);
    case Write(id, _, _) => if id in h.containers { RowSet(h.containers, id, Next(h, step).containers[id]); }
    case Remove(id) => RowRemoved(h.containers, id);
    case BuildsEnd(left) => EndsShrink(h, left, unit);
    case _ =>
  }

  lemma StepKeepsQueue(h: Host, limit: int, step: Step, owner: Id)
    requires limit > 0 && WithinQueue(h, limit, owner)
    requires step.AdmitBuild? ==> |OwnedBy(h.active, step.owner)| < limit
    requires step.InsertBuild? ==> step.b !in h.active
    requires step.BuildsEnd? ==> step.left.Items <= h.active.Items
    ensures WithinQueue(Next(h, step), limit, owner)
  {
    match step
    case InsertBuild(b) => if h.lock.ForBuild? { OneMoreOwned(h.active, b, h.lock.owner, owner); }
    case BuildsEnd(left) => FewerActive(left, h.active, owner);
    case _ =>
  }

  lemma QueueAdmits(h: Host, cfg: Config, memory: Metric, cpus: Metric, step: Step)
    requires cfg.maxQueuedPerUser > 0 && CanStep(h, cfg, memory, cpus, step)
    ensures step.AdmitBuild? ==> |OwnedBy(h.active, step.owner)| < cfg.maxQueuedPerUser
    ensures step.InsertBuild? ==> step.b !in h.active
    ensures step.BuildsEnd? ==> step.left.Items <= h.active.Items
  {
  }

  /* ---- Over whole runs ---- */

  /** A run: each host is what the step before it made of the host before it. */
  ghost predicate IsRun(cfg: Config, memory: Metric, cpus: Metric, hosts: seq<Host>, steps: seq<Step>) {
    && |hosts| == |steps| + 1
    && forall i :: 0 <= i < |steps| ==> RunStep(cfg, memory, cpus, hosts[i], steps[i], hosts[i + 1])
  }

  ghost predicate RunStep(cfg: Config, memory: Metric, cpus: Metric, h: Host, step: Step, h': Host) {
    CanStep(h, cfg, memory, cpus, step) && h' == Next(h, step)
  }

  lemma RunAdmits(cfg: Config, memory: Metric, n: int, h: Host, step: Step, h': Host, bound: int)
    requires RunStep(cfg, memory, Reading(n), h, step, h') && HostCPUPool(n, cfg.reservedCPU, cfg.cpuFactor) <= bound
    ensures AdmitsCPU(h, BuildCPUMillicores(cfg), bound, step)
  {
  }

  /** Every host of a run is within the CPU bound. */
  ghost predicate StaysWithinCPU(hosts: seq<Host>, unit: int, pool: int) {
    forall i :: 0 <= i < |hosts| ==> WithinCPU(hosts[i], unit, pool)
  }

  /** Everything that comes back without admission fits when it does. */
  ghost predicate ReturnsFit(hosts: seq<Host>, steps: seq<Step>, unit: int, pool: int)
    requires |hosts| == |steps| + 1
  {
    forall i :: 0 <= i < |steps| ==> ReturnFits(hosts[i], unit, pool, steps[i])
  }

  /**
   Builds and containers interleaved: every host of a run keeps container CPU plus build CPU in the pool exactly when
   everything that comes back without admission fits when it does.
   */
  lemma AdmissionIsInvariant(cfg: Config, memory: Metric, n: int, hosts: seq<Host>, steps: seq<Step>)
    requires IsRun(cfg, memory, Reading(n), hosts, steps)
    requires WithinCPU(hosts[0], BuildCPUMillicores(cfg), HostCPUPool(n, cfg.reservedCPU, cfg.cpuFactor))
    ensures var unit, pool := BuildCPUMillicores(cfg), HostCPUPool(n, cfg.reservedCPU, cfg.cpuFactor);
            StaysWithinCPU(hosts, unit, pool) <==> ReturnsFit(hosts, steps, unit, pool)
  {
    var unit, pool := BuildCPUMillicores(cfg), HostCPUPool(n, cfg.reservedCPU, cfg.cpuFactor);
    if ReturnsFit(hosts, steps, unit, pool) {
      forall k | 0 <= k < |hosts| ensures WithinCPU(hosts[k], unit, pool) { FittingRun(cfg, memory, n, hosts, steps, k); }
    }
    if StaysWithinCPU(hosts, unit, pool) {
      forall i | 0 <= i < |steps| ensures ReturnFits(hosts[i], unit, pool, steps[i]) {
        assert RunStep(cfg, memory, Reading(n), hosts[i], steps[i], hosts[i + 1]);
        assert WithinCPU(hosts[i + 1], unit, pool);
        if Returns(hosts[i], steps[i]) { ReturnFitsExactly(hosts[i], unit, pool, steps[i]); }
      }
    }
  }

  lemma {:induction false} FittingRun(cfg: Config, memory: Metric, n: int, hosts: seq<Host>, steps: seq<Step>, k: nat)
    requires IsRun(cfg, memory, Reading(n), hosts, steps) && k <= |steps|
    requires WithinCPU(hosts[0], BuildCPUMillicores(cfg), HostCPUPool(n, cfg.reservedCPU, cfg.cpuFactor))
    requires ReturnsFit(hosts, steps, BuildCPUMillicores(cfg), HostCPUPool(n, cfg.reservedCPU, cfg.cpuFactor))
    ensures WithinCPU(hosts[k], BuildCPUMillicores(cfg), HostCPUPool(n, cfg.reservedCPU, cfg.cpuFactor))
  {
    if k > 0 {
      FittingRun(cfg, memory, n, hosts, steps, k - 1);
      assert RunStep(cfg, memory, Reading(n), hosts[k - 1], steps[k - 1], hosts[k - 1 + 1]);
      FittingStep(cfg, memory, n, hosts[k - 1], steps[k - 1], hosts[k]);
    }
  }

  lemma FittingStep(cfg: Config, memory: Metric, n: int, h: Host, step: Step, h': Host)
    requires RunStep(cfg, memory, Reading(n), h, step, h')
    requires WithinCPU(h, BuildCPUMillicores(cfg), HostCPUPool(n, cfg.reservedCPU, cfg.cpuFactor))
    requires ReturnFits(h, BuildCPUMillicores(cfg), HostCPUPool(n, cfg.reservedCPU, cfg.cpuFactor), step)
    ensures WithinCPU(h', BuildCPUMillicores(cfg), HostCPUPool(n, cfg.reservedCPU, cfg.cpuFactor))
  {
    if Returns(h, step) {
      ReturnFitsExactly(h, BuildCPUMillicores(cfg), HostCPUPool(n, cfg.reservedCPU, cfg.cpuFactor), step);
    } else {
      RunAdmits(cfg, memory, n, h, step, h', HostCPUPool(n, cfg.reservedCPU, cfg.cpuFactor));
      StepKeepsCPU(h, BuildCPUMillicores(cfg), HostCPUPool(n, cfg.reservedCPU, cfg.cpuFactor), step);
    }
  }

  function TotalReturned(hosts: seq<Host>, steps: seq<Step>): nat
    requires |hosts| == |steps| + 1
  {
    if steps == [] then 0
    else TotalReturned(hosts[..|steps|], steps[..|steps| - 1]) + ReturnedCPU(hosts[|steps| - 1], steps[|steps| - 1])
  }

  /** In any run whatever, CPU exceeds the pool by at most what came back without admission. */
  lemma {:induction false} ExcessIsWhatReturned(cfg: Config, memory: Metric, n: int, hosts: seq<Host>, steps: seq<Step>)
    requires IsRun(cfg, memory, Reading(n), hosts, steps)
    requires WithinCPU(hosts[0], BuildCPUMillicores(cfg), HostCPUPool(n, cfg.reservedCPU, cfg.cpuFactor))
    ensures WithinCPU(hosts[|steps|], BuildCPUMillicores(cfg),
                      HostCPUPool(n, cfg.reservedCPU, cfg.cpuFactor) + TotalReturned(hosts, steps))
    decreases |steps|
  {
    if steps != [] {
      var last := |steps| - 1;
      ExcessIsWhatReturned(cfg, memory, n, hosts[..last + 1], steps[..last]);
      var bound := HostCPUPool(n, cfg.reservedCPU, cfg.cpuFactor) + TotalReturned(hosts[..last + 1], steps[..last]);
      assert RunStep(cfg, memory, Reading(n), hosts[last], steps[last], hosts[last + 1]);
      RunAdmits(cfg, memory, n, hosts[last], steps[last], hosts[last + 1], bound);
      StepKeepsCPU(hosts[last], BuildCPUMillicores(cfg), bound, steps[last]);
    }
  }

  /** The queue limit holds in every run: nothing but admission adds a build. */
  lemma {:induction false} QueueIsInvariant(cfg: Config, memory: Metric, cpus: Metric, hosts: seq<Host>, steps: seq<Step>, owner: Id)
    requires IsRun(cfg, memory, cpus, hosts, steps)
    requires cfg.maxQueuedPerUser > 0 && WithinQueue(hosts[0], cfg.maxQueuedPerUser, owner)
    ensures WithinQueue(hosts[|steps|], cfg.maxQueuedPerUser, owner)
    decreases |steps|
  {
    if steps != [] {
      var last := |steps| - 1;
      QueueIsInvariant(cfg, memory, cpus, hosts[..last + 1], steps[..last], owner);
      assert RunStep(cfg, memory, cpus, hosts[last], steps[last], hosts[last + 1]);
      QueueAdmits(hosts[last], cfg, memory, cpus, steps[last]);
      StepKeepsQueue(hosts[last], cfg.maxQueuedPerUser, steps[last], owner);
    }
  }

  function TotalReturnedMemory(hosts: seq<Host>, steps: seq<Step>): nat
    requires |hosts| == |steps| + 1
  {
    if steps == [] then 0
    else TotalReturnedMemory(hosts[..|steps|], steps[..|steps| - 1]) + ReturnedMemory(hosts[|steps| - 1], steps[|steps| - 1])
  }

  /** While no start is recorded, container memory plus build memory exceeds the pool by at most what came back. */
  lemma {:induction false} MemoryIsInvariantForBuilds(cfg: Config, m: int, cpus: Metric, hosts: seq<Host>, steps: seq<Step>)
    requires IsRun(cfg, Reading(m), cpus, hosts, steps) && cfg.buildMemory >= 0
    requires forall i :: 0 <= i < |steps| ==> !steps[i].RecordStart?
    requires WithinMemory(hosts[0], cfg.buildMemory, HostMemoryPool(m, cfg.reservedMemory, cfg.memoryFactor))
    ensures WithinMemory(hosts[|steps|], cfg.buildMemory,
                         HostMemoryPool(m, cfg.reservedMemory, cfg.memoryFactor) + TotalReturnedMemory(hosts, steps))
    decreases |steps|
  {
    if steps != [] {
      var last := |steps| - 1;
      MemoryIsInvariantForBuilds(cfg, m, cpus, hosts[..last + 1], steps[..last]);
      var bound := HostMemoryPool(m, cfg.reservedMemory, cfg.memoryFactor) + TotalReturnedMemory(hosts[..last + 1], steps[..last]);
      assert RunStep(cfg, Reading(m), cpus, hosts[last], steps[last], hosts[last + 1]);
      StepKeepsMemory(hosts[last], cfg.buildMemory, bound, steps[last]);
    }
  }

  lemma EmptyHostFits(unit: int, pool: int)
    requires pool >= 0
    ensures WithinCPU(EmptyHost, unit, pool) && WithinMemory(EmptyHost, 0, pool)
  {
    assert |EmptyHost.active| == 0 && EmptyHost.containers.Keys == {};
  }

  lemma ReservedIsWithin(h: Host, unit: int, bound: int)
    requires unit >= 0 && WithinCPU(h, unit, bound)
    ensures ReservedCPU(h, unit) <= bound
  {
  }

  /** Any run from an empty host: where CPU ends up, when the pool is kept all along, and the queue limit. */
  lemma EveryRunFits(cfg: Config, memory: Metric, n: int, hosts: seq<Host>, steps: seq<Step>, owner: Id)
    requires IsRun(cfg, memory, Reading(n), hosts, steps) && hosts[0] == EmptyHost
    ensures var unit, pool := BuildCPUMillicores(cfg), HostCPUPool(n, cfg.reservedCPU, cfg.cpuFactor);
            && ReservedCPU(hosts[|steps|], unit) <= pool + TotalReturned(hosts, steps)
            && (StaysWithinCPU(hosts, unit, pool) <==> ReturnsFit(hosts, steps, unit, pool))
    ensures cfg.maxQueuedPerUser > 0 ==> |OwnedBy(hosts[|steps|].active, owner)| <= cfg.maxQueuedPerUser
  {
    assert OwnedBy(map[], owner) == {};
    EmptyHostFits(BuildCPUMillicores(cfg), HostCPUPool(n, cfg.reservedCPU, cfg.cpuFactor));
    AdmissionIsInvariant(cfg, memory, n, hosts, steps);
    ExcessIsWhatReturned(cfg, memory, n, hosts, steps);
    ReservedIsWithin(hosts[|steps|], BuildCPUMillicores(cfg),
                     HostCPUPool(n, cfg.reservedCPU, cfg.cpuFactor) + TotalReturned(hosts, steps));
    if cfg.maxQueuedPerUser > 0 { QueueIsInvariant(cfg, memory, Reading(n), hosts, steps, owner); }
  }

  /* ---- Where the bounds end ---- */

  lemma Onwards(cfg: Config, memory: Metric, cpus: Metric, hosts: seq<Host>, steps: seq<Step>, step: Step)
    requires IsRun(cfg, memory, cpus, hosts, steps) && CanStep(hosts[|steps|], cfg, memory, cpus, step)
    ensures IsRun(cfg, memory, cpus, hosts + [Next(hosts[|steps|], step)], steps + [step])
  {
    var hosts', steps' := hosts + [Next(hosts[|steps|], step)], steps + [step];
    forall i | 0 <= i < |steps'| ensures RunStep(cfg, memory, cpus, hosts'[i], steps'[i], hosts'[i + 1]) {
      if i < |steps| { assert RunStep(cfg, memory, cpus, hosts[i], steps[i], hosts[i + 1]); }
    }
  }

  /** One container in a given state, beside some builds. */
  function OneContainer(active: map<Id, Id>, reserved: Reservation, status: ContainerStatus, desired: ContainerStatus, lock: Lock): Host {
    Host(active, map[3 := Container(reserved, status, desired)], lock)
  }

  lemma OneContainerHolds(h: Host, row: Container, unit: int)
    requires h.containers == map[3 := row]
    ensures ReservedCPU(h, unit) == |h.active| * unit + HeldCPU(row)
    ensures TotalMemory(h.containers) == HeldMemory(row) && ReservedMemory(h, unit) == |h.active| * unit + HeldMemory(row)
  {
    assert h.containers.Keys == {3};
    SumRemove({3}, 3, CPUOf(h.containers));
    SumRemove({3}, 3, MemoryOf(h.containers));
    assert {3} - {3} == {};
  }

  lemma Took(cfg: Config, memory: Metric, cpus: Metric, hosts: seq<Host>, steps: seq<Step>, h: Host, step: Step, h': Host)
    returns (hosts': seq<Host>, steps': seq<Step>)
    requires IsRun(cfg, memory, cpus, hosts, steps) && hosts[|steps|] == h
    requires CanStep(h, cfg, memory, cpus, step) && Next(h, step) == h'
    ensures IsRun(cfg, memory, cpus, hosts', steps') && hosts'[|steps'|] == h' && hosts'[0] == hosts[0]
  {
    Onwards(cfg, memory, cpus, hosts, steps, step);
    hosts', steps' := hosts + [h'], steps + [step];
  }

  // A build takes half of the CPU, 500 millicores; the container takes all of it.
  const HalfCPU := Config(0, 1.0, 0, 1.0, 0, 500, 1000, 10)
  const AllCPU := Reservation(0, 1000)

  function WhenStopping(active: map<Id, Id>, lock: Lock): Host {
    OneContainer(active, AllCPU, ContainerStatus.Stopping, ContainerStatus.Exited, lock)
  }

  function WhenCreated(reserved: Reservation, active: map<Id, Id>, lock: Lock): Host {
    OneContainer(active, reserved, ContainerStatus.Pending, ContainerStatus.Created, lock)
  }

  lemma BuildIsAdmitted(active: map<Id, Id>, b: Id, hosts: seq<Host>, steps: seq<Step>) returns (hosts': seq<Host>, steps': seq<Step>)
    requires |active| <= 1 && b !in active
    requires IsRun(HalfCPU, Absent, Reading(1), hosts, steps) && hosts[|steps|] == WhenStopping(active, Free)
    ensures IsRun(HalfCPU, Absent, Reading(1), hosts', steps') && hosts'[|steps'|] == WhenStopping(active[b := 7], Free)
    ensures hosts'[0] == hosts[0]
  {
    OneContainerHolds(WhenStopping(active, Free), Container(AllCPU, ContainerStatus.Stopping, ContainerStatus.Exited), 500);
    SubsetSize(OwnedBy(active, 7), active.Keys);
    hosts', steps' := Took(HalfCPU, Absent, Reading(1), hosts, steps,
                           WhenStopping(active, Free), AdmitBuild(7), WhenStopping(active, ForBuild(7)));
    hosts', steps' := Took(HalfCPU, Absent, Reading(1), hosts', steps',
                           WhenStopping(active, ForBuild(7)), InsertBuild(b), WhenStopping(active[b := 7], Free));
  }

  lemma StartIsAdmitted(cfg: Config, memory: Metric, cpus: Metric, reserved: Reservation, active: map<Id, Id>, hosts: seq<Host>, steps: seq<Step>)
    returns (hosts': seq<Host>, steps': seq<Step>)
    requires IsRun(cfg, memory, cpus, hosts, steps) && hosts[|steps|] == WhenCreated(reserved, active, Free)
    requires CheckContainer(WhenCreated(reserved, active, Free), cfg, memory, cpus, reserved).Admitted?
    ensures IsRun(cfg, memory, cpus, hosts', steps') && hosts'[0] == hosts[0]
    ensures hosts'[|steps'|] == OneContainer(active, reserved, ContainerStatus.Starting, ContainerStatus.Running, Free)
  {
    hosts', steps' := Took(cfg, memory, cpus, hosts, steps, WhenCreated(reserved, active, Free), AdmitStart(3, reserved),
                           WhenCreated(reserved, active, ForStart(3, reserved)));
    hosts', steps' := Took(cfg, memory, cpus, hosts', steps', WhenCreated(reserved, active, ForStart(3, reserved)), RecordStart,
                           OneContainer(active, reserved, ContainerStatus.Starting, ContainerStatus.Running, Free));
  }

  lemma StoppingContainer() returns (hosts: seq<Host>, steps: seq<Step>)
    ensures IsRun(HalfCPU, Absent, Reading(1), hosts, steps) && hosts[0] == EmptyHost
    ensures hosts[|steps|] == WhenStopping(map[], Free)
  {
    var created := WhenCreated(AllCPU, map[], Free);
    hosts, steps := [EmptyHost], [];
    hosts, steps := Took(HalfCPU, Absent, Reading(1), hosts, steps, EmptyHost, CreateContainer(3, AllCPU), created);
    OneContainerHolds(created, Container(AllCPU, ContainerStatus.Pending, ContainerStatus.Created), 500);
    assert |EmptyHost.active| == 0;
    hosts, steps := StartIsAdmitted(HalfCPU, Absent, Reading(1), AllCPU, map[], hosts, steps);
    hosts, steps := Took(HalfCPU, Absent, Reading(1), hosts, steps,
                         OneContainer(map[], AllCPU, ContainerStatus.Starting, ContainerStatus.Running, Free),
                         Write(3, ContainerStatus.Stopping, ContainerStatus.Exited), WhenStopping(map[], Free));
  }

  const TwoActive: map<Id, Id> := map[1 := 7, 2 := 7]

  lemma TwoBuildsAreAdmitted(hosts: seq<Host>, steps: seq<Step>) returns (hosts': seq<Host>, steps': seq<Step>)
    requires IsRun(HalfCPU, Absent, Reading(1), hosts, steps) && hosts[|steps|] == WhenStopping(map[], Free)
    ensures IsRun(HalfCPU, Absent, Reading(1), hosts', steps') && hosts'[|steps'|] == WhenStopping(TwoActive, Free)
    ensures hosts'[0] == hosts[0]
  {
    var none: map<Id, Id> := map[];
    hosts', steps' := BuildIsAdmitted(none, 1, hosts, steps);
    OneMore(none, 1, 7);
    hosts', steps' := BuildIsAdmitted(none[1 := 7], 2, hosts', steps');
    assert none[1 := 7][2 := 7] == TwoActive;
  }

  lemma TwiceThePool(h: Host)
    requires h == OneContainer(TwoActive, AllCPU, ContainerStatus.Running, ContainerStatus.Exited, Free)
    ensures ReservedCPU(h, BuildCPUMillicores(HalfCPU)) == 2000
  {
    OneContainerHolds(h, Container(AllCPU, ContainerStatus.Running, ContainerStatus.Exited), 500);
    var none: map<Id, Id> := map[];
    OneMore(none, 1, 7);
    OneMore(none[1 := 7], 2, 7);
    assert none[1 := 7][2 := 7] == TwoActive;
  }

  /**
   The CPU bound can be passed: a container that fills the pool is being stopped, two builds take its place, and the stop
   fails for good, which restores the status it had. Twice the pool is then reserved.
   */
  lemma FailedStopPassesThePool() returns (hosts: seq<Host>, steps: seq<Step>)
    ensures IsRun(HalfCPU, Absent, Reading(1), hosts, steps) && hosts[0] == EmptyHost
    ensures ReservedCPU(hosts[|steps|], BuildCPUMillicores(HalfCPU)) == 2000
    ensures HostCPUPool(1, HalfCPU.reservedCPU, HalfCPU.cpuFactor) == 1000
  {
    hosts, steps := StoppingContainer();
    hosts, steps := TwoBuildsAreAdmitted(hosts, steps);
    var restored := OneContainer(TwoActive, AllCPU, ContainerStatus.Running, ContainerStatus.Exited, Free);
    hosts, steps := Took(HalfCPU, Absent, Reading(1), hosts, steps, WhenStopping(TwoActive, Free),
                         Write(3, ContainerStatus.Running, ContainerStatus.Exited), restored);
    TwiceThePool(restored);
  }

  /**
   Recording an admitted start keeps the joint memory bound exactly when the container also fits beside the builds, which
   its check does not ask.
   */
  lemma RecordingFitsExactly(h: Host, unit: int, pool: int)
    requires h.lock.ForStart? && h.lock.id in h.containers
    ensures var row := h.containers[h.lock.id];
            WithinMemory(Next(h, RecordStart), unit, pool)
            <==> ReservedMemory(h, unit) + (if Holding(row) then 0 else row.reserved.memory) <= pool
  {
    StartAdds(h);
  }

  // A build takes half of the memory, 50 of 100; the container takes all of it.
  const HalfMemory := Config(0, 1.0, 0, 1.0, 50, 0, 0, 10)
  const AllMemory := Reservation(100, 0)

  lemma BuildBesideContainer() returns (hosts: seq<Host>, steps: seq<Step>)
    ensures IsRun(HalfMemory, Reading(100), Absent, hosts, steps) && hosts[0] == EmptyHost
    ensures hosts[|steps|] == WhenCreated(AllMemory, map[1 := 7], Free)
  {
    var h := WhenCreated(AllMemory, map[], Free);
    hosts, steps := [EmptyHost], [];
    hosts, steps := Took(HalfMemory, Reading(100), Absent, hosts, steps, EmptyHost, CreateContainer(3, AllMemory), h);
    OneContainerHolds(h, Container(AllMemory, ContainerStatus.Pending, ContainerStatus.Created), 50);
    assert |h.active| == 0 && OwnedBy(h.active, 7) == {};
    hosts, steps := Took(HalfMemory, Reading(100), Absent, hosts, steps, h, AdmitBuild(7), h.(lock := ForBuild(7)));
    hosts, steps := Took(HalfMemory, Reading(100), Absent, hosts, steps, h.(lock := ForBuild(7)), InsertBuild(1),
                         WhenCreated(AllMemory, map[1 := 7], Free));
  }

  lemma AllMemoryIsAdmitted(h: Host)
    requires TotalMemory(h.containers) == 0
    ensures CheckContainer(h, HalfMemory, Reading(100), Absent, AllMemory).Admitted?
  {
  }

  /** The memory pool has no joint bound: a build fills half of it, and the container check then admits all of it. */
  lemma ContainersDoNotSeeBuildMemory() returns (hosts: seq<Host>, steps: seq<Step>)
    ensures IsRun(HalfMemory, Reading(100), Absent, hosts, steps) && hosts[0] == EmptyHost
    ensures ReservedMemory(hosts[|steps|], HalfMemory.buildMemory) == 150
    ensures HostMemoryPool(100, HalfMemory.reservedMemory, HalfMemory.memoryFactor) == 100
  {
    var one: map<Id, Id> := map[1 := 7];
    hosts, steps := BuildBesideContainer();
    OneContainerHolds(hosts[|steps|], Container(AllMemory, ContainerStatus.Pending, ContainerStatus.Created), 50);
    AllMemoryIsAdmitted(hosts[|steps|]);
    hosts, steps := StartIsAdmitted(HalfMemory, Reading(100), Absent, AllMemory, one, hosts, steps);
    assert |one| == 1;
    OneContainerHolds(hosts[|steps|], Container(AllMemory, ContainerStatus.Starting, ContainerStatus.Running), 50);
  }
}
