/**
 Build submission: reserving, uploading and creating a build, with compensation on every failure; and the clean-up that
 releases reservations when a build has ended or garbage collection finds them stale. Between any two statements others
 act: on everything except what a submission still under way has created.
 */
module Submission {
  import opened BuildRows
  import B = BuildServices
  import opened Sums
  import S = StagedObjects
  import A = Admission
  import D = DiskAccounting
  import Paths = RelativePath

  datatype Outcome =
    | Done | BadRequest | Unavailable | NotFound | AlreadyExists | QuotaExceeded | LimitExceeded | HostExhausted | Internal

  datatype Store = Store(
    rows: Rows,
    reservations: seq<S.Reservation>,
    objects: map<Id, seq<bv8>>,
    maxStaged: int,
    containers: map<Id, A.Container>,
    backMemory: nat,           // container reservations that came back without admission, so far
    backCPU: nat,
    open: set<Id>,             // keys of submissions still under way, all younger than the cutoff of garbage collection
    buildOf: map<Id, Id>)      // the build created with a key

  /** An active reservation of at least n bytes. */
  ghost predicate Covers(reservations: seq<S.Reservation>, key: Id, n: int) {
    exists i :: 0 <= i < |reservations| && reservations[i].key == key && reservations[i].active && n <= reservations[i].bytes
  }

  /** A key that is of no more use to anyone: it was reserved once, and neither a submission nor an active build has it. */
  ghost predicate IdleKey(s: Store, key: Id) {
    && S.HasKey(s.reservations, key)
    && key !in s.open
    && (key in s.buildOf ==> !ActiveBuild(s.rows, s.buildOf[key]))
  }

  /** What an active build needs to run. */
  ghost predicate Backed(s: Store, b: Id) {
    ActiveBuild(s.rows, b) ==>
      var key := s.rows.builds[b].archiveKey;
      key in s.objects && Covers(s.reservations, key, |s.objects[key]|)
  }

  ghost predicate KeyLinked(s: Store, b: Id) {
    b in s.rows.builds ==>
      var key := s.rows.builds[b].archiveKey;
      key in s.buildOf && s.buildOf[key] == b && key !in s.open && S.HasKey(s.reservations, key)
  }

  /** Every owner's active reservations are within the configured maximum. */
  ghost predicate WithinStaged(reservations: seq<S.Reservation>, max: int) {
    S.UniqueKeys(reservations) && (max > 0 ==> forall owner :: S.ActiveBytes(reservations, owner) <= max)
  }

  ghost predicate Safe(s: Store) {
    && WithinStaged(s.reservations, s.maxStaged)
    && (forall b :: KeyLinked(s, b))
    && (forall b :: Backed(s, b))
    && (forall key :: KeyTaken(s, key))
  }

  ghost predicate KeyTaken(s: Store, key: Id) {
    key in s.buildOf ==>
      && key !in s.open
      && (s.buildOf[key] in s.rows.builds ==> s.rows.builds[s.buildOf[key]].archiveKey == key)
  }

  ghost predicate Onward(s: Store, t: Store) {
    && (forall key :: IdleKey(s, key) ==> IdleKey(t, key))
    && (forall key :: S.HasKey(s.reservations, key) ==> S.HasKey(t.reservations, key))
    && (forall key :: key in s.buildOf ==> key in t.buildOf && t.buildOf[key] == s.buildOf[key])
    && s.maxStaged == t.maxStaged && s.backMemory <= t.backMemory && s.backCPU <= t.backCPU
  }

  ghost predicate Fresh(s: Store, key: Id, b: Id, img: Id) {
    && !S.HasKey(s.reservations, key) && key !in s.objects && key !in s.open && key !in s.buildOf
    && b !in s.rows.builds && b !in s.rows.outbox && img !in s.rows.images
    && (forall k :: k in s.buildOf ==> s.buildOf[k] != b)
  }

  function Except(reservations: seq<S.Reservation>, key: Id): seq<S.Reservation> {
    if reservations == [] then []
    else
      var last := reservations[|reservations| - 1];
      Except(reservations[..|reservations| - 1], key) + (if last.key == key then [] else [last])
  }

  /** The store without what belongs to one submission. */
  ghost function Elsewhere(s: Store, key: Id, b: Id, img: Id): Store {
    Store(Rows(s.rows.builds - {b}, s.rows.images - {img}, s.rows.outbox - {b}), Except(s.reservations, key), s.objects - {key},
          s.maxStaged, s.containers, s.backMemory, s.backCPU, s.open - {key}, s.buildOf - {key})
  }

  /** Others leave a submission's own key and identifiers alone. */
  ghost predicate SameHere(s: Store, t: Store, key: Id, b: Id, img: Id) {
    && (S.HasKey(s.reservations, key) <==> S.HasKey(t.reservations, key))
    && (forall n :: Covers(s.reservations, key, n) <==> Covers(t.reservations, key, n))
    && (key in s.objects <==> key in t.objects) && (key in s.objects ==> s.objects[key] == t.objects[key])
    && (key in s.open <==> key in t.open) && (key in s.buildOf <==> key in t.buildOf)
    && (b in s.rows.builds <==> b in t.rows.builds) && (b in s.rows.outbox <==> b in t.rows.outbox)
    && (img in s.rows.images <==> img in t.rows.images)
    && ((forall k :: k in s.buildOf ==> s.buildOf[k] != b) ==> forall k :: k in t.buildOf ==> t.buildOf[k] != b)
  }

  /** What the capacity lock keeps others from: without it builds only end and containers are neither added nor resized. */
  ghost predicate NothingAdmitted(s: Store, t: Store) {
    && A.ActiveBuilds(t.rows).Items <= A.ActiveBuilds(s.rows).Items
    && forall c :: c in t.containers ==> c in s.containers && t.containers[c].reserved == s.containers[c].reserved
  }

  /** Rows that did not count and now do, without any admission: a failed stop, a failed deletion, an observed start. */
  predicate CameBack(before: map<Id, A.Container>, after: map<Id, A.Container>, c: Id) {
    c in before && c in after && !A.Holding(before[c]) && A.Holding(after[c])
  }

  function BackMemory(before: map<Id, A.Container>, after: map<Id, A.Container>): Id -> int {
    (c: Id) => if CameBack(before, after, c) then after[c].reserved.memory else 0
  }

  function BackCPU(before: map<Id, A.Container>, after: map<Id, A.Container>): Id -> int {
    (c: Id) => if CameBack(before, after, c) then after[c].reserved.cpu else 0
  }

  /** The counters have taken in what came back. */
  ghost predicate BackCounted(s: Store, t: Store) {
    && t.backMemory >= s.backMemory + SumOver(t.containers.Keys, BackMemory(s.containers, t.containers))
    && t.backCPU >= s.backCPU + SumOver(t.containers.Keys, BackCPU(s.containers, t.containers))
  }

  ghost function HostOf(s: Store): A.Host {
    A.Host(A.ActiveBuilds(s.rows), s.containers, A.Free)
  }

  ghost predicate QueueFits(s: Store, cfg: A.Config, owner: Id, more: nat) {
    cfg.maxQueuedPerUser > 0 ==> |A.OwnedBy(A.ActiveBuilds(s.rows), owner)| + more <= cfg.maxQueuedPerUser
  }

  ghost predicate MemoryFits(s: Store, cfg: A.Config, memory: A.Metric, more: int) {
    memory.Reading? && cfg.buildMemory >= 0 ==>
      A.ReservedMemory(HostOf(s), cfg.buildMemory) + more <= A.HostMemoryPool(memory.value, cfg.reservedMemory, cfg.memoryFactor)
  }

  ghost predicate CPUFits(s: Store, cfg: A.Config, cpus: A.Metric, more: int) {
    cpus.Reading? ==>
      A.ReservedCPU(HostOf(s), A.BuildCPUMillicores(cfg)) + more <= A.HostCPUPool(cpus.value, cfg.reservedCPU, cfg.cpuFactor)
  }

  /** The bounds a build is admitted under, but for what came back since a certain store. */
  ghost predicate Fits(s: Store, cfg: A.Config, memory: A.Metric, cpus: A.Metric, owner: Id, since: Store) {
    && QueueFits(s, cfg, owner, 0)
    && MemoryFits(s, cfg, memory, since.backMemory - s.backMemory) && CPUFits(s, cfg, cpus, since.backCPU - s.backCPU)
  }

  /** Room for one more build, but for what came back since a certain store. */
  ghost predicate HasRoom(s: Store, cfg: A.Config, memory: A.Metric, cpus: A.Metric, owner: Id, since: Store) {
    && QueueFits(s, cfg, owner, 1)
    && MemoryFits(s, cfg, memory, cfg.buildMemory + since.backMemory - s.backMemory)
    && CPUFits(s, cfg, cpus, A.BuildCPUMillicores(cfg) + since.backCPU - s.backCPU)
  }

  /* ---- Reservations of one key and of the others ---- */

  lemma {:induction false} ExceptSame(before: seq<S.Reservation>, after: seq<S.Reservation>, key: Id)
    requires |before| == |after|
    requires forall i :: 0 <= i < |before| ==> before[i].key == after[i].key
    requires forall i :: 0 <= i < |before| && before[i].key != key ==> after[i] == before[i]
    ensures Except(after, key) == Except(before, key)
  {
    if before != [] { ExceptSame(before[..|before| - 1], after[..|after| - 1], key); }
  }

  lemma ExceptReserved(before: seq<S.Reservation>, r: S.Reservation)
    ensures Except(before + [r], r.key) == Except(before, r.key)
  {
    assert (before + [r])[..|before|] == before;
  }

  lemma OtherCovers(before: seq<S.Reservation>, after: seq<S.Reservation>, key: Id, other: Id, n: int)
    requires key != other && |before| <= |after|
    requires forall i :: 0 <= i < |before| ==> before[i].key == after[i].key
    requires forall i :: 0 <= i < |before| && before[i].key != key ==> after[i] == before[i]
    requires forall i :: |before| <= i < |after| ==> after[i].key == key
    ensures Covers(before, other, n) <==> Covers(after, other, n)
    ensures S.HasKey(before, other) <==> S.HasKey(after, other)
  {
    if Covers(before, other, n) {
      var i :| 0 <= i < |before| && before[i].key == other && before[i].active && n <= before[i].bytes;
      assert after[i].key == other;
    }
    if S.HasKey(before, other) {
      var i :| 0 <= i < |before| && before[i].key == other;
      assert after[i].key == other;
    }
  }

  /** A change to the reservations that concerns one key only. */
  ghost predicate OnlyKey(before: seq<S.Reservation>, after: seq<S.Reservation>, key: Id) {
    && Except(after, key) == Except(before, key)
    && (forall other, n :: other != key ==> (Covers(before, other, n) <==> Covers(after, other, n)))
    && (forall other :: other != key ==> (S.HasKey(before, other) <==> S.HasKey(after, other)))
    && (S.HasKey(before, key) ==> S.HasKey(after, key))
  }

  lemma ReserveIsOnlyKey(before: seq<S.Reservation>, r: S.Reservation)
    requires r.active && !S.HasKey(before, r.key)
    ensures OnlyKey(before, before + [r], r.key) && Covers(before + [r], r.key, r.bytes)
  {
    ExceptReserved(before, r);
    forall other, n | other != r.key
      ensures (Covers(before, other, n) <==> Covers(before + [r], other, n))
              && (S.HasKey(before, other) <==> S.HasKey(before + [r], other))
    {
      OtherCovers(before, before + [r], r.key, other, n);
    }
    assert (before + [r])[|before|] == r;
  }

  lemma UpdateIsOnlyKey(before: seq<S.Reservation>, after: seq<S.Reservation>, key: Id)
    requires |before| == |after|
    requires forall i :: 0 <= i < |before| ==> before[i].key == after[i].key
    requires forall i :: 0 <= i < |before| && before[i].key != key ==> after[i] == before[i]
    ensures OnlyKey(before, after, key)
  {
    ExceptSame(before, after, key);
    forall other, n | other != key
      ensures (Covers(before, other, n) <==> Covers(after, other, n)) && (S.HasKey(before, other) <==> S.HasKey(after, other))
    {
      OtherCovers(before, after, key, other, n);
    }
    if S.HasKey(before, key) {
      var i :| 0 <= i < |before| && before[i].key == key;
      assert after[i].key == key;
    }
  }

  /** Keys stay unique, and no owner's sum grows. */
  ghost predicate SumsFall(before: seq<S.Reservation>, after: seq<S.Reservation>) {
    S.UniqueKeys(before) ==> S.UniqueKeys(after) && forall owner :: S.ActiveBytes(after, owner) <= S.ActiveBytes(before, owner)
  }

  lemma ResizeFalls(rows: seq<S.Reservation>, i: nat, n: nat)
    requires S.UniqueKeys(rows) && i < |rows| && rows[i].active && n <= rows[i].bytes
    ensures SumsFall(rows, S.UpdateBytesTx(rows, rows[i].key, n))
  {
    forall owner { S.ResizeIsExact(rows, i, n, owner); }
  }

  /** Changing what belongs to an open or idle key does no harm to any active build. */
  lemma OneKeyIsSafe(s: Store, t: Store, key: Id)
    requires Safe(s) && OnlyKey(s.reservations, t.reservations, key) && t.objects - {key} == s.objects - {key}
    requires t == s.(reservations := t.reservations, objects := t.objects)
    requires key in s.open || IdleKey(s, key) || key !in s.buildOf
    requires WithinStaged(t.reservations, s.maxStaged)
    ensures Safe(t) && Onward(s, t)
  {
    forall b ensures KeyLinked(t, b) { assert KeyLinked(s, b); }
    forall k ensures KeyTaken(t, k) { assert KeyTaken(s, k); }
    forall b ensures Backed(t, b) {
      assert Backed(s, b) && KeyLinked(s, b);
      if ActiveBuild(s.rows, b) {
        var k := s.rows.builds[b].archiveKey;
        assert k != key && k in s.objects - {key} && (t.objects - {key})[k] == (s.objects - {key})[k];
      }
    }
    forall k | IdleKey(s, k) ensures IdleKey(t, k) { }
  }

  lemma OwnObject(s: Store, t: Store, key: Id, b: Id, img: Id)
    requires Safe(s) && key in s.open && t == s.(objects := t.objects)
    requires t.objects == s.objects - {key} || t.objects - {key} == s.objects - {key}
    ensures Safe(t) && Onward(s, t) && Elsewhere(t, key, b, img) == Elsewhere(s, key, b, img)
  {
    UpdateIsOnlyKey(s.reservations, s.reservations, key);
    assert t.objects - {key} == s.objects - {key};
    OneKeyIsSafe(s, t, key);
  }

  /* ---- Capacity ---- */

  lemma NothingAdmittedFits(s: Store, t: Store, owner: Id)
    requires NothingAdmitted(s, t)
    ensures |A.ActiveBuilds(t.rows)| <= |A.ActiveBuilds(s.rows)|
    ensures |A.OwnedBy(A.ActiveBuilds(t.rows), owner)| <= |A.OwnedBy(A.ActiveBuilds(s.rows), owner)|
  {
    A.FewerActive(A.ActiveBuilds(t.rows), A.ActiveBuilds(s.rows), owner);
  }

  /** While nothing is admitted, containers gain at most what came back. */
  lemma NothingAdmittedGains(s: Store, t: Store)
    requires NothingAdmitted(s, t) && BackCounted(s, t)
    ensures A.TotalMemory(t.containers) - A.TotalMemory(s.containers) <= t.backMemory - s.backMemory
    ensures A.TotalCPU(t.containers) - A.TotalCPU(s.containers) <= t.backCPU - s.backCPU
  {
    SumBound(t.containers.Keys, A.MemoryOf(t.containers), A.MemoryOf(s.containers), BackMemory(s.containers, t.containers));
    SumBound(t.containers.Keys, A.CPUOf(t.containers), A.CPUOf(s.containers), BackCPU(s.containers, t.containers));
    SumPart(t.containers.Keys, s.containers.Keys, A.MemoryOf(s.containers));
    SumPart(t.containers.Keys, s.containers.Keys, A.CPUOf(s.containers));
  }

  lemma NothingCameBack(containers: map<Id, A.Container>)
    ensures SumOver(containers.Keys, BackMemory(containers, containers)) == 0
    ensures SumOver(containers.Keys, BackCPU(containers, containers)) == 0
  {
    SumZero(containers.Keys, BackMemory(containers, containers));
    SumZero(containers.Keys, BackCPU(containers, containers));
  }

  /** Room that was found stays, but for what comes back. */
  lemma RoomStays(s: Store, t: Store, cfg: A.Config, memory: A.Metric, cpus: A.Metric, owner: Id, since: Store)
    requires HasRoom(s, cfg, memory, cpus, owner, since) && NothingAdmitted(s, t) && BackCounted(s, t)
    ensures HasRoom(t, cfg, memory, cpus, owner, since)
  {
    NothingAdmittedFits(s, t, owner);
    NothingAdmittedGains(s, t);
    A.Scale(|A.ActiveBuilds(t.rows)|, |A.ActiveBuilds(s.rows)|, A.BuildCPUMillicores(cfg));
    if cfg.buildMemory >= 0 { A.Scale(|A.ActiveBuilds(t.rows)|, |A.ActiveBuilds(s.rows)|, cfg.buildMemory); }
  }

  lemma MemoryAdmitted(s: Store, cfg: A.Config, memory: A.Metric, reserved: int, back: int)
    requires A.ReservedMemory(HostOf(s), cfg.buildMemory) <= reserved + back
    requires A.EnsureHostMemoryCapacity(memory, cfg, reserved, cfg.buildMemory).Admitted?
    ensures MemoryFits(s, cfg, memory, cfg.buildMemory - back)
  {
  }

  lemma CPUAdmitted(s: Store, cfg: A.Config, cpus: A.Metric, reserved: int, back: int)
    requires A.ReservedCPU(HostOf(s), A.BuildCPUMillicores(cfg)) <= reserved + back
    requires A.EnsureHostCPUCapacity(cpus, cfg, reserved, A.BuildCPUMillicores(cfg)).Admitted?
    ensures CPUFits(s, cfg, cpus, A.BuildCPUMillicores(cfg) - back)
  {
  }

  /** Creating the build takes exactly the room that was found for it. */
  lemma InsertFits(s: Store, t: Store, cfg: A.Config, memory: A.Metric, cpus: A.Metric, b: Id, owner: Id, since: Store)
    requires b !in A.ActiveBuilds(s.rows) && A.ActiveBuilds(t.rows) == A.ActiveBuilds(s.rows)[b := owner]
    requires t.containers == s.containers && t.backMemory == s.backMemory && t.backCPU == s.backCPU
    requires HasRoom(s, cfg, memory, cpus, owner, since)
    ensures Fits(t, cfg, memory, cpus, owner, since)
  {
    var h := HostOf(s);
    assert HostOf(t) == h.(active := h.active[b := owner], lock := A.Free);
    A.OneMoreOwned(h.active, b, owner, owner);
    A.InsertAddsUnit(h, b, owner, cfg.buildMemory);
    A.InsertAddsUnit(h, b, owner, A.BuildCPUMillicores(cfg));
  }

  lemma InsertActive(r: Rows, r': Rows, b: Id, img: Id, owner: Id, tag: string, key: Id)
    requires b !in r.builds && r' == CreateQueuedBuildTx(r, b, img, owner, tag, key)
    ensures b !in A.ActiveBuilds(r) && A.ActiveBuilds(r') == A.ActiveBuilds(r)[b := owner]
  {
  }

  lemma InsertRows(s: Store, t: Store, b: Id, img: Id, owner: Id, tag: string, key: Id, x: Id)
    requires t.rows == CreateQueuedBuildTx(s.rows, b, img, owner, tag, key)
    ensures x != b ==> (x in t.rows.builds <==> x in s.rows.builds) && (ActiveBuild(t.rows, x) <==> ActiveBuild(s.rows, x))
    ensures x != b && x in s.rows.builds ==> t.rows.builds[x] == s.rows.builds[x]
    ensures b in t.rows.builds && t.rows.builds[b] == Build(img, owner, key, Pending)
  {
  }

  /** A build created from an open key is backed, and takes the key over. */
  lemma InsertIsSafe(s: Store, t: Store, b: Id, img: Id, owner: Id, tag: string, key: Id)
    requires Safe(s) && key in s.open && key in s.objects && Covers(s.reservations, key, |s.objects[key]|)
    requires S.HasKey(s.reservations, key) && NoRows(s, b, img)
    requires t.rows == CreateQueuedBuildTx(s.rows, b, img, owner, tag, key) && t.open == s.open - {key}
    requires t == s.(rows := t.rows, open := t.open, buildOf := s.buildOf[key := b])
    ensures Safe(t) && Onward(s, t)
  {
    assert KeyTaken(s, key);
    forall x ensures KeyLinked(t, x) && Backed(t, x) {
      InsertRows(s, t, b, img, owner, tag, key, x);
      assert KeyLinked(s, x) && Backed(s, x);
    }
    forall k: Id ensures KeyTaken(t, k) {
      assert KeyTaken(s, k);
      InsertRows(s, t, b, img, owner, tag, key, t.buildOf[if k in t.buildOf then k else key]);
    }
    forall k | IdleKey(s, k) ensures IdleKey(t, k) {
      if k in s.buildOf { InsertRows(s, t, b, img, owner, tag, key, s.buildOf[k]); }
    }
  }

  lemma InsertElsewhere(s: Store, t: Store, b: Id, img: Id, owner: Id, tag: string, key: Id)
    requires NoRows(s, b, img) && key !in s.buildOf
    requires t == s.(rows := CreateQueuedBuildTx(s.rows, b, img, owner, tag, key), open := s.open - {key},
                     buildOf := s.buildOf[key := b])
    ensures Elsewhere(t, key, b, img) == Elsewhere(s, key, b, img)
  {
    assert t.rows.builds - {b} == s.rows.builds - {b};
    assert t.rows.images - {img} == s.rows.images - {img};
    assert t.rows.outbox - {b} == s.rows.outbox - {b};
    assert t.buildOf - {key} == s.buildOf - {key};
  }

  /** What a successful submission leaves behind. */
  ghost predicate Submitted(s: Store, b: Id, img: Id, owner: Id, key: Id, archive: seq<bv8>) {
    && b in s.rows.builds && s.rows.builds[b] == Build(img, owner, key, Pending)
    && img in s.rows.images && s.rows.images[img].owner == owner && s.rows.images[img].status.Building?
    && b in s.rows.outbox && s.rows.outbox[b].Unsent?
    && key in s.objects && s.objects[key] == archive
    && Covers(s.reservations, key, |archive|)
  }

  ghost predicate NoRows(s: Store, b: Id, img: Id) {
    b !in s.rows.builds && b !in s.rows.outbox && img !in s.rows.images && forall k :: k in s.buildOf ==> s.buildOf[k] != b
  }

  class BuildDesk {
    const core: B.Core
    const staged: S.StagedObjectRepository
    const cfg: A.Config
    const memory: A.Metric
    const cpus: A.Metric
    const maxArchiveBytes: int
    const maxStagedBytesPerUser: int
    const cleanupWorks: bool  // whether deletes and releases always go through
    var objects: map<Id, seq<bv8>>
    var containers: map<Id, A.Container>
    ghost var backMemory: nat
    ghost var backCPU: nat
    var open: set<Id>  // reservations whose submission is still under way, none of them older than the cutoff
    ghost var buildOf: map<Id, Id>
    ghost var elsewhere: Store  // a submission's view of the rest of the store, as others last left it
    ghost var left: Store       // a clean-up's view of the whole store, as others last left it

    constructor (cfg: A.Config, memory: A.Metric, cpus: A.Metric, maxArchiveBytes: int, maxStagedBytesPerUser: int, cleanupWorks: bool)
      ensures Safe(Now())
    {
      core := new B.Core(false);
      staged := new S.StagedObjectRepository();
      this.cfg, this.memory, this.cpus := cfg, memory, cpus;
      this.maxArchiveBytes, this.maxStagedBytesPerUser := maxArchiveBytes, maxStagedBytesPerUser;
      this.cleanupWorks := cleanupWorks;
      objects, containers, backMemory, backCPU, open, buildOf := map[], map[], 0, 0, {}, map[];
    }

    ghost function Now(): Store
      reads this, core, staged
    {
      Store(core.Tables(), staged.rows, objects, maxStagedBytesPerUser, containers, backMemory, backCPU, open, buildOf)
    }

    /**
     Steps of others while a submission with this key is under way. It may let others act only when it has itself changed
     nothing but what is its own since they last did.
     */
    method Interfere(ghost key: Id, ghost b: Id, ghost img: Id)
      requires Safe(Now()) && elsewhere == Elsewhere(Now(), key, b, img) && NoRows(Now(), b, img)
      modifies this, core, staged
      ensures Safe(Now()) && Onward(old(Now()), Now())
      ensures SameHere(old(Now()), Now(), key, b, img) && elsewhere == Elsewhere(Now(), key, b, img)
    {
    }

    /** The same while that submission holds the capacity lock. */
    method InterfereLocked(ghost key: Id, ghost b: Id, ghost img: Id)
      requires Safe(Now()) && elsewhere == Elsewhere(Now(), key, b, img) && NoRows(Now(), b, img)
      modifies this, core, staged
      ensures Safe(Now()) && Onward(old(Now()), Now()) && NothingAdmitted(old(Now()), Now()) && BackCounted(old(Now()), Now())
      ensures SameHere(old(Now()), Now(), key, b, img) && elsewhere == Elsewhere(Now(), key, b, img)
    {
      NothingCameBack(containers);
    }

    /** Steps of others while a clean-up is under way: it may let them act only when it has done no harm since they last did. */
    method InterfereAll()
      requires Safe(Now()) && Harmless(left, Now())
      modifies this, core, staged
      ensures Safe(Now()) && Onward(old(Now()), Now()) && left == Now()
    {
      left := Now();
    }

    method ReserveStagedBuildArchive(owner: Id, key: Id, bytes: int) returns (err: Outcome)
      requires !S.HasKey(staged.rows, key)
      modifies staged
      ensures OnlyKey(old(staged.rows), staged.rows, key)
      ensures err.Done? ==> Covers(staged.rows, key, bytes) && Covers(staged.rows, key, 0)
      ensures !err.Done? ==> staged.rows == old(staged.rows)
      ensures WithinStaged(old(staged.rows), maxStagedBytesPerUser) ==> WithinStaged(staged.rows, maxStagedBytesPerUser)
      ensures forall other :: other != owner ==> S.ActiveBytes(staged.rows, other) == S.ActiveBytes(old(staged.rows), other)
    {
      ghost var before := staged.rows;
      UpdateIsOnlyKey(before, before, key);
      var reserved := if bytes < 0 then 0 else bytes;
      var answered: bool, overDiskQuota: bool, reachable: bool := *, *, *;
      if !answered || !reachable { return Internal; }
      if overDiskQuota { return QuotaExceeded; }
      var r := S.Reservation(key, owner, reserved, true);
      var result := staged.Reserve(r, maxStagedBytesPerUser);
      if !result.Ok? { return QuotaExceeded; }
      ReserveIsOnlyKey(before, r);
      assert staged.rows[..|before|] == before;
      return Done;
    }

    /** Best effort: the object's real size replaces what was reserved for it. */
    method UpdateStagedBuildArchiveBytes(key: Id)
      requires key in objects && Covers(staged.rows, key, |objects[key]|)
      modifies staged
      ensures OnlyKey(old(staged.rows), staged.rows, key) && Covers(staged.rows, key, |objects[key]|)
      ensures SumsFall(old(staged.rows), staged.rows)
    {
      ghost var before := staged.rows;
      UpdateIsOnlyKey(before, before, key);
      var statted: bool, reachable: bool := *, *;
      if !statted || !reachable { return; }
      ghost var i :| 0 <= i < |before| && before[i].key == key && before[i].active && |objects[key]| <= before[i].bytes;
      var err := staged.UpdateBytes(key, |objects[key]|);
      UpdateIsOnlyKey(before, staged.rows, key);
      assert staged.rows[i].key == key && staged.rows[i].bytes == |objects[key]|;
      if S.UniqueKeys(before) { ResizeFalls(before, i, |objects[key]|); }
    }

    method ReleaseStagedBuildArchive(key: Id)
      modifies staged
      ensures OnlyKey(old(staged.rows), staged.rows, key)
      ensures cleanupWorks ==> !S.Holds(staged.rows, key)
      ensures SumsFall(old(staged.rows), staged.rows)
    {
      ghost var before := staged.rows;
      UpdateIsOnlyKey(before, before, key);
      var reachable: bool := *;
      if !reachable && !cleanupWorks { return; }
      var err := staged.Release(key);
      UpdateIsOnlyKey(before, staged.rows, key);
      forall owner { S.LighterRows(staged.rows, before, owner); }
    }

    method DeleteObject(key: Id) returns (err: Outcome)
      modifies this`objects
      ensures objects == old(objects) || objects == old(objects) - {key}
      ensures err.Done? ==> key !in objects
      ensures cleanupWorks ==> err.Done?
    {
      var reachable: bool := *;
      if !reachable && !cleanupWorks { return Internal; }
      objects := objects - {key};
      return Done;
    }

    /** An upload of unknown length through the bounded reader; a failed one may leave part of the object behind. */
    method UploadBounded(key: Id, archive: seq<bv8>) returns (err: Outcome)
      modifies this`objects
      ensures objects - {key} == old(objects) - {key}
      ensures err.Done? ==> key in objects && objects[key] == archive && |archive| <= if maxArchiveBytes < 0 then 0 else maxArchiveBytes
      ensures err.BadRequest? ==> |archive| > maxArchiveBytes
    {
      var reader := new S.MaxBytesReader(archive, maxArchiveBytes);
      var sizes: seq<nat>, stored: bool := *, *;
      var content, end := S.Upload(reader, sizes);
      if stored || end.EOF? { objects := objects[key := content]; }
      match end {
        case EOF => return Done;
        case TooLarge => return BadRequest;
        case _ => return Internal;
      }
    }

    method UploadFile(key: Id, archive: seq<bv8>) returns (err: Outcome)
      modifies this`objects
      ensures objects - {key} == old(objects) - {key}
      ensures err.Done? ==> key in objects && objects[key] == archive
    {
      var complete: bool, part: nat := *, *;
      objects := objects[key := if complete || part > |archive| then archive else archive[..part]];
      return if complete then Done else Internal;
    }

    /** The compensation of a failed submission. */
    method Undo(key: Id, uploaded: bool, ghost b: Id, ghost img: Id)
      requires Safe(Now()) && key in open && NoRows(Now(), b, img)
      requires !uploaded ==> key !in objects
      requires elsewhere == Elsewhere(Now(), key, b, img)
      modifies this, core, staged
      ensures Safe(Now()) && Onward(old(Now()), Now()) && NoRows(Now(), b, img)
      ensures elsewhere == Elsewhere(Now(), key, b, img) && key !in open
      ensures cleanupWorks ==> key !in objects && !S.Holds(staged.rows, key)
    {
      if uploaded {
        DeleteOwn(key, b, img);
        Interfere(key, b, img);
      }
      ReleaseOwn(key, b, img);
      Close(key);
    }

    method DeleteOwn(key: Id, ghost b: Id, ghost img: Id)
      requires Safe(Now()) && key in open
      modifies this`objects
      ensures Safe(Now()) && Onward(old(Now()), Now()) && Elsewhere(Now(), key, b, img) == Elsewhere(old(Now()), key, b, img)
      ensures cleanupWorks ==> key !in objects
    {
      ghost var before := Now();
      var deleted := DeleteObject(key);
      OwnObject(before, Now(), key, b, img);
    }

    method ReleaseOwn(key: Id, ghost b: Id, ghost img: Id)
      requires Safe(Now()) && key in open
      modifies staged
      ensures Safe(Now()) && Onward(old(Now()), Now()) && Elsewhere(Now(), key, b, img) == Elsewhere(old(Now()), key, b, img)
      ensures cleanupWorks ==> !S.Holds(staged.rows, key)
    {
      ghost var before := Now();
      ReleaseStagedBuildArchive(key);
      OneKeyIsSafe(before, Now(), key);
    }

    /** The upload of a submission's own object, of unknown or of known length. */
    method StoreArchive(key: Id, archive: seq<bv8>, ghost b: Id, ghost img: Id) returns (err: Outcome)
      requires Safe(Now()) && key in open
      modifies this`objects
      ensures Safe(Now()) && Onward(old(Now()), Now()) && Elsewhere(Now(), key, b, img) == Elsewhere(old(Now()), key, b, img)
      ensures err.Done? ==> key in objects && objects[key] == archive && |archive| <= if maxArchiveBytes < 0 then 0 else maxArchiveBytes
    {
      ghost var before := Now();
      err := UploadBounded(key, archive);
      OwnObject(before, Now(), key, b, img);
    }

    method StoreFile(key: Id, archive: seq<bv8>, ghost b: Id, ghost img: Id) returns (err: Outcome)
      requires Safe(Now()) && key in open
      modifies this`objects
      ensures Safe(Now()) && Onward(old(Now()), Now()) && Elsewhere(Now(), key, b, img) == Elsewhere(old(Now()), key, b, img)
      ensures err.Done? ==> key in objects && objects[key] == archive
    {
      ghost var before := Now();
      err := UploadFile(key, archive);
      OwnObject(before, Now(), key, b, img);
    }

    method ResizeOwn(key: Id, ghost b: Id, ghost img: Id)
      requires Safe(Now()) && key in open && key in objects && Covers(staged.rows, key, |objects[key]|)
      modifies staged
      ensures Safe(Now()) && Onward(old(Now()), Now()) && Elsewhere(Now(), key, b, img) == Elsewhere(old(Now()), key, b, img)
      ensures Covers(staged.rows, key, |objects[key]|)
    {
      ghost var before := Now();
      UpdateStagedBuildArchiveBytes(key);
      OneKeyIsSafe(before, Now(), key);
    }

    method Close(key: Id)
      requires Safe(Now()) && key in open
      modifies this`open
      ensures Safe(Now()) && Onward(old(Now()), Now()) && open == old(open) - {key}
    {
      ghost var s := Now();
      open := open - {key};
      forall b ensures KeyLinked(Now(), b) { assert KeyLinked(s, b); }
      forall k ensures KeyTaken(Now(), k) { assert KeyTaken(s, k); }
      forall b ensures Backed(Now(), b) { assert Backed(s, b); }
      forall k | IdleKey(s, k) ensures IdleKey(Now(), k) { }
    }

    /**
     The checks and the insert of a new build, all under the capacity lock, which others respect. A build that is created
     fits the queue limit and, but for what came back meanwhile, both pools, itself counted.
     */
    method CreateBuildJob(b: Id, img: Id, owner: Id, tag: string, key: Id, ghost archive: seq<bv8>) returns (err: Outcome)
      requires Safe(Now()) && key in open && key in objects && objects[key] == archive && Covers(staged.rows, key, |archive|)
      requires S.HasKey(staged.rows, key) && NoRows(Now(), b, img)
      requires elsewhere == Elsewhere(Now(), key, b, img)
      modifies this, core, staged
      ensures Safe(Now()) && Onward(old(Now()), Now()) && elsewhere == Elsewhere(Now(), key, b, img)
      ensures err.Done? ==> Submitted(Now(), b, img, owner, key, archive) && key !in open
      ensures err.Done? ==> Fits(Now(), cfg, memory, cpus, owner, old(Now()))
      ensures !err.Done? ==> key in open && NoRows(Now(), b, img)
    {
      var userFound: bool, locked: bool := *, *;
      if !userFound { return NotFound; }
      if !locked { return Internal; }
      Interfere(key, b, img);
      err := CreateLocked(b, img, owner, tag, key, archive);
    }

    /** From taking the lock to giving it up: the pools are exceeded by at most what came back in that time. */
    method CreateLocked(b: Id, img: Id, owner: Id, tag: string, key: Id, ghost archive: seq<bv8>) returns (err: Outcome)
      requires Safe(Now()) && key in open && key in objects && objects[key] == archive && Covers(staged.rows, key, |archive|)
      requires S.HasKey(staged.rows, key) && NoRows(Now(), b, img)
      requires elsewhere == Elsewhere(Now(), key, b, img)
      modifies this, core, staged
      ensures Safe(Now()) && Onward(old(Now()), Now()) && elsewhere == Elsewhere(Now(), key, b, img)
      ensures err.Done? ==> Submitted(Now(), b, img, owner, key, archive) && key !in open
      ensures err.Done? ==> Fits(Now(), cfg, memory, cpus, owner, old(Now()))
      ensures !err.Done? ==> key in open && NoRows(Now(), b, img)
    {
      err := CheckRoom(b, img, owner, key);
      if err.Done? { err := Insert(b, img, owner, tag, key, old(Now())); }
    }

    /** All checks under the lock. */
    method CheckRoom(ghost b: Id, ghost img: Id, owner: Id, ghost key: Id) returns (err: Outcome)
      requires Safe(Now()) && elsewhere == Elsewhere(Now(), key, b, img) && NoRows(Now(), b, img)
      modifies this, core, staged
      ensures Safe(Now()) && Onward(old(Now()), Now()) && SameHere(old(Now()), Now(), key, b, img)
      ensures elsewhere == Elsewhere(Now(), key, b, img)
      ensures err.Done? ==> HasRoom(Now(), cfg, memory, cpus, owner, old(Now()))
    {
      err := CheckCapacity(b, img, owner, key);
      if err.Done? { err := CheckDisk(b, img, owner, key, old(Now())); }
    }

    /** The disk check; the room that was found stays, but for what comes back. */
    method CheckDisk(ghost b: Id, ghost img: Id, owner: Id, ghost key: Id, ghost since: Store) returns (err: Outcome)
      requires Safe(Now()) && elsewhere == Elsewhere(Now(), key, b, img) && NoRows(Now(), b, img)
      requires HasRoom(Now(), cfg, memory, cpus, owner, since)
      modifies this, core, staged
      ensures Safe(Now()) && Onward(old(Now()), Now()) && SameHere(old(Now()), Now(), key, b, img)
      ensures elsewhere == Elsewhere(Now(), key, b, img)
      ensures HasRoom(Now(), cfg, memory, cpus, owner, since)
    {
      InterfereLocked(key, b, img);
      RoomStays(old(Now()), Now(), cfg, memory, cpus, owner, since);
      var usageRead: bool, volumeBytes: int, quotaMB: int := *, *, *;
      var used := Total(D.CountedImages(core.images, owner), D.SizeOf(core.images));
      err := if !usageRead then Internal else if used + D.BytesToMBRoundedUp(volumeBytes) >= quotaMB then QuotaExceeded else Done;
    }

    method CheckCapacity(ghost b: Id, ghost img: Id, owner: Id, ghost key: Id) returns (err: Outcome)
      requires Safe(Now()) && elsewhere == Elsewhere(Now(), key, b, img) && NoRows(Now(), b, img)
      modifies this, core, staged
      ensures Safe(Now()) && Onward(old(Now()), Now()) && SameHere(old(Now()), Now(), key, b, img)
      ensures elsewhere == Elsewhere(Now(), key, b, img)
      ensures err.Done? ==> HasRoom(Now(), cfg, memory, cpus, owner, old(Now()))
    {
      var reachable: bool := *;
      if !reachable { return Internal; }
      if cfg.maxQueuedPerUser > 0 && |A.OwnedBy(A.ActiveBuilds(core.Tables()), owner)| >= cfg.maxQueuedPerUser {
        return LimitExceeded;
      }
      ghost var start := Now();
      assert QueueFits(start, cfg, owner, 1);
      var reservedMemory, reservedCPU := ReadReserved(b, img, key);
      NothingAdmittedFits(start, Now(), owner);
      var byMemory := A.EnsureHostMemoryCapacity(memory, cfg, reservedMemory, cfg.buildMemory);
      if !byMemory.Admitted? { return if byMemory.MetricsFailed? then Internal else HostExhausted; }
      MemoryAdmitted(Now(), cfg, memory, reservedMemory, backMemory - start.backMemory);
      var byCPU := A.EnsureHostCPUCapacity(cpus, cfg, reservedCPU, A.BuildCPUMillicores(cfg));
      if !byCPU.Admitted? { return if byCPU.MetricsFailed? then Internal else HostExhausted; }
      CPUAdmitted(Now(), cfg, cpus, reservedCPU, backCPU - start.backCPU);
      return Done;
    }

    /**
     Three queries one after the other; under the lock what is then reserved exceeds what they add up to by at most what
     came back meanwhile.
     */
    method ReadReserved(ghost b: Id, ghost img: Id, ghost key: Id) returns (reservedMemory: int, reservedCPU: int)
      requires Safe(Now()) && elsewhere == Elsewhere(Now(), key, b, img) && NoRows(Now(), b, img)
      modifies this, core, staged
      ensures Safe(Now()) && Onward(old(Now()), Now()) && SameHere(old(Now()), Now(), key, b, img)
      ensures elsewhere == Elsewhere(Now(), key, b, img) && NothingAdmitted(old(Now()), Now())
      ensures A.ReservedMemory(HostOf(Now()), cfg.buildMemory) <= reservedMemory + backMemory - old(backMemory)
      ensures A.ReservedCPU(HostOf(Now()), A.BuildCPUMillicores(cfg)) <= reservedCPU + backCPU - old(backCPU)
    {
      var containerMemory := Total(containers.Keys, A.MemoryOf(containers));
      ghost var first := Now();
      InterfereLocked(key, b, img);
      NothingAdmittedGains(first, Now());
      var containerCPU := Total(containers.Keys, A.CPUOf(containers));
      ghost var second := Now();
      InterfereLocked(key, b, img);
      NothingAdmittedGains(second, Now());
      var active := |A.ActiveBuilds(core.Tables())|;
      return containerMemory + active * cfg.buildMemory, containerCPU + active * A.BuildCPUMillicores(cfg);
    }

    method Insert(b: Id, img: Id, owner: Id, tag: string, key: Id, ghost since: Store) returns (err: Outcome)
      requires Safe(Now()) && key in open && key in objects && Covers(staged.rows, key, |objects[key]|)
      requires S.HasKey(staged.rows, key) && NoRows(Now(), b, img)
      requires HasRoom(Now(), cfg, memory, cpus, owner, since)
      modifies core, this`open, this`buildOf
      ensures Safe(Now()) && Onward(old(Now()), Now())
      ensures Elsewhere(Now(), key, b, img) == Elsewhere(old(Now()), key, b, img)
      ensures err.Done? ==> Submitted(Now(), b, img, owner, key, objects[key]) && key !in open
      ensures err.Done? ==> Fits(Now(), cfg, memory, cpus, owner, since)
      ensures !err.Done? ==> Now() == old(Now())
    {
      ghost var s := Now();
      var result := core.CreateQueuedBuild(b, img, owner, tag, key);
      if !result.Ok? { return if result.AlreadyExists? then AlreadyExists else Internal; }
      open, buildOf := open - {key}, buildOf[key := b];
      assert KeyTaken(s, key);
      InsertIsSafe(s, Now(), b, img, owner, tag, key);
      InsertElsewhere(s, Now(), b, img, owner, tag, key);
      InsertActive(s.rows, Now().rows, b, img, owner, tag, key);
      InsertFits(s, Now(), cfg, memory, cpus, b, owner, since);
      return Done;
    }

    /**
     Submission of an uploaded archive. It is all or nothing: a pending build with its outbox row, the whole archive and
     a reservation that covers it, or no rows at all and, if the clean-up went through, no object and no reservation.
     */
    method CreateBuildFromArchive(owner: Id, tag: string, contextDir: string, dockerfile: string, archive: seq<bv8>,
                                  key: Id, b: Id, img: Id) returns (err: Outcome)
      requires Safe(Now()) && Fresh(Now(), key, b, img)
      modifies this, core, staged
      ensures Safe(Now()) && Onward(old(Now()), Now()) && elsewhere == Elsewhere(Now(), key, b, img) && key !in open
      ensures err.Done? ==> Submitted(Now(), b, img, owner, key, archive)
      ensures err.Done? ==> Paths.ValidateRelativePath(contextDir).Ok? && Paths.ValidateRelativePath(dockerfile).Ok?
      ensures err.Done? ==> |archive| <= if maxArchiveBytes < 0 then 0 else maxArchiveBytes
      ensures err.Done? ==> Fits(Now(), cfg, memory, cpus, owner, old(Now()))
      ensures !err.Done? ==> NoRows(Now(), b, img)
      ensures !err.Done? && cleanupWorks ==> key !in objects && !S.Holds(staged.rows, key)
    {
      elsewhere := Elsewhere(Now(), key, b, img);
      Interfere(key, b, img);
      var available: bool, tagValid: bool := *, *;
      if !available { return Unavailable; }
      if !tagValid || !Paths.ValidateRelativePath(contextDir).Ok? || !Paths.ValidateRelativePath(dockerfile).Ok? {
        return BadRequest;
      }
      err := Stage(owner, key, maxArchiveBytes, b, img);
      if !err.Done? { return; }
      Interfere(key, b, img);
      err := SendArchive(b, img, owner, tag, key, archive);
    }

    method SendArchive(b: Id, img: Id, owner: Id, tag: string, key: Id, archive: seq<bv8>) returns (err: Outcome)
      requires Safe(Now()) && key in open && key !in objects && Covers(staged.rows, key, if maxArchiveBytes < 0 then 0 else maxArchiveBytes)
      requires S.HasKey(staged.rows, key) && NoRows(Now(), b, img)
      requires elsewhere == Elsewhere(Now(), key, b, img)
      modifies this, core, staged
      ensures Safe(Now()) && Onward(old(Now()), Now()) && elsewhere == Elsewhere(Now(), key, b, img) && key !in open
      ensures err.Done? ==> Submitted(Now(), b, img, owner, key, archive) && |archive| <= if maxArchiveBytes < 0 then 0 else maxArchiveBytes
      ensures err.Done? ==> Fits(Now(), cfg, memory, cpus, owner, old(Now()))
      ensures !err.Done? ==> NoRows(Now(), b, img)
      ensures !err.Done? && cleanupWorks ==> key !in objects && !S.Holds(staged.rows, key)
    {
      err := StoreArchive(key, archive, b, img);
      Interfere(key, b, img);
      if !err.Done? {
        Undo(key, true, b, img);
        return;
      }
      CoversLess(staged.rows, key, if maxArchiveBytes < 0 then 0 else maxArchiveBytes, |archive|);
      ResizeOwn(key, b, img);
      err := FinishSubmission(b, img, owner, tag, key, archive);
    }

    /** Submission from a repository, whose archive is built first and then has a known size; the same promise. */
    method CreateBuildFromGit(owner: Id, tag: string, contextDir: string, dockerfile: string, archive: seq<bv8>,
                              key: Id, b: Id, img: Id) returns (err: Outcome)
      requires Safe(Now()) && Fresh(Now(), key, b, img)
      modifies this, core, staged
      ensures Safe(Now()) && Onward(old(Now()), Now()) && elsewhere == Elsewhere(Now(), key, b, img) && key !in open
      ensures err.Done? ==> Submitted(Now(), b, img, owner, key, archive)
      ensures err.Done? ==> Paths.CleanRelativePath(contextDir).Ok? && Paths.CleanRelativePath(dockerfile).Ok?
      ensures err.Done? ==> Fits(Now(), cfg, memory, cpus, owner, old(Now()))
      ensures !err.Done? ==> NoRows(Now(), b, img)
      ensures !err.Done? && cleanupWorks ==> key !in objects && !S.Holds(staged.rows, key)
    {
      elsewhere := Elsewhere(Now(), key, b, img);
      Interfere(key, b, img);
      var available: bool, sourceValid: bool, cloned: bool, readable: bool := *, *, *, *;
      if !available { return Unavailable; }
      if !Paths.CleanRelativePath(contextDir).Ok? || !Paths.CleanRelativePath(dockerfile).Ok? || !sourceValid {
        return BadRequest;
      }
      if !cloned { return Internal; }
      err := Stage(owner, key, |archive|, b, img);
      if !err.Done? { return; }
      Interfere(key, b, img);
      if !readable {
        Undo(key, false, b, img);
        return Internal;
      }
      err := SendFile(b, img, owner, tag, key, archive);
    }

    method SendFile(b: Id, img: Id, owner: Id, tag: string, key: Id, archive: seq<bv8>) returns (err: Outcome)
      requires Safe(Now()) && key in open && key !in objects && Covers(staged.rows, key, |archive|)
      requires S.HasKey(staged.rows, key) && NoRows(Now(), b, img)
      requires elsewhere == Elsewhere(Now(), key, b, img)
      modifies this, core, staged
      ensures Safe(Now()) && Onward(old(Now()), Now()) && elsewhere == Elsewhere(Now(), key, b, img) && key !in open
      ensures err.Done? ==> Submitted(Now(), b, img, owner, key, archive)
      ensures err.Done? ==> Fits(Now(), cfg, memory, cpus, owner, old(Now()))
      ensures !err.Done? ==> NoRows(Now(), b, img)
      ensures !err.Done? && cleanupWorks ==> key !in objects && !S.Holds(staged.rows, key)
    {
      err := StoreFile(key, archive, b, img);
      Interfere(key, b, img);
      if !err.Done? {
        Undo(key, true, b, img);
        return;
      }
      err := FinishSubmission(b, img, owner, tag, key, archive);
    }

    /** Reserving opens the key; a refused reservation leaves nothing. */
    method Stage(owner: Id, key: Id, bytes: int, ghost b: Id, ghost img: Id) returns (err: Outcome)
      requires Safe(Now()) && Fresh(Now(), key, b, img)
      modifies this`open, staged
      ensures Safe(Now()) && Onward(old(Now()), Now())
      ensures Elsewhere(Now(), key, b, img) == Elsewhere(old(Now()), key, b, img)
      ensures err.Done? ==> key in open && S.HasKey(staged.rows, key) && Covers(staged.rows, key, if bytes < 0 then 0 else bytes)
      ensures !err.Done? ==> Now() == old(Now())
    {
      ghost var start := Now();
      err := ReserveStagedBuildArchive(owner, key, bytes);
      OneKeyIsSafe(start, Now(), key);
      if err.Done? {
        ghost var s := Now();
        open := open + {key};
        forall x ensures KeyLinked(Now(), x) { assert KeyLinked(s, x); }
        forall k ensures KeyTaken(Now(), k) { assert KeyTaken(s, k); }
        forall x ensures Backed(Now(), x) { assert Backed(s, x); }
        forall k | IdleKey(start, k) ensures IdleKey(Now(), k) { assert IdleKey(s, k); }
      }
    }

    method FinishSubmission(b: Id, img: Id, owner: Id, tag: string, key: Id, ghost archive: seq<bv8>)
      returns (err: Outcome)
      requires Safe(Now()) && key in open && key in objects && objects[key] == archive && Covers(staged.rows, key, |archive|)
      requires S.HasKey(staged.rows, key) && NoRows(Now(), b, img)
      requires elsewhere == Elsewhere(Now(), key, b, img)
      modifies this, core, staged
      ensures Safe(Now()) && Onward(old(Now()), Now()) && elsewhere == Elsewhere(Now(), key, b, img) && key !in open
      ensures err.Done? ==> Submitted(Now(), b, img, owner, key, archive)
      ensures err.Done? ==> Fits(Now(), cfg, memory, cpus, owner, old(Now()))
      ensures !err.Done? ==> NoRows(Now(), b, img)
      ensures !err.Done? && cleanupWorks ==> key !in objects && !S.Holds(staged.rows, key)
    {
      Interfere(key, b, img);
      err := CreateBuildJob(b, img, owner, tag, key, archive);
      if !err.Done? {
        Interfere(key, b, img);
        Undo(key, true, b, img);
      }
    }

    /* ---- Clean-up ---- */

    /** Releases and deletes what a build has no more use for. */
    method CleanupBuildArchive(key: Id)
      requires Safe(Now()) && IdleKey(Now(), key) && left == Now()
      modifies this, core, staged
      ensures Safe(Now()) && Onward(old(Now()), Now()) && Harmless(left, Now())
    {
      ReleaseIdle(key);
      InterfereAll();
      var err := DeleteIdle(key);
    }

    method ReleaseIdle(key: Id)
      requires Safe(Now()) && IdleKey(Now(), key)
      modifies staged
      ensures Safe(Now()) && Onward(old(Now()), Now()) && Harmless(old(Now()), Now())
    {
      ghost var before := Now();
      ReleaseStagedBuildArchive(key);
      OneKeyIsSafe(before, Now(), key);
      IdleKeyIsHarmless(before, Now(), key);
    }

    method DeleteIdle(key: Id) returns (err: Outcome)
      requires Safe(Now()) && IdleKey(Now(), key)
      modifies this`objects
      ensures Safe(Now()) && Onward(old(Now()), Now()) && Harmless(old(Now()), Now())
    {
      ghost var before := Now();
      UpdateIsOnlyKey(staged.rows, staged.rows, key);
      err := DeleteObject(key);
      assert objects - {key} == before.objects - {key};
      OneKeyIsSafe(before, Now(), key);
      IdleKeyIsHarmless(before, Now(), key);
    }

    /**
     Cancellation with its clean-up: the archive goes only after the build was seen to be settled, and no step of it harms
     another build or any submission under way.
     */
    method CancelBuildRecord(b: Id) returns (err: B.Err)
      requires Safe(Now())
      modifies this, core, staged
      ensures Safe(Now()) && Onward(old(Now()), Now()) && Harmless(left, Now())
    {
      left := Now();
      NothingIsHarmless(Now());
      var build;
      err, build := core.GetByID(b);
      if !err.Ok? || Terminal(build.status) { return; }
      assert KeyLinked(Now(), b) && KeyTaken(Now(), build.archiveKey);
      InterfereAll();
      err := Settle(b, build.imageId, Canceled);
      if !err.Ok? { return; }
      assert KeyTaken(Now(), build.archiveKey);
      InterfereAll();
      CleanupBuildArchive(build.archiveKey);
    }

    /** The guarded transaction that fails a build. */
    method Settle(b: Id, img: Id, status: BuildStatus) returns (err: B.Err)
      requires Safe(Now()) && Terminal(status)
      modifies core
      ensures Safe(Now()) && Onward(old(Now()), Now()) && Harmless(old(Now()), Now())
      ensures err.Ok? ==> !ActiveBuild(core.Tables(), b)
    {
      ghost var before := Now();
      err := core.MarkBuildFailedAndDeleteImage(b, img, status);
      SettledIsSafe(before, Now(), b);
      SettledIsHarmless(before, Now());
    }

    /** Completion with its clean-up: after every way to settle the build but the failure to read its image's metadata. */
    method CompleteBuildRecord(b: Id, img: Id, reported: B.Reported) returns (err: B.Err)
      requires Safe(Now())
      modifies this, core, staged
      ensures Safe(Now()) && Onward(old(Now()), Now()) && Harmless(left, Now())
    {
      left := Now();
      NothingIsHarmless(Now());
      var build;
      err, build := core.GetByID(b);
      if !err.Ok? { return; }
      assert KeyLinked(Now(), b) && KeyTaken(Now(), build.archiveKey);
      if Terminal(build.status) {
        CleanupBuildArchive(build.archiveKey);
        return;
      }
      InterfereAll();
      var cleanup: bool;
      err, cleanup := SettleRow(b, img, reported);
      if err.Ok? && cleanup {
        assert KeyTaken(Now(), build.archiveKey) && IdleKey(Now(), build.archiveKey);
        InterfereAll();
        CleanupBuildArchive(build.archiveKey);
      }
    }

    /** The transaction that settles a build, and whether its archive is cleaned up after it. */
    method SettleRow(b: Id, img: Id, reported: B.Reported) returns (err: B.Err, cleanup: bool)
      requires Safe(Now())
      modifies core
      ensures Safe(Now()) && Onward(old(Now()), Now()) && Harmless(old(Now()), Now())
      ensures err.Ok? ==> !ActiveBuild(core.Tables(), b)
    {
      ghost var before := Now();
      var metadata: bool, sizeMB: nat, volumeBytes: int, quotaMB: int := *, *, *, *;
      cleanup := true;
      if reported != B.Known(Success) {
        err := Settle(b, img, B.NormalizeFailedBuildStatus(reported));
        return;
      }
      var row;
      err, row := core.GetImage(img);
      if !err.Ok? {
        NothingIsHarmless(Now());
        return;
      }
      if !metadata {
        cleanup := false;
        err := Settle(b, img, FailedInternal);
      } else {
        var fits := D.FitsQuota(core.images, img, sizeMB, volumeBytes, quotaMB);
        if !fits {
          err := Settle(b, img, FailedQuotaExceeded);
          return;
        }
        err := core.UpdateBuildAndImageSize(b, img, Success, sizeMB);
        SettledIsSafe(before, Now(), b);
        SettledIsHarmless(before, Now());
      }
    }

    /** Keys of old active reservations that no active build has; younger submissions are behind the cutoff. */
    method ListStaleActive(limit: nat) returns (keys: seq<Id>)
      requires Safe(Now())
      ensures |keys| <= limit
      ensures forall key :: key in keys ==> S.Holds(staged.rows, key) && IdleKey(Now(), key)
    {
      keys := [];
      var i := 0;
      while i < |staged.rows| && |keys| < limit
        invariant |keys| <= limit
        invariant forall key :: key in keys ==> S.Holds(staged.rows, key) && IdleKey(Now(), key)
      {
        var r := staged.rows[i];
        var beforeCutoff: bool := *;
        var wanted := exists b :: b in core.builds && ActiveBuild(core.Tables(), b) && core.builds[b].archiveKey == r.key;
        if r.active && beforeCutoff && r.key !in open && !wanted {
          assert KeyTaken(Now(), r.key);
          keys := keys + [r.key];
        }
        i := i + 1;
      }
    }

    /**
     Garbage collection works from a list that may be stale, and still takes nothing from an active build or from a
     submission under way.
     */
    method CleanupStaleStagedObjects()
      requires Safe(Now())
      modifies this, core, staged
      ensures Safe(Now()) && Onward(old(Now()), Now()) && Harmless(left, Now())
    {
      left := Now();
      NothingIsHarmless(Now());
      var items := ListStaleActive(100);
      for i := 0 to |items|
        invariant Safe(Now()) && Onward(old(Now()), Now()) && Harmless(left, Now())
        invariant forall key :: key in items ==> IdleKey(Now(), key)
      {
        InterfereAll();
        var err := DeleteIdle(items[i]);
        if !err.Done? { continue; }
        InterfereAll();
        ReleaseIdle(items[i]);
      }
    }
  }

  /* ---- What each promises is what the others rely on ---- */

  /** A submission that has not created its build: its key is open, or not yet reserved. */
  ghost predicate Submitting(s: Store, key: Id, b: Id, img: Id) {
    && NoRows(s, b, img)
    && (key in s.open || (!S.HasKey(s.reservations, key) && key !in s.objects && key !in s.buildOf))
  }

  /** What a clean-up promises of each of its steps: no submission sees it, and nothing is admitted by it. */
  ghost predicate Harmless(s: Store, t: Store) {
    NothingAdmitted(s, t) && forall key, b, img :: Submitting(s, key, b, img) ==> SameHere(s, t, key, b, img)
  }

  lemma NothingIsHarmless(s: Store)
    ensures Harmless(s, s)
  {
  }

  lemma IdleKeyIsHarmless(s: Store, t: Store, key: Id)
    requires IdleKey(s, key) && OnlyKey(s.reservations, t.reservations, key) && t.objects - {key} == s.objects - {key}
    requires t == s.(reservations := t.reservations, objects := t.objects)
    ensures Harmless(s, t)
  {
    forall key', b, img | Submitting(s, key', b, img) ensures SameHere(s, t, key', b, img) {
      assert key' != key;
      assert key' in s.objects <==> key' in s.objects - {key};
      assert key' in t.objects <==> key' in t.objects - {key};
      if key' in s.objects { assert s.objects[key'] == (s.objects - {key})[key'] == (t.objects - {key})[key']; }
    }
  }

  lemma SettledIsHarmless(s: Store, t: Store)
    requires t == s.(rows := t.rows) && t.rows.builds.Keys == s.rows.builds.Keys && t.rows.outbox == s.rows.outbox
    requires t.rows.images.Keys <= s.rows.images.Keys
    requires forall x :: ActiveBuild(t.rows, x) ==> ActiveBuild(s.rows, x) && t.rows.builds[x].owner == s.rows.builds[x].owner
    ensures Harmless(s, t)
  {
    forall item | item in A.ActiveBuilds(t.rows).Items ensures item in A.ActiveBuilds(s.rows).Items {
      assert ActiveBuild(t.rows, item.0);
    }
  }

  lemma {:induction false} ExceptKeeps(reservations: seq<S.Reservation>, key: Id, other: Id, n: int)
    requires other != key
    ensures Covers(Except(reservations, key), other, n) <==> Covers(reservations, other, n)
    ensures S.HasKey(Except(reservations, key), other) <==> S.HasKey(reservations, other)
  {
    if reservations != [] {
      var shorter, last := reservations[..|reservations| - 1], reservations[|reservations| - 1];
      ExceptKeeps(shorter, key, other, n);
      assert reservations == shorter + [last];
      OneMoreRow(shorter, last, other, n);
      OneMoreRow(Except(shorter, key), last, other, n);
      assert Except(shorter, key) + [] == Except(shorter, key);
    }
  }

  lemma OneMoreRow(rows: seq<S.Reservation>, last: S.Reservation, other: Id, n: int)
    ensures Covers(rows + [last], other, n)
            <==> Covers(rows, other, n) || (last.key == other && last.active && n <= last.bytes)
    ensures S.HasKey(rows + [last], other) <==> S.HasKey(rows, other) || last.key == other
  {
    var more := rows + [last];
    assert more[|rows|] == last;
    if i :| 0 <= i < |rows| && rows[i].key == other && rows[i].active && n <= rows[i].bytes { assert more[i] == rows[i]; }
    if i :| 0 <= i < |rows| && rows[i].key == other { assert more[i] == rows[i]; }
  }

  /** What one submission changes, no other submission can see: the promise of each is what the others rely on. */
  lemma PromiseMeetsReliance(s: Store, t: Store, key: Id, b: Id, img: Id, key': Id, b': Id, img': Id)
    requires key != key' && b != b' && img != img'
    requires Elsewhere(t, key, b, img) == Elsewhere(s, key, b, img)
    requires key in t.buildOf ==> t.buildOf[key] == b
    ensures SameHere(s, t, key', b', img')
    ensures NoRows(t, b, img) ==> NothingAdmitted(s, t)
  {
    forall n ensures Covers(s.reservations, key', n) <==> Covers(t.reservations, key', n) {
      ExceptKeeps(s.reservations, key, key', n);
      ExceptKeeps(t.reservations, key, key', n);
    }
    ExceptKeeps(s.reservations, key, key', 0);
    ExceptKeeps(t.reservations, key, key', 0);
    if NoRows(t, b, img) { SameElsewhere(s.rows, t.rows, b); }
    var u, v := Elsewhere(s, key, b, img), Elsewhere(t, key, b, img);
    forall x | x in t.buildOf && x != key ensures x in s.buildOf && t.buildOf[x] == s.buildOf[x] {
      assert x in v.buildOf && v.buildOf[x] == u.buildOf[x];
    }
    assert key' in s.buildOf <==> key' in u.buildOf;
    assert key' in s.objects <==> key' in u.objects;
    if key' in s.objects { assert s.objects[key'] == u.objects[key']; }
    assert key' in t.objects <==> key' in v.objects;
    assert key' in s.open <==> key' in u.open;
    assert key' in t.open <==> key' in v.open;
    assert b' in s.rows.builds <==> b' in u.rows.builds;
    assert b' in s.rows.outbox <==> b' in u.rows.outbox;
    assert img' in s.rows.images <==> img' in u.rows.images;
  }

  lemma SameElsewhere(r: Rows, r': Rows, b: Id)
    requires r'.builds - {b} == r.builds - {b} && b !in r'.builds
    ensures A.ActiveBuilds(r').Items <= A.ActiveBuilds(r).Items
  {
    forall item | item in A.ActiveBuilds(r').Items ensures item in A.ActiveBuilds(r).Items {
      assert item.0 in r'.builds - {b} && r'.builds[item.0] == (r'.builds - {b})[item.0] == (r.builds - {b})[item.0];
    }
  }

  lemma CoversLess(reservations: seq<S.Reservation>, key: Id, n: int, m: int)
    requires Covers(reservations, key, n) && m <= n
    ensures Covers(reservations, key, m)
  {
  }

  /** Settling a build leaves every other build backed. */
  lemma SettledIsSafe(s: Store, t: Store, b: Id)
    requires Safe(s) && t == s.(rows := t.rows)
    requires t.rows.builds.Keys == s.rows.builds.Keys
    requires forall x :: x in s.rows.builds ==> t.rows.builds[x].archiveKey == s.rows.builds[x].archiveKey
    requires forall x :: ActiveBuild(t.rows, x) ==> ActiveBuild(s.rows, x)
    ensures Safe(t) && Onward(s, t)
  {
    forall x ensures KeyLinked(t, x) { assert KeyLinked(s, x); }
    forall k ensures KeyTaken(t, k) { assert KeyTaken(s, k); }
    forall x ensures Backed(t, x) { assert Backed(s, x); }
    forall k | IdleKey(s, k) ensures IdleKey(t, k) { }
  }
}
