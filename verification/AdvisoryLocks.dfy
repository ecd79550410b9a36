/**
 The advisory locks of the repositories. Lock names are hashed to integers, and nothing is assumed about the hash: names
 may collide. A lock is re-entrant for the session that holds it, and counted.
 */
module AdvisoryLocks {
  import opened Sums

  type Id = nat
  type Client = nat

  datatype Name = Capacity | Owner(id: Id) | Staged(id: Id)

  /** The lock-taking methods. The first two lock for a session and unlock explicitly; the others lock for a transaction. */
  datatype Program =
    | AcquireCapacityLock
    | AcquireOwnerCapacityLock(owner: Id)
    | SaveContainer(owner: Id, lockOwner: bool, lockCapacity: bool)
    | Reserve(owner: Id)

  function Names(p: Program): seq<Name> {
    match p
    case AcquireCapacityLock => [Capacity]
    case AcquireOwnerCapacityLock(owner) => [Owner(owner), Capacity]
    case SaveContainer(owner, lockOwner, lockCapacity) =>
      (if lockOwner then [Owner(owner)] else []) + (if lockCapacity then [Capacity] else [])
    case Reserve(owner) => [Staged(owner)]
  }

  predicate ForSession(p: Program) {
    p.AcquireCapacityLock? || p.AcquireOwnerCapacityLock?
  }

  /** Taking the first names in turn; then, after the work or a failure, unlocking every name from the last to the first. */
  datatype Phase = Acquiring(taken: nat) | Releasing(left: nat) | Finished

  datatype Session = Session(program: Program, phase: Phase)

  datatype System = System(clients: map<Client, Session>, holds: map<(Client, int), nat>)

  function Held(s: System, c: Client, k: int): nat {
    if (c, k) in s.holds then s.holds[(c, k)] else 0
  }

  datatype Step = Lock(c: Client) | Fail(c: Client) | Work(c: Client) | Unlock(c: Client)

  function NextKey(hash: Name -> int, s: System, c: Client): int
    requires c in s.clients && s.clients[c].phase.Acquiring? && s.clients[c].phase.taken < |Names(s.clients[c].program)|
  {
    hash(Names(s.clients[c].program)[s.clients[c].phase.taken])
  }

  /** The client still has a lock to take. */
  predicate Wants(s: System, c: Client) {
    c in s.clients && s.clients[c].phase.Acquiring? && s.clients[c].phase.taken < |Names(s.clients[c].program)|
  }

  ghost predicate Blocks(hash: Name -> int, s: System, d: Client, c: Client) {
    Wants(s, c) && d != c && Held(s, d, NextKey(hash, s, c)) > 0
  }

  ghost predicate Enabled(hash: Name -> int, s: System, step: Step) {
    step.c in s.clients &&
    match step
    case Lock(c) => Wants(s, c) && forall d :: !Blocks(hash, s, d, c)
    case Fail(c) => Wants(s, c)
    case Work(c) => s.clients[c].phase == Acquiring(|Names(s.clients[c].program)|)
    case Unlock(c) => s.clients[c].phase.Releasing?
  }

  function Unlocked(s: System, c: Client, k: int): map<(Client, int), nat> {
    if Held(s, c, k) > 0 then s.holds[(c, k) := s.holds[(c, k)] - 1] else s.holds
  }

  ghost function Apply(hash: Name -> int, s: System, step: Step): System
    requires Enabled(hash, s, step)
  {
    var c := step.c;
    var me := s.clients[c];
    match step
    case Lock(_) =>
      var k := NextKey(hash, s, c);
      System(s.clients[c := me.(phase := Acquiring(me.phase.taken + 1))], s.holds[(c, k) := Held(s, c, k) + 1])
    case Fail(_) => s.(clients := s.clients[c := me.(phase := Releasing(|Names(me.program)|))])
    case Work(_) => s.(clients := s.clients[c := me.(phase := Releasing(|Names(me.program)|))])
    case Unlock(_) =>
      if !ForSession(me.program) then
        System(s.clients[c := me.(phase := Finished)], map p | p in s.holds && p.0 != c :: s.holds[p])
      else if me.phase.left == 0 then s.(clients := s.clients[c := me.(phase := Finished)])
      else if me.phase.left > |Names(me.program)| then s
      else
        System(s.clients[c := me.(phase := Releasing(me.phase.left - 1))],
               Unlocked(s, c, hash(Names(me.program)[me.phase.left - 1])))
  }

  /* ---- The invariant ---- */

  /** How many of the first n names have this key. */
  function Count(hash: Name -> int, names: seq<Name>, n: nat, k: int): nat
    requires n <= |names|
  {
    if n == 0 then 0 else Count(hash, names, n - 1, k) + (if hash(names[n - 1]) == k then 1 else 0)
  }

  lemma {:induction false} CountGrows(hash: Name -> int, names: seq<Name>, n: nat, m: nat, k: int)
    requires n <= m <= |names|
    ensures Count(hash, names, n, k) <= Count(hash, names, m, k)
  {
    if n < m { CountGrows(hash, names, n, m - 1, k); }
  }

  ghost predicate HoldsWhatItTook(hash: Name -> int, s: System, c: Client, k: int) {
    if c !in s.clients then Held(s, c, k) == 0
    else
      var names := Names(s.clients[c].program);
      match s.clients[c].phase
      case Acquiring(taken) => taken <= |names| && Held(s, c, k) == Count(hash, names, taken, k)
      case Releasing(left) => left <= |names| && Held(s, c, k) <= Count(hash, names, left, k)
      case Finished => Held(s, c, k) == 0
  }

  ghost predicate Exclusive(s: System, c: Client, d: Client, k: int) {
    Held(s, c, k) > 0 && Held(s, d, k) > 0 ==> c == d
  }

  ghost predicate Inv(hash: Name -> int, s: System) {
    && (forall c, k :: HoldsWhatItTook(hash, s, c, k))
    && (forall c, d, k :: Exclusive(s, c, d, k))
  }

  lemma HeldAfter(hash: Name -> int, s: System, step: Step, c: Client, k: int)
    requires Enabled(hash, s, step)
    ensures c != step.c ==> Held(Apply(hash, s, step), c, k) == Held(s, c, k)
    ensures Held(Apply(hash, s, step), c, k) > Held(s, c, k) ==> step == Lock(c) && NextKey(hash, s, c) == k
  {
  }

  lemma TookStep(hash: Name -> int, s: System, step: Step, c: Client, k: int)
    requires HoldsWhatItTook(hash, s, c, k) && Enabled(hash, s, step)
    ensures HoldsWhatItTook(hash, Apply(hash, s, step), c, k)
  {
    HeldAfter(hash, s, step, c, k);
    if c == step.c && s.clients[c].phase.Acquiring? {
      var names := Names(s.clients[c].program);
      CountGrows(hash, names, s.clients[c].phase.taken, |names|, k);
    }
  }

  lemma ExclusiveStep(hash: Name -> int, s: System, step: Step, c: Client, d: Client, k: int)
    requires Exclusive(s, c, d, k) && Enabled(hash, s, step)
    ensures Exclusive(Apply(hash, s, step), c, d, k)
  {
    HeldAfter(hash, s, step, c, k);
    HeldAfter(hash, s, step, d, k);
    if step.Lock? {
      assert !Blocks(hash, s, c, step.c) && !Blocks(hash, s, d, step.c);
    }
  }

  lemma InvStep(hash: Name -> int, s: System, step: Step)
    requires Inv(hash, s) && Enabled(hash, s, step)
    ensures Inv(hash, Apply(hash, s, step))
  {
    var t := Apply(hash, s, step);
    forall c, k ensures HoldsWhatItTook(hash, t, c, k) { TookStep(hash, s, step, c, k); }
    forall c, d, k ensures Exclusive(t, c, d, k) {
      assert Exclusive(s, c, d, k);
      ExclusiveStep(hash, s, step, c, d, k);
    }
  }

  /* ---- No deadlock ---- */

  /** The client can take its next step, and need not fail to do so. */
  ghost predicate CanAdvance(hash: Name -> int, s: System, c: Client) {
    Enabled(hash, s, Lock(c)) || Enabled(hash, s, Work(c)) || Enabled(hash, s, Unlock(c))
  }

  predicate Unfinished(s: System, c: Client) {
    c in s.clients && !s.clients[c].phase.Finished?
  }

  lemma {:induction false} CountOfNone(hash: Name -> int, names: seq<Name>, n: nat, k: int)
    requires n <= |names| && forall i :: 0 <= i < n ==> hash(names[i]) != k
    ensures Count(hash, names, n, k) == 0
  {
    if n > 0 { CountOfNone(hash, names, n - 1, k); }
  }

  /** Who holds one lock and wants another holds an owner's lock and wants the capacity lock. */
  lemma OnlyOwnersWait(hash: Name -> int, s: System, d: Client, k: int)
    requires Inv(hash, s) && Held(s, d, k) > 0
    ensures Unfinished(s, d)
    ensures Wants(s, d) ==> NextKey(hash, s, d) == hash(Capacity)
  {
    assert HoldsWhatItTook(hash, s, d, k);
  }

  /** A holder of the capacity lock waits for nothing, even if its owner's name has the same hash. */
  lemma CapacityHolderAdvances(hash: Name -> int, s: System, e: Client)
    requires Inv(hash, s) && Held(s, e, hash(Capacity)) > 0
    ensures CanAdvance(hash, s, e)
  {
    OnlyOwnersWait(hash, s, e, hash(Capacity));
    assert HoldsWhatItTook(hash, s, e, hash(Capacity));
    if Wants(s, e) {
      forall d ensures !Blocks(hash, s, d, e) { assert Exclusive(s, d, e, hash(Capacity)); }
    }
  }

  /** Every unfinished client can step, or waits for one that can, or waits for one that waits for one that can. */
  lemma NobodyWaitsForEver(hash: Name -> int, s: System, c: Client)
    requires Inv(hash, s) && Unfinished(s, c)
    ensures CanAdvance(hash, s, c)
            || exists d :: Blocks(hash, s, d, c) && (CanAdvance(hash, s, d) || exists e :: Blocks(hash, s, e, d) && CanAdvance(hash, s, e))
  {
    assert HoldsWhatItTook(hash, s, c, 0);
    if !CanAdvance(hash, s, c) {
      var d :| Blocks(hash, s, d, c);
      OnlyOwnersWait(hash, s, d, NextKey(hash, s, c));
      assert HoldsWhatItTook(hash, s, d, 0);
      if !CanAdvance(hash, s, d) {
        var e :| Blocks(hash, s, e, d);
        CapacityHolderAdvances(hash, s, e);
      }
    }
  }

  /* ---- Whole runs ---- */

  /** Steps a client may still take. */
  function StepsLeft(me: Session): int {
    var n := |Names(me.program)|;
    match me.phase
    case Acquiring(taken) => 2 * n + 2 - taken
    case Releasing(left) => left + 1
    case Finished => 0
  }

  function Left(s: System): Client -> int {
    c => if c in s.clients then StepsLeft(s.clients[c]) else 0
  }

  ghost function TotalLeft(s: System): int {
    SumOver(s.clients.Keys, Left(s))
  }

  lemma StepTakesOneOff(hash: Name -> int, s: System, step: Step)
    requires Inv(hash, s) && Enabled(hash, s, step)
    ensures TotalLeft(Apply(hash, s, step)) < TotalLeft(s)
  {
    var t, c := Apply(hash, s, step), step.c;
    assert HoldsWhatItTook(hash, s, c, 0);
    assert t.clients.Keys == s.clients.Keys;
    SumRemove(s.clients.Keys, c, Left(s));
    SumRemove(s.clients.Keys, c, Left(t));
    SumSame(s.clients.Keys - {c}, Left(s), Left(t));
  }

  ghost predicate LegalRun(hash: Name -> int, s: System, run: seq<Step>)
    decreases |run|
  {
    run == [] || (Enabled(hash, s, run[0]) && LegalRun(hash, Apply(hash, s, run[0]), run[1..]))
  }

  ghost function RunTo(hash: Name -> int, s: System, run: seq<Step>): System
    requires LegalRun(hash, s, run)
    decreases |run|
  {
    if run == [] then s else RunTo(hash, Apply(hash, s, run[0]), run[1..])
  }

  lemma LeftIsNotNegative(hash: Name -> int, s: System)
    requires Inv(hash, s)
    ensures TotalLeft(s) >= 0
  {
    forall c | c in s.clients ensures Left(s)(c) >= 0 { assert HoldsWhatItTook(hash, s, c, 0); }
    SumNonNegative(s.clients.Keys, Left(s));
  }

  /** No run is longer than the steps its clients have to take, and the invariant holds all along. */
  lemma {:induction false} RunsAreBounded(hash: Name -> int, s: System, run: seq<Step>)
    requires Inv(hash, s) && LegalRun(hash, s, run)
    ensures Inv(hash, RunTo(hash, s, run)) && |run| <= TotalLeft(s)
    decreases |run|
  {
    LeftIsNotNegative(hash, s);
    if run != [] {
      InvStep(hash, s, run[0]);
      StepTakesOneOff(hash, s, run[0]);
      RunsAreBounded(hash, Apply(hash, s, run[0]), run[1..]);
    }
  }

  /** Clients that have not begun. */
  predicate Fresh(s: System) {
    s.holds == map[] && forall c :: c in s.clients ==> s.clients[c].phase == Acquiring(0)
  }

  /** A run that no client can continue has finished every client, and no lock is held; on the way each had one holder. */
  lemma RunsEndWithNothingHeld(hash: Name -> int, s: System, run: seq<Step>, c: Client, d: Client, k: int)
    requires Fresh(s) && LegalRun(hash, s, run)
    ensures Exclusive(RunTo(hash, s, run), c, d, k)
    ensures (forall e :: !CanAdvance(hash, RunTo(hash, s, run), e)) ==>
              !Unfinished(RunTo(hash, s, run), c) && Held(RunTo(hash, s, run), c, k) == 0
  {
    RunsAreBounded(hash, s, run);
    var t := RunTo(hash, s, run);
    assert Exclusive(t, c, d, k) && HoldsWhatItTook(hash, t, c, k);
    if Unfinished(t, c) { NobodyWaitsForEver(hash, t, c); }
  }
}
