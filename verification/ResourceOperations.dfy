/**
 Resource operations: claiming, requeueing, completing, boot recovery, and deleting a container whose creation is under way.
 Each step is one transaction. An executor is a process that claimed an operation, or a request that inserted one as
 running, and has not yet requeued, completed or given up on it; a restart kills them all.
 */
module ResourceOperations {
  import R = BuildRows
  import Runs
  import Database

  type Id = nat

  datatype Kind = Container | Volume | Image

  datatype OpStatus = Pending | Running | Done | Failed

  datatype Op = Op(kind: Kind, resource: Id, create: bool, status: OpStatus, attempts: nat)

  datatype State = State(
    maxAttempts: int,
    ops: map<Id, Op>,
    outbox: map<Id, R.OutboxStatus>,
    containers: set<Id>,
    executors: multiset<Id>,
    claims: multiset<Id>,     // claims that reported claimed
    canceled: set<Id>)        // operations ended by deleting their container

  datatype Action =
    | AddContainer(c: Id)
    | Insert(o: Id, kind: Kind, resource: Id, create: bool, running: bool)
    | Claim(o: Id)
    | RequeueOwn(o: Id)
    | CompleteOwn(o: Id, status: OpStatus)
    | Abandon(o: Id)
    | Complete(o: Id, status: OpStatus)
    | CancelAndDelete(c: Id)
    | Mark(o: Id, outbox: R.OutboxStatus)
    | Restart(recoversCreates: bool, failsOthers: bool)

  function Init(maxAttempts: int): State {
    State(maxAttempts, map[], map[], {}, multiset{}, multiset{}, {})
  }

  predicate Active(op: Op) {
    op.status.Pending? || op.status.Running?
  }

  predicate ContainerCreate(op: Op) {
    op.kind.Container? && op.create
  }

  predicate Exhausted(op: Op, maxAttempts: int) {
    maxAttempts > 0 && op.attempts >= maxAttempts
  }

  /** The partial unique index on active operations. */
  predicate ResourceBusy(ops: map<Id, Op>, kind: Kind, resource: Id) {
    exists o :: o in ops && ops[o].kind == kind && ops[o].resource == resource && Active(ops[o])
  }

  /* ---- The transactions ---- */

  predicate CanClaim(ops: map<Id, Op>, o: Id, maxAttempts: int) {
    o in ops && ops[o].status.Pending? && !Exhausted(ops[o], maxAttempts)
  }

  function ClaimTx(ops: map<Id, Op>, o: Id, maxAttempts: int): map<Id, Op> {
    if CanClaim(ops, o, maxAttempts) then ops[o := ops[o].(status := Running, attempts := ops[o].attempts + 1)] else ops
  }

  function RequeueTx(ops: map<Id, Op>, o: Id): map<Id, Op> {
    if o in ops && ops[o].status.Running? then ops[o := ops[o].(status := Pending)] else ops
  }

  /** The write has no guard. */
  function CompleteTx(ops: map<Id, Op>, o: Id, status: OpStatus): map<Id, Op> {
    if o in ops then ops[o := ops[o].(status := status)] else ops
  }

  predicate CreatesContainer(op: Op, c: Id) {
    ContainerCreate(op) && op.resource == c && Active(op)
  }

  function CancelOps(ops: map<Id, Op>, c: Id): map<Id, Op> {
    map o | o in ops :: if CreatesContainer(ops[o], c) then ops[o].(status := Failed) else ops[o]
  }

  function CancelOutbox(ops: map<Id, Op>, outbox: map<Id, R.OutboxStatus>, c: Id): map<Id, R.OutboxStatus> {
    map o | o in outbox ::
      if o in ops && CreatesContainer(ops[o], c) && (outbox[o].Unsent? || outbox[o].Publishing?) then R.Discarded else outbox[o]
  }

  function RecoverCreates(ops: map<Id, Op>): map<Id, Op> {
    map o | o in ops :: if ContainerCreate(ops[o]) && ops[o].status.Running? then ops[o].(status := Pending) else ops[o]
  }

  /** The second statement of that transaction sees the operations as the first left them. */
  function RecoverOutbox(ops: map<Id, Op>, outbox: map<Id, R.OutboxStatus>): map<Id, R.OutboxStatus> {
    map o | o in outbox :: if o in ops && ContainerCreate(ops[o]) && Active(ops[o]) then R.Unsent else outbox[o]
  }

  function FailOthers(ops: map<Id, Op>): map<Id, Op> {
    map o | o in ops :: if ops[o].status.Running? && !ContainerCreate(ops[o]) then ops[o].(status := Failed) else ops[o]
  }

  function Recovered(ops: map<Id, Op>, recoversCreates: bool, failsOthers: bool): map<Id, Op> {
    var first := if recoversCreates then RecoverCreates(ops) else ops;
    if failsOthers then FailOthers(first) else first
  }

  /* ---- Steps ---- */

  predicate Enabled(s: State, a: Action) {
    match a
    case Insert(o, kind, resource, create, running) => o !in s.ops && o !in s.outbox && !ResourceBusy(s.ops, kind, resource)
    case RequeueOwn(o) => o in s.executors
    case CompleteOwn(o, status) => o in s.executors && (status.Done? || status.Failed?)
    case Abandon(o) => o in s.executors
    case Complete(o, status) => status.Done? || status.Failed?
    case _ => true
  }

  function Apply(s: State, a: Action): State {
    match a
    case AddContainer(c) => s.(containers := s.containers + {c})
    case Insert(o, kind, resource, create, running) =>
      s.(ops := s.ops[o := Op(kind, resource, create, if running then Running else Pending, 0)],
         outbox := if running then s.outbox else s.outbox[o := R.Unsent],
         executors := if running then s.executors + multiset{o} else s.executors)
    case Claim(o) =>
      if CanClaim(s.ops, o, s.maxAttempts) then
        s.(ops := ClaimTx(s.ops, o, s.maxAttempts), executors := s.executors + multiset{o}, claims := s.claims + multiset{o})
      else s
    case RequeueOwn(o) => s.(ops := RequeueTx(s.ops, o), executors := s.executors - multiset{o})
    case CompleteOwn(o, status) => s.(ops := CompleteTx(s.ops, o, status), executors := s.executors - multiset{o})
    case Abandon(o) => s.(executors := s.executors - multiset{o})
    case Complete(o, status) => s.(ops := CompleteTx(s.ops, o, status))
    case CancelAndDelete(c) =>
      if c !in s.containers then s
      else s.(ops := CancelOps(s.ops, c), outbox := CancelOutbox(s.ops, s.outbox, c), containers := s.containers - {c},
              canceled := s.canceled + set o | o in s.ops && CreatesContainer(s.ops[o], c))
    case Mark(o, outbox) => if o in s.outbox then s.(outbox := s.outbox[o := outbox]) else s
    case Restart(recoversCreates, failsOthers) =>
      s.(ops := Recovered(s.ops, recoversCreates, failsOthers),
         outbox := if recoversCreates then RecoverOutbox(s.ops, s.outbox) else s.outbox,
         executors := multiset{})
  }

  /* ---- Runs ---- */

  ghost predicate Step(s: State, t: State) {
    exists a :: Enabled(s, a) && t == Apply(s, a)
  }

  /** Some run leads from the first state to the second. */
  ghost predicate Later(s: State, t: State) {
    Runs.Later(Step, s, t)
  }

  ghost predicate Reachable(s: State) {
    Later(Init(s.maxAttempts), s)
  }

  /** The same, given by its actions. */
  ghost predicate Legal(s: State, run: seq<Action>) {
    Runs.Legal(Enabled, Apply, s, run)
  }

  ghost function Exec(s: State, run: seq<Action>): State {
    Runs.Exec(Apply, s, run)
  }

  /* ---- The invariant, operation by operation ---- */

  ghost predicate Bounded(s: State, o: Id) {
    && (o in s.ops ==> s.claims[o] == s.ops[o].attempts)
    && (o !in s.ops ==> s.claims[o] == 0 && s.executors[o] == 0 && o !in s.canceled)
    && (s.maxAttempts > 0 ==> s.claims[o] <= s.maxAttempts)
    && s.executors[o] <= 1
    && (o in s.ops && s.ops[o].status.Pending? ==> s.executors[o] == 0)
    && (o in s.canceled && o in s.ops ==> !Active(s.ops[o]))
  }

  ghost predicate OneActive(s: State, o: Id, p: Id) {
    o in s.ops && p in s.ops && o != p && Active(s.ops[o]) && Active(s.ops[p]) ==>
      s.ops[o].kind != s.ops[p].kind || s.ops[o].resource != s.ops[p].resource
  }

  ghost predicate Inv(s: State) {
    && (forall o :: Bounded(s, o))
    && (forall o, p :: OneActive(s, o, p))
  }

  lemma BoundedInsert(s: State, a: Action, o: Id)
    requires Bounded(s, o) && Enabled(s, a)
    requires a.AddContainer? || a.Insert?
    ensures Bounded(Apply(s, a), o)
  {
  }

  lemma BoundedClaim(s: State, a: Action, o: Id)
    requires Bounded(s, o) && Enabled(s, a)
    requires a.Claim?
    ensures Bounded(Apply(s, a), o)
  {
  }

  lemma BoundedWrite(s: State, a: Action, o: Id)
    requires Bounded(s, o) && Enabled(s, a)
    requires a.RequeueOwn? || a.CompleteOwn? || a.Abandon? || a.Complete? || a.Mark?
    ensures Bounded(Apply(s, a), o)
  {
  }

  lemma BoundedCancel(s: State, a: Action, o: Id)
    requires Bounded(s, o) && Enabled(s, a)
    requires a.CancelAndDelete?
    ensures Bounded(Apply(s, a), o)
  {
  }

  lemma BoundedRestart(s: State, a: Action, o: Id)
    requires Bounded(s, o) && Enabled(s, a)
    requires a.Restart?
    ensures Bounded(Apply(s, a), o)
  {
  }

  lemma BoundedStep(s: State, a: Action, o: Id)
    requires Bounded(s, o) && Enabled(s, a)
    ensures Bounded(Apply(s, a), o)
  {
    match a
    case AddContainer(_) | Insert(_, _, _, _, _) => BoundedInsert(s, a, o);
    case Claim(_) => BoundedClaim(s, a, o);
    case CancelAndDelete(_) => BoundedCancel(s, a, o);
    case Restart(_, _) => BoundedRestart(s, a, o);
    case _ => BoundedWrite(s, a, o);
  }

  lemma OneActiveInsert(s: State, a: Action, o: Id, p: Id)
    requires OneActive(s, o, p) && Enabled(s, a)
    requires a.AddContainer? || a.Insert?
    ensures OneActive(Apply(s, a), o, p)
  {
  }

  lemma OneActiveClaim(s: State, a: Action, o: Id, p: Id)
    requires OneActive(s, o, p) && Enabled(s, a)
    requires a.Claim?
    ensures OneActive(Apply(s, a), o, p)
  {
  }

  lemma OneActiveWrite(s: State, a: Action, o: Id, p: Id)
    requires OneActive(s, o, p) && Enabled(s, a)
    requires a.RequeueOwn? || a.CompleteOwn? || a.Abandon? || a.Complete? || a.Mark?
    ensures OneActive(Apply(s, a), o, p)
  {
  }

  lemma OneActiveCancel(s: State, a: Action, o: Id, p: Id)
    requires OneActive(s, o, p) && Enabled(s, a)
    requires a.CancelAndDelete?
    ensures OneActive(Apply(s, a), o, p)
  {
  }

  lemma OneActiveRestart(s: State, a: Action, o: Id, p: Id)
    requires OneActive(s, o, p) && Enabled(s, a)
    requires a.Restart?
    ensures OneActive(Apply(s, a), o, p)
  {
  }

  lemma OneActiveStep(s: State, a: Action, o: Id, p: Id)
    requires OneActive(s, o, p) && Enabled(s, a)
    ensures OneActive(Apply(s, a), o, p)
  {
    match a
    case AddContainer(_) | Insert(_, _, _, _, _) => OneActiveInsert(s, a, o, p);
    case Claim(_) => OneActiveClaim(s, a, o, p);
    case CancelAndDelete(_) => OneActiveCancel(s, a, o, p);
    case Restart(_, _) => OneActiveRestart(s, a, o, p);
    case _ => OneActiveWrite(s, a, o, p);
  }

  lemma InvStep(s: State, a: Action)
    requires Inv(s) && Enabled(s, a)
    ensures Inv(Apply(s, a))
  {
    forall o ensures Bounded(Apply(s, a), o) { BoundedStep(s, a, o); }
    forall o, p ensures OneActive(Apply(s, a), o, p) {
      assert OneActive(s, o, p);
      OneActiveStep(s, a, o, p);
    }
  }

  /** What holds from any state to every later one. */
  ghost predicate OpMoves(s: State, t: State, o: Id) {
    && s.claims[o] <= t.claims[o]
    && (o in s.canceled ==> o in t.canceled)
    && (o in s.ops ==> o in t.ops && t.ops[o].resource == s.ops[o].resource)
    && (o in s.ops && !Active(s.ops[o]) ==> !Active(t.ops[o]) && t.claims[o] == s.claims[o])
  }

  ghost predicate Grew(s: State, t: State) {
    forall o :: OpMoves(s, t, o)
  }

  lemma MovesAtOnce(s: State, a: Action, o: Id)
    requires Bounded(s, o) && Enabled(s, a)
    requires a.CancelAndDelete? || a.Restart?
    ensures OpMoves(s, Apply(s, a), o)
  {
  }

  lemma MovesOneByOne(s: State, a: Action, o: Id)
    requires Bounded(s, o) && Enabled(s, a)
    requires !a.CancelAndDelete? && !a.Restart?
    ensures OpMoves(s, Apply(s, a), o)
  {
  }

  lemma MovesStep(s: State, a: Action, o: Id)
    requires Bounded(s, o) && Enabled(s, a)
    ensures OpMoves(s, Apply(s, a), o)
  {
    if a.CancelAndDelete? || a.Restart? { MovesAtOnce(s, a, o); } else { MovesOneByOne(s, a, o); }
  }

  lemma InvKeeps(s: State, t: State)
    requires Inv(s) && Later(s, t)
    ensures Inv(t) && Grew(s, t)
  {
    forall u, v | Inv(u) && Grew(s, u) && Step(u, v) ensures Inv(v) && Grew(s, v) {
      var a :| Enabled(u, a) && v == Apply(u, a);
      InvStep(u, a);
      forall o ensures OpMoves(s, v, o) {
        MovesStep(u, a, o);
        assert OpMoves(s, u, o) && Bounded(u, o);
      }
    }
    Runs.LaterKeeps(Step, u => Inv(u) && Grew(s, u), s, t);
  }

  lemma RunKeeps(s: State, run: seq<Action>)
    requires Inv(s) && Legal(s, run)
    ensures Inv(Exec(s, run))
  {
    Runs.RunLeads(Enabled, Apply, Step, s, run);
    InvKeeps(s, Exec(s, run));
  }

  lemma ReachableKeeps(s: State)
    requires Reachable(s)
    ensures Inv(s)
  {
    InvKeeps(Init(s.maxAttempts), s);
  }

  lemma LaterKeeps(s: State, t: State, o: Id)
    requires Reachable(s) && Later(s, t)
    ensures Bounded(s, o) && Bounded(t, o) && OpMoves(s, t, o)
  {
    ReachableKeeps(s);
    InvKeeps(s, t);
  }

  /* ---- Theorems ---- */

  /** However often it is requeued, recovered or interrupted, an operation is claimed at most maxAttempts times. */
  lemma ClaimsAreBounded(s: State, o: Id)
    requires Reachable(s)
    ensures s.maxAttempts > 0 ==> s.claims[o] <= s.maxAttempts
    ensures o in s.ops ==> s.ops[o].attempts == s.claims[o]
  {
    ReachableKeeps(s);
    assert Bounded(s, o);
  }

  /** At most one process executes an operation, and none while it is pending. */
  lemma OneExecutorAtATime(s: State, o: Id)
    requires Reachable(s)
    ensures s.executors[o] <= 1
    ensures o in s.ops && s.ops[o].status.Pending? ==> s.executors[o] == 0
  {
    ReachableKeeps(s);
    assert Bounded(s, o);
  }

  lemma OneActiveOperationPerResource(s: State, o: Id, p: Id)
    requires Reachable(s) && o in s.ops && p in s.ops && Active(s.ops[o]) && Active(s.ops[p])
    requires s.ops[o].kind == s.ops[p].kind && s.ops[o].resource == s.ops[p].resource
    ensures o == p
  {
    ReachableKeeps(s);
    assert OneActive(s, o, p);
  }

  /** Once the container's deletion commits, no creation of it that was then active is ever claimed again. */
  lemma DeletedCreateIsNeverClaimed(s: State, c: Id, t: State, o: Id)
    requires Reachable(s) && c in s.containers && o in s.ops && CreatesContainer(s.ops[o], c)
    requires Later(Apply(s, CancelAndDelete(c)), t)
    ensures t.claims[o] == s.claims[o] && o in t.ops && !Active(t.ops[o])
    ensures !CanClaim(t.ops, o, t.maxAttempts)
  {
    var u := Apply(s, CancelAndDelete(c));
    ReachableStep(s, CancelAndDelete(c));
    LaterKeeps(u, t, o);
    assert o in u.ops && !Active(u.ops[o]);
  }

  lemma ReachableStep(s: State, a: Action)
    requires Reachable(s) && Enabled(s, a)
    ensures Reachable(Apply(s, a))
  {
    Runs.Onwards(Step, Init(s.maxAttempts), s, Apply(s, a));
    assert Apply(s, a).maxAttempts == s.maxAttempts;
  }

  /** An operation that has ended is never active again, though its outcome may still be overwritten. */
  lemma EndedIsFinal(s: State, t: State, o: Id)
    requires Reachable(s) && Later(s, t) && o in s.ops && !Active(s.ops[o])
    ensures o in t.ops && !Active(t.ops[o]) && t.claims[o] == s.claims[o]
  {
    LaterKeeps(s, t, o);
  }

  /** After full recovery no operation is running, and each pending creation with an outbox row has it to send again. */
  lemma RecoveryIsComplete(s: State, o: Id)
    requires o in s.ops
    ensures var t := Apply(s, Restart(true, true));
            && o in t.ops && !t.ops[o].status.Running? && t.executors == multiset{}
            && (t.ops[o].status.Pending? && ContainerCreate(t.ops[o]) && o in t.outbox ==> t.outbox[o] == R.Unsent)
            && (t.ops[o].status.Pending? <==> s.ops[o].status.Pending? || (ContainerCreate(s.ops[o]) && s.ops[o].status.Running?))
  {
    var t := Apply(s, Restart(true, true));
    assert o in RecoverCreates(s.ops) && t.ops[o] == FailOthers(RecoverCreates(s.ops))[o];
  }

  /** Without a positive maximum nothing bounds the retries. */
  lemma {:induction false} WithoutMaximumRetriesAreUnbounded(maxAttempts: int, n: nat) returns (run: seq<Action>)
    requires maxAttempts <= 0
    ensures Legal(Init(maxAttempts), run)
    ensures var s := Exec(Init(maxAttempts), run); s.maxAttempts <= 0 && s.claims[1] == n && CanClaim(s.ops, 1, s.maxAttempts)
  {
    if n == 0 {
      run := [Insert(1, Volume, 7, true, false)];
      Runs.Extend(Enabled, Apply, Init(maxAttempts), [], run[0]);
      assert [] + [run[0]] == run;
    } else {
      run := WithoutMaximumRetriesAreUnbounded(maxAttempts, n - 1);
      Runs.Extend(Enabled, Apply, Init(maxAttempts), run, Claim(1));
      run := run + [Claim(1)];
      Runs.Extend(Enabled, Apply, Init(maxAttempts), run, RequeueOwn(1));
      run := run + [RequeueOwn(1)];
    }
  }

  /* ---- The code ---- */

  datatype Err = Ok | NotFound | Internal

  /** Steps of others while this process executes an operation: none of them restarts the core or ends its execution. */
  ghost predicate Alongside(before: seq<Action>, after: seq<Action>, o: Id) {
    before <= after && forall i :: |before| <= i < |after| ==>
      !after[i].Restart? && after[i] != RequeueOwn(o) && after[i] != Abandon(o) && !(after[i].CompleteOwn? && after[i].o == o)
  }

  lemma {:induction false} StillExecuting(m: int, before: seq<Action>, after: seq<Action>, o: Id)
    requires Alongside(before, after, o) && Legal(Init(m), after)
    ensures Exec(Init(m), before).executors[o] <= Exec(Init(m), after).executors[o]
    ensures Exec(Init(m), before).claims[o] <= Exec(Init(m), after).claims[o]
    decreases |after|
  {
    if before != after {
      var shorter := after[..|after| - 1];
      assert before <= shorter && after[|shorter|] == after[|after| - 1];
      StillExecuting(m, before, shorter, o);
    }
  }

  /** The last step of a process that executes an operation. */
  ghost predicate Ends(o: Id, ok: bool, healthy: bool, a: Action) {
    match a
    case CompleteOwn(p, status) => p == o && status == if ok then Done else Failed
    case RequeueOwn(p) => p == o && !ok
    case Abandon(p) => p == o && !healthy
    case _ => false
  }

  class OperationStore {
    const maxAttempts: int
    const healthy: bool
    var ops: map<Id, Op>
    var outbox: map<Id, R.OutboxStatus>
    var containers: set<Id>
    ghost var log: seq<Action>  // every step taken so far, by anyone
    ghost var own: seq<Action>  // those of the process whose method is running

    ghost function View(): State
      reads this`log
    {
      Exec(Init(maxAttempts), log)
    }

    ghost predicate Valid()
      reads this
    {
      && Legal(Init(maxAttempts), log) && View().maxAttempts == maxAttempts
      && View().ops == ops && View().outbox == outbox && View().containers == containers
    }

    constructor (maxAttempts: int, healthy: bool)
      ensures Valid() && log == [] && this.maxAttempts == maxAttempts && this.healthy == healthy
    {
      this.healthy := healthy;
      this.maxAttempts, ops, outbox, containers, log, own := maxAttempts, map[], map[], {}, [], [];
    }

    method Interfere(ghost o: Id)
      requires Valid()
      modifies this
      ensures Valid() && Alongside(old(log), log, o) && own == old(own)
    {
    }

    ghost method Commit(a: Action)
      requires Legal(Init(maxAttempts), log) && View().maxAttempts == maxAttempts && Enabled(View(), a)
      requires Apply(View(), a).ops == ops && Apply(View(), a).outbox == outbox && Apply(View(), a).containers == containers
      modifies this`log, this`own
      ensures log == old(log) + [a] && own == old(own) + [a] && Valid() && View() == Apply(old(View()), a)
    {
      Runs.Extend(Enabled, Apply, Init(maxAttempts), log, a);
      log, own := log + [a], own + [a];
    }

    /** The container repository's claim: two tests, two early commits. */
    method ClaimPendingOperation(o: Id) returns (err: Err, op: Op, claimed: bool)
      modifies this`ops
      ensures err.Ok? ==> o in ops && op == ops[o] && ops == ClaimTx(old(ops), o, maxAttempts)
      ensures err.Ok? ==> claimed == CanClaim(old(ops), o, maxAttempts)
      ensures !err.Ok? ==> ops == old(ops) && !claimed
      ensures err.NotFound? ==> o !in old(ops)
      ensures healthy ==> !err.Internal?
    {
      op, claimed := Op(Container, 0, false, Failed, 0), false;
      var reachable := Database.Reach(healthy);
      if !reachable { return Internal, op, false; }
      if o !in ops { return NotFound, op, false; }
      if ops[o].status != Pending { return Ok, ops[o], false; }
      if maxAttempts > 0 && ops[o].attempts >= maxAttempts { return Ok, ops[o], false; }
      ops := ops[o := ops[o].(status := Running, attempts := ops[o].attempts + 1)];
      return Ok, ops[o], true;
    }

    /** The lifecycle repository's copy, with one test: the contract is the same. */
    method ClaimPendingLifecycleOperation(o: Id) returns (err: Err, op: Op, claimed: bool)
      modifies this`ops
      ensures err.Ok? ==> o in ops && op == ops[o] && ops == ClaimTx(old(ops), o, maxAttempts)
      ensures err.Ok? ==> claimed == CanClaim(old(ops), o, maxAttempts)
      ensures !err.Ok? ==> ops == old(ops) && !claimed
      ensures err.NotFound? ==> o !in old(ops)
      ensures healthy ==> !err.Internal?
    {
      op, claimed := Op(Container, 0, false, Failed, 0), false;
      var reachable := Database.Reach(healthy);
      if !reachable { return Internal, op, false; }
      if o !in ops { return NotFound, op, false; }
      if ops[o].status != Pending || (maxAttempts > 0 && ops[o].attempts >= maxAttempts) { return Ok, ops[o], false; }
      ops := ops[o := ops[o].(status := Running, attempts := ops[o].attempts + 1)];
      return Ok, ops[o], true;
    }

    method RequeueOperation(o: Id) returns (err: Err)
      modifies this`ops
      ensures err.Ok? ==> o in old(ops) && old(ops)[o].status.Running? && ops == RequeueTx(old(ops), o)
      ensures !err.Ok? ==> ops == old(ops)
      ensures err.NotFound? ==> !(o in ops && ops[o].status.Running?)
      ensures healthy ==> !err.Internal?
    {
      var reachable := Database.Reach(healthy);
      if !reachable { return Internal; }
      if o !in ops || ops[o].status != Running { return NotFound; }
      ops := ops[o := ops[o].(status := Pending)];
      return Ok;
    }

    method CompleteOperation(o: Id, status: OpStatus) returns (err: Err)
      modifies this`ops
      ensures err.Internal? ==> ops == old(ops)
      ensures !err.Internal? ==> ops == CompleteTx(old(ops), o, status)
      ensures err.NotFound? ==> o !in old(ops)
      ensures healthy ==> !err.Internal?
    {
      var reachable := Database.Reach(healthy);
      if !reachable { return Internal; }
      if o !in ops { return NotFound; }
      ops := ops[o := ops[o].(status := status)];
      return Ok;
    }

    /**
     One transaction: every active creation of the container fails, its unsent messages are discarded, and the container
     row goes. If there is no such row, or a statement fails, nothing has happened.
     */
    method CancelActiveCreateAndDeleteContainer(c: Id) returns (err: Err)
      requires Valid()
      modifies this`ops, this`outbox, this`containers, this`log, this`own
      ensures Valid() && (err.Ok? ==> c in old(containers) && log == old(log) + [CancelAndDelete(c)])
      ensures !err.Ok? ==> ops == old(ops) && outbox == old(outbox) && containers == old(containers) && log == old(log)
      ensures healthy ==> (err.Ok? <==> c in old(containers))
    {
      var newOps, newOutbox;
      err, newOps, newOutbox := FailCreates(c);
      if !err.Ok? { return; }
      if c !in containers { return NotFound; }
      ops, outbox, containers := newOps, newOutbox, containers - {c};
      Commit(CancelAndDelete(c));
    }

    /** The statements for one operation after another, still uncommitted. */
    method FailCreates(c: Id) returns (err: Err, newOps: map<Id, Op>, newOutbox: map<Id, R.OutboxStatus>)
      ensures err.Ok? ==> newOps == CancelOps(ops, c) && newOutbox == CancelOutbox(ops, outbox, c)
      ensures healthy ==> err.Ok?
    {
      var todo := set o | o in ops && CreatesContainer(ops[o], c);
      newOps, newOutbox := ops, outbox;
      while todo != {}
        invariant todo <= ops.Keys && newOps.Keys == ops.Keys && newOutbox.Keys == outbox.Keys
        invariant forall o :: o in todo ==> CreatesContainer(ops[o], c)
        invariant forall o :: o in ops ==> newOps[o] == if o in todo then ops[o] else CancelOps(ops, c)[o]
        invariant forall o :: o in outbox ==> newOutbox[o] == if o in todo then outbox[o] else CancelOutbox(ops, outbox, c)[o]
        decreases todo
      {
        var o :| o in todo;
        var reachable := Database.Reach(healthy);
        if !reachable { return Internal, ops, outbox; }
        todo := todo - {o};
        newOps := newOps[o := newOps[o].(status := Failed)];
        if o in newOutbox && (newOutbox[o].Unsent? || newOutbox[o].Publishing?) { newOutbox := newOutbox[o := R.Discarded]; }
      }
      return Ok, newOps, newOutbox;
    }

    /** The core starts: no executor is left, and either recovery transaction may fail without stopping it. */
    method Boot() returns (first: bool, second: bool)
      requires Valid()
      modifies this
      ensures Valid() && log == old(log) + [Restart(first, second)] && View().executors == multiset{}
    {
      first, second := *, *;
      if first { ops, outbox := RecoverCreates(ops), RecoverOutbox(ops, outbox); }
      if second { ops := FailOthers(ops); }
      Commit(Restart(first, second));
    }

    /** Ends an execution whose write failed: the operation stays as it is. */
    method Finish(o: Id, status: OpStatus)
      requires Valid() && o in View().executors && (status.Done? || status.Failed?)
      modifies this`ops, this`log, this`own
      ensures own == old(own) + [CompleteOwn(o, status)] || (!healthy && own == old(own) + [Abandon(o)])
      ensures Valid() && View().executors == old(View()).executors - multiset{o}
      ensures View().claims == old(View()).claims
    {
      var err := CompleteOperation(o, status);
      if err.Internal? { Commit(Abandon(o)); } else { Commit(CompleteOwn(o, status)); }
    }

    /**
     One queue message. A process that claims the operation is its only executor for as long as it runs, and is done
     with it when it returns; a process that does not claim it may only fail an exhausted one.
     */
    method ExecuteQueued(o: Id) returns (err: Err, claimed: bool, ghost last: Action)
      requires Valid()
      modifies this
      ensures Valid()
      ensures claimed ==> View().executors[o] == 0 && old(View()).claims[o] < View().claims[o]
      ensures claimed ==> own == old(own) + [Claim(o)] + [last] && Ends(o, err.Ok?, healthy, last)
      ensures !claimed ==> View().claims == old(View()).claims && View().executors == old(View()).executors
      ensures !claimed ==> own == old(own) || own == old(own) + [Claim(o)] || own == old(own) + [Claim(o)] + [Complete(o, Failed)]
    {
      var op;
      last := Claim(o);
      err, op, claimed := ClaimPendingOperation(o);
      if !err.Ok? { return; }
      Commit(Claim(o));
      if !claimed {
        if op.status == Pending && maxAttempts > 0 && op.attempts >= maxAttempts {
          var failed := CompleteOperation(o, Failed);
          if !failed.Internal? { Commit(Complete(o, Failed)); }
        }
        return;
      }
      err, last := Execute(o);
    }

    method Execute(o: Id) returns (err: Err, ghost last: Action)
      requires Valid() && o in View().executors
      modifies this
      ensures Valid() && View().executors[o] == 0 && old(View()).claims[o] <= View().claims[o]
      ensures own == old(own) + [last] && Ends(o, err.Ok?, healthy, last)
    {
      OthersAct(o);
      var works: bool, retryable: bool := *, *;
      if !works && retryable {
        var requeued := RequeueOperation(o);
        if requeued.Ok? {
          last := RequeueOwn(o);
          Commit(last);
          return Internal, last;
        }
      }
      Finish(o, if works then Done else Failed);
      last := own[|own| - 1];
      err := if works then Ok else Internal;
    }

    /** While a process executes an operation it stays the only one that does. */
    method OthersAct(ghost o: Id)
      requires Valid() && o in View().executors
      modifies this
      ensures Valid() && own == old(own) && View().executors[o] == 1 && old(View()).claims[o] <= View().claims[o]
    {
      Interfere(o);
      StillExecuting(maxAttempts, old(log), log, o);
      RunKeeps(Init(maxAttempts), log);
      assert Bounded(View(), o);
    }
  }
}
