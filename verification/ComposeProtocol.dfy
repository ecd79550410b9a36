/**
 Compose deployment jobs across restarts of the core. The steps are database statements, broker operations, readings by the
 processes now alive, and restarts: a restart kills every process, so nothing that was read before it can be acted on, and
 it may be followed by recovery, which puts interrupted jobs back into the queue or fails them.
 */
module ComposeProtocol {
  import R = BuildRows
  import Runs
  import P = BuildProtocol

  type Id = nat

  datatype JobStatus = Queued | Running | Canceling | Canceled | Succeeded | Failed

  datatype Job = Job(project: Id, status: JobStatus, attempts: nat, cancelRequested: bool, staged: bool)

  /** What a process now alive has read, or done on the broker, about a job. */
  datatype Fact = SawNotQueued(j: Id) | SawCancel(j: Id) | SawOver(j: Id) | DidPublish(j: Id) | GaveUp(j: Id)

  datatype State = State(
    maxAttempts: int,
    jobs: map<Id, Job>,
    outbox: map<Id, R.OutboxStatus>,
    broker: P.Broker,
    seen: set<Fact>,
    issued: set<Id>,
    starts: multiset<Id>,    // every Start that moved a job to running
    abandoned: set<Id>)      // jobs whose cancel could not be written, while the message was acknowledged

  datatype Action =
    | Create(j: Id, project: Id)
    | Start(j: Id)
    | SavePlan(j: Id)
    | Complete(j: Id, status: JobStatus)
    | RequestCancel(project: Id)
    | Delete(j: Id)
    | Lease(js: set<Id>)
    | Mark(j: Id, outbox: R.OutboxStatus)
    | Publish(j: Id)
    | Deliver(j: Id)
    | Ack(j: Id)
    | Requeue(j: Id)
    | DeadLetter(j: Id)
    | Observe(fact: Fact)
    | GiveUp(j: Id)
    | Restart(recovers: bool, partial: set<Id>)

  const NoMessages := P.Broker(multiset{}, multiset{}, multiset{})

  function Init(maxAttempts: int): State {
    State(maxAttempts, map[], map[], NoMessages, {}, {}, multiset{}, {})
  }

  predicate Terminal(status: JobStatus) {
    status.Canceled? || status.Succeeded? || status.Failed?
  }

  predicate IsQueued(s: State, j: Id) {
    j in s.jobs && s.jobs[j].status.Queued?
  }

  function Held(s: State, j: Id): nat {
    s.broker.ready[j] + s.broker.delivered[j] + s.broker.dead[j]
  }

  /* ---- The statements ---- */

  predicate CanStart(job: Job) {
    job.status.Queued? && !job.cancelRequested
  }

  function StartTx(jobs: map<Id, Job>, j: Id): map<Id, Job> {
    if j in jobs && CanStart(jobs[j]) then jobs[j := jobs[j].(status := Running, attempts := jobs[j].attempts + 1)] else jobs
  }

  function SavePlanTx(jobs: map<Id, Job>, j: Id): map<Id, Job> {
    if j in jobs && jobs[j].status.Running? then jobs[j := jobs[j].(staged := true)] else jobs
  }

  /** The write has no guard: it overwrites any status. */
  function CompleteTx(jobs: map<Id, Job>, j: Id, status: JobStatus): map<Id, Job> {
    if j in jobs then jobs[j := jobs[j].(status := status)] else jobs
  }

  function CanceledJob(job: Job, project: Id): Job {
    if job.project != project || Terminal(job.status) then job else job.(status := Canceling, cancelRequested := true)
  }

  function RequestCancelTx(jobs: map<Id, Job>, project: Id): map<Id, Job> {
    map j | j in jobs :: CanceledJob(jobs[j], project)
  }

  predicate Interrupted(job: Job) {
    (job.status.Running? || job.status.Canceling?) && !job.staged
  }

  /** Recovery gives up on a job that left partial work or has no attempt left; without a maximum there is always one. */
  predicate MustFail(job: Job, maxAttempts: int, partial: set<Id>) {
    job.project in partial || (maxAttempts > 0 && job.attempts >= maxAttempts)
  }

  function RecoveredJob(job: Job, maxAttempts: int, partial: set<Id>): Job {
    if !Interrupted(job) then job
    else job.(status := if MustFail(job, maxAttempts, partial) then Failed else Queued)
  }

  function RecoverJobs(jobs: map<Id, Job>, maxAttempts: int, partial: set<Id>): map<Id, Job> {
    map j | j in jobs :: RecoveredJob(jobs[j], maxAttempts, partial)
  }

  function RecoverOutbox(jobs: map<Id, Job>, outbox: map<Id, R.OutboxStatus>, maxAttempts: int, partial: set<Id>): map<Id, R.OutboxStatus> {
    map j | j in outbox ::
      if j in jobs && Interrupted(jobs[j]) && !MustFail(jobs[j], maxAttempts, partial) then R.Unsent else outbox[j]
  }

  /* ---- Steps ---- */

  predicate Holds(s: State, f: Fact) {
    match f
    case SawNotQueued(j) => j in s.issued && !IsQueued(s, j)
    case SawCancel(j) => j in s.issued && (j in s.jobs ==> s.jobs[j].cancelRequested)
    case SawOver(j) => j in s.issued && (j in s.jobs ==> Terminal(s.jobs[j].status))
    case DidPublish(_) => false
    case GaveUp(_) => false
  }

  predicate Enabled(s: State, a: Action) {
    match a
    case Create(j, project) => j !in s.issued && j !in s.jobs && j !in s.outbox
    case Complete(j, status) => Terminal(status)
    case Lease(js) => forall j :: j in js ==> j in s.outbox && (s.outbox[j].Unsent? || s.outbox[j].Publishing?)
    case Mark(j, outbox) =>
      (match outbox
       case Published => DidPublish(j) in s.seen
       case Discarded => SawOver(j) in s.seen
       case Unsent => true
       case Publishing => false)
    case Publish(j) => j in s.issued
    case Deliver(j) => j in s.broker.ready
    case Ack(j) => j in s.broker.delivered && (SawNotQueued(j) in s.seen || GaveUp(j) in s.seen)
    case Requeue(j) => j in s.broker.delivered
    case DeadLetter(j) => j in s.broker.delivered
    case Observe(f) => Holds(s, f)
    case GiveUp(j) => SawCancel(j) in s.seen
    case _ => true
  }

  function Apply(s: State, a: Action): State {
    match a
    case Create(j, project) =>
      s.(jobs := s.jobs[j := Job(project, Queued, 0, false, false)], outbox := s.outbox[j := R.Unsent], issued := s.issued + {j})
    case Start(j) =>
      s.(jobs := StartTx(s.jobs, j), starts := if j in s.jobs && CanStart(s.jobs[j]) then s.starts + multiset{j} else s.starts)
    case SavePlan(j) => s.(jobs := SavePlanTx(s.jobs, j))
    case Complete(j, status) => s.(jobs := CompleteTx(s.jobs, j, status))
    case RequestCancel(project) => s.(jobs := RequestCancelTx(s.jobs, project))
    case Delete(j) => s.(jobs := s.jobs - {j}, outbox := s.outbox - {j})
    case Lease(js) => s.(outbox := map j | j in s.outbox :: if j in js then R.Publishing else s.outbox[j])
    case Mark(j, outbox) => if j in s.outbox then s.(outbox := s.outbox[j := outbox]) else s
    case Publish(j) => s.(broker := s.broker.(ready := s.broker.ready + multiset{j}), seen := s.seen + {DidPublish(j)})
    case Deliver(j) =>
      s.(broker := s.broker.(ready := s.broker.ready - multiset{j}, delivered := s.broker.delivered + multiset{j}))
    case Ack(j) => s.(broker := s.broker.(delivered := s.broker.delivered - multiset{j}))
    case Requeue(j) =>
      s.(broker := s.broker.(delivered := s.broker.delivered - multiset{j}, ready := s.broker.ready + multiset{j}))
    case DeadLetter(j) =>
      s.(broker := s.broker.(delivered := s.broker.delivered - multiset{j}, dead := s.broker.dead + multiset{j}))
    case Observe(f) => s.(seen := s.seen + {f})
    case GiveUp(j) => s.(seen := s.seen + {GaveUp(j)}, abandoned := s.abandoned + {j})
    case Restart(recovers, partial) =>
      s.(jobs := if recovers then RecoverJobs(s.jobs, s.maxAttempts, partial) else s.jobs,
         outbox := if recovers then RecoverOutbox(s.jobs, s.outbox, s.maxAttempts, partial) else s.outbox,
         broker := s.broker.(ready := s.broker.ready + s.broker.delivered, delivered := multiset{}),
         seen := {})
  }

  /* ---- Runs ---- */

  ghost predicate Step(s: State, t: State) {
    exists a :: Enabled(s, a) && t == Apply(s, a)
  }

  /** Some run leads from the first state to the second. */
  ghost predicate Later(s: State, t: State) {
    Runs.Later(Step, s, t)
  }

  ghost predicate Reachable(s: State) {
    Later(Init(s.maxAttempts), s)
  }

  /** The same, given by its actions. */
  ghost predicate Legal(s: State, run: seq<Action>) {
    Runs.Legal(Enabled, Apply, s, run)
  }

  ghost function Exec(s: State, run: seq<Action>): State {
    Runs.Exec(Apply, s, run)
  }

  /* ---- The invariant, job by job ---- */

  /** A row still to be sent, or a message the broker still holds. */
  predicate Covered(s: State, j: Id) {
    (j in s.outbox && (s.outbox[j].Unsent? || s.outbox[j].Publishing?)) || Held(s, j) > 0
  }

  predicate Forsaken(s: State, j: Id) {
    j in s.jobs && s.jobs[j].cancelRequested && j in s.abandoned
  }

  ghost predicate RowsAgree(s: State, j: Id) {
    && (j in s.jobs <==> j in s.outbox)
    && (j in s.jobs ==> j in s.issued && s.starts[j] == s.jobs[j].attempts)
    && (j !in s.issued ==> s.starts[j] == 0)
    && (s.maxAttempts > 0 ==> s.starts[j] <= s.maxAttempts)
    && (IsQueued(s, j) && s.maxAttempts > 0 ==> s.jobs[j].attempts < s.maxAttempts)
    && (j in s.jobs && s.jobs[j].status.Running? ==> !s.jobs[j].cancelRequested)
    && (j in s.jobs && s.jobs[j].status.Canceling? ==> s.jobs[j].cancelRequested)
  }

  ghost predicate FactsAgree(s: State, j: Id) {
    && (SawNotQueued(j) in s.seen ==> Holds(s, SawNotQueued(j)))
    && (SawCancel(j) in s.seen ==> Holds(s, SawCancel(j)))
    && (SawOver(j) in s.seen ==> Holds(s, SawOver(j)))
    && (GaveUp(j) in s.seen ==> j in s.abandoned && Holds(s, SawCancel(j)))
    && (DidPublish(j) in s.seen ==> j in s.issued)
  }

  ghost predicate NotLost(s: State, j: Id) {
    IsQueued(s, j) && !Forsaken(s, j) ==> Covered(s, j) && (DidPublish(j) in s.seen ==> Held(s, j) > 0)
  }

  ghost predicate Inv(s: State) {
    && (forall j :: RowsAgree(s, j))
    && (forall j :: FactsAgree(s, j))
    && (forall j :: NotLost(s, j))
  }

  lemma RowsStep(s: State, a: Action, j: Id)
    requires RowsAgree(s, j) && Enabled(s, a)
    ensures RowsAgree(Apply(s, a), j)
  {
  }

  lemma FactsStep(s: State, a: Action, j: Id)
    requires RowsAgree(s, j) && FactsAgree(s, j) && Enabled(s, a)
    ensures FactsAgree(Apply(s, a), j)
  {
  }

  lemma NotLostRows(s: State, a: Action, j: Id)
    requires RowsAgree(s, j) && FactsAgree(s, j) && NotLost(s, j) && Enabled(s, a)
    requires a.Create? || a.Start? || a.SavePlan? || a.Complete? || a.RequestCancel? || a.Delete?
    ensures NotLost(Apply(s, a), j)
  {
  }

  lemma NotLostOutbox(s: State, a: Action, j: Id)
    requires RowsAgree(s, j) && FactsAgree(s, j) && NotLost(s, j) && Enabled(s, a)
    requires a.Lease? || a.Mark?
    ensures NotLost(Apply(s, a), j)
  {
  }

  lemma NotLostBroker(s: State, a: Action, j: Id)
    requires RowsAgree(s, j) && FactsAgree(s, j) && NotLost(s, j) && Enabled(s, a)
    requires a.Publish? || a.Deliver? || a.Ack? || a.Requeue? || a.DeadLetter?
    ensures NotLost(Apply(s, a), j)
  {
  }

  lemma NotLostRestart(s: State, a: Action, j: Id)
    requires RowsAgree(s, j) && FactsAgree(s, j) && NotLost(s, j) && Enabled(s, a)
    requires a.Restart?
    ensures NotLost(Apply(s, a), j)
  {
  }

  lemma NotLostSeen(s: State, a: Action, j: Id)
    requires RowsAgree(s, j) && FactsAgree(s, j) && NotLost(s, j) && Enabled(s, a)
    requires a.Observe? || a.GiveUp?
    ensures NotLost(Apply(s, a), j)
  {
  }

  lemma NotLostStep(s: State, a: Action, j: Id)
    requires RowsAgree(s, j) && FactsAgree(s, j) && NotLost(s, j) && Enabled(s, a)
    ensures NotLost(Apply(s, a), j)
  {
    match a
    case Lease(_) | Mark(_, _) => NotLostOutbox(s, a, j);
    case Publish(_) | Deliver(_) | Ack(_) | Requeue(_) | DeadLetter(_) => NotLostBroker(s, a, j);
    case Restart(_, _) => NotLostRestart(s, a, j);
    case Observe(_) | GiveUp(_) => NotLostSeen(s, a, j);
    case _ => NotLostRows(s, a, j);
  }

  lemma InvStep(s: State, a: Action)
    requires Inv(s) && Enabled(s, a)
    ensures Inv(Apply(s, a))
  {
    forall j ensures RowsAgree(Apply(s, a), j) { RowsStep(s, a, j); }
    forall j ensures FactsAgree(Apply(s, a), j) { FactsStep(s, a, j); }
    forall j ensures NotLost(Apply(s, a), j) { NotLostStep(s, a, j); }
  }

  /* ---- What no run takes back ---- */

  ghost predicate JobMoves(s: State, t: State, j: Id) {
    j in s.issued ==>
      && j in t.issued && s.starts[j] <= t.starts[j]
      && (j !in s.jobs ==> j !in t.jobs && t.starts[j] == s.starts[j])
      && (j in s.jobs && (s.jobs[j].cancelRequested || Terminal(s.jobs[j].status)) ==> t.starts[j] == s.starts[j])
      && (j in s.jobs && j in t.jobs ==>
            && t.jobs[j].project == s.jobs[j].project
            && (s.jobs[j].cancelRequested ==> t.jobs[j].cancelRequested && t.jobs[j].attempts == s.jobs[j].attempts)
            && (Terminal(s.jobs[j].status) ==> Terminal(t.jobs[j].status)))
  }

  ghost predicate Grew(s: State, t: State) {
    forall j :: JobMoves(s, t, j)
  }

  lemma MovesStep(s: State, a: Action, j: Id)
    requires Inv(s) && Enabled(s, a)
    ensures JobMoves(s, Apply(s, a), j)
  {
    assert RowsAgree(s, j);
  }

  lemma InvKeeps(s: State, t: State)
    requires Inv(s) && Later(s, t)
    ensures Inv(t) && Grew(s, t)
  {
    forall u, v | Inv(u) && Grew(s, u) && Step(u, v) ensures Inv(v) && Grew(s, v) {
      var a :| Enabled(u, a) && v == Apply(u, a);
      InvStep(u, a);
      forall j ensures JobMoves(s, v, j) {
        MovesStep(u, a, j);
        assert JobMoves(s, u, j) && RowsAgree(u, j);
      }
    }
    Runs.LaterKeeps(Step, u => Inv(u) && Grew(s, u), s, t);
  }

  lemma RunKeeps(s: State, run: seq<Action>)
    requires Inv(s) && Legal(s, run)
    ensures Inv(Exec(s, run)) && Grew(s, Exec(s, run))
  {
    Runs.RunLeads(Enabled, Apply, Step, s, run);
    InvKeeps(s, Exec(s, run));
  }

  lemma ReachableKeeps(s: State)
    requires Reachable(s)
    ensures Inv(s)
  {
    InvKeeps(Init(s.maxAttempts), s);
  }

  lemma LaterKeeps(s: State, t: State, j: Id)
    requires Reachable(s) && Later(s, t)
    ensures RowsAgree(s, j) && RowsAgree(t, j) && JobMoves(s, t, j)
  {
    ReachableKeeps(s);
    InvKeeps(s, t);
  }

  /* ---- Theorems ---- */

  /** Over any sequence of starts, cancels, completions and restarts a job starts at most the configured number of times. */
  lemma StartsAreBounded(s: State, j: Id)
    requires Reachable(s) && s.maxAttempts > 0
    ensures s.starts[j] <= s.maxAttempts
    ensures j in s.jobs ==> s.jobs[j].attempts == s.starts[j]
    ensures IsQueued(s, j) ==> s.jobs[j].attempts < s.maxAttempts
  {
    ReachableKeeps(s);
    assert RowsAgree(s, j);
  }

  /**
   A queued job has an outbox row still to be sent or a message in the broker, unless a handler of a canceled job could
   not write the cancel and acknowledged the message all the same.
   */
  lemma NoQueuedJobIsLost(s: State, j: Id)
    requires Reachable(s) && IsQueued(s, j)
    ensures Covered(s, j) || (s.jobs[j].cancelRequested && j in s.abandoned)
  {
    ReachableKeeps(s);
    assert NotLost(s, j);
  }

  /** Recovery leaves every job it puts back into the queue with an outbox row to send. */
  lemma RecoveryResends(s: State, partial: set<Id>, j: Id)
    requires Reachable(s) && j in s.jobs && Interrupted(s.jobs[j])
    ensures var t := Apply(s, Restart(true, partial));
            if MustFail(s.jobs[j], s.maxAttempts, partial) then j in t.jobs && t.jobs[j].status == Failed
            else IsQueued(t, j) && j in t.outbox && t.outbox[j] == R.Unsent
  {
    ReachableKeeps(s);
    assert RowsAgree(s, j);
  }

  /** After a cancel request the job never runs again and no attempt is added, whatever recovery does. */
  lemma CancelIsSticky(s: State, t: State, j: Id)
    requires Reachable(s) && Later(s, t) && j in s.jobs && s.jobs[j].cancelRequested
    ensures t.starts[j] == s.starts[j]
    ensures j in t.jobs ==> t.jobs[j].cancelRequested && !t.jobs[j].status.Running? && t.jobs[j].attempts == s.jobs[j].attempts
  {
    LaterKeeps(s, t, j);
  }

  /** A job that has ended stays ended, and a discarded row announces no job that could still start. */
  lemma EndedIsFinal(s: State, t: State, j: Id)
    requires Reachable(s) && Later(s, t) && j in s.jobs && Terminal(s.jobs[j].status)
    ensures t.starts[j] == s.starts[j] && (j in t.jobs ==> Terminal(t.jobs[j].status))
  {
    LaterKeeps(s, t, j);
  }

  /* ---- Where the bound and the coverage end ---- */

  /** Without a positive maximum nothing bounds the retries: for every n some run starts a job n times. */
  lemma {:induction false} WithoutMaximumRetriesAreUnbounded(maxAttempts: int, n: nat) returns (run: seq<Action>)
    requires maxAttempts <= 0
    ensures Legal(Init(maxAttempts), run)
    ensures var s := Exec(Init(maxAttempts), run); s.starts[1] == n && 1 in s.jobs && CanStart(s.jobs[1]) && s.maxAttempts <= 0
    ensures !Exec(Init(maxAttempts), run).jobs[1].staged
  {
    if n == 0 {
      run := [Create(1, 7)];
      Runs.Extend(Enabled, Apply, Init(maxAttempts), [], Create(1, 7));
      assert [] + [Create(1, 7)] == run;
    } else {
      run := WithoutMaximumRetriesAreUnbounded(maxAttempts, n - 1);
      Runs.Extend(Enabled, Apply, Init(maxAttempts), run, Start(1));
      run := run + [Start(1)];
      Runs.Extend(Enabled, Apply, Init(maxAttempts), run, Restart(true, {}));
      run := run + [Restart(true, {})];
    }
  }

  /** One canceled job, queued again by recovery. */
  function Requeued(maxAttempts: int, outbox: R.OutboxStatus, broker: P.Broker, seen: set<Fact>, abandoned: set<Id>): State {
    State(maxAttempts, map[1 := Job(7, Queued, 0, true, false)], map[1 := outbox], broker, seen, {1}, multiset{}, abandoned)
  }

  lemma CanceledJobIsRequeued(m: int) returns (run: seq<Action>)
    ensures Legal(Init(m), run) && Exec(Init(m), run) == Requeued(m, R.Unsent, NoMessages, {}, {})
  {
    var created := State(m, map[1 := Job(7, Queued, 0, false, false)], map[1 := R.Unsent], NoMessages, {}, {1}, multiset{}, {});
    var canceled := created.(jobs := map[1 := Job(7, Canceling, 0, true, false)]);
    Next(Init(m), [], Init(m), Create(1, 7), created);
    run := [] + [Create(1, 7)];
    Next(Init(m), run, created, RequestCancel(7), canceled);
    run := run + [RequestCancel(7)];
    Next(Init(m), run, canceled, Restart(true, {}), Requeued(m, R.Unsent, NoMessages, {}, {}));
    run := run + [Restart(true, {})];
  }

  lemma Next(init: State, run: seq<Action>, s: State, a: Action, t: State)
    requires Legal(init, run) && Exec(init, run) == s && Enabled(s, a) && Apply(s, a) == t
    ensures Legal(init, run + [a]) && Exec(init, run + [a]) == t
  {
    Runs.Extend(Enabled, Apply, init, run, a);
  }

  const Ready := P.Broker(multiset{1}, multiset{}, multiset{})
  const Delivered := P.Broker(multiset{}, multiset{1}, multiset{})

  lemma Resent(m: int) returns (run: seq<Action>)
    ensures Legal(Init(m), run) && Exec(Init(m), run) == Requeued(m, R.Published, Delivered, {DidPublish(1)}, {})
  {
    run := CanceledJobIsRequeued(m);
    var seen := {DidPublish(1)};
    Next(Init(m), run, Requeued(m, R.Unsent, NoMessages, {}, {}), Publish(1), Requeued(m, R.Unsent, Ready, seen, {}));
    run := run + [Publish(1)];
    Next(Init(m), run, Requeued(m, R.Unsent, Ready, seen, {}), Mark(1, R.Published), Requeued(m, R.Published, Ready, seen, {}));
    run := run + [Mark(1, R.Published)];
    Next(Init(m), run, Requeued(m, R.Published, Ready, seen, {}), Deliver(1), Requeued(m, R.Published, Delivered, seen, {}));
    run := run + [Deliver(1)];
  }

  /** The exception is real: a canceled job that stays queued with its row published and no message anywhere. */
  lemma CanceledJobCanBeStranded(m: int) returns (run: seq<Action>, seen: set<Fact>)
    ensures Legal(Init(m), run) && Exec(Init(m), run) == Requeued(m, R.Published, NoMessages, seen, {1})
  {
    run := Resent(m);
    var a, b := {DidPublish(1)}, {DidPublish(1), SawCancel(1)};
    seen := b + {GaveUp(1)};
    Next(Init(m), run, Requeued(m, R.Published, Delivered, a, {}), Observe(SawCancel(1)), Requeued(m, R.Published, Delivered, b, {}));
    run := run + [Observe(SawCancel(1))];
    Next(Init(m), run, Requeued(m, R.Published, Delivered, b, {}), GiveUp(1), Requeued(m, R.Published, Delivered, seen, {1}));
    run := run + [GiveUp(1)];
    Next(Init(m), run, Requeued(m, R.Published, Delivered, seen, {1}), Ack(1), Requeued(m, R.Published, NoMessages, seen, {1}));
    run := run + [Ack(1)];
  }
}
