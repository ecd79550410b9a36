/**
 The code of compose deployments: the repository statements, the outbox worker, the deployment message handler and boot
 recovery. A process shares its lifetime with the core, so `Interfere` stands for any steps of others but a restart.
 */
module ComposeServices {
  import opened ComposeProtocol
  import Database
  import Runs
  import R = BuildRows
  import P = BuildProtocol

  datatype Err = Ok | NotFound | Internal

  ghost predicate SameLife(before: seq<Action>, after: seq<Action>) {
    before <= after && forall i :: |before| <= i < |after| ==> !after[i].Restart?
  }

  lemma {:induction false} SeenKept(m: int, before: seq<Action>, after: seq<Action>)
    requires SameLife(before, after) && Legal(Init(m), after)
    ensures Exec(Init(m), before).seen <= Exec(Init(m), after).seen
    ensures Exec(Init(m), before).issued <= Exec(Init(m), after).issued
    ensures Exec(Init(m), before).starts <= Exec(Init(m), after).starts
    decreases |after|
  {
    if before != after {
      var shorter := after[..|after| - 1];
      assert before <= shorter;
      SeenKept(m, before, shorter);
      StepKeepsSeen(Exec(Init(m), shorter), after[|after| - 1]);
    }
  }

  lemma StepKeepsSeen(s: State, a: Action)
    requires Enabled(s, a) && !a.Restart?
    ensures s.seen <= Apply(s, a).seen && s.issued <= Apply(s, a).issued && s.starts <= Apply(s, a).starts
  {
  }

  lemma KnownJobs(m: int, run: seq<Action>, j: Id)
    requires Legal(Init(m), run)
    ensures RowsAgree(Exec(Init(m), run), j) && FactsAgree(Exec(Init(m), run), j)
  {
    RunKeeps(Init(m), run);
  }

  /** One leased row: discarded, returned, or published and then marked; each write to the outbox may be missing. */
  ghost predicate ItemSteps(j: Id, sent: bool, before: seq<Action>, after: seq<Action>) {
    if sent then after == before + [Publish(j)] || after == before + [Publish(j)] + [Mark(j, R.Published)]
    else
      || after == before || after == before + [Mark(j, R.Unsent)]
      || after == before + [Publish(j)] || after == before + [Publish(j)] + [Mark(j, R.Unsent)]
      || after == before + [Observe(SawOver(j))] || after == before + [Observe(SawOver(j))] + [Mark(j, R.Discarded)]
  }

  function IdsOf(items: seq<Id>): set<Id> {
    set j | j in items
  }

  ghost predicate Leased(items: seq<Id>, before: seq<Action>, after: seq<Action>) {
    after == before + [Lease(IdsOf(items))] || (items == [] && after == before)
  }

  /** The steps of a batch: the lease, and then the steps of one item after another. */
  ghost predicate BatchSteps(items: seq<Id>, sent: seq<bool>, marks: seq<seq<Action>>, before: seq<Action>, after: seq<Action>) {
    && |items| == |sent| && |marks| == |items| + 1
    && Leased(items, before, marks[0]) && marks[|items|] == after
    && forall i :: 0 <= i < |items| ==> ItemSteps(items[i], sent[i], marks[i], marks[i + 1])
  }

  ghost predicate AllIssued(items: seq<Id>, issued: set<Id>) {
    forall j :: j in items ==> j in issued
  }

  ghost predicate AllPublished(items: seq<Id>, sent: seq<bool>, seen: set<Fact>) {
    |sent| <= |items| && forall i :: 0 <= i < |sent| && sent[i] ==> DidPublish(items[i]) in seen
  }

  /** A step of the message handler: it deploys only what it started, and cancels only what it read as canceled. */
  ghost predicate HandlerStep(j: Id, started: bool, canceled: bool, a: Action) {
    match a
    case Observe(f) => f == SawNotQueued(j) || f == SawCancel(j)
    case Start(c) => c == j
    case SavePlan(c) => c == j && started
    case Complete(c, status) => c == j && ((status.Failed? && started) || (status.Canceled? && canceled))
    case GiveUp(c) => c == j && canceled
    case _ => false
  }

  ghost predicate HandlerSteps(j: Id, started: bool, canceled: bool, before: seq<Action>, after: seq<Action>) {
    before <= after && forall i :: |before| <= i < |after| ==> HandlerStep(j, started, canceled, after[i])
  }

  lemma StepsJoin(j: Id, started: bool, canceled: bool, s0: seq<Action>, some: bool, other: bool, s1: seq<Action>, s2: seq<Action>)
    requires HandlerSteps(j, some, other, s0, s1) && HandlerSteps(j, started, canceled, s1, s2)
    requires (some ==> started) && (other ==> canceled)
    ensures HandlerSteps(j, started, canceled, s0, s2)
  {
  }

  lemma CancelSteps(j: Id, before: seq<Action>, after: seq<Action>)
    requires after == before + [GiveUp(j)] || after == before + [Complete(j, Canceled)] + [Observe(SawNotQueued(j))]
    ensures HandlerSteps(j, false, true, before, after)
  {
  }

  class ComposeCore {
    const maxAttempts: int
    const healthy: bool
    var jobs: map<Id, Job>
    var outbox: map<Id, R.OutboxStatus>
    var broker: P.Broker
    ghost var log: seq<Action>  // every step taken so far, by anyone
    ghost var own: seq<Action>  // those of the process whose method is running

    ghost function View(): State
      reads this`log, this`own
    {
      Exec(Init(maxAttempts), log)
    }

    ghost predicate Valid()
      reads this
    {
      && Legal(Init(maxAttempts), log) && View().maxAttempts == maxAttempts
      && View().jobs == jobs && View().outbox == outbox && View().broker == broker
    }

    constructor (maxAttempts: int, healthy: bool)
      ensures Valid() && log == [] && this.maxAttempts == maxAttempts && this.healthy == healthy
    {
      this.healthy := healthy;
      this.maxAttempts, jobs, outbox, broker, log, own := maxAttempts, map[], map[], NoMessages, [], [];
    }

    method Interfere()
      requires Valid()
      modifies this
      ensures Valid() && SameLife(old(log), log) && own == old(own)
    {
    }

    ghost method Commit(a: Action)
      requires Legal(Init(maxAttempts), log) && View().maxAttempts == maxAttempts && Enabled(View(), a)
      requires Apply(View(), a).jobs == jobs && Apply(View(), a).outbox == outbox && Apply(View(), a).broker == broker
      modifies this`log, this`own
      ensures log == old(log) + [a] && own == old(own) + [a] && Valid() && View() == Apply(old(View()), a)
    {
      Runs.Extend(Enabled, Apply, Init(maxAttempts), log, a);
      log, own := log + [a], own + [a];
    }

    /* ---- Repository ---- */

    method GetJob(j: Id) returns (err: Err, job: Job)
      ensures err.Ok? ==> j in jobs && job == jobs[j]
      ensures err.NotFound? ==> j !in jobs
      ensures healthy ==> !err.Internal?
    {
      job := Job(0, Failed, 0, false, false);
      var reachable := Database.Reach(healthy);
      if !reachable { return Internal, job; }
      if j !in jobs { return NotFound, job; }
      return Ok, jobs[j];
    }

    /** One transaction: the row is locked, examined, and updated only if it is queued and not canceled. */
    method StartComposeDeploymentJob(j: Id) returns (err: Err, job: Job, started: bool)
      modifies this`jobs
      ensures err.Ok? ==> j in jobs && job == jobs[j] && jobs == StartTx(old(jobs), j)
      ensures err.Ok? ==> started == CanStart(old(jobs)[j]) && (started ==> job.attempts == old(jobs)[j].attempts + 1)
      ensures !err.Ok? ==> jobs == old(jobs) && !started
      ensures err.NotFound? ==> j !in jobs
      ensures healthy ==> !err.Internal?
    {
      job, started := Job(0, Failed, 0, false, false), false;
      var reachable := Database.Reach(healthy);
      if !reachable { return Internal, job, false; }
      if j !in jobs { return NotFound, job, false; }
      if Terminal(jobs[j].status) || jobs[j].cancelRequested { return Ok, jobs[j], false; }
      if jobs[j].status != Queued { return Ok, jobs[j], false; }
      jobs := jobs[j := jobs[j].(status := Running, attempts := jobs[j].attempts + 1)];
      return Ok, jobs[j], true;
    }

    method CompleteComposeDeploymentJob(j: Id, status: JobStatus) returns (err: Err)
      modifies this`jobs
      ensures err.Internal? ==> jobs == old(jobs)
      ensures !err.Internal? ==> jobs == CompleteTx(old(jobs), j, status)
      ensures err.NotFound? ==> j !in old(jobs)
      ensures healthy ==> !err.Internal?
    {
      var reachable := Database.Reach(healthy);
      if !reachable { return Internal; }
      if j !in jobs { return NotFound; }
      jobs := jobs[j := jobs[j].(status := status)];
      return Ok;
    }

    method SaveComposeDeploymentPlan(j: Id) returns (err: Err)
      modifies this`jobs
      ensures err.Internal? ==> jobs == old(jobs)
      ensures !err.Internal? ==> jobs == SavePlanTx(old(jobs), j)
      ensures healthy ==> !err.Internal?
    {
      var reachable := Database.Reach(healthy);
      if !reachable { return Internal; }
      if j !in jobs || jobs[j].status != Running { return NotFound; }
      jobs := jobs[j := jobs[j].(staged := true)];
      return Ok;
    }

    method RequestComposeDeploymentCancel(project: Id) returns (err: Err)
      modifies this`jobs
      ensures err.Internal? ==> jobs == old(jobs)
      ensures !err.Internal? ==> jobs == RequestCancelTx(old(jobs), project)
      ensures err.NotFound? ==> jobs == old(jobs)
      ensures healthy ==> !err.Internal?
    {
      var reachable := Database.Reach(healthy);
      if !reachable { return Internal; }
      ghost var start := jobs;
      var active := set j | j in jobs && jobs[j].project == project && !Terminal(jobs[j].status);
      if active == {} {
        assert forall j :: j in jobs ==> j !in active;
        assert jobs == RequestCancelTx(jobs, project);
        return NotFound;
      }
      jobs := map j | j in jobs :: if j in active then jobs[j].(status := Canceling, cancelRequested := true) else jobs[j];
      return Ok;
    }

    /**
     Boot recovery, one transaction over all interrupted jobs; a failing statement rolls everything back. `partial` are
     the projects found with partial work.
     */
    method RecoverInterruptedComposeDeployments(partial: set<Id>) returns (err: Err)
      modifies this`jobs, this`outbox
      ensures err.Ok? ==> jobs == RecoverJobs(old(jobs), maxAttempts, partial)
      ensures err.Ok? ==> outbox == RecoverOutbox(old(jobs), old(outbox), maxAttempts, partial)
      ensures !err.Ok? ==> jobs == old(jobs) && outbox == old(outbox)
      ensures healthy ==> err.Ok?
    {
      var todo := set j | j in jobs && (jobs[j].status.Running? || jobs[j].status.Canceling?);
      var newJobs, newOutbox := jobs, outbox;
      while todo != {}
        invariant jobs == old(jobs) && outbox == old(outbox)
        invariant todo <= jobs.Keys && newJobs.Keys == jobs.Keys && newOutbox.Keys == outbox.Keys
        invariant forall j :: j in todo ==> jobs[j].status.Running? || jobs[j].status.Canceling?
        invariant forall j :: j in jobs ==> newJobs[j] == if j in todo then jobs[j] else RecoveredJob(jobs[j], maxAttempts, partial)
        invariant forall j :: j in outbox ==>
                    newOutbox[j] == if j !in todo then RecoverOutbox(jobs, outbox, maxAttempts, partial)[j] else outbox[j]
        decreases todo
      {
        var j :| j in todo;
        todo := todo - {j};
        var job := jobs[j];
        if job.staged { continue; }
        var reachable := Database.Reach(healthy);
        if !reachable { return Internal; }
        if job.project in partial || (maxAttempts > 0 && job.attempts >= maxAttempts) {
          newJobs := newJobs[j := job.(status := Failed)];
          continue;
        }
        newJobs := newJobs[j := job.(status := Queued)];
        if j in newOutbox { newOutbox := newOutbox[j := R.Unsent]; }
      }
      jobs, outbox := newJobs, newOutbox;
      return Ok;
    }

    /** The core starts: its predecessor's processes are dead, and recovery may fail without stopping it. */
    method Boot(partial: set<Id>) returns (recovered: bool)
      requires Valid()
      modifies this
      ensures Valid() && log == old(log) + [Restart(recovered, partial)]
      ensures healthy ==> recovered
    {
      broker := broker.(ready := broker.ready + broker.delivered, delivered := multiset{});
      var err := RecoverInterruptedComposeDeployments(partial);
      recovered := err.Ok?;
      Commit(Restart(recovered, partial));
    }

    method LeasePendingComposeOutbox(limit: nat) returns (items: seq<Id>)
      requires Valid()
      modifies this`outbox, this`log, this`own
      ensures Valid() && SameLife(old(log), log) && |items| <= limit && Leased(items, old(own), own)
      ensures AllIssued(items, View().issued)
    {
      items := [];
      var reachable := Database.Reach(healthy);
      if !reachable { return []; }
      ghost var start := outbox;
      var candidates := set j | j in outbox && (outbox[j].Unsent? || outbox[j].Publishing?);
      var taken: set<Id> := {};
      var more: bool := *;
      while more && candidates != {} && |items| < limit
        invariant outbox == start && own == old(own) && |items| <= limit && taken == IdsOf(items)
        invariant forall j :: j in candidates + taken ==> j in start && (start[j].Unsent? || start[j].Publishing?)
        decreases candidates
      {
        var j :| j in candidates;
        candidates, taken, items, more := candidates - {j}, taken + {j}, items + [j], *;
      }
      outbox := map j | j in outbox :: if j in taken then R.Publishing else outbox[j];
      forall j | j in items ensures j in View().issued {
        assert j in taken;
        KnownJobs(maxAttempts, log, j);
      }
      assert taken == IdsOf(items);
      Commit(Lease(IdsOf(items)));
    }

    method MarkComposeOutbox(j: Id, status: R.OutboxStatus)
      requires Valid() && Enabled(View(), Mark(j, status))
      modifies this`outbox, this`log, this`own
      ensures Valid() && SameLife(old(log), log)
      ensures own == old(own) || own == old(own) + [Mark(j, status)]
    {
      var reachable := Database.Reach(healthy);
      if !reachable { return; }
      if j in outbox { outbox := outbox[j := status]; }
      Commit(Mark(j, status));
    }

    /* ---- The outbox worker ---- */

    method Send(j: Id) returns (ok: bool)
      requires Valid() && j in View().issued
      modifies this`broker, this`log, this`own
      ensures Valid() && SameLife(old(log), log)
      ensures ok ==> DidPublish(j) in View().seen
      ensures own == old(own) + [Publish(j)] || (!ok && own == old(own))
    {
      var reaches: bool, confirmed: bool := *, *;
      if !reaches { return false; }
      broker := broker.(ready := broker.ready + multiset{j});
      Commit(Publish(j));
      return confirmed;
    }

    /** Every row it marks published was sent in this life of the core; every row it discards announces an ended job. */
    method PublishItem(j: Id) returns (sent: bool)
      requires Valid() && j in View().issued
      modifies this
      ensures Valid() && SameLife(old(log), log)
      ensures sent ==> DidPublish(j) in View().seen
      ensures ItemSteps(j, sent, old(own), own)
    {
      var err, job := GetJob(j);
      if err.NotFound? || (err.Ok? && Terminal(job.status)) {
        Commit(Observe(SawOver(j)));
        ghost var read := log;
        Interfere();
        SeenKept(maxAttempts, read, log);
        MarkComposeOutbox(j, R.Discarded);
        return false;
      }
      ghost var read := log;
      Interfere();
      SeenKept(maxAttempts, read, log);
      if !err.Ok? {
        MarkComposeOutbox(j, R.Unsent);
        return false;
      }
      sent := Send(j);
      read := log;
      Interfere();
      SeenKept(maxAttempts, read, log);
      MarkComposeOutbox(j, if sent then R.Published else R.Unsent);
      SeenKept(maxAttempts, read, log);
    }

    /** Leases rows and handles one after another. */
    method PublishBatch(limit: nat) returns (items: seq<Id>, sent: seq<bool>, ghost marks: seq<seq<Action>>)
      requires Valid()
      modifies this
      ensures Valid() && SameLife(old(log), log)
      ensures |items| <= limit && BatchSteps(items, sent, marks, old(own), own)
      ensures AllPublished(items, sent, View().seen)
    {
      sent := [];
      items := LeasePendingComposeOutbox(limit);
      marks := [own];
      for i := 0 to |items|
        invariant Valid() && SameLife(old(log), log) && AllIssued(items, View().issued)
        invariant |sent| == i && |marks| == i + 1 && marks[i] == own && Leased(items, old(own), marks[0])
        invariant forall k :: 0 <= k < i ==> ItemSteps(items[k], sent[k], marks[k], marks[k + 1])
        invariant AllPublished(items, sent, View().seen)
      {
        var ok := HandleItem(items, sent, i);
        sent := sent + [ok];
        marks := marks + [own];
      }
    }

    /** The next row of a batch, with others acting before it. */
    method HandleItem(items: seq<Id>, ghost sent: seq<bool>, i: nat) returns (ok: bool)
      requires Valid() && i < |items| && |sent| == i && AllIssued(items, View().issued) && AllPublished(items, sent, View().seen)
      modifies this
      ensures Valid() && SameLife(old(log), log) && AllIssued(items, View().issued)
      ensures ItemSteps(items[i], ok, old(own), own) && AllPublished(items, sent + [ok], View().seen)
    {
      Interfere();
      SeenKept(maxAttempts, old(log), log);
      ghost var before := log;
      ok := PublishItem(items[i]);
      SeenKept(maxAttempts, before, log);
    }

    /* ---- The deployment message handler ---- */

    /** The cancel branch: the write's error is ignored, and the message will be acknowledged either way. */
    method FinishCanceled(j: Id)
      requires Valid() && j in View().issued && SawCancel(j) in View().seen
      modifies this
      ensures Valid() && SameLife(old(log), log)
      ensures SawNotQueued(j) in View().seen || GaveUp(j) in View().seen
      ensures View().starts == old(View()).starts && old(View()).seen <= View().seen
      ensures own == old(own) + [GiveUp(j)] || own == old(own) + [Complete(j, Canceled)] + [Observe(SawNotQueued(j))]
      ensures healthy ==> SawNotQueued(j) in View().seen
    {
      var err := CompleteComposeDeploymentJob(j, Canceled);
      if err.Internal? {
        Commit(GiveUp(j));
      } else {
        Commit(Complete(j, Canceled));
        Commit(Observe(SawNotQueued(j)));
      }
    }

    /** Reading a row: what it shows about the queue and about cancellation. */
    ghost method Learn(j: Id)
      requires Valid() && j in jobs
      modifies this`log, this`own
      ensures Valid() && SameLife(old(log), log) && j in View().issued && View().starts == old(View()).starts
      ensures !jobs[j].status.Queued? ==> SawNotQueued(j) in View().seen
      ensures jobs[j].cancelRequested || jobs[j].status.Canceling? ==> SawCancel(j) in View().seen
      ensures HandlerSteps(j, false, false, old(own), own)
    {
      KnownJobs(maxAttempts, log, j);
      if !jobs[j].status.Queued? { Commit(Observe(SawNotQueued(j))); }
      if jobs[j].cancelRequested || jobs[j].status.Canceling? { Commit(Observe(SawCancel(j))); }
    }

    method StartJob(j: Id) returns (err: Err, job: Job, started: bool)
      requires Valid()
      modifies this`jobs, this`log, this`own
      ensures Valid() && SameLife(old(log), log)
      ensures err.Ok? ==> j in View().issued && (started || !job.status.Queued? ==> SawNotQueued(j) in View().seen)
      ensures err.Ok? && (job.cancelRequested || job.status.Canceling?) ==> SawCancel(j) in View().seen
      ensures err.Ok? ==> started || !job.status.Queued? || job.cancelRequested
      ensures started ==> err.Ok? && View().starts[j] == old(View()).starts[j] + 1
      ensures HandlerSteps(j, false, false, old(own), own)
    {
      err, job, started := StartComposeDeploymentJob(j);
      if err.Ok? {
        Commit(Start(j));
        Learn(j);
      }
    }

    /**
     Handling one message. When it reports no error the message may be acknowledged: the job is no longer queued, or its
     cancel could not be written.
     */
    method HandleDeploymentMessage(j: Id) returns (err: Err, ghost started: bool, ghost canceled: bool)
      requires Valid()
      modifies this
      ensures Valid() && SameLife(old(log), log)
      ensures err.Ok? ==> SawNotQueued(j) in View().seen || GaveUp(j) in View().seen
      ensures started ==> View().starts[j] > old(View()).starts[j]
      ensures canceled ==> SawCancel(j) in View().seen
      ensures HandlerSteps(j, started, canceled, old(own), own)
      ensures healthy && err.Ok? ==> SawNotQueued(j) in View().seen
    {
      started, canceled := false, false;
      var job;
      err, job := GetJob(j);
      if !err.Ok? { return; }
      Learn(j);
      ghost var read, learned := log, own;
      Interfere();
      SeenKept(maxAttempts, read, log);
      if job.cancelRequested || job.status.Canceling? {
        canceled := true;
        FinishCanceled(j);
        CancelSteps(j, learned, own);
        StepsJoin(j, false, true, old(own), false, false, learned, own);
        return;
      }
      if job.status != Queued { return; }
      err, started, canceled := StartAndDeploy(j);
      StepsJoin(j, started, canceled, old(own), false, false, learned, own);
    }

    method StartAndDeploy(j: Id) returns (err: Err, ghost started: bool, ghost canceled: bool)
      requires Valid()
      modifies this
      ensures Valid() && SameLife(old(log), log)
      ensures err.Ok? ==> SawNotQueued(j) in View().seen || GaveUp(j) in View().seen
      ensures started ==> View().starts[j] > old(View()).starts[j]
      ensures canceled ==> SawCancel(j) in View().seen
      ensures HandlerSteps(j, started, canceled, old(own), own)
      ensures healthy && err.Ok? ==> SawNotQueued(j) in View().seen
    {
      var job, claimed;
      err, job, claimed := StartJob(j);
      started, canceled := claimed, false;
      if !err.Ok? { return; }
      ghost var read, taken := log, own;
      Interfere();
      SeenKept(maxAttempts, read, log);
      if !claimed {
        if job.cancelRequested || job.status.Canceling? {
          canceled := true;
          FinishCanceled(j);
          CancelSteps(j, taken, own);
          StepsJoin(j, false, true, old(own), false, false, taken, own);
        }
        return;
      }
      read := log;
      err := Deploy(j);
      SeenKept(maxAttempts, read, log);
      StepsJoin(j, true, false, old(own), false, false, taken, own);
    }

    /** What follows a start: the job fails, or its plan is saved; an error leaves it running until the next restart. */
    method Deploy(j: Id) returns (err: Err)
      requires Valid()
      modifies this
      ensures Valid() && SameLife(old(log), log)
      ensures HandlerSteps(j, true, false, old(own), own)
    {
      var prepared: bool, built: bool := *, *;
      if !prepared {
        FailDeploymentJob(j);
        return Ok;
      }
      err := SaveOwnPlan(j);
      if !err.Ok? { return; }
      Interfere();
      if !built { FailDeploymentJob(j); }
    }

    method SaveOwnPlan(j: Id) returns (err: Err)
      requires Valid()
      modifies this`jobs, this`log, this`own
      ensures Valid() && SameLife(old(log), log)
      ensures own == old(own) + if err.Internal? then [] else [SavePlan(j)]
    {
      err := SaveComposeDeploymentPlan(j);
      if !err.Internal? { Commit(SavePlan(j)); }
    }

    method FailDeploymentJob(j: Id)
      requires Valid()
      modifies this
      ensures Valid() && SameLife(old(log), log)
      ensures own == old(own) || own == old(own) + [Complete(j, Failed)]
    {
      var err := CompleteComposeDeploymentJob(j, Failed);
      if !err.Internal? { Commit(Complete(j, Failed)); }
    }

    method HandleDelivery(j: Id) returns (ghost ok: bool, ghost started: bool, ghost canceled: bool, ghost handled: seq<Action>)
      requires Valid() && j in broker.delivered
      modifies this
      ensures Valid() && SameLife(old(log), log) && HandlerSteps(j, started, canceled, old(own), handled)
      ensures own == handled || own == handled + (if ok then [Ack(j)] else [Requeue(j)]) || (!ok && own == handled + [DeadLetter(j)])
    {
      var err;
      err, started, canceled := HandleDeploymentMessage(j);
      ok, handled := err.Ok?, own;
      ghost var done := log;
      Interfere();
      SeenKept(maxAttempts, done, log);
      if j !in broker.delivered { return; }  // the connection was lost and the broker took the message back
      Answer(j, err);
    }

    method Answer(j: Id, err: Err)
      requires Valid() && j in broker.delivered
      requires err.Ok? ==> SawNotQueued(j) in View().seen || GaveUp(j) in View().seen
      modifies this`broker, this`log, this`own
      ensures Valid() && SameLife(old(log), log)
      ensures own == old(own) + (if err.Ok? then [Ack(j)] else [Requeue(j)]) || (!err.Ok? && own == old(own) + [DeadLetter(j)])
    {
      broker := broker.(delivered := broker.delivered - multiset{j});
      if err.Ok? {
        Commit(Ack(j));
        return;
      }
      var permanent: bool := *;
      if permanent || err.NotFound? {
        broker := broker.(dead := broker.dead + multiset{j});
        Commit(DeadLetter(j));
      } else {
        broker := broker.(ready := broker.ready + multiset{j});
        Commit(Requeue(j));
      }
    }
  }
}
