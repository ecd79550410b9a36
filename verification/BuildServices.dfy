/**
 The code that runs the protocol: the repository transactions on the tables, and on top of them the outbox worker,
 the builder's message handler, completion, cancellation and garbage collection. Between any two statements the rest of
 the system may act: `Interfere` stands for any number of protocol steps by others. Each process is proved to take
 only protocol steps itself, and to keep its promise under every such interference.
 */
module BuildServices {
  import opened BuildRows
  import opened BuildProtocol
  import opened Sums
  import D = DiskAccounting
  import Database
  import Runs

  datatype Err = Ok | NotFound | AlreadyExists | Internal

  datatype Option<+T> = None | Some(value: T)

  /** A status string as a caller reports it; the last case is any string that names no status. */
  datatype Reported = Known(status: BuildStatus) | Unknown

  /** Every failure report becomes a failure status, whatever string was sent. */
  function NormalizeFailedBuildStatus(reported: Reported): (status: BuildStatus)
    ensures Terminal(status) && !status.Success?
    ensures reported.Known? && Terminal(reported.status) && !reported.status.Success? ==> status == reported.status
  {
    match reported
    case Known(Failed) => Failed
    case Known(Canceled) => Canceled
    case Known(FailedTimeout) => FailedTimeout
    case Known(FailedQuotaExceeded) => FailedQuotaExceeded
    case Known(FailedResourceExhausted) => FailedResourceExhausted
    case _ => FailedInternal
  }

  /* ---- The steps a process takes itself, between its first and its last statement ---- */

  /** One leased row: published, discarded, or given back; each write to the outbox may be missing, and only the last. */
  ghost predicate ItemSteps(b: Id, result: Option<bool>, before: seq<Action>, after: seq<Action>) {
    match result
    case Some(true) => after == before + [Publish(b)] || after == before + [Publish(b)] + [Mark(b, Published)]
    case Some(false) =>
      after == before + [Observe(SawSettled(b))] || after == before + [Observe(SawSettled(b))] + [Mark(b, Discarded)]
    case None =>
      || after == before || after == before + [Mark(b, Unsent)]
      || after == before + [Publish(b)] || after == before + [Publish(b)] + [Mark(b, Unsent)]
  }

  /** The steps of a batch: the lease, and then the steps of one item after another. */
  ghost predicate BatchSteps(items: seq<Id>, results: seq<Option<bool>>, marks: seq<seq<Action>>, before: seq<Action>, after: seq<Action>) {
    && |items| == |results| && |marks| == |items| + 1
    && marks[0] == before + [Lease(set b | b in items)] && marks[|items|] == after
    && forall i :: 0 <= i < |items| ==> ItemSteps(items[i], results[i], marks[i], marks[i + 1])
  }

  /** The steps of the items handled so far. */
  ghost predicate SoFar(items: seq<Id>, results: seq<Option<bool>>, marks: seq<seq<Action>>, first: seq<Action>, now: seq<Action>) {
    && |results| <= |items| && |marks| == |results| + 1 && marks[0] == first && marks[|results|] == now
    && forall i :: 0 <= i < |results| ==> ItemSteps(items[i], results[i], marks[i], marks[i + 1])
  }

  lemma SoFarStep(items: seq<Id>, results: seq<Option<bool>>, result: Option<bool>, marks: seq<seq<Action>>,
                  first: seq<Action>, before: seq<Action>, now: seq<Action>)
    requires SoFar(items, results, marks, first, before) && |results| < |items|
    requires ItemSteps(items[|results|], result, before, now)
    ensures SoFar(items, results + [result], marks + [now], first, now)
  {
  }

  /** The one step that a completion takes: it finds the build settled, or settles it as the report demands. */
  ghost predicate Completes(b: Id, reported: Reported, a: Action) {
    match a
    case Observe(f) => f == SawSettled(b)
    case SettleSuccess(c, sizeMB) => c == b && sizeMB > 0 && reported == Known(Success)
    case SettleFailed(c, status) =>
      c == b && if reported == Known(Success) then status == FailedInternal || status == FailedQuotaExceeded
                else status == NormalizeFailedBuildStatus(reported)
    case _ => false
  }

  ghost predicate CompletionSteps(b: Id, reported: Reported, ok: bool, before: seq<Action>, after: seq<Action>) {
    || (!ok && after == before)
    || (|after| == |before| + 1 && after == before + [after[|before|]] && Completes(b, reported, after[|before|]))
  }

  lemma OneStep(b: Id, reported: Reported, ok: bool, before: seq<Action>, a: Action)
    requires Completes(b, reported, a)
    ensures CompletionSteps(b, reported, ok, before, before + [a])
  {
  }

  function Started(b: Id, before: seq<Action>): seq<Action> {
    before + [Start(b)] + [Observe(SawNotPending(b))]
  }

  /** One message: nothing, a claim, or a claim and the completion of the build that it started. */
  ghost predicate HandlingSteps(b: Id, reported: Reported, ok: bool, started: bool, before: seq<Action>, after: seq<Action>) {
    || (!ok && after == before)
    || (after == Started(b, before) && !(ok && started))
    || (started && CompletionSteps(b, reported, ok, Started(b, before), after))
  }

  ghost predicate AllTimeouts(stale: seq<Id>, before: seq<Action>, after: seq<Action>) {
    before <= after && forall i :: |before| <= i < |after| ==>
      exists b :: b in stale && Completes(b, Known(FailedTimeout), after[i])
  }

  lemma TimeoutIsOne(stale: seq<Id>, i: nat, ok: bool, start: seq<Action>, before: seq<Action>, after: seq<Action>)
    requires i < |stale| && AllTimeouts(stale, start, before)
    requires CompletionSteps(stale[i], Known(FailedTimeout), ok, before, after)
    ensures AllTimeouts(stale, start, after)
  {
    forall k | |start| <= k < |after| ensures exists b :: b in stale && Completes(b, Known(FailedTimeout), after[k]) {
      if k < |before| { assert after[k] == before[k]; } else { assert stale[i] in stale; }
    }
  }

  ghost predicate Prefix(before: seq<Action>, after: seq<Action>) {
    before <= after
  }

  /** What a process may rely on about one build, from any moment to any later one. */
  ghost predicate Kept(s: State, t: State, b: Id) {
    && (b in s.issued ==> b in t.issued && t.issued[b] == s.issued[b])
    && (Settled(s, b) ==> Settled(t, b))
    && (NotPending(s, b) ==> NotPending(t, b))
    && s.publishes[b] <= t.publishes[b]
    && s.starts[b] <= t.starts[b]
    && (SawSettled(b) in s.seen ==> SawSettled(b) in t.seen)
    && (SawNotPending(b) in s.seen ==> SawNotPending(b) in t.seen)
  }

  lemma {:induction false} PrefixKeeps(before: seq<Action>, after: seq<Action>)
    requires Prefix(before, after) && Legal(Init, after)
    ensures Legal(Init, before)
    ensures Inv(Exec(Init, before)) && Inv(Exec(Init, after)) && Grew(Exec(Init, before), Exec(Init, after))
    decreases |after|
  {
    if before == after {
      RunKeeps(Init, after);
    } else {
      var shorter := after[..|after| - 1];
      PrefixKeeps(before, shorter);
      InvStep(Exec(Init, shorter), after[|after| - 1]);
      GrewStep(Exec(Init, shorter), after[|after| - 1]);
      GrewTransitive(Exec(Init, before), Exec(Init, shorter), Exec(Init, after));
    }
  }

  lemma AlwaysKept(before: seq<Action>, after: seq<Action>, b: Id)
    requires Prefix(before, after) && Legal(Init, after)
    ensures Kept(Exec(Init, before), Exec(Init, after), b)
  {
    PrefixKeeps(before, after);
    assert BuildMoves(Exec(Init, before), Exec(Init, after), b);
  }

  ghost predicate AllSettled(s: State, bs: seq<Id>) {
    forall b :: b in bs ==> Settled(s, b)
  }

  ghost predicate AllIssued(s: State, bs: seq<Id>) {
    forall b :: b in bs ==> b in s.issued
  }

  /** Results that are true: what is reported sent was put on the queue, what is reported discarded is settled. */
  ghost predicate Truthful(s: State, t: State, items: seq<Id>, results: seq<Option<bool>>) {
    |results| <= |items| && forall i :: 0 <= i < |results| ==>
      && (results[i] == Some(true) ==> s.publishes[items[i]] < t.publishes[items[i]])
      && (results[i] == Some(false) ==> Settled(t, items[i]))
  }

  lemma TruthfulKept(start: State, before: seq<Action>, after: seq<Action>, items: seq<Id>, results: seq<Option<bool>>)
    requires Prefix(before, after) && Legal(Init, after) && Truthful(start, Exec(Init, before), items, results)
    ensures Truthful(start, Exec(Init, after), items, results)
  {
    forall i | 0 <= i < |results| ensures Kept(Exec(Init, before), Exec(Init, after), items[i]) {
      AlwaysKept(before, after, items[i]);
    }
  }

  lemma AllKept(before: seq<Action>, after: seq<Action>, settled: seq<Id>, issued: seq<Id>)
    requires Prefix(before, after) && Legal(Init, after)
    requires AllSettled(Exec(Init, before), settled) && AllIssued(Exec(Init, before), issued)
    ensures AllSettled(Exec(Init, after), settled) && AllIssued(Exec(Init, after), issued)
  {
    forall b | b in settled + issued ensures Kept(Exec(Init, before), Exec(Init, after), b) { AlwaysKept(before, after, b); }
    assert forall b :: b in settled ==> b in settled + issued;
    assert forall b :: b in issued ==> b in settled + issued;
  }

  lemma SeenIsTrue(run: seq<Action>, b: Id)
    requires Legal(Init, run)
    ensures SawSettled(b) in Exec(Init, run).seen ==> Settled(Exec(Init, run), b)
    ensures SawNotPending(b) in Exec(Init, run).seen ==> NotPending(Exec(Init, run), b)
  {
    RunKeeps(Init, run);
    assert FactsHold(Exec(Init, run));
    assert SawSettled(b) in Exec(Init, run).seen ==> Holds(Exec(Init, run), SawSettled(b));
    assert SawNotPending(b) in Exec(Init, run).seen ==> Holds(Exec(Init, run), SawNotPending(b));
  }

  lemma RowsAreIssued(run: seq<Action>, b: Id)
    requires Legal(Init, run)
    ensures b in Exec(Init, run).rows.builds || b in Exec(Init, run).rows.outbox || b in Exec(Init, run).broker.delivered ==>
              b in Exec(Init, run).issued
    ensures b in Exec(Init, run).rows.builds ==> Exec(Init, run).rows.builds[b].imageId == Exec(Init, run).issued[b]
  {
    RunKeeps(Init, run);
    assert Counted(Exec(Init, run), b);
  }

  lemma PendingIsUnstarted(run: seq<Action>, b: Id)
    requires Legal(Init, run)
    ensures PendingBuild(Exec(Init, run), b) ==> Exec(Init, run).starts[b] == 0
  {
    RunKeeps(Init, run);
    assert Counted(Exec(Init, run), b);
  }

  class Core {
    const healthy: bool
    var builds: map<Id, Build>
    var images: map<Id, Image>
    var outbox: map<Id, OutboxStatus>
    var broker: Broker
    ghost var log: seq<Action>  // every step taken so far, by anyone
    ghost var own: seq<Action>  // those of the process whose method is running

    ghost function View(): State
      reads this`log
    {
      Exec(Init, log)
    }

    function Tables(): Rows
      reads this`builds, this`images, this`outbox
    {
      Rows(builds, images, outbox)
    }

    /** The tables and the broker are what the steps logged so far made them. */
    ghost predicate Valid()
      reads this
    {
      Legal(Init, log) && View().rows == Tables() && View().broker == broker
    }

    constructor (healthy: bool)
      ensures Valid() && log == [] && this.healthy == healthy
    {
      this.healthy := healthy;
      builds, images, outbox := map[], map[], map[];
      broker := Init.broker;
      log, own := [], [];
    }

    /** Any number of steps by other processes. A caller knows only what every run keeps. */
    method Interfere()
      requires Valid()
      modifies this
      ensures Valid() && Prefix(old(log), log) && own == old(own)
    {
    }

    /** The statement just executed was this protocol step. */
    ghost method Commit(a: Action)
      requires Legal(Init, log) && Enabled(View(), a)
      requires Apply(View(), a).rows == Tables() && Apply(View(), a).broker == broker
      modifies this`log, this`own
      ensures log == old(log) + [a] && own == old(own) + [a] && Valid()
      ensures View() == Apply(old(View()), a)
    {
      Runs.Extend(Enabled, Apply, Init, log, a);
      log, own := log + [a], own + [a];
    }

    /* ---- Repository: one method for each statement or transaction ---- */

    method CreateQueuedBuild(b: Id, img: Id, owner: Id, tag: string, key: Id) returns (err: Err)
      modifies this`builds, this`images, this`outbox
      ensures err.Ok? ==> old(CanCreate(Tables(), b, img, owner, tag))
                          && Tables() == CreateQueuedBuildTx(old(Tables()), b, img, owner, tag, key)
      ensures err.AlreadyExists? ==> !old(CanCreate(Tables(), b, img, owner, tag))
      ensures !err.Ok? ==> Tables() == old(Tables())
      ensures healthy && old(CanCreate(Tables(), b, img, owner, tag)) ==> err.Ok?
    {
      var reachable := Database.Reach(healthy);
      if !reachable { return Internal; }
      if img in images || TagTaken(images, owner, tag, true) { return AlreadyExists; }
      if b in builds || b in outbox { return Internal; }
      images := images[img := Image(owner, tag, 0, Building)];
      builds := builds[b := Build(img, owner, key, Pending)];
      outbox := outbox[b := Unsent];
      return Ok;
    }

    /** UPDATE ... SET running WHERE pending RETURNING. */
    method ClaimPending(b: Id) returns (err: Err, row: Option<Build>)
      modifies this`builds
      ensures !err.Ok? ==> Tables() == old(Tables()) && row.None?
      ensures err.Ok? ==> Tables() == StartBuildTx(old(Tables()), b)
      ensures err.Ok? ==> (row.Some? <==> b in old(builds) && old(builds)[b].status.Pending?)
      ensures row.Some? ==> b in builds && row.value == builds[b]
      ensures healthy ==> err.Ok?
    {
      var reachable := Database.Reach(healthy);
      if !reachable { return Internal, None; }
      if b in builds && builds[b].status.Pending? {
        builds := builds[b := builds[b].(status := Running)];
        return Ok, Some(builds[b]);
      }
      return Ok, None;
    }

    method GetByID(b: Id) returns (err: Err, row: Build)
      ensures err.Ok? ==> b in builds && row == builds[b]
      ensures err.NotFound? ==> b !in builds
      ensures healthy ==> !err.Internal?
    {
      row := Build(0, 0, 0, FailedInternal);
      var reachable := Database.Reach(healthy);
      if !reachable { return Internal, row; }
      if b !in builds { return NotFound, row; }
      return Ok, builds[b];
    }

    method GetImage(img: Id) returns (err: Err, row: Image)
      ensures err.Ok? ==> img in images && row == images[img]
      ensures err.NotFound? ==> img !in images
      ensures healthy ==> !err.Internal?
    {
      row := Image(0, "", 0, Errored);
      var reachable := Database.Reach(healthy);
      if !reachable { return Internal, row; }
      if img !in images { return NotFound, row; }
      return Ok, images[img];
    }

    method MarkBuildFailedAndDeleteImage(b: Id, img: Id, status: BuildStatus) returns (err: Err)
      modifies this`builds, this`images
      ensures err.Ok? ==> Tables() == MarkBuildFailedTx(old(Tables()), b, img, status)
      ensures !err.Ok? ==> Tables() == old(Tables())
      ensures healthy ==> err.Ok?
    {
      var reachable := Database.Reach(healthy);
      if !reachable { return Internal; }
      if !(b in builds && !Terminal(builds[b].status)) { return Ok; }
      builds := builds[b := builds[b].(status := status)];
      images := images - {img};
      return Ok;
    }

    method UpdateBuildAndImageSize(b: Id, img: Id, status: BuildStatus, sizeMB: nat) returns (err: Err)
      modifies this`builds, this`images
      ensures err.Ok? ==> Tables() == UpdateBuildAndImageSizeTx(old(Tables()), b, img, status, sizeMB)
      ensures !err.Ok? ==> Tables() == old(Tables())
      ensures healthy ==> err.Ok?
    {
      var reachable := Database.Reach(healthy);
      if !reachable { return Internal; }
      if !(b in builds && !Terminal(builds[b].status)) { return Ok; }
      builds := builds[b := builds[b].(status := status)];
      if img in images {
        images := map i | i in images && !(i != img && SameTag(images[i], images[img])) :: images[i];
        images := images[img := images[img].(sizeMB := sizeMB, status := Available)];
      }
      return Ok;
    }

    method DeleteRow(b: Id) returns (err: Err)
      modifies this`builds, this`outbox
      ensures err.Ok? ==> Tables() == DeleteBuildTx(old(Tables()), b)
      ensures !err.Ok? ==> Tables() == old(Tables())
      ensures (healthy ==> !err.Internal?) && (err.NotFound? ==> b !in old(builds))
    {
      var reachable := Database.Reach(healthy);
      if !reachable { return Internal; }
      if b !in builds { return NotFound; }
      builds := builds - {b};
      outbox := outbox - {b};
      return Ok;
    }

    /** Leases at most `limit` rows; which of the leasable ones depends on locks, ages and clocks. */
    method LeasePendingBuildOutbox(limit: nat) returns (err: Err, items: seq<Id>)
      modifies this`outbox
      ensures !err.Ok? ==> Tables() == old(Tables()) && items == []
      ensures |items| <= limit
      ensures old(Leasable(Tables(), set b | b in items)) && Tables() == LeaseTx(old(Tables()), set b | b in items)
      ensures healthy ==> err.Ok?
    {
      items := [];
      ghost var start := Tables();
      var reachable := Database.Reach(healthy);
      if !reachable {
        assert Tables() == LeaseTx(Tables(), set b | b in items);
        return Internal, items;
      }
      var candidates := set b | b in outbox && (outbox[b].Unsent? || outbox[b].Publishing?);
      var more: bool := *;
      while more && candidates != {} && |items| < limit
        invariant candidates <= start.outbox.Keys
        invariant forall b :: b in candidates ==> start.outbox[b].Unsent? || start.outbox[b].Publishing?
        invariant |items| <= limit && Leasable(start, set b | b in items)
        invariant Tables() == LeaseTx(start, set b | b in items)
        decreases candidates
      {
        var b :| b in candidates;
        candidates := candidates - {b};
        outbox := outbox[b := Publishing];
        ghost var taken := set x | x in items;
        items := items + [b];
        assert (set x | x in items) == taken + {b};
        more := *;
      }
      return Ok, items;
    }

    method MarkOutbox(b: Id, status: OutboxStatus) returns (err: Err)
      modifies this`outbox
      ensures err.Internal? ==> Tables() == old(Tables())
      ensures !err.Internal? ==> Tables() == MarkOutboxTx(old(Tables()), b, status)
      ensures err.NotFound? <==> !err.Internal? && b !in old(outbox)
      ensures healthy ==> !err.Internal?
    {
      var reachable := Database.Reach(healthy);
      if !reachable { return Internal; }
      if b !in outbox { return NotFound; }
      outbox := outbox[b := status];
      return Ok;
    }

    /** The publisher may report an error although the message reached the queue, never the reverse. */
    method Send(b: Id) returns (err: Err, ghost sent: bool)
      modifies this`broker
      ensures err.Ok? || err.Internal?
      ensures err.Ok? ==> sent
      ensures broker == if sent then old(broker).(ready := old(broker).ready + multiset{b}) else old(broker)
    {
      var reaches: bool, confirmed: bool := *, *;
      sent := reaches;
      if reaches { broker := broker.(ready := broker.ready + multiset{b}); }
      return if reaches && confirmed then Ok else Internal, sent;
    }

    /* ---- The outbox worker ---- */

    /** Reads the build behind a leased row; `gone` when it is deleted or terminal. */
    method LookUp(b: Id) returns (err: Err, gone: bool)
      requires Valid() && b in View().issued
      modifies this`log, this`own
      ensures Valid() && Prefix(old(log), log)
      ensures b in View().issued && View().publishes[b] == old(View()).publishes[b]
      ensures gone ==> SawSettled(b) in View().seen
      ensures own == old(own) + if gone then [Observe(SawSettled(b))] else []
    {
      var build;
      err, build := GetByID(b);
      gone := err.NotFound? || (err.Ok? && Terminal(build.status));
      if gone { Commit(Observe(SawSettled(b))); }
    }

    method Publish(b: Id) returns (err: Err)
      requires Valid() && b in View().issued
      modifies this`log, this`own, this`broker
      ensures Valid() && Prefix(old(log), log)
      ensures err.Ok? ==> old(View()).publishes[b] < View().publishes[b]
      ensures b in View().issued && (own == old(own) + [Action.Publish(b)] || (!err.Ok? && own == old(own)))
    {
      ghost var sent;
      err, sent := Send(b);
      if sent { Commit(Action.Publish(b)); }
    }

    /** Records what became of a leased row; a failing write leaves it publishing until its lease runs out. */
    method Record(b: Id, status: OutboxStatus)
      requires Valid() && Enabled(View(), Mark(b, status))
      modifies this`log, this`own, this`outbox
      ensures Valid() && Prefix(old(log), log)
      ensures own == old(own) || own == old(own) + [Mark(b, status)]
    {
      var err := MarkOutbox(b, status);
      if !err.Internal? { Commit(Mark(b, status)); }
    }

    /** One leased row: true if its message was sent, false if the row was discarded. */
    method PublishItem(b: Id) returns (result: Option<bool>)
      requires Valid() && b in View().issued
      modifies this
      ensures Valid() && Prefix(old(log), log)
      ensures result == Some(true) ==> old(View()).publishes[b] < View().publishes[b]
      ensures result == Some(false) ==> Settled(View(), b)
      ensures ItemSteps(b, result, old(own), own)
    {
      var err, gone := LookUp(b);
      if gone {
        DiscardItem(b);
        return Some(false);
      }
      if !err.Ok? {
        ReturnItem(b);
        return None;
      }
      var sent := SendItem(b);
      if sent { return Some(true); }
      return None;
    }

    method ReturnItem(b: Id)
      requires Valid() && b in View().issued
      modifies this
      ensures Valid() && Prefix(old(log), log)
      ensures own == old(own) || own == old(own) + [Mark(b, Unsent)]
    {
      Interfere();
      AlwaysKept(old(log), log, b);
      Record(b, Unsent);
    }

    method DiscardItem(b: Id)
      requires Valid() && b in View().issued && SawSettled(b) in View().seen
      modifies this
      ensures Valid() && Prefix(old(log), log) && Settled(View(), b)
      ensures own == old(own) || own == old(own) + [Mark(b, Discarded)]
    {
      Interfere();
      AlwaysKept(old(log), log, b);
      Record(b, Discarded);
      AlwaysKept(old(log), log, b);
      SeenIsTrue(log, b);
    }

    method SendItem(b: Id) returns (ok: bool)
      requires Valid() && b in View().issued
      modifies this
      ensures Valid() && Prefix(old(log), log)
      ensures ok ==> old(View()).publishes[b] < View().publishes[b]
      ensures ItemSteps(b, if ok then Some(true) else None, old(own), own)
    {
      Interfere();
      AlwaysKept(old(log), log, b);
      var err := Publish(b);
      if err.Ok? { ConfirmItem(b); } else { ReturnItem(b); }
      return err.Ok?;
    }

    method ConfirmItem(b: Id)
      requires Valid() && b in View().issued && View().publishes[b] > 0
      modifies this
      ensures Valid() && Prefix(old(log), log)
      ensures old(View()).publishes[b] <= View().publishes[b]
      ensures own == old(own) || own == old(own) + [Mark(b, Published)]
    {
      Interfere();
      AlwaysKept(old(log), log, b);
      ghost var there := log;
      Record(b, Published);
      AlwaysKept(there, log, b);
    }

    /**
     The outbox worker's batch: it leases rows and handles one after another. Every row reported sent put a message on the
     queue, and every row reported discarded announces a build that no run will start again.
     */
    method PublishBatch(limit: nat) returns (items: seq<Id>, results: seq<Option<bool>>, ghost marks: seq<seq<Action>>)
      requires Valid()
      modifies this
      ensures Valid() && Prefix(old(log), log)
      ensures |items| <= limit && BatchSteps(items, results, marks, old(own), own)
      ensures Truthful(old(View()), View(), items, results)
    {
      ghost var start := View();
      results := [];
      var err;
      err, items := LeaseBatch(limit);
      marks := [own];
      for i := 0 to |items|
        invariant Valid() && Prefix(old(log), log) && AllIssued(View(), items)
        invariant |results| == i && SoFar(items, results, marks, old(own) + [Lease(set b | b in items)], own)
        invariant Truthful(start, View(), items, results)
      {
        AlwaysKept(old(log), log, items[i]);
        ghost var before := own;
        var result := HandleItem(items, results, i, start);
        SoFarStep(items, results, result, marks, old(own) + [Lease(set b | b in items)], before, own);
        results := results + [result];
        marks := marks + [own];
      }
    }

    /** The next row of a batch, with others acting before it. */
    method HandleItem(items: seq<Id>, ghost results: seq<Option<bool>>, i: nat, ghost start: State) returns (result: Option<bool>)
      requires Valid() && i < |items| && |results| == i && AllIssued(View(), items) && Truthful(start, View(), items, results)
      requires start.publishes[items[i]] <= View().publishes[items[i]]
      modifies this
      ensures Valid() && Prefix(old(log), log) && AllIssued(View(), items)
      ensures ItemSteps(items[i], result, old(own), own)
      ensures Truthful(start, View(), items, results + [result])
    {
      LetOthersAct(items, results, i, start);
      ghost var before := log;
      result := PublishItem(items[i]);
      AllKept(before, log, [], items);
      TruthfulKept(start, before, log, items, results);
    }

    method LetOthersAct(ghost items: seq<Id>, ghost results: seq<Option<bool>>, ghost i: nat, ghost start: State)
      requires Valid() && i < |items| && AllIssued(View(), items) && Truthful(start, View(), items, results)
      requires start.publishes[items[i]] <= View().publishes[items[i]]
      modifies this
      ensures Valid() && Prefix(old(log), log) && own == old(own)
      ensures AllIssued(View(), items) && Truthful(start, View(), items, results)
      ensures start.publishes[items[i]] <= View().publishes[items[i]]
    {
      Interfere();
      AllKept(old(log), log, [], items);
      AlwaysKept(old(log), log, items[i]);
      TruthfulKept(start, old(log), log, items, results);
    }

    method LeaseBatch(limit: nat) returns (err: Err, items: seq<Id>)
      requires Valid()
      modifies this`log, this`own, this`outbox
      ensures Valid() && Prefix(old(log), log)
      ensures AllIssued(View(), items)
      ensures |items| <= limit && own == old(own) + [Lease(set b | b in items)]
    {
      err, items := LeasePendingBuildOutbox(limit);
      forall b | b in items ensures b in old(View()).issued {
        RowsAreIssued(log, b);
        assert b in (set x | x in items);
      }
      Commit(Lease(set b | b in items));
    }

    /* ---- Creating, starting and settling a build ---- */

    /** The insert that ends a build submission; `b` and `img` are fresh identifiers. */
    method InsertBuild(b: Id, img: Id, owner: Id, tag: string, key: Id) returns (err: Err)
      requires Valid() && b !in View().issued && img !in View().madeFor
      modifies this
      ensures Valid() && Prefix(old(log), log)
      ensures err.Ok? ==> PendingBuild(View(), b) && b in outbox && outbox[b].Unsent?
      ensures own == old(own) + if err.Ok? then [Create(b, img, owner, tag, key)] else []
      ensures healthy && old(CanCreate(Tables(), b, img, owner, tag)) ==> err.Ok?
    {
      err := CreateQueuedBuild(b, img, owner, tag, key);
      if err.Ok? { Commit(Create(b, img, owner, tag, key)); }
    }

    /** The guarded update of StartBuild; missing it is a reading that the build is no longer pending. */
    method Claim(b: Id) returns (err: Err, row: Option<Build>)
      requires Valid() && b in View().issued
      modifies this`log, this`own, this`builds
      ensures Valid() && Prefix(old(log), log)
      ensures err.Ok? ==> SawNotPending(b) in View().seen
      ensures row.Some? ==> err.Ok? && old(View()).starts[b] == 0 && View().starts[b] == 1
      ensures row.Some? ==> b in View().issued && row.value.imageId == View().issued[b]
      ensures own == if err.Ok? then Started(b, old(own)) else old(own)
      ensures healthy ==> err.Ok?
    {
      RowsAreIssued(log, b);
      PendingIsUnstarted(log, b);
      err, row := ClaimPending(b);
      if err.Ok? {
        Commit(Start(b));
        Commit(Observe(SawNotPending(b)));
      }
    }

    /**
     StartBuild with its fallback read. A build reported skipped was read with a status other than pending, and a
     build is reported started once at most.
     */
    method StartBuildRecord(b: Id) returns (err: Err, started: bool, status: BuildStatus, img: Id)
      requires Valid() && b in View().issued
      modifies this
      ensures Valid() && Prefix(old(log), log)
      ensures err.Ok? ==> SawNotPending(b) in View().seen
      ensures err.Ok? && started ==> old(View()).starts[b] == 0 && View().starts[b] == 1
      ensures err.Ok? && started ==> b in View().issued && img == View().issued[b]
      ensures err.Ok? && !started ==> !status.Pending?
      ensures own == Started(b, old(own)) || (!err.Ok? && own == old(own))
    {
      started, status, img := false, Running, 0;
      var row;
      err, row := Claim(b);
      if !err.Ok? { return; }
      if row.Some? {
        var answered: bool := *;
        if !answered { err := Internal; return; }
        started, img := true, row.value.imageId;
        return;
      }
      ghost var missed := log;
      Interfere();
      AlwaysKept(missed, log, b);
      SeenIsTrue(log, b);
      var build;
      err, build := GetByID(b);
      status := build.status;
    }

    /** A read that finds the build terminal is kept as a fact. */
    method ReadBuild(b: Id) returns (err: Err, build: Build)
      requires Valid() && b in View().issued
      modifies this`log, this`own
      ensures View().issued == old(View()).issued
      ensures Valid() && Prefix(old(log), log)
      ensures err.Ok? && Terminal(build.status) ==> Settled(View(), b)
      ensures own == old(own) + if err.Ok? && Terminal(build.status) then [Observe(SawSettled(b))] else []
      ensures err.Ok? ==> b in View().issued && build.imageId == View().issued[b]
      ensures healthy ==> !err.Internal?
    {
      RowsAreIssued(log, b);
      err, build := GetByID(b);
      if err.Ok? && Terminal(build.status) {
        Commit(Observe(SawSettled(b)));
        SeenIsTrue(log, b);
      }
    }

    method FailBuild(b: Id, img: Id, status: BuildStatus) returns (err: Err)
      requires Valid() && b in View().issued && img == View().issued[b]
      requires Terminal(status) && !status.Success?
      modifies this`log, this`own, this`builds, this`images
      ensures Valid() && Prefix(old(log), log)
      ensures err.Ok? ==> Settled(View(), b)
      ensures own == old(own) + if err.Ok? then [SettleFailed(b, status)] else []
      ensures healthy ==> err.Ok?
    {
      err := MarkBuildFailedAndDeleteImage(b, img, status);
      if err.Ok? { Commit(SettleFailed(b, status)); }
    }

    method SucceedBuild(b: Id, img: Id, sizeMB: nat) returns (err: Err)
      requires Valid() && b in View().issued && img == View().issued[b]
      modifies this`log, this`own, this`builds, this`images
      ensures Valid() && Prefix(old(log), log)
      ensures err.Ok? ==> Settled(View(), b)
      ensures own == old(own) + if err.Ok? then [SettleSuccess(b, sizeMB)] else []
      ensures healthy ==> err.Ok?
    {
      err := UpdateBuildAndImageSize(b, img, Success, sizeMB);
      if err.Ok? { Commit(SettleSuccess(b, sizeMB)); }
    }

    /** Completion: whenever it reports no error the build is terminal or deleted, and stays so. */
    method CompleteBuildRecord(b: Id, img: Id, reported: Reported) returns (err: Err)
      requires Valid() && b in View().issued && img == View().issued[b]
      modifies this
      ensures Valid() && Prefix(old(log), log)
      ensures err.Ok? ==> Settled(View(), b)
      ensures CompletionSteps(b, reported, err.Ok?, old(own), own)
    {
      var build;
      err, build := ReadBuild(b);
      if !err.Ok? { return; }
      if Terminal(build.status) {
        OneStep(b, reported, true, old(own), Observe(SawSettled(b)));
        return;
      }
      if reported == Known(Success) {
        err := CompleteSuccess(b, img);
      } else {
        err := FailLater(b, img, NormalizeFailedBuildStatus(reported));
        OneStep(b, reported, err.Ok?, old(own), SettleFailed(b, NormalizeFailedBuildStatus(reported)));
      }
    }

    method FailLater(b: Id, img: Id, status: BuildStatus) returns (err: Err)
      requires Valid() && b in View().issued && img == View().issued[b]
      requires Terminal(status) && !status.Success?
      modifies this
      ensures Valid() && Prefix(old(log), log)
      ensures err.Ok? ==> Settled(View(), b)
      ensures own == old(own) + if err.Ok? then [SettleFailed(b, status)] else []
      ensures healthy ==> err.Ok?
    {
      Interfere();
      AlwaysKept(old(log), log, b);
      err := FailBuild(b, img, status);
    }

    /** A reported success still fails the build if its image has no metadata or does not fit the quota. */
    method CompleteSuccess(b: Id, img: Id) returns (err: Err)
      requires Valid() && b in View().issued && img == View().issued[b]
      modifies this
      ensures Valid() && Prefix(old(log), log)
      ensures err.Ok? ==> Settled(View(), b)
      ensures CompletionSteps(b, Known(Success), err.Ok?, old(own), own)
    {
      Interfere();
      AlwaysKept(old(log), log, b);
      var row;
      err, row := GetImage(img);
      if !err.Ok? { return; }
      var metadata: bool, bytes: nat := *, *;
      if !metadata {
        err := FailLater(b, img, FailedInternal);
        OneStep(b, Known(Success), err.Ok?, old(own), SettleFailed(b, FailedInternal));
        return;
      }
      err := CompleteSized(b, img, row, if bytes / 0x100000 == 0 then 1 else bytes / 0x100000);
    }

    /** The quota check and the transaction that follows it. */
    method CompleteSized(b: Id, img: Id, row: Image, sizeMB: nat) returns (err: Err)
      requires Valid() && b in View().issued && img == View().issued[b] && sizeMB > 0
      modifies this
      ensures Valid() && Prefix(old(log), log)
      ensures err.Ok? ==> Settled(View(), b)
      ensures CompletionSteps(b, Known(Success), err.Ok?, old(own), own)
    {
      var fits;
      ghost var used, replaced, volumeMB, quotaMB;
      err, fits, used, replaced, volumeMB, quotaMB := CheckQuota(img, row, sizeMB);
      if !err.Ok? { return; }
      AlwaysKept(old(log), log, b);
      if fits {
        err := SucceedBuild(b, img, sizeMB);
        OneStep(b, Known(Success), err.Ok?, old(own), SettleSuccess(b, sizeMB));
      } else {
        err := FailBuild(b, img, FailedQuotaExceeded);
        OneStep(b, Known(Success), err.Ok?, old(own), SettleFailed(b, FailedQuotaExceeded));
      }
    }

    /**
     The queries of the quota check, between which others act: the answer is the check's on the rows that were summed, which
     is the check on the present rows exactly as far as they still have those sums.
     */
    method CheckQuota(img: Id, row: Image, sizeMB: nat)
      returns (err: Err, fits: bool, ghost used: int, ghost replaced: int, ghost volumeMB: int, ghost quotaMB: int)
      requires Valid()
      modifies this
      ensures Valid() && Prefix(old(log), log) && own == old(own)
      ensures err.Ok? || err.Internal?
      ensures fits <==> D.QuotaAllows(used + volumeMB, replaced, sizeMB, quotaMB)
      ensures img in images && SameTag(images[img], row) && used == D.UsedMB(images, row.owner)
              && replaced == D.ReplacedMB(images, row.owner, row.tag, img)
              ==> (fits <==> D.CheckPasses(images, img, sizeMB, volumeMB, quotaMB))
    {
      var reachable := Database.Reach(healthy);
      var quota: int, volumeBytes: int := *, *;
      var usedMB := Total(D.CountedImages(images, row.owner), D.SizeOf(images));
      used, volumeMB, quotaMB := usedMB, D.BytesToMBRoundedUp(volumeBytes), quota;
      Interfere();
      var replacedMB := Total(D.ReplacedImages(images, row.owner, row.tag, img), D.SizeOf(images));
      replaced := replacedMB;
      fits := D.QuotaAllows(usedMB + D.BytesToMBRoundedUp(volumeBytes), replacedMB, sizeMB, quota);
      err := if reachable then Ok else Internal;
    }

    /** Cancellation by the owner races with completion; whoever reports success, the build is settled. */
    method CancelBuildRecord(b: Id) returns (err: Err)
      requires Valid() && b in View().issued
      modifies this
      ensures Valid() && Prefix(old(log), log)
      ensures err.Ok? ==> Settled(View(), b)
      ensures CompletionSteps(b, Known(Canceled), err.Ok?, old(own), own)
      ensures healthy ==> !err.Internal?
    {
      var build;
      err, build := ReadBuild(b);
      if !err.Ok? { return; }
      if Terminal(build.status) {
        OneStep(b, Known(Canceled), true, old(own), Observe(SawSettled(b)));
        return;
      }
      err := FailLater(b, build.imageId, Canceled);
      OneStep(b, Known(Canceled), true, old(own), SettleFailed(b, Canceled));
    }

    method DeleteBuild(b: Id) returns (err: Err)
      requires Valid() && b in View().issued
      modifies this
      ensures Valid() && Prefix(old(log), log)
      ensures err.Ok? ==> b !in builds && b !in outbox
      ensures own == old(own) + if err.Ok? then [Delete(b)] else []
      ensures healthy ==> !err.Internal?
    {
      var build;
      err, build := GetByID(b);
      if !err.Ok? { return; }
      Interfere();
      err := DeleteRow(b);
      if err.Ok? { Commit(Delete(b)); }
    }

    /* ---- The builder's message handler ---- */

    /** Completion as the builder calls it: the answer may be lost although the build was settled. */
    method CompleteByCall(b: Id, img: Id, reported: Reported) returns (err: Err)
      requires Valid() && b in View().issued && img == View().issued[b]
      modifies this
      ensures Valid() && Prefix(old(log), log)
      ensures err.Ok? ==> Settled(View(), b)
      ensures CompletionSteps(b, reported, err.Ok?, old(own), own)
    {
      err := CompleteBuildRecord(b, img, reported);
      var answered: bool := *;
      if !answered { err := Internal; }
    }

    /**
     Handling one message. No error means the message may be acknowledged: the build is not pending, and if this
     handler started it, it is terminal or deleted.
     */
    method HandleBuildMessage(b: Id) returns (err: Err, started: bool, ghost reported: Reported)
      requires Valid() && b in View().issued
      modifies this
      ensures Valid() && Prefix(old(log), log)
      ensures err.Ok? ==> SawNotPending(b) in View().seen
      ensures err.Ok? && started ==> Settled(View(), b) && View().starts[b] > 0
      ensures HandlingSteps(b, reported, err.Ok?, started, old(own), own)
    {
      started, reported := false, Known(Canceled);
      var slot: bool := *;
      if !slot { return Internal, false, reported; }
      Interfere();
      AlwaysKept(old(log), log, b);
      var status, img;
      err, started, status, img := StartBuildRecord(b);
      if !err.Ok? || !started { return; }
      ghost var claimed := log;
      Interfere();
      AlwaysKept(claimed, log, b);
      var downloaded: bool, canceled: bool, valid: bool, outcome: Reported := *, *, *, *;
      if !downloaded && !canceled { return Internal, started, reported; }
      if !downloaded || (!valid && canceled) {
        err := CompleteByCall(b, img, Known(Canceled));
      } else if !valid {
        reported := Known(BuildStatus.Failed);
        err := CompleteByCall(b, img, Known(BuildStatus.Failed));
      } else {
        reported := outcome;
        err := CompleteByCall(b, img, outcome);
      }
      AlwaysKept(claimed, log, b);
    }

    /** The consumer: acknowledge on success, else return the message to the queue or the dead letter queue. */
    method HandleDelivery(b: Id) returns (ghost ok: bool, ghost handled: seq<Action>)
      requires Valid() && b in broker.delivered
      modifies this
      ensures Valid() && Prefix(old(log), log)
      ensures exists reported, started :: HandlingSteps(b, reported, ok, started, old(own), handled)
      ensures own == handled || own == handled + (if ok then [Ack(b)] else [Requeue(b)]) || (!ok && own == handled + [DeadLetter(b)])
    {
      RowsAreIssued(log, b);
      ghost var reported;
      var err, started;
      err, started, reported := HandleBuildMessage(b);
      ok, handled := err.Ok?, own;
      ghost var done := log;
      Interfere();
      AlwaysKept(done, log, b);
      if b !in broker.delivered { return; }  // the connection was lost and the broker took the message back
      if err.Ok? {
        broker := broker.(delivered := broker.delivered - multiset{b});
        Commit(Ack(b));
      } else {
        var permanent: bool := *;
        if permanent {
          broker := broker.(delivered := broker.delivered - multiset{b}, dead := broker.dead + multiset{b});
          Commit(DeadLetter(b));
        } else {
          broker := broker.(delivered := broker.delivered - multiset{b}, ready := broker.ready + multiset{b});
          Commit(Requeue(b));
        }
      }
    }

    /** Garbage collection fails what is stale; every build it reports done is settled. */
    method PruneStaleBuilds(stale: seq<Id>, imageIds: seq<Id>) returns (settled: seq<Id>)
      requires Valid() && |stale| == |imageIds|
      requires forall i :: 0 <= i < |stale| ==> stale[i] in View().issued && imageIds[i] == View().issued[stale[i]]
      modifies this
      ensures Valid() && Prefix(old(log), log)
      ensures AllSettled(View(), settled) && forall b :: b in settled ==> b in stale
      ensures AllTimeouts(stale, old(own), own)
    {
      settled := [];
      for i := 0 to |stale|
        invariant Valid() && Prefix(old(log), log)
        invariant AllSettled(View(), settled) && forall b :: b in settled ==> b in stale
        invariant AllTimeouts(stale, old(own), own)
      {
        ghost var here := log;
        Interfere();
        AlwaysKept(old(log), log, stale[i]);
        ghost var taken := own;
        var err := CompleteBuildRecord(stale[i], imageIds[i], Known(FailedTimeout));
        AllKept(here, log, settled, []);
        TimeoutIsOne(stale, i, err.Ok?, old(own), taken, own);
        if err.Ok? { settled := settled + [stale[i]]; }
      }
    }
  }
}
