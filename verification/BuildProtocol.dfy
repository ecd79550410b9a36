/**
 The image-build lifecycle as a protocol. The shared state is the database, the broker and a history of what
 happened; every step is one database transaction, one broker operation or one observation. A process is not
 given a program counter: a step that the code takes only after reading something is enabled once that reading
 is in the history, no matter how long ago or by whom it was made. So publishers and builders of any number,
 crashed, stale or restarted, are all runs of these steps.
 */
module BuildProtocol {
  import opened BuildRows
  import Runs

  /** What a process has read about a build and later acts on. */
  datatype Fact = SawSettled(b: Id) | SawNotPending(b: Id)

  /** Messages the broker still holds, by build: waiting, with a consumer, or in the dead letter queue. */
  datatype Broker = Broker(ready: multiset<Id>, delivered: multiset<Id>, dead: multiset<Id>)

  datatype State = State(
    rows: Rows,
    broker: Broker,
    issued: map<Id, Id>,       // every build id ever created, with its image id
    madeFor: map<Id, Id>,      // the inverse: every image id ever created, with its build id
    publishes: multiset<Id>,   // messages put on the queue
    acks: multiset<Id>,        // messages acknowledged
    starts: multiset<Id>,      // StartBuild calls that reported started
    settles: multiset<Id>,     // completion and cancel transactions that changed the build
    dropped: set<Id>,          // builds deleted while still active
    seen: set<Fact>)

  datatype Action =
    | Create(b: Id, img: Id, owner: Id, tag: string, key: Id)
    | Start(b: Id)
    | SettleFailed(b: Id, status: BuildStatus)
    | SettleSuccess(b: Id, sizeMB: nat)
    | Delete(b: Id)
    | Lease(bs: set<Id>)
    | Mark(b: Id, outbox: OutboxStatus)
    | Publish(b: Id)
    | Deliver(b: Id)
    | Ack(b: Id)
    | Requeue(b: Id)
    | DeadLetter(b: Id)
    | Observe(fact: Fact)
    | TouchImage(img: Id, sizeMB: nat, imageStatus: ImageStatus)
    | RemoveImage(img: Id)

  const Init := State(Rows(map[], map[], map[]), Broker(multiset{}, multiset{}, multiset{}),
                      map[], map[], multiset{}, multiset{}, multiset{}, multiset{}, {}, {})

  function Held(s: State, b: Id): nat {
    s.broker.ready[b] + s.broker.delivered[b] + s.broker.dead[b]
  }

  predicate Settled(s: State, b: Id) {
    b in s.issued && !ActiveBuild(s.rows, b)
  }

  predicate PendingBuild(s: State, b: Id) {
    b in s.rows.builds && s.rows.builds[b].status.Pending?
  }

  predicate NotPending(s: State, b: Id) {
    b in s.issued && !PendingBuild(s, b)
  }

  predicate Holds(s: State, f: Fact) {
    match f
    case SawSettled(b) => Settled(s, b)
    case SawNotPending(b) => NotPending(s, b)
  }

  predicate Enabled(s: State, a: Action) {
    match a
    case Create(b, img, owner, tag, key) =>
      b !in s.issued && img !in s.madeFor && CanCreate(s.rows, b, img, owner, tag)
    case Start(b) => true
    case SettleFailed(b, status) => b in s.issued && Terminal(status) && !status.Success?
    case SettleSuccess(b, sizeMB) => b in s.issued
    case Delete(b) => true
    case Lease(bs) => Leasable(s.rows, bs)
    case Mark(b, outbox) =>
      (match outbox
       case Published => s.publishes[b] > 0
       case Discarded => SawSettled(b) in s.seen
       case Unsent => true
       case Publishing => false)
    case Publish(b) => b in s.issued
    case Deliver(b) => b in s.broker.ready
    case Ack(b) => b in s.broker.delivered && SawNotPending(b) in s.seen
    case Requeue(b) => b in s.broker.delivered
    case DeadLetter(b) => b in s.broker.delivered
    case Observe(f) => Holds(s, f)
    case TouchImage(img, sizeMB, imageStatus) =>
      img in s.rows.images && !s.rows.images[img].status.Building? && !imageStatus.Building?
    case RemoveImage(img) => img in s.rows.images && !s.rows.images[img].status.Building?
  }

  function Apply(s: State, a: Action): State {
    match a
    case Create(b, img, owner, tag, key) =>
      s.(rows := CreateQueuedBuildTx(s.rows, b, img, owner, tag, key), issued := s.issued[b := img],
         madeFor := s.madeFor[img := b])
    case Start(b) =>
      s.(rows := StartBuildTx(s.rows, b), starts := if PendingBuild(s, b) then s.starts + multiset{b} else s.starts)
    case SettleFailed(b, status) =>
      if b in s.issued then
        s.(rows := MarkBuildFailedTx(s.rows, b, s.issued[b], status),
           settles := if ActiveBuild(s.rows, b) then s.settles + multiset{b} else s.settles)
      else s
    case SettleSuccess(b, sizeMB) =>
      if b in s.issued then
        s.(rows := UpdateBuildAndImageSizeTx(s.rows, b, s.issued[b], Success, sizeMB),
           settles := if ActiveBuild(s.rows, b) then s.settles + multiset{b} else s.settles)
      else s
    case Delete(b) =>
      s.(rows := DeleteBuildTx(s.rows, b), dropped := if ActiveBuild(s.rows, b) then s.dropped + {b} else s.dropped)
    case Lease(bs) => s.(rows := LeaseTx(s.rows, bs))
    case Mark(b, outbox) => s.(rows := MarkOutboxTx(s.rows, b, outbox))
    case Publish(b) =>
      s.(broker := s.broker.(ready := s.broker.ready + multiset{b}), publishes := s.publishes + multiset{b})
    case Deliver(b) =>
      s.(broker := s.broker.(ready := s.broker.ready - multiset{b}, delivered := s.broker.delivered + multiset{b}))
    case Ack(b) =>
      s.(broker := s.broker.(delivered := s.broker.delivered - multiset{b}), acks := s.acks + multiset{b})
    case Requeue(b) =>
      s.(broker := s.broker.(delivered := s.broker.delivered - multiset{b}, ready := s.broker.ready + multiset{b}))
    case DeadLetter(b) =>
      s.(broker := s.broker.(delivered := s.broker.delivered - multiset{b}, dead := s.broker.dead + multiset{b}))
    case Observe(f) => s.(seen := s.seen + {f})
    case TouchImage(img, sizeMB, imageStatus) =>
      if img in s.rows.images then
        s.(rows := s.rows.(images := s.rows.images[img := s.rows.images[img].(sizeMB := sizeMB, status := imageStatus)]))
      else s
    case RemoveImage(img) => s.(rows := s.rows.(images := s.rows.images - {img}))
  }

  /* ---- Runs ---- */

  ghost predicate Step(s: State, t: State) {
    exists a :: Enabled(s, a) && t == Apply(s, a)
  }

  /** Some run leads from the first state to the second. */
  ghost predicate Later(s: State, t: State) {
    Runs.Later(Step, s, t)
  }

  ghost predicate Reachable(s: State) {
    Later(Init, s)
  }

  /** The same, given by its actions. */
  ghost predicate Legal(s: State, run: seq<Action>) {
    Runs.Legal(Enabled, Apply, s, run)
  }

  ghost function Exec(s: State, run: seq<Action>): State {
    Runs.Exec(Apply, s, run)
  }

  /* ---- The invariant ---- */

  ghost predicate MadeForBuild(s: State, i: Id) {
    i in s.madeFor ==> s.madeFor[i] in s.issued && s.issued[s.madeFor[i]] == i
  }

  /** Rows refer to each other as the schema demands, and every build row keeps its outbox row. */
  ghost predicate RowsLinked(s: State) {
    && s.rows.outbox.Keys == s.rows.builds.Keys
    && (forall b :: b in s.rows.builds ==> b in s.issued && s.rows.builds[b].imageId == s.issued[b])
    && (forall b :: b in s.issued ==> s.issued[b] in s.madeFor && s.madeFor[s.issued[b]] == b)
    && s.rows.images.Keys <= s.madeFor.Keys
    && (forall i :: MadeForBuild(s, i))
  }

  /** Both unique indexes hold. */
  ghost predicate TagsUnique(images: map<Id, Image>) {
    forall i, j :: i in images && j in images && i != j && SameTag(images[i], images[j]) ==>
      images[i].status.Building? != images[j].status.Building?
  }

  /** How the status of a build fixes its image row. */
  ghost predicate ImageFollows(s: State, b: Id) {
    b in s.issued ==>
      var img := s.issued[b];
      && (ActiveBuild(s.rows, b) ==>
            img in s.rows.images && s.rows.images[img].status.Building? && s.rows.images[img].owner == s.rows.builds[b].owner)
      && (b in s.rows.builds && Terminal(s.rows.builds[b].status) && img in s.rows.images ==>
            s.rows.builds[b].status.Success? && !s.rows.images[img].status.Building?)
      && (img in s.rows.images && s.rows.images[img].status.Building? ==> ActiveBuild(s.rows, b) || b in s.dropped)
  }

  ghost predicate ImagesFollowBuilds(s: State) {
    && (forall b :: ImageFollows(s, b))
    && (forall i :: i in s.rows.images && s.rows.images[i].status.Building? ==> s.rows.images[i].sizeMB == 0)
  }

  /** No message of a pending build is acknowledged, and no build starts or settles twice. */
  ghost predicate Counted(s: State, b: Id) {
    && s.publishes[b] == Held(s, b) + s.acks[b]
    && (b !in s.issued ==> s.publishes[b] == 0 && s.starts[b] == 0 && s.settles[b] == 0 && b !in s.dropped)
    && (PendingBuild(s, b) ==> s.acks[b] == 0 && s.starts[b] == 0)
    && s.starts[b] <= 1
    && s.settles[b] <= 1
    && (ActiveBuild(s.rows, b) ==> s.settles[b] == 0)
    && (b in s.dropped ==> b !in s.rows.builds)
  }

  ghost predicate CountersAgree(s: State) {
    forall b :: Counted(s, b)
  }

  ghost predicate OutboxTruthful(s: State) {
    forall b :: b in s.rows.outbox ==>
      && (s.rows.outbox[b].Published? ==> s.publishes[b] > 0)
      && (s.rows.outbox[b].Discarded? ==> !ActiveBuild(s.rows, b))
  }

  ghost predicate FactsHold(s: State) {
    forall f :: f in s.seen ==> Holds(s, f)
  }

  ghost predicate Inv(s: State) {
    && RowsLinked(s)
    && TagsUnique(s.rows.images)
    && ImagesFollowBuilds(s)
    && CountersAgree(s)
    && OutboxTruthful(s)
    && FactsHold(s)
  }

  lemma RowsCreate(s: State, a: Action)
    requires RowsLinked(s) && Enabled(s, a)
    requires a.Create?
    ensures RowsLinked(Apply(s, a))
  {
    forall i ensures MadeForBuild(Apply(s, a), i) { assert MadeForBuild(s, i); }
  }

  lemma RowsSettle(s: State, a: Action)
    requires RowsLinked(s) && Enabled(s, a)
    requires a.SettleFailed? || a.SettleSuccess? || a.Start?
    ensures RowsLinked(Apply(s, a))
  {
    forall i ensures MadeForBuild(Apply(s, a), i) { assert MadeForBuild(s, i); }
  }

  lemma RowsOther(s: State, a: Action)
    requires RowsLinked(s) && Enabled(s, a)
    requires !a.Create? && !a.SettleFailed? && !a.SettleSuccess? && !a.Start?
    ensures RowsLinked(Apply(s, a))
  {
    forall i ensures MadeForBuild(Apply(s, a), i) { assert MadeForBuild(s, i); }
  }

  lemma RowsStep(s: State, a: Action)
    requires RowsLinked(s) && Enabled(s, a)
    ensures RowsLinked(Apply(s, a))
  {
    if a.Create? { RowsCreate(s, a); }
    else if a.SettleFailed? || a.SettleSuccess? || a.Start? { RowsSettle(s, a); }
    else { RowsOther(s, a); }
  }

  lemma TagsStep(s: State, a: Action)
    requires RowsLinked(s) && TagsUnique(s.rows.images) && Enabled(s, a)
    ensures TagsUnique(Apply(s, a).rows.images)
  {
    match a case Create(_, _, _, _, _) => case _ =>
  }

  lemma ImageCreate(s: State, a: Action, b: Id)
    requires RowsLinked(s) && TagsUnique(s.rows.images) && ImagesFollowBuilds(s) && Enabled(s, a)
    requires a.Create?
    ensures ImageFollows(Apply(s, a), b)
  {
    assert ImageFollows(s, b);
  }

  lemma ImageSettle(s: State, a: Action, b: Id)
    requires RowsLinked(s) && TagsUnique(s.rows.images) && ImagesFollowBuilds(s) && Enabled(s, a)
    requires a.SettleFailed? || a.SettleSuccess? || a.Start?
    ensures ImageFollows(Apply(s, a), b)
  {
    assert ImageFollows(s, b);
    if a.SettleSuccess? && a.b in s.issued { assert ImageFollows(s, a.b); }
  }

  lemma ImageOther(s: State, a: Action, b: Id)
    requires RowsLinked(s) && TagsUnique(s.rows.images) && ImagesFollowBuilds(s) && Enabled(s, a)
    requires !a.Create? && !a.SettleFailed? && !a.SettleSuccess? && !a.Start?
    ensures ImageFollows(Apply(s, a), b)
  {
    assert ImageFollows(s, b);
  }

  lemma ImageStep(s: State, a: Action, b: Id)
    requires RowsLinked(s) && TagsUnique(s.rows.images) && ImagesFollowBuilds(s) && Enabled(s, a)
    ensures ImageFollows(Apply(s, a), b)
  {
    if a.Create? { ImageCreate(s, a, b); }
    else if a.SettleFailed? || a.SettleSuccess? || a.Start? { ImageSettle(s, a, b); }
    else { ImageOther(s, a, b); }
  }

  lemma CountersCreate(s: State, a: Action, b: Id)
    requires Counted(s, b) && Enabled(s, a) && (b in s.rows.builds ==> b in s.issued)
    requires a.Create? || a.Delete?
    ensures Counted(Apply(s, a), b)
  {
  }

  lemma CountersStart(s: State, a: Action, b: Id)
    requires Counted(s, b) && Enabled(s, a) && (b in s.rows.builds ==> b in s.issued)
    requires a.Start?
    ensures Counted(Apply(s, a), b)
  {
  }

  lemma CountersSettle(s: State, a: Action, b: Id)
    requires Counted(s, b) && Enabled(s, a) && (b in s.rows.builds ==> b in s.issued)
    requires a.SettleFailed? || a.SettleSuccess?
    ensures Counted(Apply(s, a), b)
  {
  }

  lemma CountersSend(s: State, a: Action, b: Id)
    requires Counted(s, b) && Enabled(s, a) && (b in s.rows.builds ==> b in s.issued)
    requires a.Publish? || a.Deliver? || a.Requeue? || a.DeadLetter?
    ensures Counted(Apply(s, a), b)
  {
  }

  lemma CountersAck(s: State, a: Action, b: Id)
    requires Counted(s, b) && Enabled(s, a) && (b in s.rows.builds ==> b in s.issued)
    requires a.Ack? && NotPending(s, a.b)
    ensures Counted(Apply(s, a), b)
  {
  }

  lemma CountersOther(s: State, a: Action, b: Id)
    requires Counted(s, b) && Enabled(s, a) && (b in s.rows.builds ==> b in s.issued)
    requires a.Lease? || a.Mark? || a.Observe? || a.TouchImage? || a.RemoveImage?
    ensures Counted(Apply(s, a), b)
  {
  }

  lemma CountersStep(s: State, a: Action, b: Id)
    requires RowsLinked(s) && CountersAgree(s) && FactsHold(s) && Enabled(s, a)
    ensures Counted(Apply(s, a), b)
  {
    assert Counted(s, b);
    match a
    case Create(_, _, _, _, _) | Delete(_) => CountersCreate(s, a, b);
    case Start(_) => CountersStart(s, a, b);
    case SettleFailed(_, _) | SettleSuccess(_, _) => CountersSettle(s, a, b);
    case Publish(_) | Deliver(_) | Requeue(_) | DeadLetter(_) => CountersSend(s, a, b);
    case Ack(c) =>
      assert Holds(s, SawNotPending(c));
      CountersAck(s, a, b);
    case _ => CountersOther(s, a, b);
  }

  lemma OutboxCreate(s: State, a: Action)
    requires RowsLinked(s) && OutboxTruthful(s) && FactsHold(s) && Enabled(s, a)
    requires a.Create?
    ensures OutboxTruthful(Apply(s, a))
  {
  }

  lemma OutboxSettle(s: State, a: Action)
    requires RowsLinked(s) && OutboxTruthful(s) && FactsHold(s) && Enabled(s, a)
    requires a.SettleFailed? || a.SettleSuccess? || a.Start?
    ensures OutboxTruthful(Apply(s, a))
  {
  }

  lemma OutboxOther(s: State, a: Action)
    requires RowsLinked(s) && OutboxTruthful(s) && FactsHold(s) && Enabled(s, a)
    requires !a.Create? && !a.SettleFailed? && !a.SettleSuccess? && !a.Start?
    ensures OutboxTruthful(Apply(s, a))
  {
  }

  lemma OutboxStep(s: State, a: Action)
    requires RowsLinked(s) && OutboxTruthful(s) && FactsHold(s) && Enabled(s, a)
    ensures OutboxTruthful(Apply(s, a))
  {
    if a.Create? { OutboxCreate(s, a); }
    else if a.SettleFailed? || a.SettleSuccess? || a.Start? { OutboxSettle(s, a); }
    else { OutboxOther(s, a); }
  }

  lemma FactsCreate(s: State, a: Action)
    requires RowsLinked(s) && FactsHold(s) && Enabled(s, a)
    requires a.Create?
    ensures FactsHold(Apply(s, a))
  {
  }

  lemma FactsSettle(s: State, a: Action)
    requires RowsLinked(s) && FactsHold(s) && Enabled(s, a)
    requires a.SettleFailed? || a.SettleSuccess? || a.Start?
    ensures FactsHold(Apply(s, a))
  {
  }

  lemma FactsOther(s: State, a: Action)
    requires RowsLinked(s) && FactsHold(s) && Enabled(s, a)
    requires !a.Create? && !a.SettleFailed? && !a.SettleSuccess? && !a.Start?
    ensures FactsHold(Apply(s, a))
  {
  }

  lemma FactsStep(s: State, a: Action)
    requires RowsLinked(s) && FactsHold(s) && Enabled(s, a)
    ensures FactsHold(Apply(s, a))
  {
    if a.Create? { FactsCreate(s, a); }
    else if a.SettleFailed? || a.SettleSuccess? || a.Start? { FactsSettle(s, a); }
    else { FactsOther(s, a); }
  }

  lemma InvStep(s: State, a: Action)
    requires Inv(s) && Enabled(s, a)
    ensures Inv(Apply(s, a))
  {
    RowsStep(s, a);
    TagsStep(s, a);
    forall b ensures ImageFollows(Apply(s, a), b) { ImageStep(s, a, b); }
    forall b ensures Counted(Apply(s, a), b) { CountersStep(s, a, b); }
    OutboxStep(s, a);
    FactsStep(s, a);
  }

  /* ---- What no run ever takes back ---- */

  predicate StatusMoves(before: BuildStatus, after: BuildStatus) {
    && (after.Pending? ==> before.Pending?)
    && (Terminal(before) ==> after == before)
  }

  ghost predicate BuildMoves(s: State, t: State, b: Id) {
    b in s.issued ==>
      && b in t.issued && t.issued[b] == s.issued[b]
      && (b !in s.rows.builds ==> b !in t.rows.builds)
      && (b in s.rows.builds && b in t.rows.builds ==>
            var x, y := s.rows.builds[b], t.rows.builds[b];
            StatusMoves(x.status, y.status) && x.(status := y.status) == y)
  }

  ghost predicate ImageMoves(s: State, t: State, i: Id) {
    i in s.madeFor ==>
      && i in t.madeFor
      && (i !in s.rows.images ==> i !in t.rows.images)
      && (i in s.rows.images && i in t.rows.images ==>
            && SameTag(s.rows.images[i], t.rows.images[i])
            && (t.rows.images[i].status.Building? ==> s.rows.images[i].status.Building?))
  }

  /** The two-state invariant: what holds between a state and every later state of a run. */
  ghost predicate Grew(s: State, t: State) {
    && (forall b :: BuildMoves(s, t, b))
    && (forall i :: ImageMoves(s, t, i))
    && s.publishes <= t.publishes && s.acks <= t.acks && s.starts <= t.starts && s.settles <= t.settles
    && s.dropped <= t.dropped && s.seen <= t.seen
  }

  lemma BuildMovesStep(s: State, a: Action, b: Id)
    requires RowsLinked(s) && Enabled(s, a)
    ensures BuildMoves(s, Apply(s, a), b)
  {
    match a case Create(_, _, _, _, _) => case _ =>
  }

  lemma ImageMovesStep(s: State, a: Action, i: Id)
    requires RowsLinked(s) && ImagesFollowBuilds(s) && Enabled(s, a)
    ensures ImageMoves(s, Apply(s, a), i)
  {
    match a
    case SettleSuccess(b, _) => if b in s.issued { assert ImageFollows(s, b); }
    case _ =>
  }

  lemma GrewStep(s: State, a: Action)
    requires Inv(s) && Enabled(s, a)
    ensures Grew(s, Apply(s, a))
  {
    forall b ensures BuildMoves(s, Apply(s, a), b) { BuildMovesStep(s, a, b); }
    forall i ensures ImageMoves(s, Apply(s, a), i) { ImageMovesStep(s, a, i); }
  }

  lemma GrewTransitive(s: State, t: State, u: State)
    requires Grew(s, t) && Grew(t, u)
    ensures Grew(s, u)
  {
    forall b ensures BuildMoves(s, u, b) { assert BuildMoves(s, t, b) && BuildMoves(t, u, b); }
    forall i ensures ImageMoves(s, u, i) { assert ImageMoves(s, t, i) && ImageMoves(t, u, i); }
  }

  lemma LaterKeeps(s: State, t: State)
    requires Inv(s) && Later(s, t)
    ensures Inv(t) && Grew(s, t)
  {
    forall b ensures BuildMoves(s, s, b) { }
    forall u, v | Inv(u) && Grew(s, u) && Step(u, v) ensures Inv(v) && Grew(s, v) {
      var a :| Enabled(u, a) && v == Apply(u, a);
      InvStep(u, a);
      GrewStep(u, a);
      GrewTransitive(s, u, v);
    }
    Runs.LaterKeeps(Step, u => Inv(u) && Grew(s, u), s, t);
  }

  lemma ReachableKeeps(s: State)
    requires Reachable(s)
    ensures Inv(s)
  {
    LaterKeeps(Init, s);
  }

  lemma RunKeeps(s: State, run: seq<Action>)
    requires Inv(s) && Legal(s, run)
    ensures Inv(Exec(s, run)) && Grew(s, Exec(s, run))
  {
    Runs.RunLeads(Enabled, Apply, Step, s, run);
    LaterKeeps(s, Exec(s, run));
  }

  /* ---- Theorems ---- */

  /** A pending build has an outbox row still to be sent, or a message the broker still holds. */
  lemma NoPendingBuildIsOrphaned(s: State, b: Id)
    requires Reachable(s) && PendingBuild(s, b)
    ensures b in s.rows.outbox
    ensures s.rows.outbox[b].Unsent? || s.rows.outbox[b].Publishing? || Held(s, b) > 0
  {
    ReachableKeeps(s);
    assert Counted(s, b);
  }

  /** A published row was really published, and a discarded row announces no build that will ever need it. */
  lemma OutboxTellsTheTruth(s: State, t: State, b: Id)
    requires Reachable(s) && Later(s, t) && b in s.rows.outbox
    ensures s.rows.outbox[b].Published? ==> s.publishes[b] > 0
    ensures s.rows.outbox[b].Discarded? ==> Settled(s, b) && Settled(t, b)
  {
    ReachableKeeps(s);
    LaterKeeps(s, t);
    assert BuildMoves(s, t, b);
  }

  /** At-least-once delivery, at-most-once execution: one reported start, and no acknowledgement before it. */
  lemma StartedAtMostOnce(s: State, b: Id)
    requires Reachable(s)
    ensures s.starts[b] <= 1
    ensures PendingBuild(s, b) ==> s.starts[b] == 0 && s.acks[b] == 0
    ensures s.publishes[b] == Held(s, b) + s.acks[b]
  {
    ReachableKeeps(s);
    assert Counted(s, b);
  }

  /** Racing completions and cancels settle a build once; the outcome then stays until the row is deleted. */
  lemma SettledOnce(s: State, t: State, b: Id)
    requires Reachable(s) && Later(s, t)
    ensures s.settles[b] <= 1 && t.settles[b] <= 1
    ensures b in s.rows.builds && Terminal(s.rows.builds[b].status) && b in t.rows.builds ==>
              t.rows.builds[b] == s.rows.builds[b]
    ensures Settled(s, b) ==> Settled(t, b)
  {
    ReachableKeeps(s);
    LaterKeeps(s, t);
    assert Counted(s, b) && Counted(t, b) && BuildMoves(s, t, b);
  }

  /** A build settled as failed or canceled never has an image row again. */
  lemma FailedBuildHasNoImage(s: State, t: State, b: Id)
    requires Reachable(s) && Later(s, t)
    requires b in s.rows.builds && Terminal(s.rows.builds[b].status) && !s.rows.builds[b].status.Success?
    ensures b in s.issued && s.issued[b] !in s.rows.images && s.issued[b] !in t.rows.images
  {
    ReachableKeeps(s);
    LaterKeeps(s, t);
    assert ImageFollows(s, b) && ImageMoves(s, t, s.issued[b]);
  }

  /** Each owner and tag has at most one available image, and at most one that is being built. */
  lemma OneImagePerTag(s: State, i: Id, j: Id)
    requires Reachable(s) && i in s.rows.images && j in s.rows.images && SameTag(s.rows.images[i], s.rows.images[j])
    ensures s.rows.images[i].status.Available? && s.rows.images[j].status.Available? ==> i == j
    ensures s.rows.images[i].status.Building? && s.rows.images[j].status.Building? ==> i == j
  {
    ReachableKeeps(s);
  }

  /** An active build has an image row of its own, empty and building. */
  lemma ActiveBuildOwnsItsImage(s: State, b: Id)
    requires Reachable(s) && ActiveBuild(s.rows, b)
    ensures b in s.issued && s.rows.builds[b].imageId == s.issued[b]
    ensures var img := s.issued[b];
            && img in s.rows.images
            && s.rows.images[img] == Image(s.rows.builds[b].owner, s.rows.images[img].tag, 0, Building)
    ensures forall c :: c in s.rows.builds && s.rows.builds[c].imageId == s.rows.builds[b].imageId ==> c == b
    ensures TagsUnique(s.rows.images)
  {
    ReachableKeeps(s);
    assert ImageFollows(s, b);
  }

  /** The success transaction of an active build leaves its image as the only row of its tag. */
  lemma SuccessPublishesTheImage(s: State, b: Id, sizeMB: nat)
    requires Reachable(s) && ActiveBuild(s.rows, b)
    ensures b in s.issued
    ensures var images := Apply(s, SettleSuccess(b, sizeMB)).rows.images; var img := s.issued[b];
            && img in images && images[img].status.Available? && images[img].sizeMB == sizeMB
            && (forall i :: i in images && SameTag(images[i], images[img]) ==> i == img)
  {
    ReachableKeeps(s);
    assert ImageFollows(s, b);
    SuccessReplaces(s.rows, b, s.issued[b], sizeMB);
  }

  lemma SuccessReplaces(r: Rows, b: Id, img: Id, sizeMB: nat)
    requires ActiveBuild(r, b) && img in r.images
    ensures var images := UpdateBuildAndImageSizeTx(r, b, img, Success, sizeMB).images;
            && img in images && images[img].status.Available? && images[img].sizeMB == sizeMB
            && (forall i :: i in images && SameTag(images[i], images[img]) ==> i == img)
  {
  }

  /* ---- Deleting a build that is still active ---- */

  predicate HoldsTag(s: State, b: Id, owner: Id, tag: string) {
    && b in s.issued && s.issued[b] in s.rows.images
    && s.rows.images[s.issued[b]].status.Building?
    && s.rows.images[s.issued[b]].owner == owner && s.rows.images[s.issued[b]].tag == tag
  }

  predicate StuckImage(s: State, b: Id, owner: Id, tag: string) {
    b in s.dropped && HoldsTag(s, b, owner, tag)
  }

  lemma StuckImageStep(s: State, a: Action, b: Id, owner: Id, tag: string)
    requires Inv(s) && Enabled(s, a) && StuckImage(s, b, owner, tag)
    ensures StuckImage(Apply(s, a), b, owner, tag)
  {
    assert Counted(s, b);
    match a
    case SettleFailed(c, _) =>
    case SettleSuccess(c, _) => assert ImageFollows(s, c);
    case _ =>
  }

  lemma StuckImageStays(s: State, t: State, b: Id, owner: Id, tag: string)
    requires Inv(s) && StuckImage(s, b, owner, tag) && Later(s, t)
    ensures StuckImage(t, b, owner, tag)
  {
    forall u, v | Inv(u) && StuckImage(u, b, owner, tag) && Step(u, v) ensures Inv(v) && StuckImage(v, b, owner, tag) {
      var a :| Enabled(u, a) && v == Apply(u, a);
      InvStep(u, a);
      StuckImageStep(u, a, b, owner, tag);
    }
    Runs.LaterKeeps(Step, u => Inv(u) && StuckImage(u, b, owner, tag), s, t);
  }

  /**
   Deleting the row of an active build leaves its building image behind for good, so from then on no build of that
   owner and tag can be created.
   */
  lemma DeletingActiveBuildBlocksItsTag(s: State, t: State, b: Id)
    requires Reachable(s) && ActiveBuild(s.rows, b) && Later(Apply(s, Delete(b)), t)
    ensures b in s.issued && s.issued[b] in s.rows.images
    ensures var image := s.rows.images[s.issued[b]];
            forall c, img, key :: !Enabled(t, Create(c, img, image.owner, image.tag, key))
  {
    ReachableKeeps(s);
    assert ImageFollows(s, b);
    var image := s.rows.images[s.issued[b]];
    InvStep(s, Delete(b));
    StuckImageStays(Apply(s, Delete(b)), t, b, image.owner, image.tag);
  }

  /** That is the only way to block a tag: any other building image belongs to a build that is still active. */
  lemma BlockedTagHasACause(s: State, owner: Id, tag: string)
    requires Reachable(s)
    ensures TagTaken(s.rows.images, owner, tag, true) <==>
            exists b :: b in s.issued && HoldsTag(s, b, owner, tag) && (ActiveBuild(s.rows, b) <==> b !in s.dropped)
  {
    ReachableKeeps(s);
    forall i | i in s.rows.images && s.rows.images[i].status.Building?
      ensures var b := s.madeFor[i]; b in s.issued && s.issued[b] == i && (ActiveBuild(s.rows, b) <==> b !in s.dropped)
    {
      assert MadeForBuild(s, i) && ImageFollows(s, s.madeFor[i]) && Counted(s, s.madeFor[i]);
    }
    if TagTaken(s.rows.images, owner, tag, true) {
      var i :| i in s.rows.images && s.rows.images[i].owner == owner && s.rows.images[i].tag == tag && s.rows.images[i].status.Building?;
      assert HoldsTag(s, s.madeFor[i], owner, tag);
    }
  }
}
