/**
 The builder's concurrency control: a counter of build slots and a map of the builds under way, shared by any number of
 handlers. Every method whose contract names `Section` is one critical section of the mutex, or one call to the core;
 between two of them `Interfere` stands for any number of sections of other handlers.
 */
module BuilderSlots {
  import Runs

  type Id = nat
  type Handler = nat

  function Limit(maxConcurrent: int): int {
    if maxConcurrent <= 0 then 1 else maxConcurrent
  }

  /**
   What handlers share: the counter, the cancel functions by build, the builds that the core has started, the wait group;
   and what the service does not store: which handlers are live, which hold a slot, which was told to build what.
   */
  datatype Shared = Shared(
    activeBuilds: int, active: map<Id, Handler>, claimed: set<Id>, waiting: int,
    live: set<Handler>, holders: set<Handler>, claims: map<Id, Handler>)

  ghost predicate Consistent(s: Shared, bound: int) {
    && s.waiting == |s.live| && s.activeBuilds == |s.holders| && s.holders <= s.live
    && s.activeBuilds <= bound && s.claims.Keys <= s.claimed
    && (forall b :: b in s.active ==> b in s.claims && s.active[b] == s.claims[b] && s.active[b] in s.holders)
    && (forall b, c :: b in s.claims && c in s.claims && s.claims[b] == s.claims[c] ==> b == c)
  }

  /** What a handler may rely on: others leave its presence, its slot, its claims and their entries alone. */
  ghost predicate MineKept(me: Handler, s: Shared, t: Shared) {
    && s.claimed <= t.claimed
    && (me in s.live <==> me in t.live)
    && (me in s.holders <==> me in t.holders)
    && (forall b :: b in s.claims ==> b in t.claims && t.claims[b] == s.claims[b])
    && (forall b :: b in t.claims && t.claims[b] == me ==> b in s.claims)
    && (forall b :: b in s.claims && s.claims[b] == me ==> (b in s.active <==> b in t.active))
  }

  /** What a handler promises of each of its sections. */
  ghost predicate Section(me: Handler, s: Shared, t: Shared) {
    && s.claimed <= t.claimed
    && t.live - {me} == s.live - {me} && t.holders - {me} == s.holders - {me}
    && (forall b :: b in s.claims ==> b in t.claims && t.claims[b] == s.claims[b])
    && (forall b :: b in t.claims && b !in s.claims ==> t.claims[b] == me)
    && (forall b :: b in t.claims && t.claims[b] != me ==> (b in s.active <==> b in t.active))
  }

  lemma SectionIsMineKept(me: Handler, other: Handler, s: Shared, t: Shared)
    requires me != other && Section(other, s, t)
    ensures MineKept(me, s, t)
  {
    assert me in s.live <==> me in s.live - {other};
    assert me in t.live <==> me in t.live - {other};
    assert me in s.holders <==> me in s.holders - {other};
    assert me in t.holders <==> me in t.holders - {other};
  }

  lemma MineKeptOn(me: Handler, s: Shared, t: Shared, u: Shared)
    requires MineKept(me, s, t) && MineKept(me, t, u)
    ensures MineKept(me, s, u)
  {
  }

  /** A section of some other handler that leaves the shared state consistent, as every section is proved to. */
  ghost predicate OtherSection(me: Handler, bound: int, s: Shared, t: Shared) {
    Consistent(t, bound) && exists other :: other != me && Section(other, s, t)
  }

  /** The promises meet the reliance: any number of sections of others is what `Interfere` allows. */
  lemma OthersAreInterference(me: Handler, bound: int, s: Shared, t: Shared)
    requires Consistent(s, bound) && Runs.Later((x, y) => OtherSection(me, bound, x, y), s, t)
    ensures Consistent(t, bound) && MineKept(me, s, t)
  {
    forall u, v | Consistent(u, bound) && MineKept(me, s, u) && OtherSection(me, bound, u, v)
      ensures Consistent(v, bound) && MineKept(me, s, v)
    {
      var other :| other != me && Section(other, u, v);
      SectionIsMineKept(me, other, u, v);
      MineKeptOn(me, s, u, v);
    }
    Runs.LaterKeeps((x, y) => OtherSection(me, bound, x, y), x => Consistent(x, bound) && MineKept(me, s, x), s, t);
  }

  class BuilderService {
    var activeBuilds: int
    var active: map<Id, Handler>  // the cancel function registered by a handler
    var claimed: set<Id>          // builds no longer pending in the core's database
    var waiting: int              // the wait group
    ghost const bound: int        // the largest limit a configuration refresh ever returns
    ghost var live: set<Handler>
    ghost var holders: set<Handler>
    ghost var claims: map<Id, Handler>

    ghost function Now(): Shared
      reads this
    {
      Shared(activeBuilds, active, claimed, waiting, live, holders, claims)
    }

    ghost predicate Valid()
      reads this
    {
      Consistent(Now(), bound)
    }

    constructor (ghost largestLimit: nat)
      ensures Valid() && bound == largestLimit && Now() == Shared(0, map[], {}, 0, {}, {}, map[])
    {
      activeBuilds, active, claimed, waiting := 0, map[], {}, 0;
      bound, live, holders, claims := largestLimit, {}, {}, map[];
    }

    /** Sections of other handlers, any number of them. */
    method Interfere(me: Handler)
      requires Valid()
      modifies this
      ensures Valid() && MineKept(me, old(Now()), Now())
      ensures Runs.Later((x, y) => OtherSection(me, bound, x, y), old(Now()), Now())
    {
      Runs.AtOnce((x, y) => OtherSection(me, bound, x, y), Now());
    }

    method Enter(me: Handler)
      requires Valid() && me !in live
      modifies this`waiting, this`live
      ensures Valid() && Section(me, old(Now()), Now()) && live == old(live) + {me}
    {
      waiting, live := waiting + 1, live + {me};
    }

    method Leave(me: Handler)
      requires Valid() && me in live && me !in holders
      modifies this`waiting, this`live
      ensures Valid() && Section(me, old(Now()), Now()) && live == old(live) - {me}
    {
      waiting, live := waiting - 1, live - {me};
    }

    method TryAcquire(limit: int, me: Handler) returns (ok: bool)
      requires Valid() && me in live && me !in holders && limit <= bound
      modifies this`activeBuilds, this`holders
      ensures Valid() && Section(me, old(Now()), Now())
      ensures ok <==> old(activeBuilds) < limit
      ensures activeBuilds == old(activeBuilds) + (if ok then 1 else 0) && holders == old(holders) + (if ok then {me} else {})
    {
      ok := activeBuilds < limit;
      if ok { activeBuilds, holders := activeBuilds + 1, holders + {me}; }
    }

    /** Polls until a slot is free or the context ends, after any number of ticks. */
    method AcquireBuildSlot(maxConcurrent: int, ticks: nat, me: Handler) returns (ok: bool)
      requires Valid() && me in live && me !in holders && Limit(maxConcurrent) <= bound
      modifies this
      ensures Valid() && me in live && (ok <==> me in holders)
      ensures ok ==> activeBuilds <= Limit(maxConcurrent)
      ensures forall b :: b in claims && claims[b] == me ==> b in old(claims) && old(claims)[b] == me
    {
      var limit, left := Limit(maxConcurrent), ticks;
      ok := false;
      while !ok
        invariant Valid() && me in live && (ok <==> me in holders)
        invariant ok ==> activeBuilds <= limit
        invariant forall b :: b in claims && claims[b] == me ==> b in old(claims) && old(claims)[b] == me
        decreases !ok, left
      {
        ok := TryAcquire(limit, me);
        if !ok {
          Interfere(me);
          if left == 0 { return; }
          left := left - 1;
        }
      }
    }

    /** The guard always holds: a handler releases only what it holds. */
    method ReleaseBuildSlot(me: Handler)
      requires Valid() && me in holders && forall b :: b in active ==> active[b] != me
      modifies this`activeBuilds, this`holders
      ensures Valid() && Section(me, old(Now()), Now())
      ensures activeBuilds == old(activeBuilds) - 1 && holders == old(holders) - {me}
    {
      assert activeBuilds > 0;
      if activeBuilds > 0 { activeBuilds := activeBuilds - 1; }
      holders := holders - {me};
    }

    /** The core's answer: it starts a build once, and the answer may still be lost. */
    method StartBuildRecord(b: Id, me: Handler) returns (ok: bool, started: bool)
      requires Valid() && forall c :: c in claims ==> claims[c] != me
      modifies this`claimed, this`claims
      ensures Valid() && Section(me, old(Now()), Now())
      ensures (ok ==> b in claimed) && (started ==> ok && b !in old(claimed))
      ensures claims == if started then old(claims)[b := me] else old(claims)
    {
      ok, started := *, false;
      var reached: bool := *;
      if (ok || reached) && b !in claimed {
        claimed := claimed + {b};
        started := ok;
        if started { claims := claims[b := me]; }
      }
    }

    /** Nobody else is building it: registering overwrites no other handler's entry. */
    method Register(b: Id, me: Handler)
      requires Valid() && b !in active && b in claims && claims[b] == me && me in holders
      modifies this`active
      ensures Valid() && Section(me, old(Now()), Now()) && active == old(active)[b := me]
    {
      active := active[b := me];
    }

    method Unregister(b: Id, me: Handler)
      requires Valid() && b in active && active[b] == me
      modifies this`active
      ensures Valid() && Section(me, old(Now()), Now()) && active == old(active) - {b}
    {
      active := active - {b};
    }

    /** One message from arrival to return. Whatever others do, the slot is given back and the entry taken out. */
    method HandleBuildMessage(b: Id, maxConcurrent: int, ticks: nat, me: Handler) returns (ok: bool)
      requires Valid() && me !in live && Limit(maxConcurrent) <= bound
      requires forall c :: c in claims ==> claims[c] != me
      modifies this
      ensures Valid() && me !in live && me !in holders
      ensures ok ==> b in claimed
      ensures forall c :: c in active ==> active[c] != me
    {
      Enter(me);
      Interfere(me);
      ok := AcquireBuildSlot(maxConcurrent, ticks, me);
      Interfere(me);
      if ok {
        ok := BuildInSlot(b, me);
        ReleaseBuildSlot(me);
        Interfere(me);
      }
      Leave(me);
    }

    method BuildInSlot(b: Id, me: Handler) returns (ok: bool)
      requires Valid() && me in live && me in holders
      requires forall c :: c in claims ==> claims[c] != me
      modifies this
      ensures Valid() && me in live && me in holders
      ensures ok ==> b in claimed
      ensures forall c :: c in active ==> active[c] != me
    {
      var started;
      ok, started := StartBuildRecord(b, me);
      Interfere(me);
      if !started { return; }
      Register(b, me);
      Interfere(me);
      Unregister(b, me);
    }
  }

  /** When the wait group has drained, nothing is left behind: this is what stopping the service waits for. */
  lemma DrainedMeansIdle(s: Shared, bound: int)
    requires Consistent(s, bound) && s.waiting == 0
    ensures s.activeBuilds == 0 && s.active == map[]
  {
    assert s.live == {} && s.holders == {};
    assert forall b :: b !in s.active;
  }

  /** No two builds under way share a handler or a slot. */
  lemma BuildsWithinSlots(s: Shared, bound: int)
    requires Consistent(s, bound)
    ensures |s.active| <= s.activeBuilds <= bound
  {
    OneHandlerEach(s.active.Keys, s.active);
    var handlers := set b | b in s.active :: s.active[b];
    assert s.holders == handlers + (s.holders - handlers);
  }

  lemma {:induction false} OneHandlerEach(entries: set<Id>, active: map<Id, Handler>)
    requires entries <= active.Keys
    requires forall b, c :: b in entries && c in entries && b != c ==> active[b] != active[c]
    ensures |set b | b in entries :: active[b]| == |entries|
  {
    var handlers := set b | b in entries :: active[b];
    if entries != {} {
      var b :| b in entries;
      OneHandlerEach(entries - {b}, active);
      assert handlers == (set c | c in entries - {b} :: active[c]) + {active[b]};
    }
  }
}
