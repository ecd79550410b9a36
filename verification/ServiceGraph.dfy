/** The service graph of a project: saving it in one transaction and reading it back. */
module ServiceGraph {
  import Database

  type Id = nat

  datatype Dependency = Dependency(target: Id, targetName: string, condition: string, optional: bool)

  datatype Node = Node(container: Id, name: string, order: int, deps: seq<Dependency>)

  datatype ServiceRow = ServiceRow(name: string, order: int)

  datatype DepRow = DepRow(condition: string, required: bool)

  /** The two tables, by primary key; `containers` are the rows that both refer to. */
  datatype Tables = Tables(services: map<(Id, Id), ServiceRow>, deps: map<(Id, Id, Id), DepRow>, containers: set<Id>)

  datatype Stored = Stored(tables: Tables) | BadRequest | Rejected

  predicate ValidCondition(condition: string) {
    condition == "service_started" || condition == "service_healthy" || condition == "service_completed_successfully"
  }

  /* ---- Saving, statement by statement ---- */

  function Clear(t: Tables, p: Id): Tables {
    t.(services := map k | k in t.services && k.0 != p :: t.services[k], deps := map k | k in t.deps && k.0 != p :: t.deps[k])
  }

  /** The insert meets a primary key, a unique constraint, a length or a reference that it violates. */
  predicate ServiceConflict(t: Tables, p: Id, n: Node) {
    || n.container !in t.containers || |n.name| > 100 || !(-0x8000_0000 <= n.order < 0x8000_0000)
    || (p, n.container) in t.services
    || exists k :: k in t.services && k.0 == p && (t.services[k].name == n.name || t.services[k].order == n.order)
  }

  predicate DepConflict(t: Tables, p: Id, c: Id, d: Dependency) {
    d.target !in t.containers || (p, c, d.target) in t.deps
  }

  function InsertDep(t: Tables, p: Id, c: Id, d: Dependency): Stored {
    if !ValidCondition(d.condition) then BadRequest
    else if DepConflict(t, p, c, d) then Rejected
    else Stored(t.(deps := t.deps[(p, c, d.target) := DepRow(d.condition, !d.optional)]))
  }

  function InsertDeps(t: Tables, p: Id, c: Id, deps: seq<Dependency>): Stored {
    if deps == [] then Stored(t)
    else
      var before := InsertDeps(t, p, c, deps[..|deps| - 1]);
      if before.Stored? then InsertDep(before.tables, p, c, deps[|deps| - 1]) else before
  }

  function InsertNode(t: Tables, p: Id, n: Node): Stored {
    if ServiceConflict(t, p, n) then Rejected
    else InsertDeps(t.(services := t.services[(p, n.container) := ServiceRow(n.name, n.order)]), p, n.container, n.deps)
  }

  function InsertNodes(t: Tables, p: Id, nodes: seq<Node>): Stored {
    if nodes == [] then Stored(t)
    else
      var before := InsertNodes(t, p, nodes[..|nodes| - 1]);
      if before.Stored? then InsertNode(before.tables, p, nodes[|nodes| - 1]) else before
  }

  lemma {:induction false} FailedPrefix(t: Tables, p: Id, nodes: seq<Node>, n: nat)
    requires n <= |nodes| && !InsertNodes(t, p, nodes[..n]).Stored?
    ensures InsertNodes(t, p, nodes) == InsertNodes(t, p, nodes[..n])
    decreases |nodes|
  {
    if n < |nodes| {
      assert nodes[..|nodes| - 1][..n] == nodes[..n];
      FailedPrefix(t, p, nodes[..|nodes| - 1], n);
    } else {
      assert nodes[..n] == nodes;
    }
  }

  lemma {:induction false} FailedDeps(t: Tables, p: Id, c: Id, deps: seq<Dependency>, n: nat)
    requires n <= |deps| && !InsertDeps(t, p, c, deps[..n]).Stored?
    ensures InsertDeps(t, p, c, deps) == InsertDeps(t, p, c, deps[..n])
    decreases |deps|
  {
    if n < |deps| {
      assert deps[..|deps| - 1][..n] == deps[..n];
      FailedDeps(t, p, c, deps[..|deps| - 1], n);
    } else {
      assert deps[..n] == deps;
    }
  }

  /* ---- What is stored ---- */

  ghost predicate ServicesMatch(t: Tables, p: Id, nodes: seq<Node>) {
    && (forall i :: 0 <= i < |nodes| ==>
          (p, nodes[i].container) in t.services && t.services[(p, nodes[i].container)] == ServiceRow(nodes[i].name, nodes[i].order))
    && (forall c :: (p, c) in t.services ==> exists i :: 0 <= i < |nodes| && nodes[i].container == c)
  }

  ghost predicate DepsMatch(t: Tables, p: Id, c: Id, deps: seq<Dependency>) {
    && (forall j :: 0 <= j < |deps| ==>
          (p, c, deps[j].target) in t.deps && t.deps[(p, c, deps[j].target)] == DepRow(deps[j].condition, !deps[j].optional))
    && (forall d :: (p, c, d) in t.deps ==> exists j :: 0 <= j < |deps| && deps[j].target == d)
  }

  ghost predicate DistinctTargets(deps: seq<Dependency>) {
    forall i, j :: 0 <= i < j < |deps| ==> deps[i].target != deps[j].target
  }

  ghost predicate DistinctNodes(nodes: seq<Node>) {
    forall i, j :: 0 <= i < j < |nodes| ==>
      nodes[i].container != nodes[j].container && nodes[i].name != nodes[j].name && nodes[i].order != nodes[j].order
  }

  /** What the schema and the code demand of a graph, whatever is stored. */
  ghost predicate AcceptableDeps(deps: seq<Dependency>, containers: set<Id>) {
    DistinctTargets(deps) && forall j :: 0 <= j < |deps| ==> ValidCondition(deps[j].condition) && deps[j].target in containers
  }

  ghost predicate Acceptable(nodes: seq<Node>, containers: set<Id>) {
    && DistinctNodes(nodes)
    && forall i :: 0 <= i < |nodes| ==>
         && nodes[i].container in containers && |nodes[i].name| <= 100 && -0x8000_0000 <= nodes[i].order < 0x8000_0000
         && AcceptableDeps(nodes[i].deps, containers)
  }

  ghost predicate OtherDepsKept(before: map<(Id, Id, Id), DepRow>, after: map<(Id, Id, Id), DepRow>, p: Id, c: Id) {
    forall k: (Id, Id, Id) :: k.0 != p || k.1 != c ==>
      (k in after <==> k in before) && (k in before ==> after[k] == before[k])
  }

  lemma {:induction false} DepsContents(t: Tables, p: Id, c: Id, deps: seq<Dependency>)
    requires forall d :: (p, c, d) !in t.deps
    ensures InsertDeps(t, p, c, deps).Stored? <==> AcceptableDeps(deps, t.containers)
    ensures InsertDeps(t, p, c, deps).Stored? ==> DepsStored(t, InsertDeps(t, p, c, deps).tables, p, c, deps)
  {
    if deps != [] {
      var shorter, last := deps[..|deps| - 1], deps[|deps| - 1];
      assert deps == shorter + [last];
      DepsContents(t, p, c, shorter);
      if InsertDeps(t, p, c, shorter).Stored? {
        DepContents(t, InsertDeps(t, p, c, shorter).tables, p, c, shorter, last);
      }
    }
  }

  ghost predicate DepsStored(t: Tables, u: Tables, p: Id, c: Id, deps: seq<Dependency>) {
    && u.services == t.services && u.containers == t.containers
    && DepsMatch(u, p, c, deps) && OtherDepsKept(t.deps, u.deps, p, c)
  }

  lemma DepContents(t: Tables, u: Tables, p: Id, c: Id, shorter: seq<Dependency>, last: Dependency)
    requires DepsStored(t, u, p, c, shorter) && AcceptableDeps(shorter, t.containers)
    ensures InsertDep(u, p, c, last).Stored? <==> AcceptableDeps(shorter + [last], t.containers)
    ensures InsertDep(u, p, c, last).Stored? ==> DepsStored(t, InsertDep(u, p, c, last).tables, p, c, shorter + [last])
  {
    var deps := shorter + [last];
    assert deps[|shorter|] == last && forall j :: 0 <= j < |shorter| ==> deps[j] == shorter[j];
    if (p, c, last.target) in u.deps {
      var j :| 0 <= j < |shorter| && shorter[j].target == last.target;
      assert deps[j].target == deps[|shorter|].target;
    }
    if InsertDep(u, p, c, last).Stored? {
      var v := InsertDep(u, p, c, last).tables;
      forall d | (p, c, d) in v.deps ensures exists j :: 0 <= j < |deps| && deps[j].target == d {
        if d != last.target {
          var j :| 0 <= j < |shorter| && shorter[j].target == d;
          assert deps[j].target == d;
        }
      }
    }
  }

  ghost predicate GraphMatches(t: Tables, p: Id, nodes: seq<Node>) {
    && ServicesMatch(t, p, nodes)
    && (forall i :: 0 <= i < |nodes| ==> DepsMatch(t, p, nodes[i].container, nodes[i].deps))
    && (forall c, d :: (p, c, d) in t.deps ==> (p, c) in t.services)
  }

  ghost predicate OthersKept(t: Tables, u: Tables, p: Id) {
    && u.containers == t.containers
    && (forall k: (Id, Id) :: k.0 != p ==> (k in u.services <==> k in t.services) && (k in t.services ==> u.services[k] == t.services[k]))
    && (forall k: (Id, Id, Id) :: k.0 != p ==> (k in u.deps <==> k in t.deps) && (k in t.deps ==> u.deps[k] == t.deps[k]))
  }

  /** Inserting into an empty project stores exactly the given graph, and succeeds exactly when the graph is acceptable. */
  lemma {:induction false} NodesContents(t: Tables, p: Id, nodes: seq<Node>)
    requires (forall k :: k in t.services ==> k.0 != p) && (forall k :: k in t.deps ==> k.0 != p)
    ensures InsertNodes(t, p, nodes).Stored? <==> Acceptable(nodes, t.containers)
    ensures InsertNodes(t, p, nodes).Stored? ==>
              GraphMatches(InsertNodes(t, p, nodes).tables, p, nodes) && OthersKept(t, InsertNodes(t, p, nodes).tables, p)
  {
    if nodes != [] {
      var shorter, last := nodes[..|nodes| - 1], nodes[|nodes| - 1];
      NodesContents(t, p, shorter);
      if InsertNodes(t, p, shorter).Stored? {
        NodeContents(t, InsertNodes(t, p, shorter).tables, p, shorter, last);
        assert shorter + [last] == nodes;
      } else if Acceptable(nodes, t.containers) {
        assert Acceptable(shorter, t.containers);
        assert false;
      }
    }
  }

  ghost predicate Clashes(shorter: seq<Node>, last: Node, containers: set<Id>) {
    || last.container !in containers || |last.name| > 100 || !(-0x8000_0000 <= last.order < 0x8000_0000)
    || exists i :: 0 <= i < |shorter| &&
         (shorter[i].container == last.container || shorter[i].name == last.name || shorter[i].order == last.order)
  }

  lemma AcceptableStep(shorter: seq<Node>, last: Node, containers: set<Id>)
    requires Acceptable(shorter, containers)
    ensures Acceptable(shorter + [last], containers) <==> !Clashes(shorter, last, containers) && AcceptableDeps(last.deps, containers)
  {
    var nodes := shorter + [last];
    assert nodes[|shorter|] == last && forall i :: 0 <= i < |shorter| ==> nodes[i] == shorter[i];
    if Acceptable(nodes, containers) {
      forall i | 0 <= i < |shorter|
        ensures shorter[i].container != last.container && shorter[i].name != last.name && shorter[i].order != last.order
      {
        assert nodes[i].container != nodes[|shorter|].container;
      }
    }
  }

  lemma NodeContents(t: Tables, u: Tables, p: Id, shorter: seq<Node>, last: Node)
    requires GraphMatches(u, p, shorter) && OthersKept(t, u, p) && Acceptable(shorter, t.containers)
    ensures InsertNode(u, p, last).Stored? <==> Acceptable(shorter + [last], t.containers)
    ensures InsertNode(u, p, last).Stored? ==>
              GraphMatches(InsertNode(u, p, last).tables, p, shorter + [last]) && OthersKept(t, InsertNode(u, p, last).tables, p)
  {
    ConflictMeaning(u, p, shorter, last);
    AcceptableStep(shorter, last, t.containers);
    if !ServiceConflict(u, p, last) {
      var v := u.(services := u.services[(p, last.container) := ServiceRow(last.name, last.order)]);
      forall d ensures (p, last.container, d) !in v.deps { assert (p, last.container, d) in u.deps ==> (p, last.container) in u.services; }
      DepsContents(v, p, last.container, last.deps);
      if InsertNode(u, p, last).Stored? {
        StoredNode(u, InsertNode(u, p, last).tables, p, shorter, last);
        StoredAside(t, u, InsertNode(u, p, last).tables, p, last);
      }
    }
  }

  lemma StoredAside(t: Tables, u: Tables, w: Tables, p: Id, last: Node)
    requires OthersKept(t, u, p) && w.containers == u.containers
    requires w.services == u.services[(p, last.container) := ServiceRow(last.name, last.order)]
    requires OtherDepsKept(u.deps, w.deps, p, last.container)
    ensures OthersKept(t, w, p)
  {
  }

  lemma ConflictMeaning(u: Tables, p: Id, shorter: seq<Node>, last: Node)
    requires ServicesMatch(u, p, shorter)
    ensures ServiceConflict(u, p, last) <==> Clashes(shorter, last, u.containers)
  {
    if k :| k in u.services && k.0 == p && (u.services[k].name == last.name || u.services[k].order == last.order) {
      assert (p, k.1) == k;
      var i :| 0 <= i < |shorter| && shorter[i].container == k.1;
    }
    if i :| 0 <= i < |shorter| && (shorter[i].name == last.name || shorter[i].order == last.order) {
      assert (p, shorter[i].container) in u.services;
    }
  }

  lemma StoredNode(u: Tables, w: Tables, p: Id, shorter: seq<Node>, last: Node)
    requires GraphMatches(u, p, shorter) && (p, last.container) !in u.services
    requires w.services == u.services[(p, last.container) := ServiceRow(last.name, last.order)]
    requires DepsMatch(w, p, last.container, last.deps)
    requires OtherDepsKept(u.deps, w.deps, p, last.container)
    ensures GraphMatches(w, p, shorter + [last])
  {
    var nodes := shorter + [last];
    assert nodes[|shorter|] == last && forall i :: 0 <= i < |shorter| ==> nodes[i] == shorter[i];
    forall c | (p, c) in w.services ensures exists i :: 0 <= i < |nodes| && nodes[i].container == c {
      if c == last.container { assert nodes[|shorter|].container == c; }
      else {
        var i :| 0 <= i < |shorter| && shorter[i].container == c;
        assert nodes[i].container == c;
      }
    }
    forall i | 0 <= i < |nodes| ensures DepsMatch(w, p, nodes[i].container, nodes[i].deps) {
      if i < |shorter| { assert DepsMatch(u, p, shorter[i].container, shorter[i].deps) && shorter[i].container != last.container; }
    }
  }

  /* ---- Reading back ---- */

  /** The dependency rows of a container whose target is itself in the graph, with the target's name. */
  function Joined(t: Tables, p: Id, c: Id): set<Dependency> {
    set k | k in t.deps && k.0 == p && k.1 == c && (p, k.2) in t.services :: Read(t, p, k)
  }

  function Read(t: Tables, p: Id, k: (Id, Id, Id)): Dependency
    requires k in t.deps && (p, k.2) in t.services
  {
    Dependency(k.2, t.services[(p, k.2)].name, t.deps[k].condition, !t.deps[k].required)
  }

  ghost predicate Sorted(nodes: seq<Node>) {
    forall i, j :: 0 <= i < j < |nodes| ==> nodes[i].order < nodes[j].order
  }

  /** One start order for one service: what the unique index promises. */
  ghost predicate OrdersUnique(t: Tables) {
    forall k, l :: k in t.services && l in t.services && k.0 == l.0 && t.services[k].order == t.services[l].order ==> k == l
  }

  /**
   What GetServiceGraph promises: it reads twice, and others may write in between. Every service of the first reading comes
   once, in start order, each with the dependencies of the second, in any order.
   */
  ghost predicate IsReading(nodes: seq<Node>, first: Tables, second: Tables, p: Id) {
    && Sorted(nodes)
    && ServicesMatch(first, p, nodes)
    && forall i :: 0 <= i < |nodes| ==> multiset(nodes[i].deps) == multiset(Joined(second, p, nodes[i].container))
  }

  /** The graph as one state of the tables has it. */
  ghost predicate IsGraph(nodes: seq<Node>, t: Tables, p: Id) {
    IsReading(nodes, t, t, p)
  }

  datatype Err = Ok | Invalid | Violation | NotFound | Internal

  class ProjectRepository {
    var t: Tables
    const healthy: bool

    constructor (containers: set<Id>, healthy: bool)
      ensures t == Tables(map[], map[], containers) && this.healthy == healthy
    {
      t, this.healthy := Tables(map[], map[], containers), healthy;
    }

    /**
     One transaction: it stores the graph exactly, beside the graphs of other projects, or changes nothing. Apart from
     failures of the database it succeeds exactly for acceptable graphs.
     */
    method SaveServiceGraph(p: Id, nodes: seq<Node>) returns (err: Err)
      modifies this
      ensures !err.Ok? ==> t == old(t)
      ensures err.Ok? ==> GraphMatches(t, p, nodes) && OthersKept(old(t), t, p)
      ensures err.Ok? ==> Acceptable(nodes, old(t).containers) && (OrdersUnique(old(t)) ==> OrdersUnique(t))
      ensures err.Invalid? || err.Violation? ==> !Acceptable(nodes, old(t).containers)
      ensures !err.NotFound?
      ensures healthy ==> (err.Ok? <==> Acceptable(nodes, old(t).containers))
    {
      ghost var start := Clear(t, p);
      NodesContents(start, p, nodes);
      var work := Clear(t, p);
      for i := 0 to |nodes|
        invariant t == old(t) && InsertNodes(start, p, nodes[..i]) == Stored(work)
      {
        var svc := nodes[i];
        assert nodes[..i + 1][..i] == nodes[..i];
        assert InsertNodes(start, p, nodes[..i + 1]) == InsertNode(work, p, svc);
        err, work := SaveService(work, p, svc);
        if !err.Ok? {
          if !err.Internal? { FailedPrefix(start, p, nodes, i + 1); }
          return;
        }
      }
      assert nodes[..|nodes|] == nodes;
      OthersCleared(t, work, p);
      if OrdersUnique(t) { OrdersStayUnique(t, work, p, nodes); }
      t := work;
      return Ok;
    }

    method SaveService(before: Tables, p: Id, svc: Node) returns (err: Err, work: Tables)
      ensures err.Ok? ==> InsertNode(before, p, svc) == Stored(work)
      ensures err.Invalid? || err.Violation? ==> !InsertNode(before, p, svc).Stored?
      ensures !err.NotFound?
      ensures healthy ==> !err.Internal?
    {
      work := before;
      var reachable := Database.Reach(healthy);
      if !reachable { return Internal, work; }
      if ServiceConflict(work, p, svc) { return Violation, work; }
      work := work.(services := work.services[(p, svc.container) := ServiceRow(svc.name, svc.order)]);
      ghost var inserted := work;
      for j := 0 to |svc.deps|
        invariant InsertDeps(inserted, p, svc.container, svc.deps[..j]) == Stored(work)
      {
        var dep := svc.deps[j];
        assert svc.deps[..j + 1][..j] == svc.deps[..j];
        assert InsertDeps(inserted, p, svc.container, svc.deps[..j + 1]) == InsertDep(work, p, svc.container, dep);
        if !InsertDep(work, p, svc.container, dep).Stored? { FailedDeps(inserted, p, svc.container, svc.deps, j + 1); }
        if !ValidCondition(dep.condition) { return Invalid, work; }
        reachable := Database.Reach(healthy);
        if !reachable { return Internal, work; }
        if DepConflict(work, p, svc.container, dep) { return Violation, work; }
        work := work.(deps := work.deps[(p, svc.container, dep.target) := DepRow(dep.condition, !dep.optional)]);
      }
      assert svc.deps[..|svc.deps|] == svc.deps;
      return Ok, work;
    }

    /** Writes of others: saves of any graph, and containers that are deleted with their rows. */
    method Interfere()
      requires OrdersUnique(t)
      modifies this
      ensures OrdersUnique(t)
    {
    }

    /** Reads the services in start order, then the joined dependencies in whatever order the database returns them. */
    method GetServiceGraph(p: Id) returns (err: Err, nodes: seq<Node>)
      requires OrdersUnique(t)
      modifies this
      ensures err.Ok? || err.NotFound? || err.Internal?
      ensures err.NotFound? ==> forall c :: (p, c) !in old(t).services
      ensures err.Ok? ==> nodes != [] && IsReading(nodes, old(t), t, p)
      ensures healthy ==> !err.Internal?
    {
      nodes := [];
      var reachable := Database.Reach(healthy);
      if !reachable { return Internal, []; }
      var services, byContainer := ListServices(p);
      if services == [] {
        forall c ensures (p, c) !in t.services { }
        return NotFound, [];
      }
      Interfere();
      reachable := Database.Reach(healthy);
      if !reachable { return Internal, []; }
      nodes := AttachDependencies(p, services, byContainer, old(t));
      return Ok, nodes;
    }

    method ListServices(p: Id) returns (nodes: seq<Node>, byContainer: map<Id, nat>)
      requires OrdersUnique(t)
      ensures Sorted(nodes) && ServicesMatch(t, p, nodes) && Indexes(nodes, byContainer)
      ensures forall i :: 0 <= i < |nodes| ==> nodes[i].deps == []
    {
      nodes, byContainer := [], map[];
      var rest := set k | k in t.services && k.0 == p;
      while rest != {}
        invariant Listing(t, p, nodes, byContainer, rest)
        decreases rest
      {
        var k := First(rest);
        ListNext(t, p, nodes, byContainer, rest, k);
        byContainer := byContainer[k.1 := |nodes|];
        nodes := nodes + [Node(k.1, t.services[k].name, t.services[k].order, [])];
        rest := rest - {k};
      }
      forall c | (p, c) in t.services ensures exists i :: 0 <= i < |nodes| && nodes[i].container == c {
        assert nodes[byContainer[c]].container == c;
      }
    }

    /** The row with the smallest start order. */
    method First(rest: set<(Id, Id)>) returns (k: (Id, Id))
      requires rest != {} && rest <= t.services.Keys && OrdersUnique(t)
      requires forall k, l :: k in rest && l in rest ==> k.0 == l.0
      ensures k in rest && forall l :: l in rest && l != k ==> t.services[k].order < t.services[l].order
    {
      k :| k in rest;
      var others := rest - {k};
      while others != {}
        invariant others <= rest && k in rest && k !in others
        invariant forall l :: l in rest - others && l != k ==> t.services[k].order < t.services[l].order
        decreases others
      {
        var l :| l in others;
        others := others - {l};
        if t.services[l].order < t.services[k].order { k := l; }
      }
    }

    /** One row of the join; it is dropped if its container is not among the services. */
    method AttachRow(p: Id, ghost services: seq<Node>, nodes: seq<Node>, byContainer: map<Id, nat>, k: (Id, Id, Id), ghost done: set<(Id, Id, Id)>)
      returns (nodes': seq<Node>)
      requires Attached(t, p, services, nodes, done) && Indexes(services, byContainer) && JoinRows(t, p, {k}) && k !in done
      ensures Attached(t, p, services, nodes', done + {k})
    {
      assert k in {k};
      if k.1 !in byContainer {
        AttachNone(t, p, services, nodes, done, k);
        return nodes;
      }
      var idx := byContainer[k.1];
      nodes' := nodes[idx := nodes[idx].(deps := nodes[idx].deps + [Read(t, p, k)])];
      AttachOne(t, p, services, nodes, nodes', done, k, idx);
    }

    method AttachDependencies(p: Id, services: seq<Node>, byContainer: map<Id, nat>, ghost first: Tables) returns (nodes: seq<Node>)
      requires Sorted(services) && ServicesMatch(first, p, services) && Indexes(services, byContainer)
      requires forall i :: 0 <= i < |services| ==> services[i].deps == []
      ensures IsReading(nodes, first, t, p) && |nodes| == |services|
    {
      nodes := services;
      NothingAttached(t, p, services);
      var rows := AllJoinRows(t, p);
      while rows != {}
        invariant rows <= AllJoinRows(t, p) && Attached(t, p, services, nodes, AllJoinRows(t, p) - rows)
        decreases rows
      {
        ghost var done := AllJoinRows(t, p) - rows;
        var k :| k in rows;
        nodes := AttachRow(p, services, nodes, byContainer, k, done);
        rows := rows - {k};
        assert AllJoinRows(t, p) - rows == done + {k};
      }
      AttachedAll(first, t, p, services, nodes, AllJoinRows(t, p) - rows);
    }
  }

  function AllJoinRows(t: Tables, p: Id): (rows: set<(Id, Id, Id)>)
    ensures JoinRows(t, p, rows)
  {
    set k | k in t.deps && k.0 == p && (p, k.2) in t.services
  }

  lemma AttachedAll(first: Tables, t: Tables, p: Id, services: seq<Node>, nodes: seq<Node>, done: set<(Id, Id, Id)>)
    requires Attached(t, p, services, nodes, done) && done == AllJoinRows(t, p)
    requires Sorted(services) && ServicesMatch(first, p, services)
    ensures IsReading(nodes, first, t, p)
  {
    forall i | 0 <= i < |nodes| ensures multiset(nodes[i].deps) == multiset(Joined(t, p, nodes[i].container)) {
      assert nodes[i].(deps := []) == services[i];
      assert JoinedOf(t, p, services[i].container, done) == Joined(t, p, nodes[i].container);
    }
    MatchIgnoresDeps(first, p, services, nodes);
  }

  ghost predicate JoinRows(t: Tables, p: Id, keys: set<(Id, Id, Id)>) {
    forall k :: k in keys ==> k in t.deps && k.0 == p && (p, k.2) in t.services
  }

  /** The rows read so far are attached, and nothing else about the services has changed. */
  ghost predicate Attached(t: Tables, p: Id, services: seq<Node>, nodes: seq<Node>, done: set<(Id, Id, Id)>) {
    && JoinRows(t, p, done)
    && |nodes| == |services|
    && forall i :: 0 <= i < |services| ==>
         nodes[i].(deps := []) == services[i] && multiset(nodes[i].deps) == multiset(JoinedOf(t, p, services[i].container, done))
  }

  lemma NothingAttached(t: Tables, p: Id, services: seq<Node>)
    requires forall i :: 0 <= i < |services| ==> services[i].deps == []
    ensures Attached(t, p, services, services, {})
  {
  }

  lemma AttachOne(t: Tables, p: Id, services: seq<Node>, nodes: seq<Node>, nodes': seq<Node>, done: set<(Id, Id, Id)>, k: (Id, Id, Id), idx: nat)
    requires Attached(t, p, services, nodes, done) && JoinRows(t, p, {k}) && k !in done && idx < |nodes|
    requires nodes' == nodes[idx := nodes[idx].(deps := nodes[idx].deps + [Read(t, p, k)])]
    requires forall i :: 0 <= i < |services| ==> (services[i].container == k.1 <==> i == idx)
    ensures Attached(t, p, services, nodes', done + {k})
  {
    forall i | 0 <= i < |services|
      ensures nodes'[i].(deps := []) == services[i]
      ensures multiset(nodes'[i].deps) == multiset(JoinedOf(t, p, services[i].container, done + {k}))
    {
      JoinedStep(t, p, services[i].container, done, k);
    }
  }

  lemma AttachNone(t: Tables, p: Id, services: seq<Node>, nodes: seq<Node>, done: set<(Id, Id, Id)>, k: (Id, Id, Id))
    requires Attached(t, p, services, nodes, done) && JoinRows(t, p, {k}) && k !in done
    requires forall i :: 0 <= i < |services| ==> services[i].container != k.1
    ensures Attached(t, p, services, nodes, done + {k})
  {
    forall i | 0 <= i < |services|
      ensures multiset(nodes[i].deps) == multiset(JoinedOf(t, p, services[i].container, done + {k}))
    {
      JoinedStep(t, p, services[i].container, done, k);
    }
  }

  /** The services with the smallest start orders are listed, with their index map; the rows in `rest` are not. */
  ghost predicate Listing(t: Tables, p: Id, nodes: seq<Node>, byContainer: map<Id, nat>, rest: set<(Id, Id)>) {
    && rest <= t.services.Keys && (forall k :: k in rest ==> k.0 == p)
    && Sorted(nodes) && Indexes(nodes, byContainer)
    && (forall i :: 0 <= i < |nodes| ==> nodes[i].deps == [] && (p, nodes[i].container) in t.services)
    && (forall i :: 0 <= i < |nodes| ==> t.services[(p, nodes[i].container)] == ServiceRow(nodes[i].name, nodes[i].order))
    && (forall c :: (p, c) in t.services ==> ((p, c) in rest <==> c !in byContainer))
    && (forall i, k :: 0 <= i < |nodes| && k in rest ==> nodes[i].order < t.services[k].order)
  }

  lemma ListNext(t: Tables, p: Id, nodes: seq<Node>, byContainer: map<Id, nat>, rest: set<(Id, Id)>, k: (Id, Id))
    requires Listing(t, p, nodes, byContainer, rest) && k in rest
    requires forall l :: l in rest && l != k ==> t.services[k].order < t.services[l].order
    ensures Listing(t, p, nodes + [Node(k.1, t.services[k].name, t.services[k].order, [])], byContainer[k.1 := |nodes|], rest - {k})
  {
    assert (p, k.1) == k;
  }

  /** The index map of the services read so far. */
  ghost predicate Indexes(nodes: seq<Node>, byContainer: map<Id, nat>) {
    && (forall c :: c in byContainer ==> byContainer[c] < |nodes| && nodes[byContainer[c]].container == c)
    && (forall i :: 0 <= i < |nodes| ==> nodes[i].container in byContainer && byContainer[nodes[i].container] == i)
  }

  ghost function JoinedOf(t: Tables, p: Id, c: Id, keys: set<(Id, Id, Id)>): set<Dependency>
    requires JoinRows(t, p, keys)
  {
    set k | k in keys && k.1 == c :: Read(t, p, k)
  }

  lemma JoinedStep(t: Tables, p: Id, c: Id, keys: set<(Id, Id, Id)>, k: (Id, Id, Id))
    requires JoinRows(t, p, keys) && JoinRows(t, p, {k}) && k !in keys
    ensures JoinRows(t, p, keys + {k})
    ensures k.1 != c ==> JoinedOf(t, p, c, keys + {k}) == JoinedOf(t, p, c, keys)
    ensures k.1 == c ==> Read(t, p, k) !in JoinedOf(t, p, c, keys)
                         && JoinedOf(t, p, c, keys + {k}) == JoinedOf(t, p, c, keys) + {Read(t, p, k)}
  {
  }

  lemma MatchIgnoresDeps(t: Tables, p: Id, services: seq<Node>, nodes: seq<Node>)
    requires |nodes| == |services| && forall i :: 0 <= i < |nodes| ==> nodes[i].(deps := []) == services[i]
    requires Sorted(services) && ServicesMatch(t, p, services)
    ensures Sorted(nodes) && ServicesMatch(t, p, nodes)
  {
    forall i | 0 <= i < |nodes|
      ensures nodes[i].container == services[i].container && nodes[i].name == services[i].name && nodes[i].order == services[i].order
    {
      assert nodes[i].(deps := []) == services[i];
    }
    forall c | (p, c) in t.services ensures exists i :: 0 <= i < |nodes| && nodes[i].container == c {
      var i :| 0 <= i < |services| && services[i].container == c;
      assert nodes[i].container == c;
    }
  }

  lemma OthersCleared(t: Tables, u: Tables, p: Id)
    requires OthersKept(Clear(t, p), u, p)
    ensures OthersKept(t, u, p)
  {
    forall k: (Id, Id) | k.0 != p ensures (k in u.services <==> k in t.services) && (k in t.services ==> u.services[k] == t.services[k]) {
      assert k in Clear(t, p).services <==> k in t.services;
    }
    forall k: (Id, Id, Id) | k.0 != p ensures (k in u.deps <==> k in t.deps) && (k in t.deps ==> u.deps[k] == t.deps[k]) {
      assert k in Clear(t, p).deps <==> k in t.deps;
    }
  }

  /* ---- The round trip ---- */

  lemma OrdersStayUnique(t: Tables, u: Tables, p: Id, nodes: seq<Node>)
    requires OrdersUnique(t) && OthersKept(t, u, p) && ServicesMatch(u, p, nodes) && DistinctNodes(nodes)
    ensures OrdersUnique(u)
  {
    forall k, l | k in u.services && l in u.services && k.0 == l.0 && u.services[k].order == u.services[l].order ensures k == l {
      if k.0 == p {
        assert k == (p, k.1) && l == (p, l.1);
        var i :| 0 <= i < |nodes| && nodes[i].container == k.1;
        var j :| 0 <= j < |nodes| && nodes[j].container == l.1;
      } else {
        assert k in t.services && l in t.services;
      }
    }
  }

  predicate InGraph(nodes: seq<Node>, c: Id) {
    exists i :: 0 <= i < |nodes| && nodes[i].container == c
  }

  function NameOf(nodes: seq<Node>, c: Id): string {
    if nodes == [] then ""
    else if nodes[|nodes| - 1].container == c then nodes[|nodes| - 1].name
    else NameOf(nodes[..|nodes| - 1], c)
  }

  /** The dependencies that stay inside the graph, in their order, with the names of their targets. */
  function Resolved(nodes: seq<Node>, deps: seq<Dependency>): seq<Dependency> {
    if deps == [] then []
    else
      var last := deps[|deps| - 1];
      Resolved(nodes, deps[..|deps| - 1]) + (if InGraph(nodes, last.target) then [last.(targetName := NameOf(nodes, last.target))] else [])
  }

  ghost predicate Resolves(nodes: seq<Node>, d: Dependency, x: Dependency) {
    InGraph(nodes, d.target) && x == d.(targetName := NameOf(nodes, d.target))
  }

  lemma {:induction false} NameOfNode(nodes: seq<Node>, i: nat)
    requires i < |nodes| && DistinctNodes(nodes)
    ensures NameOf(nodes, nodes[i].container) == nodes[i].name
  {
    if i < |nodes| - 1 { NameOfNode(nodes[..|nodes| - 1], i); }
  }

  ghost predicate SomeResolves(nodes: seq<Node>, deps: seq<Dependency>, x: Dependency) {
    exists j :: 0 <= j < |deps| && Resolves(nodes, deps[j], x)
  }

  lemma SomeStep(nodes: seq<Node>, shorter: seq<Dependency>, last: Dependency, x: Dependency)
    ensures SomeResolves(nodes, shorter + [last], x) <==> SomeResolves(nodes, shorter, x) || Resolves(nodes, last, x)
  {
    var deps := shorter + [last];
    if j :| 0 <= j < |shorter| && Resolves(nodes, shorter[j], x) { assert Resolves(nodes, deps[j], x); }
    if Resolves(nodes, last, x) { assert Resolves(nodes, deps[|shorter|], x); }
  }

  lemma {:induction false} ResolvedCount(nodes: seq<Node>, deps: seq<Dependency>, x: Dependency)
    requires DistinctTargets(deps)
    ensures multiset(Resolved(nodes, deps))[x] == if SomeResolves(nodes, deps, x) then 1 else 0
  {
    if deps != [] {
      var shorter, last := deps[..|deps| - 1], deps[|deps| - 1];
      ResolvedCount(nodes, shorter, x);
      SomeStep(nodes, shorter, last, x);
      assert deps == shorter + [last];
    }
  }

  lemma JoinedResolves(t: Tables, p: Id, c: Id, nodes: seq<Node>, deps: seq<Dependency>, x: Dependency)
    requires ServicesMatch(t, p, nodes) && DistinctNodes(nodes) && DepsMatch(t, p, c, deps)
    ensures x in Joined(t, p, c) <==> SomeResolves(nodes, deps, x)
  {
    if x in Joined(t, p, c) {
      assert (p, c, x.target) in t.deps && (p, x.target) in t.services;
      var j :| 0 <= j < |deps| && deps[j].target == x.target;
      var i :| 0 <= i < |nodes| && nodes[i].container == x.target;
      NameOfNode(nodes, i);
      assert Resolves(nodes, deps[j], x);
    }
    if j :| 0 <= j < |deps| && Resolves(nodes, deps[j], x) {
      var i :| 0 <= i < |nodes| && nodes[i].container == deps[j].target;
      NameOfNode(nodes, i);
      assert x == Read(t, p, (p, c, deps[j].target));
    }
  }

  lemma DepsRoundTrip(t: Tables, p: Id, c: Id, nodes: seq<Node>, deps: seq<Dependency>)
    requires ServicesMatch(t, p, nodes) && DistinctNodes(nodes) && DepsMatch(t, p, c, deps) && DistinctTargets(deps)
    ensures multiset(Joined(t, p, c)) == multiset(Resolved(nodes, deps))
  {
    forall x ensures multiset(Joined(t, p, c))[x] == multiset(Resolved(nodes, deps))[x] {
      ResolvedCount(nodes, deps, x);
      JoinedResolves(t, p, c, nodes, deps, x);
    }
  }

  /** Every dependency comes back exactly when every target is a service of the graph. */
  lemma {:induction false} NothingDropped(nodes: seq<Node>, deps: seq<Dependency>)
    ensures |Resolved(nodes, deps)| <= |deps|
    ensures |Resolved(nodes, deps)| == |deps| <==> forall j :: 0 <= j < |deps| ==> InGraph(nodes, deps[j].target)
    ensures |Resolved(nodes, deps)| == |deps| ==> forall j :: 0 <= j < |deps| ==> Resolves(nodes, deps[j], Resolved(nodes, deps)[j])
  {
    if deps != [] {
      var shorter := deps[..|deps| - 1];
      NothingDropped(nodes, shorter);
      assert forall j :: 0 <= j < |shorter| ==> shorter[j] == deps[j];
    }
  }

  function Containers(nodes: seq<Node>): set<Id> {
    set i | 0 <= i < |nodes| :: nodes[i].container
  }

  lemma {:induction false} AsManyContainers(nodes: seq<Node>)
    requires forall i, j :: 0 <= i < j < |nodes| ==> nodes[i].container != nodes[j].container
    ensures |Containers(nodes)| == |nodes|
  {
    if nodes != [] {
      var shorter := nodes[..|nodes| - 1];
      AsManyContainers(shorter);
      assert Containers(nodes) == Containers(shorter) + {nodes[|nodes| - 1].container};
    }
  }

  /**
   What is read after a successful save: as many services, sorted by start order, each with its name, its order and the
   dependencies that stay inside the graph, optional flags and target names included.
   */
  lemma RoundTrip(t: Tables, p: Id, nodes: seq<Node>, out: seq<Node>)
    requires GraphMatches(t, p, nodes) && Acceptable(nodes, t.containers) && IsGraph(out, t, p)
    ensures |out| == |nodes| && Sorted(out)
    ensures forall i :: 0 <= i < |nodes| ==> exists k :: 0 <= k < |out| && ReadBack(nodes, nodes[i], out[k])
  {
    assert forall c :: c in Containers(nodes) <==> (p, c) in t.services;
    assert forall c :: c in Containers(out) <==> (p, c) in t.services;
    assert Containers(out) == Containers(nodes);
    AsManyContainers(nodes);
    AsManyContainers(out);
    forall i | 0 <= i < |nodes| ensures exists k :: 0 <= k < |out| && ReadBack(nodes, nodes[i], out[k]) {
      var k :| 0 <= k < |out| && out[k].container == nodes[i].container;
      DepsRoundTrip(t, p, nodes[i].container, nodes, nodes[i].deps);
      assert ReadBack(nodes, nodes[i], out[k]);
    }
  }

  ghost predicate ReadBack(nodes: seq<Node>, saved: Node, read: Node) {
    && read.container == saved.container && read.name == saved.name && read.order == saved.order
    && multiset(read.deps) == multiset(Resolved(nodes, saved.deps))
  }

  /* ---- Writes between the two readings ---- */

  ghost predicate SameServices(first: Tables, second: Tables, p: Id) {
    forall c :: ((p, c) in first.services <==> (p, c) in second.services)
                && ((p, c) in first.services ==> first.services[(p, c)] == second.services[(p, c)])
  }

  /** What is read is the graph of one state exactly when no service was changed between the two readings. */
  lemma ReadingIsGraphExactly(nodes: seq<Node>, first: Tables, second: Tables, p: Id)
    requires IsReading(nodes, first, second, p)
    ensures IsGraph(nodes, second, p) <==> SameServices(first, second, p)
  {
    if IsGraph(nodes, second, p) {
      forall c ensures ((p, c) in first.services <==> (p, c) in second.services)
                       && ((p, c) in first.services ==> first.services[(p, c)] == second.services[(p, c)])
      {
        if (p, c) in first.services { var i :| 0 <= i < |nodes| && nodes[i].container == c; }
        if (p, c) in second.services { var i :| 0 <= i < |nodes| && nodes[i].container == c; }
      }
    }
  }

  ghost predicate Closed(nodes: seq<Node>) {
    forall k, d :: 0 <= k < |nodes| && d in nodes[k].deps ==> InGraph(nodes, d.target)
  }

  /** No service of the first reading depends, in the second, on a service that is new there. */
  ghost predicate NoNewTargets(first: Tables, second: Tables, p: Id) {
    forall c, x :: (p, c) in first.services && (p, c, x) in second.deps && (p, x) in second.services ==> (p, x) in first.services
  }

  /** Whatever is read stays inside the graph that is read, exactly when no dependency on a new service came in between. */
  lemma ReadGraphIsClosed(nodes: seq<Node>, first: Tables, second: Tables, p: Id)
    requires IsReading(nodes, first, second, p)
    ensures Closed(nodes) <==> NoNewTargets(first, second, p)
  {
    if NoNewTargets(first, second, p) {
      forall k, d | 0 <= k < |nodes| && d in nodes[k].deps ensures InGraph(nodes, d.target) {
        assert multiset(nodes[k].deps)[d] > 0;
        assert d in Joined(second, p, nodes[k].container);
        assert (p, nodes[k].container, d.target) in second.deps && (p, d.target) in first.services;
      }
    }
    if Closed(nodes) {
      forall c, x | (p, c) in first.services && (p, c, x) in second.deps && (p, x) in second.services
        ensures (p, x) in first.services
      {
        var k :| 0 <= k < |nodes| && nodes[k].container == c;
        var d := Read(second, p, (p, c, x));
        assert d in Joined(second, p, c) && multiset(nodes[k].deps)[d] > 0;
        assert d in nodes[k].deps;
      }
    }
  }

  /** Without a write in between it is closed, and every dependency is one that a save accepts. */
  lemma QuietReadingIsClosed(t: Tables, p: Id, nodes: seq<Node>, out: seq<Node>, k: nat, d: Dependency)
    requires GraphMatches(t, p, nodes) && Acceptable(nodes, t.containers) && IsGraph(out, t, p)
    requires k < |out| && d in out[k].deps
    ensures InGraph(out, d.target) && d.target in t.containers && ValidCondition(d.condition)
  {
    ReadGraphIsClosed(out, t, t, p);
    assert multiset(out[k].deps)[d] > 0;
    assert d in Joined(t, p, out[k].container);
    assert (p, out[k].container, d.target) in t.deps;
    var i :| 0 <= i < |nodes| && nodes[i].container == out[k].container;
    var j :| 0 <= j < |nodes[i].deps| && nodes[i].deps[j].target == d.target;
  }

  /** It can fail: whatever is stored, a save that adds a service and lets an old one depend on it opens the reading. */
  lemma SaveBetweenReadingsOpensIt(t: Tables, p: Id, c: Id, x: Id, saved: seq<Node>)
    requires (p, c) in t.services && (p, x) !in t.services && c in t.containers && x in t.containers
    requires saved == [Node(c, "a", 1, [Dependency(x, "", "service_started", false)]), Node(x, "b", 2, [])]
    ensures InsertNodes(Clear(t, p), p, saved).Stored?
    ensures !NoNewTargets(t, InsertNodes(Clear(t, p), p, saved).tables, p)
  {
    assert c != x;
    NodesContents(Clear(t, p), p, saved);
    assert AcceptableDeps(saved[0].deps, t.containers) && AcceptableDeps(saved[1].deps, t.containers);
    assert "a"[0] != "b"[0];
    assert Acceptable(saved, t.containers);
    var u := InsertNodes(Clear(t, p), p, saved).tables;
    assert DepsMatch(u, p, saved[0].container, saved[0].deps) && saved[0].deps[0].target == x;
    assert (p, saved[1].container) in u.services;
  }
}
