/** The nodes that a query returns below its own, along a path of eager-loaded edges, and the history of the builder
    that loads them. */
module EdgePaths {
  import opened Schema
  import opened Store
  import opened Plan
  import opened EagerLoad
  import opened BuilderCalls
  import opened SlotHistory

  // ----- Nodes -----

  function Neighbors(v: EdgeV): seq<NodeV> {
    match v
    case Many(ns) => ns
    case One(n) => if n.Some? then [n.value] else []
  }

  /** Following the edges of the path leads from n to m. */
  ghost predicate Leads(n: NodeV, m: NodeV, path: seq<nat>)
    decreases |path|
  {
    if path == [] then n == m
    else path[0] < |n.edges| && exists x :: x in Neighbors(n.edges[path[0]]) && Leads(x, m, path[1..])
  }

  ghost predicate Reached(nodes: seq<NodeV>, m: NodeV, path: seq<nat>) {
    exists n :: n in nodes && Leads(n, m, path)
  }

  /** The keys by which node n and neighbour x belong together. */
  predicate Linked(e: Edge, n: NodeV, x: NodeV) {
    if e.many then StrOf(x.fields, e.fk) == StrOf(n.fields, ID) else StrOf(x.fields, ID) == StrOf(n.fields, e.fk)
  }

  /** The neighbours of a node are those its loader returned that belong to it. */
  lemma NeighborsAt(p: Spec, k: nat, db: DB, i: nat)
    requires WellFormed(p) && ValidDB(db) && k < |p.with| && p.with[k].Some?
    requires Run(p, db).1.Ok? && i < |Run(p, db).1.value|
    ensures var e, n := EdgesOf(p.entity)[k], Run(p, db).1.value[i];
      var ns := Run(Narrow(e, p.with[k].value, Base(p, db)), db).1;
      && k < |n.edges| && ns.Ok?
      && forall x :: x in Neighbors(n.edges[k]) <==> x in ns.value && Linked(e, n, x)
  {
    var e := EdgesOf(p.entity)[k];
    if e.many {
      OneToManyJoin(p, db, k, i);
    } else {
      ManyToOneJoin(p, db, k, i);
      var v := Run(p, db).1.value[i].edges[k].node;
      assert v.Some? ==> v == Some(v.value);
    }
  }

  /** Every neighbour a loader returned belongs to some node. */
  lemma NeighborOfOne(p: Spec, k: nat, db: DB, x: NodeV)
    requires WellFormed(p) && ValidDB(db) && k < |p.with| && p.with[k].Some? && Run(p, db).1.Ok?
    requires var ns := Run(Narrow(EdgesOf(p.entity)[k], p.with[k].value, Base(p, db)), db).1;
      ns.Ok? && x in ns.value
    ensures exists i :: 0 <= i < |Run(p, db).1.value| && Linked(EdgesOf(p.entity)[k], Run(p, db).1.value[i], x)
  {
    var e, base := EdgesOf(p.entity)[k], Base(p, db);
    RunResult(p, db);
    var rows := NeighborRows(p, k, base, db);
    hide Run, Base, Narrow, EdgesOf, ValidDB, SlotLoaded;
    var ns := Run(Narrow(e, p.with[k].value, base), db).1.value;
    var j :| 0 <= j < |ns| && ns[j] == x;
    assert KnownKey(e, base, ns[j]);
  }

  /** The neighbours of all nodes over one edge are the nodes its loader returned. */
  lemma OneLevel(p: Spec, k: nat, db: DB)
    requires WellFormed(p) && ValidDB(db) && AllValid(p) && k < |p.with| && p.with[k].Some?
    ensures var sub := Narrow(EdgesOf(p.entity)[k], p.with[k].value, Base(p, db));
      && AllValid(sub) && Run(p, db).1.Ok? && Run(sub, db).1.Ok?
      && (forall n :: n in Run(p, db).1.value ==> k < |n.edges|)
      && forall x :: x in Run(sub, db).1.value <==>
           exists n :: n in Run(p, db).1.value && k < |n.edges| && x in Neighbors(n.edges[k])
  {
    var e := EdgesOf(p.entity)[k];
    var sub := Narrow(e, p.with[k].value, Base(p, db));
    NeverUnexpected(p, db);
    NarrowStaysValid(p, k, Base(p, db));
    NeverUnexpected(sub, db);
    hide Run, Base, Narrow, EdgesOf, ValidDB, AllValid, Linked;
    var nodes, ns := Run(p, db).1.value, Run(sub, db).1.value;
    forall i | 0 <= i < |nodes|
      ensures k < |nodes[i].edges|
      ensures forall x :: x in Neighbors(nodes[i].edges[k]) <==> x in ns && Linked(e, nodes[i], x)
    {
      NeighborsAt(p, k, db, i);
    }
    forall x | x in ns ensures exists n :: n in nodes && k < |n.edges| && x in Neighbors(n.edges[k]) {
      NeighborOfOne(p, k, db, x);
      var i :| 0 <= i < |nodes| && Linked(e, nodes[i], x);
      assert nodes[i] in nodes;
    }
  }

  // ----- Builders -----

  /** The history of the builder in slot k up to the moment before a run of its query over db runs it. */
  ghost function SubHistory(q: Spec, k: nat, h: seq<Call>, db: DB): (g: seq<Call>)
    requires WellFormed(q) && k < |q.with| && AllSensible(h) && ValidDB(db) && AfterAll(q, h).with[k].Some?
    ensures Start(q, k, h).Some? && AllSensible(g)
    ensures var p := AfterAll(q, h);
      AfterAll(Start(q, k, h).value, g) == Narrow(EdgesOf(p.entity)[k], p.with[k].value, Base(p, db))
  {
    var p := AfterAll(q, h);
    var n := Narrowing(EdgesOf(p.entity)[k], p.with[k].value, Base(p, db));
    SlotFollows(q, k, h);
    NarrowingIs(EdgesOf(p.entity)[k], p.with[k].value, Base(p, db));
    AfterConcat(Start(q, k, h).value, SlotCalls(q, k, h), n);
    SlotCalls(q, k, h) + n
  }

  /** After the history the query asks for all edges of the path. */
  ghost predicate Requests(q: Spec, h: seq<Call>, db: DB, path: seq<nat>)
    requires WellFormed(q) && AllSensible(h) && ValidDB(db)
    decreases |path|
  {
    path == [] ||
    var k := path[0];
    && k < |q.with| && AfterAll(q, h).with[k].Some?
    && var g := SubHistory(q, k, h, db);
    Requests(Start(q, k, h).value, g, db, path[1..])
  }

  /** The builder at the end of a path: its contents when it was requested, and its history up to the moment before
      a run of the whole query over db runs it. */
  ghost function BuilderAt(q: Spec, h: seq<Call>, db: DB, path: seq<nat>): (b: (Spec, seq<Call>))
    requires WellFormed(q) && AllSensible(h) && ValidDB(db) && Requests(q, h, db, path)
    ensures WellFormed(b.0) && AllSensible(b.1)
    decreases |path|
  {
    if path == [] then (q, h)
    else
      var g := SubHistory(q, path[0], h, db);
      BuilderAt(Start(q, path[0], h).value, g, db, path[1..])
  }

  /** The nodes along a path are those the builder at its end returns. */
  lemma {:induction false} Along(q: Spec, h: seq<Call>, db: DB, path: seq<nat>)
    requires WellFormed(q) && AllSensible(h) && ValidDB(db) && Requests(q, h, db, path) && AllValid(AfterAll(q, h))
    ensures var p, (q', h') := AfterAll(q, h), BuilderAt(q, h, db, path);
      && AllValid(AfterAll(q', h')) && Run(p, db).1.Ok? && Run(AfterAll(q', h'), db).1.Ok?
      && forall m :: Reached(Run(p, db).1.value, m, path) <==> m in Run(AfterAll(q', h'), db).1.value
    decreases |path|
  {
    hide Run, AfterAll, Base, Narrow, AllValid, AllSensible, SubHistory;
    var p := AfterAll(q, h);
    if path == [] {
      NeverUnexpected(p, db);
    } else {
      var k := path[0];
      OneLevel(p, k, db);
      var s, g := Start(q, k, h).value, SubHistory(q, k, h, db);
      Along(s, g, db, path[1..]);
      var nodes, ns := Run(p, db).1.value, Run(AfterAll(s, g), db).1.value;
      forall m ensures Reached(nodes, m, path) <==> Reached(ns, m, path[1..]) {
        ReachedStep(nodes, ns, k, m, path);
      }
    }
  }

  lemma ReachedStep(nodes: seq<NodeV>, ns: seq<NodeV>, k: nat, m: NodeV, path: seq<nat>)
    requires path != [] && path[0] == k
    requires forall x :: x in ns <==> exists n :: n in nodes && k < |n.edges| && x in Neighbors(n.edges[k])
    ensures Reached(nodes, m, path) <==> Reached(ns, m, path[1..])
  {
    if Reached(nodes, m, path) {
      var n :| n in nodes && Leads(n, m, path);
      var x :| x in Neighbors(n.edges[k]) && Leads(x, m, path[1..]);
      assert x in ns;
    }
    if Reached(ns, m, path[1..]) {
      var x :| x in ns && Leads(x, m, path[1..]);
      var n :| n in nodes && k < |n.edges| && x in Neighbors(n.edges[k]);
      assert Leads(n, m, path);
    }
  }
}
