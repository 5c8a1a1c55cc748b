/** When a query object that was run before still loads the right edges, at any depth: the key sets of earlier runs
    stay on its eager-load builders. */
module StaleKeys {
  import opened Schema
  import opened Store
  import opened Plan
  import opened EagerLoad
  import opened BuilderCalls
  import opened SlotHistory
  import opened EdgePaths
  import Accessors

  /** What was asked of the builder in slot k: its contents without the key sets of earlier runs. */
  ghost function Asked(q: Spec, k: nat, h: seq<Call>): (c: Spec)
    requires WellFormed(q) && k < |q.with| && AllSensible(h) && AfterAll(q, h).with[k].Some?
    ensures c.entity == EdgesOf(q.entity)[k].target
  {
    AfterAll(q, h).with[k].value.(preds := Own(q, k, h))
  }

  /** The rows that the current keys of edge e name and that were asked for were asked for by every earlier run. */
  ghost predicate NoneMissed(e: Edge, c: Spec, used: seq<Pred>, base: seq<Row>, db: DB)
    requires e.target in db.tables
  {
    forall r :: r in db.tables[e.target] && MatchesAll(c.preds, r) && Matches(KeyPred(e, base), r) ==>
      MatchesAll(used, r)
  }

  /** After history h of query q, a run over db needs no row for slot k that an earlier key set leaves out. */
  ghost predicate NeverMissed(q: Spec, k: nat, h: seq<Call>, db: DB)
    requires WellFormed(q) && k < |q.with| && AllSensible(h) && AfterAll(q, h).with[k].Some? && HasTables(db)
  {
    NoneMissed(EdgesOf(q.entity)[k], Asked(q, k, h), KeysUsed(q, k, h), Base(AfterAll(q, h), db), db)
  }

  // ----- List edges -----

  /** The nodes of a run link, for every parent, exactly what a nested loop links, iff no row it needs was left
      out of an earlier run's key set. */
  lemma ListsRightHere(q: Spec, k: nat, h: seq<Call>, db: DB)
    requires WellFormed(q) && k < |q.with| && AllSensible(h) && ValidDB(db) && AllValid(AfterAll(q, h))
    requires EdgesOf(q.entity)[k].many && AfterAll(q, h).with[k].Some? && Unpaged(AfterAll(q, h).with[k].value)
    ensures Run(AfterAll(q, h), db).1.Ok?
    ensures var nodes, e, c := Run(AfterAll(q, h), db).1.value, EdgesOf(q.entity)[k], Asked(q, k, h);
      && (forall n :: n in nodes ==> k < |n.edges| && n.edges[k].Many?)
      && ((forall n, id :: n in nodes ==>
            (HasId(n.edges[k].nodes, id) <==> Joins(db, c, e.fk, StrOf(n.fields, ID), id)))
          <==> NeverMissed(q, k, h, db))
  {
    hide Run, Base, AllValid, AfterAll, KeysUsed, Own, NoneMissed, SlotLoaded, KeyPred, MatchesAll, Joins;
    hide Unpaged, AllSensible;
    var p, e, c := AfterAll(q, h), EdgesOf(q.entity)[k], Asked(q, k, h);
    KeySetsAccumulate(q, k, h);
    ListLinks(p, k, db);
    RunResult(p, db);
    MissedRow(e, c, p.with[k].value, KeysUsed(q, k, h), Run(p, db).1.value, Base(p, db), db);
  }

  /** The same for the nodes along any path of edges: after any history of calls and runs, on the query and on its
      eager-load builders at any depth, all of them are linked right iff no row their builder needs for the edge
      was left out of an earlier key set. */
  lemma ListsRightIff(q: Spec, h: seq<Call>, db: DB, path: seq<nat>, k: nat)
    requires WellFormed(q) && AllSensible(h) && ValidDB(db) && AllValid(AfterAll(q, h)) && Requests(q, h, db, path)
    requires var (s, g) := BuilderAt(q, h, db, path);
      && k < |s.with| && EdgesOf(s.entity)[k].many
      && AfterAll(s, g).with[k].Some? && Unpaged(AfterAll(s, g).with[k].value)
    ensures Run(AfterAll(q, h), db).1.Ok?
    ensures var nodes, (s, g) := Run(AfterAll(q, h), db).1.value, BuilderAt(q, h, db, path);
      && (forall n :: Reached(nodes, n, path) ==> k < |n.edges| && n.edges[k].Many?)
      && ((forall n, id :: Reached(nodes, n, path) ==>
            (HasId(n.edges[k].nodes, id) <==>
              Joins(db, Asked(s, k, g), EdgesOf(s.entity)[k].fk, StrOf(n.fields, ID), id)))
          <==> NeverMissed(s, k, g, db))
  {
    hide Run, AfterAll, AllValid, AllSensible, Unpaged, Joins, NeverMissed, Reached, Requests, BuilderAt;
    var (s, g) := BuilderAt(q, h, db, path);
    Along(q, h, db, path);
    ListsRightHere(s, k, g, db);
  }

  /** A run links, over a list edge with an unpaged sub-query, what a nested loop over that sub-query links. */
  lemma ListLinks(p: Spec, k: nat, db: DB)
    requires WellFormed(p) && AllValid(p) && ValidDB(db) && k < |p.with| && p.with[k].Some?
    requires EdgesOf(p.entity)[k].many && Unpaged(p.with[k].value)
    ensures Run(p, db).1.Ok?
    ensures var nodes := Run(p, db).1.value;
      forall i :: 0 <= i < |nodes| ==>
        && k < |nodes[i].edges| && nodes[i].edges[k].Many?
        && forall id :: HasId(nodes[i].edges[k].nodes, id) <==>
             Joins(db, p.with[k].value, EdgesOf(p.entity)[k].fk, StrOf(nodes[i].fields, ID), id)
  {
    NeverUnexpected(p, db);
    hide Run;
    forall i | 0 <= i < |Run(p, db).1.value| {
      OneToManyJoin(p, db, k, i);
    }
  }

  lemma MissedRow(e: Edge, c: Spec, c': Spec, used: seq<Pred>, nodes: seq<NodeV>, base: seq<Row>, db: DB)
    requires ValidDB(db) && e.many && c.entity == c'.entity == e.target && |nodes| == |base|
    requires forall i :: 0 <= i < |nodes| ==> nodes[i].fields == base[i]
    requires forall r :: MatchesAll(c'.preds, r) <==> MatchesAll(c.preds, r) && MatchesAll(used, r)
    ensures (forall i, id :: 0 <= i < |nodes| ==>
      (Joins(db, c', e.fk, StrOf(nodes[i].fields, ID), id) <==> Joins(db, c, e.fk, StrOf(nodes[i].fields, ID), id)))
      <==> NoneMissed(e, c, used, base, db)
  {
    var rows := db.tables[e.target];
    if NoneMissed(e, c, used, base, db) {
      forall i, id | 0 <= i < |nodes|
        ensures Joins(db, c', e.fk, StrOf(nodes[i].fields, ID), id) <==>
          Joins(db, c, e.fk, StrOf(nodes[i].fields, ID), id)
      {
        assert Ids(base)[i] == StrOf(nodes[i].fields, ID);
      }
    }
    if r: Row :| r in rows && MatchesAll(c.preds, r) && Matches(KeyPred(e, base), r) && !MatchesAll(used, r) {
      var i :| 0 <= i < |base| && Ids(base)[i] == r[e.fk].s;
      var key, id := StrOf(nodes[i].fields, ID), StrOf(r, ID);
      assert Joins(db, c, e.fk, key, id);
      assert !Joins(db, c', e.fk, key, id);
    }
  }

  // ----- Unique edges -----

  /** Every node of a run points at its neighbour, iff no row it needs was left out of an earlier run's key set: a
      node whose neighbour was left out points at nothing. */
  lemma PointersRightHere(q: Spec, k: nat, h: seq<Call>, db: DB)
    requires WellFormed(q) && k < |q.with| && AllSensible(h) && ValidDB(db) && AllValid(AfterAll(q, h))
    requires !EdgesOf(q.entity)[k].many && AfterAll(q, h).with[k].Some? && Unpaged(AfterAll(q, h).with[k].value)
    ensures Run(AfterAll(q, h), db).1.Ok?
    ensures var nodes, e, c := Run(AfterAll(q, h), db).1.value, EdgesOf(q.entity)[k], Asked(q, k, h);
      && (forall n :: n in nodes ==> k < |n.edges| && n.edges[k].One? && k < |n.loaded| && n.loaded[k])
      && (forall n :: n in nodes ==> PointsWell(n, k, e) && (n.edges[k].node.Some? ==> HasNeighbor(db, c, n, e)))
      && ((forall n :: n in nodes ==> (n.edges[k].node.Some? <==> HasNeighbor(db, c, n, e)))
          <==> NeverMissed(q, k, h, db))
  {
    hide Run, Base, AllValid, AfterAll, KeysUsed, Own, NoneMissed, SlotLoaded, KeyPred, MatchesAll, Joins;
    hide Unpaged, AllSensible;
    var p, e, c := AfterAll(q, h), EdgesOf(q.entity)[k], Asked(q, k, h);
    KeySetsAccumulate(q, k, h);
    PointerLinks(p, k, db);
    RunResult(p, db);
    MissedNeighbor(e, c, p.with[k].value, KeysUsed(q, k, h), Run(p, db).1.value, Base(p, db), db);
    FewerJoin(c, p.with[k].value, KeysUsed(q, k, h), db);
  }

  /** A pointer leads to a node with the identifier that the foreign key names. */
  predicate PointsWell(n: NodeV, k: nat, e: Edge)
    requires k < |n.edges| && n.edges[k].One?
  {
    n.edges[k].node.Some? ==> StrOf(n.edges[k].node.value.fields, ID) == StrOf(n.fields, e.fk)
  }

  /** The store has the neighbour that the foreign key of n names, and c accepts it. */
  ghost predicate HasNeighbor(db: DB, c: Spec, n: NodeV, e: Edge)
    requires c.entity in db.tables
  {
    Joins(db, c, ID, StrOf(n.fields, e.fk), StrOf(n.fields, e.fk))
  }

  /** The same for the nodes along any path of edges, after any history. */
  lemma PointersRightIff(q: Spec, h: seq<Call>, db: DB, path: seq<nat>, k: nat)
    requires WellFormed(q) && AllSensible(h) && ValidDB(db) && AllValid(AfterAll(q, h)) && Requests(q, h, db, path)
    requires var (s, g) := BuilderAt(q, h, db, path);
      && k < |s.with| && !EdgesOf(s.entity)[k].many
      && AfterAll(s, g).with[k].Some? && Unpaged(AfterAll(s, g).with[k].value)
    ensures Run(AfterAll(q, h), db).1.Ok?
    ensures var nodes, (s, g) := Run(AfterAll(q, h), db).1.value, BuilderAt(q, h, db, path);
      var e, c := EdgesOf(s.entity)[k], Asked(s, k, g);
      && (forall n :: Reached(nodes, n, path) ==> k < |n.edges| && n.edges[k].One? && PointsWell(n, k, e))
      && ((forall n :: Reached(nodes, n, path) ==> (n.edges[k].node.Some? <==> HasNeighbor(db, c, n, e)))
          <==> NeverMissed(s, k, g, db))
  {
    hide Run, AfterAll, AllValid, AllSensible, Unpaged, HasNeighbor, NeverMissed, Reached, Requests,
      BuilderAt, PointsWell;
    var (s, g) := BuilderAt(q, h, db, path);
    Along(q, h, db, path);
    PointersRightHere(s, k, g, db);
  }

  /** The accessor of a unique edge answers not-found, on some node along the path, for a neighbour the store has, iff
      a row the run needs was left out of an earlier key set. */
  lemma WrongNotFoundIff(q: Spec, h: seq<Call>, db: DB, path: seq<nat>, k: nat)
    requires WellFormed(q) && AllSensible(h) && ValidDB(db) && AllValid(AfterAll(q, h)) && Requests(q, h, db, path)
    requires var (s, g) := BuilderAt(q, h, db, path);
      && k < |s.with| && !EdgesOf(s.entity)[k].many
      && AfterAll(s, g).with[k].Some? && Unpaged(AfterAll(s, g).with[k].value)
    ensures Run(AfterAll(q, h), db).1.Ok?
    ensures var nodes, (s, g) := Run(AfterAll(q, h), db).1.value, BuilderAt(q, h, db, path);
      && (forall n :: Reached(nodes, n, path) ==> k < |n.edges| && k < |n.loaded| && n.edges[k].One?)
      && ((exists n :: Reached(nodes, n, path) && Accessors.OneOrErr(n, k) == Err(Accessors.NotFound)
             && HasNeighbor(db, Asked(s, k, g), n, EdgesOf(s.entity)[k]))
          <==> !NeverMissed(s, k, g, db))
  {
    hide Run, AfterAll, AllValid, AllSensible, Unpaged, HasNeighbor, NeverMissed, Reached, Requests,
      BuilderAt, PointsWell;
    var (s, g) := BuilderAt(q, h, db, path);
    Along(q, h, db, path);
    PointersRightHere(s, k, g, db);
  }

  lemma PointerLinks(p: Spec, k: nat, db: DB)
    requires WellFormed(p) && AllValid(p) && ValidDB(db) && k < |p.with| && p.with[k].Some?
    requires !EdgesOf(p.entity)[k].many && Unpaged(p.with[k].value)
    ensures Run(p, db).1.Ok?
    ensures var nodes := Run(p, db).1.value;
      forall i :: 0 <= i < |nodes| ==>
        && k < |nodes[i].edges| && nodes[i].edges[k].One?
        && var m, key := nodes[i].edges[k].node, StrOf(nodes[i].fields, EdgesOf(p.entity)[k].fk);
        && (m.Some? <==> Joins(db, p.with[k].value, ID, key, key))
        && (m.Some? ==> StrOf(m.value.fields, ID) == key)
  {
    NeverUnexpected(p, db);
    hide Run;
    forall i | 0 <= i < |Run(p, db).1.value| {
      ManyToOneJoin(p, db, k, i);
    }
  }

  lemma NoneMissedOne(e: Edge, c: Spec, c': Spec, used: seq<Pred>, base: seq<Row>, i: nat, db: DB)
    requires HasTables(db) && !e.many && c.entity == c'.entity == e.target && i < |base|
    requires NoneMissed(e, c, used, base, db)
    requires forall r :: MatchesAll(c'.preds, r) <==> MatchesAll(c.preds, r) && MatchesAll(used, r)
    ensures var key := StrOf(base[i], e.fk); Joins(db, c', ID, key, key) <==> Joins(db, c, ID, key, key)
  {
    hide MatchesAll;
    assert StrOf(base[i], e.fk) in DistinctKeys(base, e.fk);
  }

  lemma MissedNeighbor(e: Edge, c: Spec, c': Spec, used: seq<Pred>, nodes: seq<NodeV>, base: seq<Row>, db: DB)
    requires ValidDB(db) && !e.many && c.entity == c'.entity == e.target && |nodes| == |base|
    requires forall i :: 0 <= i < |nodes| ==> nodes[i].fields == base[i]
    requires forall r :: MatchesAll(c'.preds, r) <==> MatchesAll(c.preds, r) && MatchesAll(used, r)
    ensures (forall i :: 0 <= i < |nodes| ==> var key := StrOf(nodes[i].fields, e.fk);
        (Joins(db, c', ID, key, key) <==> Joins(db, c, ID, key, key)))
      <==> NoneMissed(e, c, used, base, db)
  {
    hide MatchesAll;
    var rows := db.tables[e.target];
    if NoneMissed(e, c, used, base, db) {
      forall i | 0 <= i < |nodes|
        ensures var key := StrOf(nodes[i].fields, e.fk); Joins(db, c', ID, key, key) <==> Joins(db, c, ID, key, key)
      {
        NoneMissedOne(e, c, c', used, base, i, db);
      }
    }
    if r: Row :| r in rows && MatchesAll(c.preds, r) && Matches(KeyPred(e, base), r) && !MatchesAll(used, r) {
      var i :| 0 <= i < |base| && StrOf(base[i], e.fk) == r[ID].s;
      var key := StrOf(nodes[i].fields, e.fk);
      assert Joins(db, c, ID, key, key);
      assert !Joins(db, c', ID, key, key);
    }
  }

  /** Key sets only take rows away. */
  lemma FewerJoin(c: Spec, c': Spec, used: seq<Pred>, db: DB)
    requires c.entity == c'.entity && c.entity in db.tables
    requires forall r :: MatchesAll(c'.preds, r) <==> MatchesAll(c.preds, r) && MatchesAll(used, r)
    ensures forall key :: Joins(db, c', ID, key, key) ==> Joins(db, c, ID, key, key)
  {
    hide MatchesAll;
  }

}
