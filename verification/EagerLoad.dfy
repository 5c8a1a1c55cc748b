/** Laws of eager loading: the hash joins of the loaders are nested-loop joins, they never meet a key they
    did not ask for, and the two directions of an edge agree. */
module EagerLoad {
  import opened Schema
  import opened Store
  import opened Plan

  /** Every query of the tree asks only for columns its entity has. */
  predicate AllValid(q: Spec)
    requires WellFormed(q)
  {
    && FirstInvalid(q.fields, q.entity).None?
    && forall k :: 0 <= k < |q.with| && q.with[k].Some? ==> AllValid(q.with[k].value)
  }

  predicate Unpaged(q: Spec) {
    WholePage(q.offset, q.limit)
  }

  // ----- Selected columns -----

  lemma EdgeKeys(e: Entity, k: nat)
    requires k < |EdgesOf(e)|
    ensures var d := EdgesOf(e)[k];
      && d.fk != ID
      && d.fk in (if d.many then Columns(d.target) else Columns(e))
  {
    assert k == 0 || k == 1 || k == 2;
  }

  /** The identifier is selected first and once, and the join keys of the requested many-to-one edges are
      selected, whatever was projected. */
  lemma SelectedColumns(q: Spec)
    requires WellFormed(q)
    ensures var s := Selected(q);
      && s != [] && s[0] == ID
      && (forall i :: 0 < i < |s| ==> s[i] != ID)
      && (forall c :: c in q.fields ==> c in s)
      && (forall k :: 0 <= k < |q.with| && q.with[k].Some? && !EdgesOf(q.entity)[k].many ==>
        EdgesOf(q.entity)[k].fk in s)
  {
    EdgeKeysAll(q.entity);
    if q.fields != [] {
      var cs := [ID] + Without(q.fields, ID);
      forall i | 0 < i < |cs| ensures cs[i] != ID {
        assert cs[i] in Without(q.fields, ID);
      }
      AddKeysOnce(EdgesOf(q.entity), Loaded(q), 0, cs);
    }
  }

  /** A caller of q gets column c: the id, a projected column or, when none is projected, any column, and the foreign
      key of a requested many-to-one edge. */
  predicate Wants(q: Spec, c: Col)
    requires WellFormed(q)
  {
    || c == ID
    || c in (if q.fields == [] then Columns(q.entity) else q.fields)
    || exists k :: 0 <= k < |q.with| && q.with[k].Some? && !EdgesOf(q.entity)[k].many && EdgesOf(q.entity)[k].fk == c
  }

  /** Exactly those columns are selected. */
  lemma SelectedIff(q: Spec, c: Col)
    requires WellFormed(q)
    ensures c in Selected(q) <==> Wants(q, c)
  {
    hide Columns, EdgesOf, AddKeys;
    HasID(q.entity);
    EdgeKeysAll(q.entity);
    if q.fields != [] {
      var cs := [ID] + Without(q.fields, ID);
      if c in Selected(q) && c !in cs {
        var k := AddedKey(EdgesOf(q.entity), Loaded(q), 0, cs, c);
        assert q.with[k].Some?;
      }
    }
  }

  lemma HasID(e: Entity)
    ensures ID in Columns(e)
  {
  }

  /** A column that was added is the key of some requested edge. */
  lemma {:induction false} AddedKey(es: seq<Edge>, loaded: seq<bool>, k: nat, cs: seq<Col>, c: Col) returns (j: nat)
    requires |loaded| == |es| && k <= |es| && c in AddKeys(es, loaded, k, cs) && c !in cs
    ensures k <= j < |es| && loaded[j] && !es[j].many && es[j].fk == c
    decreases |es| - k
  {
    if loaded[k] && !es[k].many && es[k].fk == c {
      j := k;
    } else {
      j := AddedKey(es, loaded, k + 1, if loaded[k] && !es[k].many then AppendOnce(cs, es[k].fk) else cs, c);
    }
  }

  lemma EdgeKeysAll(e: Entity)
    ensures forall k :: 0 <= k < |EdgesOf(e)| ==>
      EdgesOf(e)[k].fk != ID && (!EdgesOf(e)[k].many ==> EdgesOf(e)[k].fk in Columns(e))
  {
    forall k | 0 <= k < |EdgesOf(e)| ensures EdgesOf(e)[k].fk != ID
      && (!EdgesOf(e)[k].many ==> EdgesOf(e)[k].fk in Columns(e)) {
      EdgeKeys(e, k);
    }
  }

  lemma {:induction false} AddKeysOnce(es: seq<Edge>, loaded: seq<bool>, k: nat, cs: seq<Col>)
    requires |loaded| == |es| && k <= |es|
    requires forall j :: 0 <= j < |es| ==> es[j].fk != ID
    requires cs != [] && cs[0] == ID && forall i :: 0 < i < |cs| ==> cs[i] != ID
    ensures var r := AddKeys(es, loaded, k, cs); r != [] && r[0] == ID && forall i :: 0 < i < |r| ==> r[i] != ID
    decreases |es| - k
  {
    if k < |es| {
      AddKeysOnce(es, loaded, k + 1, if loaded[k] && !es[k].many then AppendOnce(cs, es[k].fk) else cs);
    }
  }

  /** A loader makes sure that its sub-query returns the key it joins on. */
  lemma NarrowSelectsKey(q: Spec, k: nat, base: seq<Row>)
    requires WellFormed(q) && k < |q.with| && q.with[k].Some?
    ensures var e := EdgesOf(q.entity)[k];
      (if e.many then e.fk else ID) in Selected(Narrow(e, q.with[k].value, base))
  {
    var e := EdgesOf(q.entity)[k];
    EdgeKeys(q.entity, k);
    SelectedColumns(Narrow(e, q.with[k].value, base));
  }

  lemma AssignedKey(cols: seq<Col>, r: Row, c: Col)
    requires c in cols
    ensures StrOf(Assigned(cols, r), c) == StrOf(r, c)
  {
  }

  // ----- The nodes of a successful run -----

  /** What slot k of node i holds once the run has succeeded. */
  ghost predicate SlotLoaded(q: Spec, k: nat, base: seq<Row>, i: nat, v: EdgeV, db: DB)
    requires WellFormed(q) && k < |q.with| && i < |base| && HasTables(db)
  {
    var e := EdgesOf(q.entity)[k];
    if q.with[k].None? then v == Unloaded(e)
    else
      var ns := Run(Narrow(e, q.with[k].value, base), db).1;
      ns.Ok? && FirstUnknown(e, base, ns.value).None? && v == EdgeFor(e, base, i, ns.value)
  }

  /** Loading slot k sets that slot of every node and nothing else. */
  lemma LoadEdgeResult(q: Spec, k: nat, base: seq<Row>, nodes: seq<NodeV>, db: DB)
    requires WellFormed(q) && HasTables(db)
    requires k < |q.with| && |nodes| == |base| && Shaped(nodes, |q.with|)
    requires forall i :: 0 <= i < |nodes| ==> nodes[i].edges[k] == Unloaded(EdgesOf(q.entity)[k])
    ensures var r := LoadEdge(q, k, base, nodes, db).1;
      r.Ok? ==> forall i :: 0 <= i < |nodes| ==>
        && r.value[i] == nodes[i].(edges := nodes[i].edges[k := r.value[i].edges[k]])
        && SlotLoaded(q, k, base, i, r.value[i].edges[k], db)
  {
    var r := LoadEdge(q, k, base, nodes, db).1;
    if r.Ok? && q.with[k].None? {
      forall i | 0 <= i < |nodes| ensures nodes[i].edges[k := nodes[i].edges[k]] == nodes[i].edges {}
    }
  }

  lemma {:induction false} LoadEdgesResult(q: Spec, k: nat, base: seq<Row>, nodes: seq<NodeV>, db: DB)
    requires WellFormed(q) && HasTables(db)
    requires k <= |q.with| && |nodes| == |base| && Shaped(nodes, |q.with|)
    requires forall i, j :: 0 <= i < |nodes| && k <= j < |q.with| ==>
      nodes[i].edges[j] == Unloaded(EdgesOf(q.entity)[j])
    ensures var r := LoadEdges(q, k, base, nodes, db).1;
      r.Ok? ==> |r.value| == |nodes| && Shaped(r.value, |q.with|) && forall i :: 0 <= i < |nodes| ==>
        && r.value[i].fields == nodes[i].fields && r.value[i].loaded == nodes[i].loaded
        && (forall j :: 0 <= j < k ==> r.value[i].edges[j] == nodes[i].edges[j])
        && (forall j :: k <= j < |q.with| ==> SlotLoaded(q, j, base, i, r.value[i].edges[j], db))
    decreases |q.with| - k
  {
    if k < |q.with| {
      LoadEdgeResult(q, k, base, nodes, db);
      var r := LoadEdge(q, k, base, nodes, db).1;
      if r.Ok? {
        LoadEdgesResult(q, k + 1, base, r.value, db);
      }
    }
  }

  /** The nodes of a successful run, slot by slot. */
  lemma RunResult(q: Spec, db: DB)
    requires WellFormed(q) && HasTables(db)
    requires Run(q, db).1.Ok?
    ensures var nodes, base := Run(q, db).1.value, Base(q, db);
      && |nodes| == |base|
      && forall i :: 0 <= i < |nodes| ==>
           && nodes[i].fields == base[i] && nodes[i].loaded == Loaded(q) && |nodes[i].edges| == |q.with|
           && forall k :: 0 <= k < |q.with| ==> SlotLoaded(q, k, base, i, nodes[i].edges[k], db)
  {
    var base := Base(q, db);
    if base != [] {
      LoadEdgesResult(q, 0, base, Fresh(q, base), db);
    }
  }

  /** The neighbours ns of the nodes `base` over edge e come from the given rows: rows of the target's
      table, each once, that the sub-query's own predicates accept and whose join key was asked for. Without
      a page these are all such rows. */
  ghost predicate FromRows(e: Edge, c: Spec, base: seq<Row>, ns: seq<NodeV>, rows: seq<Row>, db: DB)
    requires e.target in db.tables
  {
    && |rows| == |ns| && DistinctIds(rows)
    && (forall j :: 0 <= j < |ns| ==>
          && rows[j] in db.tables[e.target] && MatchesAll(c.preds, rows[j]) && Matches(KeyPred(e, base), rows[j])
          && KnownKey(e, base, ns[j])
          && StrOf(ns[j].fields, ID) == StrOf(rows[j], ID)
          && KeyOf(e, ns[j]) == StrOf(rows[j], if e.many then e.fk else ID))
    && (Unpaged(c) ==>
         forall r :: r in db.tables[e.target] && MatchesAll(c.preds, r) && Matches(KeyPred(e, base), r) ==> r in rows)
  }

  lemma NeighborRows(q: Spec, k: nat, base: seq<Row>, db: DB) returns (rows: seq<Row>)
    requires WellFormed(q) && ValidDB(db) && k < |q.with| && q.with[k].Some?
    requires Run(Narrow(EdgesOf(q.entity)[k], q.with[k].value, base), db).1.Ok?
    ensures var e, c := EdgesOf(q.entity)[k], q.with[k].value;
      FromRows(e, c, base, Run(Narrow(e, c, base), db).1.value, rows, db)
  {
    var e, c := EdgesOf(q.entity)[k], q.with[k].value;
    var n := Narrow(e, c, base);
    var ns := Run(n, db).1.value;
    rows := Fetch(db, e.target, n.preds, n.order, n.offset, n.limit);
    FetchContract(db, e.target, n.preds, n.order, n.offset, n.limit);
    EdgeKeys(q.entity, k);
    RunResult(n, db);
    SelectedColumns(n);
    NarrowSelectsKey(q, k, base);
    NarrowedPreds(e, c, base);
    forall j | 0 <= j < |ns|
      ensures rows[j] in db.tables[e.target] && MatchesAll(c.preds, rows[j]) && Matches(KeyPred(e, base), rows[j])
      ensures StrOf(ns[j].fields, ID) == StrOf(rows[j], ID)
      ensures KeyOf(e, ns[j]) == StrOf(rows[j], if e.many then e.fk else ID)
      ensures KnownKey(e, base, ns[j])
    {
      assert rows[j] in rows;
      AssignedKey(Selected(n), rows[j], ID);
      AssignedKey(Selected(n), rows[j], if e.many then e.fk else ID);
    }
  }

  /** The predicate a loader appends restricts the sub-query to the requested keys. */
  lemma NarrowedPreds(e: Edge, c: Spec, base: seq<Row>)
    ensures forall r :: MatchesAll(Narrow(e, c, base).preds, r) <==>
      MatchesAll(c.preds, r) && Matches(KeyPred(e, base), r)
  {
    forall r {
      MatchesAppend(c.preds, KeyPred(e, base), r);
    }
  }

  lemma MatchesAppend(ps: seq<Pred>, p: Pred, r: Row)
    ensures MatchesAll(ps + [p], r) <==> MatchesAll(ps, r) && Matches(p, r)
  {
    if MatchesAll(ps + [p], r) {
      forall i | 0 <= i < |ps| ensures Matches(ps[i], r) {
        assert (ps + [p])[i] == ps[i];
      }
      assert (ps + [p])[|ps|] == p;
    }
  }

  // ----- Joins -----

  /** The rows behind the nodes of a query. */
  lemma BaseRows(q: Spec, db: DB) returns (rows: seq<Row>)
    requires WellFormed(q) && ValidDB(db)
    ensures var base := Base(q, db);
      && |rows| == |base| && DistinctIds(rows) && DistinctIds(base)
      && (forall r :: r in rows ==> r in db.tables[q.entity] && MatchesAll(q.preds, r) && ValidRow(q.entity, r))
      && (Unpaged(q) ==> forall r :: r in db.tables[q.entity] && MatchesAll(q.preds, r) ==> r in rows)
      && (forall i, c :: 0 <= i < |base| && c in Selected(q) ==> StrOf(base[i], c) == StrOf(rows[i], c))
  {
    rows := Fetch(db, q.entity, q.preds, q.order, q.offset, q.limit);
    FetchContract(db, q.entity, q.preds, q.order, q.offset, q.limit);
    SelectedColumns(q);
    assert forall i :: 0 <= i < |rows| ==> StrOf(Base(q, db)[i], ID) == StrOf(rows[i], ID);
  }

  /** Over a store that honours its predicates a run fails only on an invalid column: the loaders'
      unexpected-foreign-key errors cannot happen. */
  lemma {:induction false} NeverUnexpected(q: Spec, db: DB)
    requires WellFormed(q) && ValidDB(db) && AllValid(q)
    ensures Run(q, db).1.Ok?
    decreases q.with, |q.with| + 1
  {
    var base := Base(q, db);
    if base != [] {
      LoadsSucceed(q, 0, base, Fresh(q, base), db);
    }
  }

  lemma {:induction false} LoadsSucceed(q: Spec, k: nat, base: seq<Row>, nodes: seq<NodeV>, db: DB)
    requires WellFormed(q) && ValidDB(db) && AllValid(q)
    requires k <= |q.with| && |nodes| == |base|
    requires Shaped(nodes, |q.with|)
    ensures LoadEdges(q, k, base, nodes, db).1.Ok?
    decreases q.with, |q.with| - k
  {
    if k < |q.with| {
      if q.with[k].Some? {
        var n := Narrow(EdgesOf(q.entity)[k], q.with[k].value, base);
        NarrowStaysValid(q, k, base);
        NeverUnexpected(n, db);
        var _ := NeighborRows(q, k, base, db);
      }
      LoadsSucceed(q, k + 1, base, LoadEdge(q, k, base, nodes, db).1.value, db);
    }
  }

  /** Column c is projected somewhere in the tree by a query of an entity that has no such column. */
  ghost predicate Misprojects(q: Spec, c: Col)
    requires WellFormed(q)
  {
    || (c in q.fields && c !in Columns(q.entity))
    || exists k :: 0 <= k < |q.with| && q.with[k].Some? && Misprojects(q.with[k].value, c)
  }

  /** When a run fails, it names a column that some query of the tree projects and its entity does not have. */
  lemma {:induction false} FailsBecause(q: Spec, db: DB)
    requires WellFormed(q) && ValidDB(db) && Run(q, db).1.Err?
    ensures Run(q, db).1.error.InvalidField? && Misprojects(q, Run(q, db).1.error.c)
    decreases q.with, |q.with| + 1
  {
    var bad := FirstInvalid(q.fields, q.entity);
    if bad.Some? {
      FirstInvalidIs(q.fields, q.entity);
    } else {
      var base := Base(q, db);
      LoadsFailBecause(q, 0, base, Fresh(q, base), db);
    }
  }

  lemma {:induction false} LoadsFailBecause(q: Spec, k: nat, base: seq<Row>, nodes: seq<NodeV>, db: DB)
    requires WellFormed(q) && ValidDB(db)
    requires k <= |q.with| && |nodes| == |base| && Shaped(nodes, |q.with|) && LoadEdges(q, k, base, nodes, db).1.Err?
    ensures var e := LoadEdges(q, k, base, nodes, db).1.error; e.InvalidField? && Misprojects(q, e.c)
    decreases q.with, |q.with| - k
  {
    var r := LoadEdge(q, k, base, nodes, db).1;
    if r.Ok? {
      LoadsFailBecause(q, k + 1, base, r.value, db);
    } else {
      var e, c := EdgesOf(q.entity)[k], q.with[k].value;
      var n := Narrow(e, c, base);
      if Run(n, db).1.Ok? {
        var _ := NeighborRows(q, k, base, db);
      } else {
        FailsBecause(n, db);
        NarrowMisprojects(q, k, base, Run(n, db).1.error.c);
      }
    }
  }

  lemma NarrowMisprojects(q: Spec, k: nat, base: seq<Row>, c: Col)
    requires WellFormed(q) && k < |q.with| && q.with[k].Some?
    requires Misprojects(Narrow(EdgesOf(q.entity)[k], q.with[k].value, base), c)
    ensures Misprojects(q.with[k].value, c) && Misprojects(q, c)
  {
    EdgeKeys(q.entity, k);
  }

  /** The first projected column that the entity does not have makes a run fail at once. */
  lemma RootFailsFirst(q: Spec, db: DB, i: nat)
    requires WellFormed(q) && HasTables(db) && i < |q.fields| && q.fields[i] !in Columns(q.entity)
    requires forall j :: 0 <= j < i ==> q.fields[j] in Columns(q.entity)
    ensures Run(q, db) == (q, Err(InvalidField(q.fields[i])))
  {
    FirstInvalidIs(q.fields, q.entity);
  }

  lemma {:induction false} FirstInvalidIs(cs: seq<Col>, e: Entity)
    ensures var r := FirstInvalid(cs, e);
      r.Some? ==> exists i ::
        0 <= i < |cs| && cs[i] == r.value && cs[i] !in Columns(e) && forall j :: 0 <= j < i ==> cs[j] in Columns(e)
  {
    if cs != [] && cs[0] in Columns(e) {
      FirstInvalidIs(cs[1..], e);
      var r := FirstInvalid(cs[1..], e);
      if r.Some? {
        var i :| 0 <= i < |cs| - 1 && cs[1..][i] == r.value && r.value !in Columns(e)
          && forall j :: 0 <= j < i ==> cs[1..][j] in Columns(e);
        forall j | 0 <= j < i + 1 ensures cs[j] in Columns(e) {
          assert j > 0 ==> cs[1..][j-1] == cs[j];
        }
        assert cs[i+1] == r.value;
      }
    }
  }

  lemma NarrowStaysValid(q: Spec, k: nat, base: seq<Row>)
    requires WellFormed(q) && AllValid(q) && k < |q.with| && q.with[k].Some?
    ensures AllValid(Narrow(EdgesOf(q.entity)[k], q.with[k].value, base))
  {
    EdgeKeys(q.entity, k);
  }

  /** The nested-loop reference: some row of the sub-query's table that the sub-query's own predicates
      accept holds `key` under `col` and has the identifier `id`. */
  ghost predicate Joins(db: DB, c: Spec, col: Col, key: Id, id: Id)
    requires c.entity in db.tables
  {
    exists r: Row :: r in db.tables[c.entity] && MatchesAll(c.preds, r) && col in r && r[col] == Str(key)
      && StrOf(r, ID) == id
  }

  predicate HasId(ns: seq<NodeV>, id: Id) {
    exists n :: n in ns && StrOf(n.fields, ID) == id
  }

  /** One-to-many: every parent's list is the subsequence of the returned neighbours that hold its
      identifier, and for an unpaged sub-query it links exactly what a nested loop links. */
  lemma OneToManyJoin(q: Spec, db: DB, k: nat, i: nat)
    requires WellFormed(q) && ValidDB(db) && k < |q.with| && q.with[k].Some? && EdgesOf(q.entity)[k].many
    requires Run(q, db).1.Ok? && i < |Run(q, db).1.value|
    ensures var e, c, node := EdgesOf(q.entity)[k], q.with[k].value, Run(q, db).1.value[i];
      var ns := Run(Narrow(e, c, Base(q, db)), db).1;
      && k < |node.edges| && ns.Ok? && node.edges[k] == Many(WithKey(ns.value, e.fk, StrOf(node.fields, ID)))
      && (Unpaged(c) ==> forall id :: HasId(node.edges[k].nodes, id) <==>
        Joins(db, c, e.fk, StrOf(node.fields, ID), id))
  {
    RunResult(q, db);
    var _ := BaseRows(q, db);
    var base := Base(q, db);
    var e, c, node := EdgesOf(q.entity)[k], q.with[k].value, Run(q, db).1.value[i];
    assert SlotLoaded(q, k, base, i, node.edges[k], db);
    assert LastOfId(base, i);
    var ns := Run(Narrow(e, c, base), db).1.value;
    if Unpaged(c) {
      var rows := NeighborRows(q, k, base, db);
      EdgeKeys(q.entity, k);
      forall id ensures HasId(node.edges[k].nodes, id) <==> Joins(db, c, e.fk, StrOf(node.fields, ID), id) {
        ManySide(e, c, base, i, ns, rows, db, id);
      }
    }
  }

  lemma ManySide(e: Edge, c: Spec, base: seq<Row>, i: nat, ns: seq<NodeV>, rows: seq<Row>, db: DB, id: Id)
    requires e.many && c.entity == e.target && e.target in db.tables && i < |base| && Unpaged(c)
    requires FromRows(e, c, base, ns, rows, db)
    ensures HasId(WithKey(ns, e.fk, StrOf(base[i], ID)), id) <==> Joins(db, c, e.fk, StrOf(base[i], ID), id)
  {
    var key := StrOf(base[i], ID);
    var mine := WithKey(ns, e.fk, key);
    if HasId(mine, id) {
      var n :| n in mine && StrOf(n.fields, ID) == id;
      var j :| 0 <= j < |ns| && ns[j] == n;
      assert rows[j][e.fk] == Str(key);
    }
    if Joins(db, c, e.fk, key, id) {
      var r: Row :| r in db.tables[e.target] && MatchesAll(c.preds, r) && e.fk in r && r[e.fk] == Str(key)
        && StrOf(r, ID) == id;
      assert Ids(base)[i] == key;
      assert r in rows;
      var j :| 0 <= j < |rows| && rows[j] == r;
      assert ns[j] in mine;
    }
  }

  /** Many-to-one: every row points at the returned neighbour its foreign key names, which for an unpaged
      sub-query is the left outer join; a row whose key names none stays nil. */
  lemma ManyToOneJoin(q: Spec, db: DB, k: nat, i: nat)
    requires WellFormed(q) && ValidDB(db) && k < |q.with| && q.with[k].Some? && !EdgesOf(q.entity)[k].many
    requires Run(q, db).1.Ok? && i < |Run(q, db).1.value|
    ensures var e, c, node := EdgesOf(q.entity)[k], q.with[k].value, Run(q, db).1.value[i];
      var ns := Run(Narrow(e, c, Base(q, db)), db).1;
      && k < |node.edges| && ns.Ok? && node.edges[k].One?
      && (forall n :: node.edges[k].node == Some(n) <==>
        n in ns.value && StrOf(n.fields, ID) == StrOf(node.fields, e.fk))
      && (Unpaged(c) ==> (node.edges[k].node.Some? <==>
        Joins(db, c, ID, StrOf(node.fields, e.fk), StrOf(node.fields, e.fk))))
  {
    RunResult(q, db);
    var base := Base(q, db);
    var e, c, node := EdgesOf(q.entity)[k], q.with[k].value, Run(q, db).1.value[i];
    assert SlotLoaded(q, k, base, i, node.edges[k], db);
    var ns := Run(Narrow(e, c, base), db).1.value;
    var rows := NeighborRows(q, k, base, db);
    OneSide(e, c, base, i, ns, rows, db);
  }

  lemma OneSide(e: Edge, c: Spec, base: seq<Row>, i: nat, ns: seq<NodeV>, rows: seq<Row>, db: DB)
    requires !e.many && c.entity == e.target && e.target in db.tables && i < |base|
    requires FromRows(e, c, base, ns, rows, db)
    ensures var key := StrOf(base[i], e.fk);
      && (forall n :: LastWithKey(ns, ID, key) == Some(n) <==> n in ns && StrOf(n.fields, ID) == key)
      && (Unpaged(c) ==> (LastWithKey(ns, ID, key).Some? <==> Joins(db, c, ID, key, key)))
  {
    var key := StrOf(base[i], e.fk);
    LastIsFound(ns, ID, key);
    forall n | n in ns && StrOf(n.fields, ID) == key ensures LastWithKey(ns, ID, key) == Some(n) {
      var m := LastWithKey(ns, ID, key).value;
      hide *;
      SameNode(e, c, base, ns, rows, db, n, m);
    }
    if Unpaged(c) {
      OneJoins(e, c, base, i, ns, rows, db);
    }
  }

  /** Returned neighbours with one identifier are one neighbour. */
  lemma SameNode(e: Edge, c: Spec, base: seq<Row>, ns: seq<NodeV>, rows: seq<Row>, db: DB, n: NodeV, m: NodeV)
    requires e.target in db.tables && FromRows(e, c, base, ns, rows, db)
    requires n in ns && m in ns && StrOf(n.fields, ID) == StrOf(m.fields, ID)
    ensures n == m
  {
    var a, b :| 0 <= a < |ns| && 0 <= b < |ns| && ns[a] == n && ns[b] == m;
    assert StrOf(rows[a], ID) == StrOf(rows[b], ID);
    hide FromRows;
    assert a == b;
  }

  lemma OneJoins(e: Edge, c: Spec, base: seq<Row>, i: nat, ns: seq<NodeV>, rows: seq<Row>, db: DB)
    requires !e.many && c.entity == e.target && e.target in db.tables && i < |base| && Unpaged(c)
    requires FromRows(e, c, base, ns, rows, db)
    ensures var key := StrOf(base[i], e.fk);
      LastWithKey(ns, ID, key).Some? <==> Joins(db, c, ID, key, key)
  {
    hide MatchesAll, KnownKey, DistinctIds;
    var key := StrOf(base[i], e.fk);
    LastIsFound(ns, ID, key);
    if LastWithKey(ns, ID, key).Some? {
      var j :| 0 <= j < |ns| && ns[j] == LastWithKey(ns, ID, key).value;
      assert rows[j][ID] == Str(key);
    }
    if Joins(db, c, ID, key, key) {
      var r: Row :| r in db.tables[e.target] && MatchesAll(c.preds, r) && ID in r && r[ID] == Str(key)
        && StrOf(r, ID) == key;
      assert key in DistinctKeys(base, e.fk);
      assert r in rows;
      var j :| 0 <= j < |rows| && rows[j] == r;
      assert ns[j] in ns;
    }
  }

  lemma {:induction false} LastIsFound(ns: seq<NodeV>, c: Col, k: Id)
    ensures LastWithKey(ns, c, k).None? <==> forall n :: n in ns ==> StrOf(n.fields, c) != k
    ensures LastWithKey(ns, c, k).Some? ==>
      LastWithKey(ns, c, k).value in ns && StrOf(LastWithKey(ns, c, k).value.fields, c) == k
  {
    if ns != [] {
      LastIsFound(ns[..|ns|-1], c, k);
      assert ns == ns[..|ns|-1] + [ns[|ns|-1]];
    }
  }

  // ----- Nothing lost, nothing doubled -----

  /** The list stands in ns at the given places, in order. */
  ghost predicate StandsAt(list: seq<NodeV>, ns: seq<NodeV>, at: seq<nat>) {
    && |at| == |list|
    && (forall j :: 0 <= j < |at| ==> at[j] < |ns| && ns[at[j]] == list[j])
    && (forall i, j :: 0 <= i < j < |at| ==> at[i] < at[j])
  }

  /** The places in ns of the nodes whose column c holds k. */
  function Places(ns: seq<NodeV>, c: Col, k: Id): (at: seq<nat>)
    ensures forall i: nat :: i in at <==> i < |ns| && StrOf(ns[i].fields, c) == k
  {
    if ns == [] then []
    else
      var n := |ns| - 1;
      assert forall i: nat :: i < n ==> ns[..n][i] == ns[i];
      Places(ns[..n], c, k) + if StrOf(ns[n].fields, c) == k then [n] else []
  }

  /** A loaded list keeps the order of the returned neighbours and leaves none with the key out. */
  lemma {:induction false} ListsKeepOrder(ns: seq<NodeV>, c: Col, k: Id)
    ensures StandsAt(WithKey(ns, c, k), ns, Places(ns, c, k))
  {
    hide StrOf, StandsAt;
    if ns == [] {
      StandsNowhere(ns);
    } else {
      var n := |ns| - 1;
      ListsKeepOrder(ns[..n], c, k);
      StandsMore(WithKey(ns[..n], c, k), ns, Places(ns[..n], c, k));
      assert Places(ns[..n], c, k) + [] == Places(ns[..n], c, k);
    }
  }

  lemma StandsNowhere(ns: seq<NodeV>)
    ensures StandsAt([], ns, [])
  {
  }

  lemma StandsMore(list: seq<NodeV>, ns: seq<NodeV>, at: seq<nat>)
    requires ns != [] && StandsAt(list, ns[..|ns|-1], at)
    ensures StandsAt(list, ns, at) && StandsAt(list + [ns[|ns|-1]], ns, at + [|ns| - 1])
  {
  }

  function TotalLoaded(base: seq<Row>, ns: seq<NodeV>, fk: Col): nat {
    if base == [] then 0 else |WithKey(ns, fk, StrOf(base[|base|-1], ID))| + TotalLoaded(base[..|base|-1], ns, fk)
  }

  /** Adding one neighbour lengthens the list of exactly one parent. */
  lemma {:induction false} OneMore(base: seq<Row>, ns: seq<NodeV>, fk: Col)
    requires DistinctIds(base) && ns != []
    ensures TotalLoaded(base, ns, fk) == TotalLoaded(base, ns[..|ns|-1], fk)
      + if KnownKey(Edge(true, Tenant, fk), base, ns[|ns|-1]) then 1 else 0
  {
    if base != [] {
      var rest, last := base[..|base|-1], base[|base|-1];
      OneMore(rest, ns, fk);
      var key := StrOf(ns[|ns|-1].fields, fk);
      if StrOf(last, ID) == key {
        assert forall j :: 0 <= j < |rest| ==> StrOf(rest[j], ID) != key;
      } else {
        assert KnownKey(Edge(true, Tenant, fk), base, ns[|ns|-1]) <==>
          KnownKey(Edge(true, Tenant, fk), rest, ns[|ns|-1]) by {
          assert base == rest + [last];
          assert forall j :: 0 <= j < |rest| ==> base[j] == rest[j];
        }
      }
    }
  }

  /** The lists of all parents together hold every returned neighbour exactly once. */
  lemma {:induction false} ListLengthsSum(base: seq<Row>, ns: seq<NodeV>, fk: Col)
    requires DistinctIds(base)
    requires forall n :: n in ns ==> KnownKey(Edge(true, Tenant, fk), base, n)
    ensures TotalLoaded(base, ns, fk) == |ns|
  {
    if ns == [] {
      NothingLoaded(base, fk);
    } else {
      assert ns[|ns|-1] in ns;
      OneMore(base, ns, fk);
      ListLengthsSum(base, ns[..|ns|-1], fk);
    }
  }

  lemma {:induction false} NothingLoaded(base: seq<Row>, fk: Col)
    ensures TotalLoaded(base, [], fk) == 0
  {
    if base != [] {
      NothingLoaded(base[..|base|-1], fk);
    }
  }

  function SumOfLists(nodes: seq<NodeV>, k: nat): nat
    requires forall n :: n in nodes ==> k < |n.edges| && n.edges[k].Many?
  {
    if nodes == [] then 0 else |nodes[|nodes|-1].edges[k].nodes| + SumOfLists(nodes[..|nodes|-1], k)
  }

  lemma {:induction false} SumIsTotal(nodes: seq<NodeV>, k: nat, base: seq<Row>, ns: seq<NodeV>, fk: Col)
    requires |nodes| == |base|
    requires forall n :: n in nodes ==> k < |n.edges| && n.edges[k].Many?
    requires forall i :: 0 <= i < |nodes| ==> nodes[i].edges[k].nodes == WithKey(ns, fk, StrOf(base[i], ID))
    ensures SumOfLists(nodes, k) == TotalLoaded(base, ns, fk)
  {
    if nodes != [] {
      var n := |nodes| - 1;
      SumIsTotal(nodes[..n], k, base[..n], ns, fk);
    }
  }

  /** The lists of a one-to-many edge, in terms of the returned neighbours. */
  lemma ChildLists(q: Spec, db: DB, k: nat)
    requires WellFormed(q) && ValidDB(db) && k < |q.with| && q.with[k].Some? && EdgesOf(q.entity)[k].many
    requires Run(q, db).1.Ok? && Run(q, db).1.value != []
    ensures var nodes, base, fk := Run(q, db).1.value, Base(q, db), EdgesOf(q.entity)[k].fk;
      var ns := Run(Narrow(EdgesOf(q.entity)[k], q.with[k].value, base), db).1;
      && ns.Ok? && |nodes| == |base|
      && (forall i :: 0 <= i < |nodes| ==>
        k < |nodes[i].edges| && nodes[i].edges[k] == Many(WithKey(ns.value, fk, StrOf(base[i], ID))))
  {
    var e, base, nodes := EdgesOf(q.entity)[k], Base(q, db), Run(q, db).1.value;
    RunResult(q, db);
    OneToManyJoin(q, db, k, 0);
    hide *;
    var ns := Run(Narrow(e, q.with[k].value, base), db).1.value;
    forall i | 0 <= i < |nodes| ensures k < |nodes[i].edges|
      && nodes[i].edges[k] == Many(WithKey(ns, e.fk, StrOf(base[i], ID))) {
      OneToManyJoin(q, db, k, i);
    }
  }

  lemma ChildKeys(q: Spec, db: DB, k: nat)
    requires WellFormed(q) && ValidDB(db) && k < |q.with| && q.with[k].Some? && EdgesOf(q.entity)[k].many
    requires Run(Narrow(EdgesOf(q.entity)[k], q.with[k].value, Base(q, db)), db).1.Ok?
    ensures DistinctIds(Base(q, db))
    ensures forall n :: n in Run(Narrow(EdgesOf(q.entity)[k], q.with[k].value, Base(q, db)), db).1.value ==>
      KnownKey(Edge(true, Tenant, EdgesOf(q.entity)[k].fk), Base(q, db), n)
  {
    var e, base := EdgesOf(q.entity)[k], Base(q, db);
    var _ := BaseRows(q, db);
    var rows := NeighborRows(q, k, base, db);
    hide Run, Base, Narrow, EdgesOf, ValidDB, ValidRow, WellFormed;
    var ns := Run(Narrow(e, q.with[k].value, base), db).1.value;
    forall n | n in ns ensures KnownKey(Edge(true, Tenant, e.fk), base, n) {
      var j :| 0 <= j < |ns| && ns[j] == n;
      assert KnownKey(e, base, ns[j]);
    }
  }

  /** The list lengths of a one-to-many edge sum to the number of returned neighbours. */
  lemma ListsPartitionNeighbors(q: Spec, db: DB, k: nat)
    requires WellFormed(q) && ValidDB(db) && k < |q.with| && q.with[k].Some? && EdgesOf(q.entity)[k].many
    requires Run(q, db).1.Ok? && Run(q, db).1.value != []
    ensures var nodes := Run(q, db).1.value;
      var ns := Run(Narrow(EdgesOf(q.entity)[k], q.with[k].value, Base(q, db)), db).1;
      && ns.Ok? && (forall n :: n in nodes ==> k < |n.edges| && n.edges[k].Many?)
      && SumOfLists(nodes, k) == |ns.value|
  {
    var e, base, nodes := EdgesOf(q.entity)[k], Base(q, db), Run(q, db).1.value;
    ChildLists(q, db, k);
    var ns := Run(Narrow(e, q.with[k].value, base), db).1.value;
    ChildKeys(q, db, k);
    hide *;
    ListLengthsSum(base, ns, e.fk);
    SumIsTotal(nodes, k, base, ns, e.fk);
  }

  // ----- The two directions of an edge -----

  /** Slot k of entity p and slot j of entity c are the two directions of one edge. */
  predicate Inverse(p: Entity, k: nat, c: Entity, j: nat) {
    && k < |EdgesOf(p)| && j < |EdgesOf(c)|
    && EdgesOf(p)[k].many && !EdgesOf(c)[j].many
    && EdgesOf(p)[k].target == c && EdgesOf(c)[j].target == p && EdgesOf(p)[k].fk == EdgesOf(c)[j].fk
  }

  predicate Unfiltered(q: Spec) {
    |q.preds| == 0 && Unpaged(q)
  }

  /** A child is in a parent's loaded list iff the child's loaded parent is that parent. */
  lemma JoinsAreInverse(qp: Spec, k: nat, qc: Spec, j: nat, db: DB, a: nat, b: nat)
    requires WellFormed(qp) && WellFormed(qc) && ValidDB(db) && Inverse(qp.entity, k, qc.entity, j)
    requires qp.with[k].Some? && qc.with[j].Some? && Unfiltered(qp.with[k].value) && Unfiltered(qc.with[j].value)
    requires Run(qp, db).1.Ok? && Run(qc, db).1.Ok?
    requires a < |Run(qp, db).1.value| && b < |Run(qc, db).1.value|
    ensures var parent, child := Run(qp, db).1.value[a], Run(qc, db).1.value[b];
      && k < |parent.edges| && parent.edges[k].Many? && j < |child.edges| && child.edges[j].One?
      && (HasId(parent.edges[k].nodes, StrOf(child.fields, ID)) <==>
          child.edges[j].node.Some? && StrOf(child.edges[j].node.value.fields, ID) == StrOf(parent.fields, ID))
  {
    var parent, child := Run(qp, db).1.value[a], Run(qc, db).1.value[b];
    OneToManyJoin(qp, db, k, a);
    ManyToOneJoin(qc, db, j, b);
    var p := NodeRow(qp, db, a);
    var c := NodeRow(qc, db, b);
    SameLink(db, qp.with[k].value, qc.with[j].value, EdgesOf(qp.entity)[k].fk, p, c);
  }

  /** The row behind a node, which is the row in its place of what the store returns: it gave the node exactly the
      cells of the columns the caller wants that are not NULL, and so its identifier and the join keys of its edges. */
  lemma NodeRow(q: Spec, db: DB, i: nat) returns (r: Row)
    requires WellFormed(q) && ValidDB(db) && Run(q, db).1.Ok? && i < |Run(q, db).1.value|
    ensures var rows := Fetch(db, q.entity, q.preds, q.order, q.offset, q.limit);
      |rows| == |Run(q, db).1.value| && r == rows[i]
    ensures var node := Run(q, db).1.value[i];
      forall c :: (c in node.fields <==> c in r && r[c] != Null && Wants(q, c)) &&
        (c in node.fields ==> node.fields[c] == r[c])
    ensures var node := Run(q, db).1.value[i];
      && r in db.tables[q.entity] && ValidRow(q.entity, r) && MatchesAll(q.preds, r)
      && StrOf(node.fields, ID) == StrOf(r, ID)
      && forall k :: 0 <= k < |q.with| && q.with[k].Some? && !EdgesOf(q.entity)[k].many ==>
           StrOf(node.fields, EdgesOf(q.entity)[k].fk) == StrOf(r, EdgesOf(q.entity)[k].fk)
  {
    RunResult(q, db);
    SelectedColumns(q);
    forall c {
      SelectedIff(q, c);
    }
    var rows := Fetch(db, q.entity, q.preds, q.order, q.offset, q.limit);
    FetchContract(db, q.entity, q.preds, q.order, q.offset, q.limit);
    r := rows[i];
    hide Selected, Wants, Fetch, Run, ValidDB, MatchesAll;
    assert r in rows;
    AssignedKey(Selected(q), r, ID);
  }

  /** A new builder asks for everything: its nodes are the rows of the table, each once and with all its cells, and
      no edge is loaded. */
  lemma NewBuilder(e: Entity, db: DB)
    requires ValidDB(db)
    ensures Run(NewSpec(e), db).1.Ok?
    ensures var nodes := Run(NewSpec(e), db).1.value;
      && (forall i, j :: 0 <= i < j < |nodes| ==> StrOf(nodes[i].fields, ID) != StrOf(nodes[j].fields, ID))
      && (forall i :: 0 <= i < |nodes| ==> true !in nodes[i].loaded)
      && (forall r :: r in db.tables[e] ==> exists i :: 0 <= i < |nodes| && HasCells(nodes[i], e, r))
  {
    var q := NewSpec(e);
    NeverUnexpected(q, db);
    RunResult(q, db);
    var _ := BaseRows(q, db);
    FetchContract(db, e, q.preds, q.order, q.offset, q.limit);
    hide Run, Base, Fetch, HasCells, ValidDB, ValidRow, DistinctIds;
    var nodes, rows := Run(q, db).1.value, Fetch(db, e, q.preds, q.order, q.offset, q.limit);
    forall r | r in db.tables[e] ensures exists i :: 0 <= i < |nodes| && HasCells(nodes[i], e, r) {
      assert MatchesAll(q.preds, r);
      var i :| 0 <= i < |rows| && rows[i] == r;
      NewNode(e, db, i);
    }
  }

  lemma NewNode(e: Entity, db: DB, i: nat)
    requires ValidDB(db) && Run(NewSpec(e), db).1.Ok? && i < |Run(NewSpec(e), db).1.value|
    ensures var q := NewSpec(e);
      var rows := Fetch(db, e, q.preds, q.order, q.offset, q.limit);
      i < |rows| && HasCells(Run(q, db).1.value[i], e, rows[i])
  {
    hide Run, Fetch, ValidDB, ValidRow;
    EdgeKeysAll(e);
    var _ := NodeRow(NewSpec(e), db, i);
  }

  ghost predicate HasCells(n: NodeV, e: Entity, r: Row) {
    forall c :: (c in n.fields <==> c in r && c in Columns(e) && r[c] != Null)
      && (c in n.fields ==> n.fields[c] == r[c])
  }

  lemma SameLink(db: DB, c: Spec, p: Spec, fk: Col, parent: Row, child: Row)
    requires ValidDB(db) && Unfiltered(c) && Unfiltered(p)
    requires parent in db.tables[p.entity] && child in db.tables[c.entity]
    requires fk in child && child[fk].Str? && ValidRow(p.entity, parent)
    ensures Joins(db, c, fk, StrOf(parent, ID), StrOf(child, ID)) <==> StrOf(child, fk) == StrOf(parent, ID)
    ensures StrOf(child, fk) == StrOf(parent, ID) ==> Joins(db, p, ID, StrOf(child, fk), StrOf(child, fk))
  {
    if Joins(db, c, fk, StrOf(parent, ID), StrOf(child, ID)) {
      var r: Row :| r in db.tables[c.entity] && fk in r && r[fk] == Str(StrOf(parent, ID))
        && StrOf(r, ID) == StrOf(child, ID);
      var x, y :| 0 <= x < |db.tables[c.entity]| && 0 <= y < |db.tables[c.entity]|
        && db.tables[c.entity][x] == r && db.tables[c.entity][y] == child;
      assert x == y;
    }
    assert MatchesAll(c.preds, child) && MatchesAll(p.preds, parent);
  }
}
