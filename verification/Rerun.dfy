/** Running one query object again. Every run with rows appends one more key-set predicate to each
    eager-load sub-query; these lemmas say when that is harmless. */
module Rerun {
  import opened Schema
  import opened Store
  import opened Plan
  import opened EagerLoad

  /** The same query, up to predicate lists that accept the same rows. */
  ghost predicate Same(q: Spec, q': Spec)
    requires WellFormed(q) && WellFormed(q')
  {
    && q' == q.(preds := q'.preds, with := q'.with)
    && (forall r :: MatchesAll(q.preds, r) <==> MatchesAll(q'.preds, r))
    && (forall k :: 0 <= k < |q.with| ==> q.with[k].Some? == q'.with[k].Some?)
    && (forall k :: 0 <= k < |q.with| && q.with[k].Some? ==> Same(q.with[k].value, q'.with[k].value))
  }

  lemma {:induction false} SameReflexive(q: Spec)
    requires WellFormed(q)
    ensures Same(q, q)
  {
    forall k | 0 <= k < |q.with| && q.with[k].Some? ensures Same(q.with[k].value, q.with[k].value) {
      SameReflexive(q.with[k].value);
    }
  }

  lemma {:induction false} SameTransitive(a: Spec, b: Spec, c: Spec)
    requires WellFormed(a) && WellFormed(b) && WellFormed(c) && Same(a, b) && Same(b, c)
    ensures Same(a, c)
  {
    forall k | 0 <= k < |a.with| && a.with[k].Some? ensures Same(a.with[k].value, c.with[k].value) {
      SameTransitive(a.with[k].value, b.with[k].value, c.with[k].value);
    }
  }

  /** Slots of two queries that hold the same sub-queries. */
  ghost predicate SameSlot(x: Option<Spec>, y: Option<Spec>) {
    x.Some? == y.Some? && (x.Some? ==> WellFormed(x.value) && WellFormed(y.value) && Same(x.value, y.value))
  }

  ghost predicate SameSlots(a: seq<Option<Spec>>, b: seq<Option<Spec>>) {
    |a| == |b| && forall k :: 0 <= k < |a| ==> SameSlot(a[k], b[k])
  }

  lemma SlotsCons(x: Option<Spec>, y: Option<Spec>, a: seq<Option<Spec>>, b: seq<Option<Spec>>)
    requires SameSlot(x, y) && SameSlots(a, b)
    ensures SameSlots([x] + a, [y] + b)
  {
  }

  lemma SlotsReflexive(es: seq<Edge>, a: seq<Option<Spec>>)
    requires |a| == |es| && forall k :: 0 <= k < |a| ==> SlotFits(es[k], a[k])
    ensures SameSlots(a, a)
  {
    forall k | 0 <= k < |a| && a[k].Some? ensures SameSlot(a[k], a[k]) {
      assert SlotFits(es[k], a[k]);
      SameReflexive(a[k].value);
    }
  }

  lemma NarrowSame(e: Edge, c: Spec, c': Spec, base: seq<Row>)
    requires WellFormed(c) && WellFormed(c') && Same(c, c')
    ensures Same(Narrow(e, c, base), Narrow(e, c', base))
  {
    NarrowedPreds(e, c, base);
    NarrowedPreds(e, c', base);
  }

  lemma SameBase(q: Spec, q': Spec, db: DB)
    requires WellFormed(q) && WellFormed(q') && Same(q, q') && HasTables(db)
    ensures Base(q, db) == Base(q', db)
  {
    FilterCongruence(q.preds, q'.preds, db.tables[q.entity]);
    assert Loaded(q) == Loaded(q');
    assert Selected(q) == Selected(q');
    assert Base(q, db) == Base(q', db);
  }

  /** Same queries return the same nodes and stay the same. */
  lemma {:induction false} SameRuns(q: Spec, q': Spec, db: DB)
    requires WellFormed(q) && WellFormed(q') && Same(q, q') && HasTables(db)
    ensures Run(q, db).1 == Run(q', db).1
    ensures Same(Run(q, db).0, Run(q', db).0)
    decreases q.with, |q.with| + 1
  {
    SameBase(q, q', db);
    var base := Base(q, db);
    if FirstInvalid(q.fields, q.entity).None? && base != [] {
      assert Loaded(q) == Loaded(q');
      assert Fresh(q, base) == Fresh(q', base);
      SameLoads(q, q', 0, base, Fresh(q, base), db);
    }
  }

  lemma {:induction false} SameLoad(q: Spec, q': Spec, k: nat, base: seq<Row>, nodes: seq<NodeV>, db: DB)
    requires WellFormed(q) && WellFormed(q') && q.entity == q'.entity && HasTables(db)
    requires k < |q.with| && |nodes| == |base| && Shaped(nodes, |q.with|) && SameSlot(q.with[k], q'.with[k])
    ensures LoadEdge(q, k, base, nodes, db).1 == LoadEdge(q', k, base, nodes, db).1
    ensures SameSlot(LoadEdge(q, k, base, nodes, db).0, LoadEdge(q', k, base, nodes, db).0)
    decreases q.with, |q.with| - k, 0
  {
    if q.with[k].Some? {
      var e := EdgesOf(q.entity)[k];
      NarrowSame(e, q.with[k].value, q'.with[k].value, base);
      SameRuns(Narrow(e, q.with[k].value, base), Narrow(e, q'.with[k].value, base), db);
    }
  }

  lemma {:induction false} SameLoads(q: Spec, q': Spec, k: nat, base: seq<Row>, nodes: seq<NodeV>, db: DB)
    requires WellFormed(q) && WellFormed(q') && q.entity == q'.entity && HasTables(db)
    requires k <= |q.with| && |nodes| == |base| && Shaped(nodes, |q.with|) && SameSlots(q.with, q'.with)
    ensures LoadEdges(q, k, base, nodes, db).1 == LoadEdges(q', k, base, nodes, db).1
    ensures SameSlots(LoadEdges(q, k, base, nodes, db).0, LoadEdges(q', k, base, nodes, db).0)
    decreases q.with, |q.with| - k, 1
  {
    if k < |q.with| {
      SameLoad(q, q', k, base, nodes, db);
      var w, w' := LoadEdge(q, k, base, nodes, db).0, LoadEdge(q', k, base, nodes, db).0;
      var r := LoadEdge(q, k, base, nodes, db).1;
      if r.Ok? {
        SameLoads(q, q', k + 1, base, r.value, db);
        SlotsCons(w, w', LoadEdges(q, k + 1, base, r.value, db).0, LoadEdges(q', k + 1, base, r.value, db).0);
      } else {
        SlotsCons(w, w', q.with[k+1..], q'.with[k+1..]);
      }
    }
  }

  /** Narrowing a sub-query that an earlier run already narrowed to the same keys changes nothing. */
  lemma NarrowAgain(e: Edge, c: Spec, c': Spec, base: seq<Row>)
    requires WellFormed(c) && WellFormed(c') && c' == Narrow(e, c, base).(with := c'.with)
    ensures Same(Narrow(e, c', base), c')
  {
    NarrowedPreds(e, c, base);
    NarrowedPreds(e, c', base);
    forall k | 0 <= k < |c'.with| && c'.with[k].Some? ensures Same(c'.with[k].value, c'.with[k].value) {
      SameReflexive(c'.with[k].value);
    }
  }

  /** Running a query object twice over an unchanged store returns the same nodes with the same edges at
      every depth, and the second run leaves an equivalent object. */
  lemma {:induction false} RunTwice(q: Spec, db: DB)
    requires WellFormed(q) && HasTables(db)
    ensures var q1 := Run(q, db).0;
      Run(q1, db).1 == Run(q, db).1 && Same(Run(q1, db).0, q1)
    decreases q.with, |q.with| + 1
  {
    var q1 := Run(q, db).0;
    var base := Base(q, db);
    if FirstInvalid(q.fields, q.entity).Some? || base == [] {
      SameReflexive(q);
    } else {
      assert Loaded(q) == Loaded(q1);
      assert Selected(q) == Selected(q1);
      assert Base(q1, db) == base;
      assert Fresh(q1, base) == Fresh(q, base);
      LoadTwice(q, q1, 0, base, Fresh(q, base), db);
    }
  }

  lemma {:induction false} EdgeTwice(q: Spec, q1: Spec, k: nat, base: seq<Row>, nodes: seq<NodeV>, db: DB)
    requires WellFormed(q) && WellFormed(q1) && HasTables(db) && q1.entity == q.entity
    requires k < |q.with| && |nodes| == |base|
    requires Shaped(nodes, |q.with|)
    requires q1.with[k] == LoadEdge(q, k, base, nodes, db).0
    ensures LoadEdge(q1, k, base, nodes, db).1 == LoadEdge(q, k, base, nodes, db).1
    ensures SameSlot(LoadEdge(q1, k, base, nodes, db).0, q1.with[k])
    decreases q.with, |q.with| - k, 0
  {
    if q.with[k].Some? {
      var e := EdgesOf(q.entity)[k];
      var n, c' := Narrow(e, q.with[k].value, base), q1.with[k].value;
      RunTwice(n, db);
      NarrowAgain(e, q.with[k].value, c', base);
      SameRuns(Narrow(e, c', base), c', db);
      SameTransitive(Run(Narrow(e, c', base), db).0, Run(c', db).0, c');
    }
  }

  /** Loading from slot k on is loading slot k and then, unless that failed, from the next slot on. */
  lemma LoadsUnfold(q: Spec, k: nat, base: seq<Row>, nodes: seq<NodeV>, db: DB)
    requires WellFormed(q) && HasTables(db) && k < |q.with| && |nodes| == |base| && Shaped(nodes, |q.with|)
    ensures var (w, r) := LoadEdge(q, k, base, nodes, db);
      match r
      case Err(err) => LoadEdges(q, k, base, nodes, db) == ([w] + q.with[k+1..], Err(err))
      case Ok(next) =>
        && |next| == |base| && Shaped(next, |q.with|)
        && var (ws, r') := LoadEdges(q, k + 1, base, next, db);
          LoadEdges(q, k, base, nodes, db) == ([w] + ws, r')
  {
    hide Run, Narrow;
  }

  lemma NoLoads(q: Spec, base: seq<Row>, nodes: seq<NodeV>, db: DB)
    requires WellFormed(q) && HasTables(db) && |nodes| == |base| && Shaped(nodes, |q.with|)
    ensures LoadEdges(q, |q.with|, base, nodes, db) == ([], Ok(nodes))
    ensures SameSlots([], q.with[|q.with|..])
  {
  }

  lemma RestReflexive(q: Spec, k: nat)
    requires WellFormed(q) && k <= |q.with|
    ensures SameSlots(q.with[k..], q.with[k..])
  {
    SlotsReflexive(EdgesOf(q.entity)[k..], q.with[k..]);
  }

  lemma {:induction false} LoadTwice(q: Spec, q1: Spec, k: nat, base: seq<Row>, nodes: seq<NodeV>, db: DB)
    requires WellFormed(q) && WellFormed(q1) && HasTables(db) && q1.entity == q.entity
    requires k <= |q.with| && |nodes| == |base|
    requires Shaped(nodes, |q.with|)
    requires q1.with[k..] == LoadEdges(q, k, base, nodes, db).0
    ensures LoadEdges(q1, k, base, nodes, db).1 == LoadEdges(q, k, base, nodes, db).1
    ensures SameSlots(LoadEdges(q1, k, base, nodes, db).0, q1.with[k..])
    decreases q.with, |q.with| - k, 1
  {
    hide Run, LoadEdge, LoadEdges, Narrow, Same, SameSlot, SlotFits;
    if k == |q.with| {
      NoLoads(q, base, nodes, db);
      NoLoads(q1, base, nodes, db);
    } else {
      LoadsUnfold(q, k, base, nodes, db);
      LoadsUnfold(q1, k, base, nodes, db);
      var r := LoadEdge(q, k, base, nodes, db).1;
      assert q1.with[k] == q1.with[k..][0];
      assert q1.with[k..] == [q1.with[k]] + q1.with[k+1..];
      EdgeTwice(q, q1, k, base, nodes, db);
      if r.Ok? {
        LoadTwice(q, q1, k + 1, base, r.value, db);
        SlotsCons(LoadEdge(q1, k, base, nodes, db).0, q1.with[k], LoadEdges(q1, k + 1, base, r.value, db).0,
          q1.with[k+1..]);
      } else {
        RestReflexive(q1, k + 1);
        SlotsCons(LoadEdge(q1, k, base, nodes, db).0, q1.with[k], q1.with[k+1..], q1.with[k+1..]);
      }
    }
  }

  /** The contents of a query object after n runs. */
  function RunTimes(q: Spec, db: DB, n: nat): (r: Spec)
    requires WellFormed(q) && HasTables(db)
    ensures WellFormed(r)
  {
    if n == 0 then q else Run(RunTimes(q, db, n - 1), db).0
  }

  /** Every further run over an unchanged store returns what the first one did. */
  lemma {:induction false} RerunStable(q: Spec, db: DB, n: nat)
    requires WellFormed(q) && HasTables(db)
    ensures Run(RunTimes(q, db, n), db).1 == Run(q, db).1
    ensures n > 0 ==> Same(RunTimes(q, db, n), Run(q, db).0)
  {
    if n == 1 {
      RunTwice(q, db);
      SameReflexive(Run(q, db).0);
    } else if n > 1 {
      RerunStable(q, db, n - 1);
      var before, q1 := RunTimes(q, db, n - 1), Run(q, db).0;
      SameRuns(before, q1, db);
      RunTwice(q, db);
      SameTransitive(Run(before, db).0, Run(q1, db).0, q1);
      SameRuns(RunTimes(q, db, n), q1, db);
    }
  }

  // ----- What a run leaves in one slot -----

  /** The edges in slots i up to k, as far as they were requested, load without an error. */
  ghost predicate LoadsBefore(q: Spec, i: nat, k: nat, base: seq<Row>, db: DB)
    requires WellFormed(q) && HasTables(db) && i <= k <= |q.with|
  {
    forall t :: i <= t < k && q.with[t].Some? ==> Run(Narrow(EdgesOf(q.entity)[t], q.with[t].value, base), db).1.Ok?
  }

  /** A run of q gets as far as loading the edge in slot k. */
  ghost predicate Reaches(q: Spec, k: nat, db: DB)
    requires WellFormed(q) && HasTables(db) && k < |q.with|
  {
    FirstInvalid(q.fields, q.entity).None? && Base(q, db) != [] && LoadsBefore(q, 0, k, Base(q, db), db)
  }

  /** Loading one edge fails only when its sub-query does. */
  lemma LoadFails(q: Spec, k: nat, base: seq<Row>, nodes: seq<NodeV>, db: DB)
    requires WellFormed(q) && ValidDB(db) && k < |q.with| && |nodes| == |base| && Shaped(nodes, |q.with|)
    ensures LoadEdge(q, k, base, nodes, db).1.Ok? <==> LoadsBefore(q, k, k + 1, base, db)
    ensures q.with[k].Some? ==>
      && SlotFits(EdgesOf(q.entity)[k], q.with[k])
      && LoadEdge(q, k, base, nodes, db).0 == Some(Run(Narrow(EdgesOf(q.entity)[k], q.with[k].value, base), db).0)
  {
    if q.with[k].Some? {
      var n := Narrow(EdgesOf(q.entity)[k], q.with[k].value, base);
      if Run(n, db).1.Ok? {
        var _ := NeighborRows(q, k, base, db);
      }
    }
  }

  /** What loading leaves in slot j: the narrowed and run sub-query, unless an earlier edge failed. */
  lemma {:induction false} SlotAfterLoads(q: Spec, k: nat, j: nat, base: seq<Row>, nodes: seq<NodeV>, db: DB)
    requires WellFormed(q) && ValidDB(db) && HasTables(db)
    requires k <= j < |q.with| && q.with[j].Some? && |nodes| == |base|
    requires Shaped(nodes, |q.with|)
    ensures SlotFits(EdgesOf(q.entity)[j], q.with[j])
    ensures LoadEdges(q, k, base, nodes, db).0[j-k] ==
      if LoadsBefore(q, k, j, base, db) then Some(Run(Narrow(EdgesOf(q.entity)[j], q.with[j].value, base), db).0)
      else q.with[j]
    decreases j - k
  {
    hide *;
    SlotsFit(q);
    LoadFails(q, k, base, nodes, db);
    LoadsUnfold(q, k, base, nodes, db);
    BeforeSplits(q, k, j, base, db);
    var (w, r) := LoadEdge(q, k, base, nodes, db);
    if k < j && r.Ok? {
      SlotAfterLoads(q, k + 1, j, base, r.value, db);
    }
  }

  lemma SlotsFit(q: Spec)
    requires WellFormed(q)
    ensures |q.with| == |EdgesOf(q.entity)|
    ensures forall k :: 0 <= k < |q.with| ==> SlotFits(EdgesOf(q.entity)[k], q.with[k])
  {
  }

  lemma BeforeSplits(q: Spec, k: nat, j: nat, base: seq<Row>, db: DB)
    requires WellFormed(q) && HasTables(db) && k <= j < |q.with|
    ensures k == j ==> LoadsBefore(q, k, j, base, db)
    ensures k < j ==> (LoadsBefore(q, k, j, base, db) <==>
      LoadsBefore(q, k, k + 1, base, db) && LoadsBefore(q, k + 1, j, base, db))
  {
    hide Run, Narrow;
  }

  /** What a run leaves in slot k. */
  lemma AfterRun(p: Spec, k: nat, db: DB)
    requires WellFormed(p) && ValidDB(db) && k < |p.with| && p.with[k].Some?
    ensures SlotFits(EdgesOf(p.entity)[k], p.with[k])
    ensures var n := Narrow(EdgesOf(p.entity)[k], p.with[k].value, Base(p, db));
      && Run(p, db).0.with[k] == (if Reaches(p, k, db) then Some(Run(n, db).0) else p.with[k])
      && Run(n, db).0 == n.(with := Run(n, db).0.with)
      && n.preds == p.with[k].value.preds + [KeyPred(EdgesOf(p.entity)[k], Base(p, db))]
      && n.limit == p.with[k].value.limit && n.offset == p.with[k].value.offset
  {
    hide Run, LoadEdges, LoadEdge, Base, Fresh, Selected, Same;
    SlotAfterRun(p, k, db);
  }

  lemma SlotAfterRun(p: Spec, k: nat, db: DB)
    requires WellFormed(p) && ValidDB(db) && HasTables(db) && k < |p.with| && p.with[k].Some?
    ensures SlotFits(EdgesOf(p.entity)[k], p.with[k])
    ensures Run(p, db).0.with[k] ==
      if Reaches(p, k, db) then Some(Run(Narrow(EdgesOf(p.entity)[k], p.with[k].value, Base(p, db)), db).0)
      else p.with[k]
  {
    hide Run, LoadEdges, LoadEdge, Base, Fresh, Selected, ValidDB, Same;
    SlotsFit(p);
    RunLoads(p, db);
    var base := Base(p, db);
    if FirstInvalid(p.fields, p.entity).None? && base != [] {
      SlotAfterLoads(p, 0, k, base, Fresh(p, base), db);
    }
  }

  lemma RunLoads(p: Spec, db: DB)
    requires WellFormed(p) && HasTables(db)
    ensures var base := Base(p, db);
      && |Fresh(p, base)| == |base| && Shaped(Fresh(p, base), |p.with|)
      && Run(p, db).0.with ==
           if FirstInvalid(p.fields, p.entity).None? && base != [] then LoadEdges(p, 0, base, Fresh(p, base), db).0
           else p.with
  {
    hide LoadEdges, LoadEdge;
  }

  lemma {:induction false} RunStaysValid(q: Spec, db: DB)
    requires WellFormed(q) && ValidDB(db) && AllValid(q)
    ensures AllValid(Run(q, db).0)
    decreases q.with
  {
    var q1 := Run(q, db).0;
    forall k | 0 <= k < |q1.with| && q1.with[k].Some? ensures AllValid(q1.with[k].value) {
      assert q.with[k].Some? by {
        RunSlots(q, db);
      }
      AfterRun(q, k, db);
      NarrowStaysValid(q, k, Base(q, db));
      RunStaysValid(Narrow(EdgesOf(q.entity)[k], q.with[k].value, Base(q, db)), db);
    }
  }

  lemma RunSlots(q: Spec, db: DB)
    requires WellFormed(q) && HasTables(db)
    ensures forall k :: 0 <= k < |q.with| ==> Run(q, db).0.with[k].Some? == q.with[k].Some?
  {
  }
}
