/** The accessors that report the outcome of an eager load. */
module Accessors {
  import opened Schema
  import opened Store
  import opened Plan
  import opened EagerLoad

  datatype Error = NotLoaded | NotFound

  /** UserOrErr, TenantOrErr and their like: the pointer is looked at first, then the loaded flag. */
  function OneOrErr(n: NodeV, k: nat): (r: Result<NodeV, Error>)
    requires k < |n.edges| && k < |n.loaded| && n.edges[k].One?
  {
    if n.edges[k].node.Some? then Ok(n.edges[k].node.value)
    else if n.loaded[k] then Err(NotFound) else Err(NotLoaded)
  }

  /** TenantUsersOrErr and its like: only the loaded flag is looked at. */
  function ManyOrErr(n: NodeV, k: nat): (r: Result<seq<NodeV>, Error>)
    requires k < |n.edges| && k < |n.loaded| && n.edges[k].Many?
  {
    if n.loaded[k] then Ok(n.edges[k].nodes) else Err(NotLoaded)
  }

  /** A unique edge of a queried node reports "not loaded" iff the query did not ask for it. When it did, it
      reports "not found" iff its sub-query returned no neighbour that the node's key names, and over an unpaged
      sub-query iff the store has none that the sub-query's own predicates accept. */
  lemma OneReports(q: Spec, db: DB, k: nat, i: nat)
    requires WellFormed(q) && ValidDB(db) && k < |q.with| && !EdgesOf(q.entity)[k].many
    requires Run(q, db).1.Ok? && i < |Run(q, db).1.value|
    ensures var n := Run(q, db).1.value[i];
      var e, key := EdgesOf(q.entity)[k], StrOf(n.fields, EdgesOf(q.entity)[k].fk);
      && k < |n.edges| && k < |n.loaded| && n.edges[k].One?
      && (OneOrErr(n, k) == Err(NotLoaded) <==> q.with[k].None?)
      && (q.with[k].Some? ==>
           var ns := Run(Narrow(e, q.with[k].value, Base(q, db)), db).1;
           && ns.Ok?
           && (OneOrErr(n, k) == Err(NotFound) <==> !HasId(ns.value, key))
           && (Unpaged(q.with[k].value) ==>
             (OneOrErr(n, k) == Err(NotFound) <==> !Joins(db, q.with[k].value, ID, key, key))))
      && (OneOrErr(n, k).Ok? ==> StrOf(OneOrErr(n, k).value.fields, ID) == key)
  {
    RunResult(q, db);
    var n := Run(q, db).1.value[i];
    assert SlotLoaded(q, k, Base(q, db), i, n.edges[k], db);
    if q.with[k].Some? {
      ManyToOneJoin(q, db, k, i);
      hide Run, Joins, SlotLoaded;
      if n.edges[k].node.Some? {
        assert n.edges[k].node == Some(n.edges[k].node.value);
      }
    }
  }

  /** A list edge of a queried node reports "not loaded" iff the query did not ask for it; otherwise it
      gives the joined list, be it empty. */
  lemma ManyReports(q: Spec, db: DB, k: nat, i: nat)
    requires WellFormed(q) && ValidDB(db) && k < |q.with| && EdgesOf(q.entity)[k].many
    requires Run(q, db).1.Ok? && i < |Run(q, db).1.value|
    ensures var n := Run(q, db).1.value[i];
      && k < |n.edges| && k < |n.loaded| && n.edges[k].Many?
      && (ManyOrErr(n, k) == Err(NotLoaded) <==> q.with[k].None?)
      && (q.with[k].Some? && Unpaged(q.with[k].value) ==>
           forall id :: HasId(ManyOrErr(n, k).value, id) <==>
             Joins(db, q.with[k].value, EdgesOf(q.entity)[k].fk, StrOf(n.fields, ID), id))
  {
    RunResult(q, db);
    var n := Run(q, db).1.value[i];
    assert SlotLoaded(q, k, Base(q, db), i, n.edges[k], db);
    if q.with[k].Some? {
      OneToManyJoin(q, db, k, i);
    }
  }
}
