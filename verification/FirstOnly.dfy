/** First and Only: what they report, and the limit they leave on the builder. */
module FirstOnly {
  import opened Schema
  import opened Store
  import opened Plan
  import opened EagerLoad
  import opened Nodes
  import opened QueryObjects
  import Rerun

  datatype Error = Failed(e: Plan.Error) | NotFound | NotSingular

  /** The rows a query would return without a limit. */
  function Candidates(q: Spec, db: DB): seq<Row>
    requires q.entity in db.tables
  {
    Fetch(db, q.entity, q.preds, q.order, q.offset, None)
  }

  /** How many of the candidates a limit lets through; a limit of zero lets all through. */
  function Cut(n: nat, rows: seq<Row>): nat {
    if 0 < n < |rows| then n else |rows|
  }

  /** A run with a limit, when it does not fail, returns the first candidates. */
  lemma LimitedRun(q: Spec, n: nat, db: DB)
    requires WellFormed(q) && ValidDB(db)
    ensures var p := q.(limit := Some(n));
      var rows := Candidates(q, db);
      Run(p, db).1.Ok? ==>
        && |Run(p, db).1.value| == Cut(n, rows)
        && forall i :: 0 <= i < |Run(p, db).1.value| ==> StrOf(Run(p, db).1.value[i].fields, ID) == StrOf(rows[i], ID)
  {
    var p := q.(limit := Some(n));
    if Run(p, db).1.Ok? {
      RunResult(p, db);
      SelectedColumns(p);
      var rows := Fetch(db, p.entity, p.preds, p.order, p.offset, p.limit);
      forall i | 0 <= i < |rows| ensures StrOf(Base(p, db)[i], ID) == StrOf(rows[i], ID) {
        AssignedKey(Selected(p), rows[i], ID);
      }
    }
  }

  /** The entity n stands for the node v of the run, with everything it points at. */
  ghost predicate Returns(n: Node, v: NodeV, H: set<Node>)
    reads H
  {
    Graph(H) && n in H && n.val == v
  }

  /** The first entity of a query: the first node of a run with a limit of one, edges included. */
  method First(q: Query, db: DB) returns (r: Result<Node, Error>, ghost H: set<Node>)
    requires q.Valid() && ValidDB(db)
    modifies q.Repr
    ensures q.Valid() && q.Contents() == Run(old(q.Contents()).(limit := Some(1)), db).0
    ensures fresh(H)
    ensures var rows := Candidates(old(q.Contents()), db);
      match Run(old(q.Contents()).(limit := Some(1)), db).1
      case Err(e) => r == Err(Failed(e))
      case Ok(vs) =>
        if rows == [] then r == Err(NotFound)
        else r.Ok? && vs != [] && Returns(r.value, vs[0], H) && r.value.GetId() == StrOf(rows[0], ID)
  {
    ghost var q0 := q.Contents();
    LimitedRun(q0, 1, db);
    q.Limit(1);
    var nodes;
    nodes, H := q.All(db);
    match nodes
    case Err(e) =>
      return Err(Failed(e)), H;
    case Ok(ns) =>
      if |ns| == 0 {
        return Err(NotFound), H;
      }
      ValueIs(ns[0], ns, H);
      return Ok(ns[0]), H;
  }

  /** The only entity of a query, edges included; a limit of two is enough to see that there are more. */
  method Only(q: Query, db: DB) returns (r: Result<Node, Error>, ghost H: set<Node>)
    requires q.Valid() && ValidDB(db)
    modifies q.Repr
    ensures q.Valid() && q.Contents() == Run(old(q.Contents()).(limit := Some(2)), db).0
    ensures fresh(H)
    ensures var rows := Candidates(old(q.Contents()), db);
      match Run(old(q.Contents()).(limit := Some(2)), db).1
      case Err(e) => r == Err(Failed(e))
      case Ok(vs) =>
        if rows == [] then r == Err(NotFound)
        else if |rows| == 1 then
          r.Ok? && |vs| == 1 && Returns(r.value, vs[0], H) && r.value.GetId() == StrOf(rows[0], ID)
        else r == Err(NotSingular)
  {
    ghost var q0 := q.Contents();
    LimitedRun(q0, 2, db);
    q.Limit(2);
    var nodes;
    nodes, H := q.All(db);
    match nodes
    case Err(e) =>
      return Err(Failed(e)), H;
    case Ok(ns) =>
      if |ns| == 1 {
        ValueIs(ns[0], ns, H);
        return Ok(ns[0]), H;
      } else if |ns| == 0 {
        return Err(NotFound), H;
      }
      return Err(NotSingular), H;
  }

  lemma ValueIs(n: Node, ns: seq<Node>, H: set<Node>)
    requires Graph(H) && n in ns && forall m :: m in ns ==> m in H
    ensures n.GetId() == StrOf(n.val.fields, ID)
  {
    assert NodeOk(n, H);
  }

  /** The limit stays on the builder: asking it for all entities after First or Only, over an unchanged store,
      returns what that call had fetched. Those are all candidates iff the limit is zero, which is none, or they
      fit under it. */
  lemma LimitSticks(q: Spec, n: nat, db: DB)
    requires WellFormed(q) && ValidDB(db) && AllValid(q)
    ensures var p := q.(limit := Some(n));
      var after, rows := Run(p, db).0, Candidates(q, db);
      && after.limit == Some(n)
      && Run(after, db).1 == Run(p, db).1
      && Run(after, db).1.Ok? && |Run(after, db).1.value| == Cut(n, rows)
      && (|Run(after, db).1.value| == |rows| <==> n == 0 || |rows| <= n)
  {
    NeverUnexpected(q.(limit := Some(n)), db);
    LimitedRun(q, n, db);
    Rerun.RunTwice(q.(limit := Some(n)), db);
  }
}
