/** What running a query means: a pure evaluator over the contents of a query tree. The query objects of
    module Query are proved against it, and the laws of eager loading are stated about it. */
module Plan {
  import opened Schema
  import opened Store

  /** The contents of a query builder and of the eager-load builders under it, one slot per edge. */
  datatype Spec = Spec(entity: Entity, fields: seq<Col>, limit: Option<nat>, offset: Option<nat>,
                       unique: Option<bool>, order: seq<OrderTerm>, preds: seq<Pred>, with: seq<Option<Spec>>)

  /** The contents of an entity returned by a query. */
  datatype NodeV = NodeV(fields: Row, edges: seq<EdgeV>, loaded: seq<bool>)

  datatype EdgeV = Many(nodes: seq<NodeV>) | One(node: Option<NodeV>)

  datatype Error =
    | InvalidField(c: Col)
    | UnexpectedForeignKey(key: Id)

  /** One slot per edge of the entity, each holding a query of the edge's target. */
  predicate WellFormed(q: Spec) {
    && |q.with| == |EdgesOf(q.entity)|
    && forall k :: 0 <= k < |q.with| && q.with[k].Some? ==>
         q.with[k].value.entity == EdgesOf(q.entity)[k].target && WellFormed(q.with[k].value)
  }

  predicate SlotFits(e: Edge, w: Option<Spec>) {
    w.Some? ==> w.value.entity == e.target && WellFormed(w.value)
  }

  /** The contents of a new builder. */
  function NewSpec(e: Entity): (q: Spec)
    ensures WellFormed(q)
  {
    Spec(e, [], None, None, None, [], [], seq(|EdgesOf(e)|, _ => None))
  }

  // ----- Columns -----

  function AppendOnce(cs: seq<Col>, c: Col): seq<Col> {
    if c in cs then cs else cs + [c]
  }

  function Without(cs: seq<Col>, c: Col): (r: seq<Col>)
    ensures forall x :: x in r <==> x in cs && x != c
  {
    if cs == [] then [] else (if cs[0] == c then [] else [cs[0]]) + Without(cs[1..], c)
  }

  /** Which edges of a query are eager-loaded. */
  function Loaded(q: Spec): seq<bool> {
    seq(|q.with|, k requires 0 <= k < |q.with| => q.with[k].Some?)
  }

  /** The foreign keys of requested many-to-one edges, from slot k on, added to the selection. */
  function AddKeys(es: seq<Edge>, loaded: seq<bool>, k: nat, cs: seq<Col>): (r: seq<Col>)
    requires |loaded| == |es| && k <= |es|
    ensures forall x :: x in cs ==> x in r
    ensures forall j :: k <= j < |es| && loaded[j] && !es[j].many ==> es[j].fk in r
    decreases |es| - k
  {
    if k == |es| then cs
    else AddKeys(es, loaded, k + 1, if loaded[k] && !es[k].many then AppendOnce(cs, es[k].fk) else cs)
  }

  /** The columns a query selects. */
  function Selected(q: Spec): seq<Col>
    requires WellFormed(q)
  {
    if q.fields == [] then Columns(q.entity)
    else AddKeys(EdgesOf(q.entity), Loaded(q), 0, [ID] + Without(q.fields, ID))
  }

  /** The struct fields that assigning a row leaves set: NULL cells leave the zero value. */
  function Assigned(cols: seq<Col>, r: Row): Row {
    map c | c in cols && c in r && r[c] != Null :: r[c]
  }

  // ----- Joins -----

  function Ids(rows: seq<Row>): (r: seq<Id>)
    ensures |r| == |rows| && forall i :: 0 <= i < |r| ==> r[i] == StrOf(rows[i], ID)
  {
    seq(|rows|, i requires 0 <= i < |rows| => StrOf(rows[i], ID))
  }

  /** The distinct strings under column c, in order of first appearance. */
  function DistinctKeys(rows: seq<Row>, c: Col): (r: seq<Id>)
    ensures forall k :: k in r <==> exists i :: 0 <= i < |rows| && StrOf(rows[i], c) == k
    ensures forall i, j :: 0 <= i < j < |r| ==> r[i] != r[j]
  {
    if rows == [] then [] else
    var before := DistinctKeys(rows[..|rows|-1], c);
    var k := StrOf(rows[|rows|-1], c);
    if k in before then before else before + [k]
  }

  /** The neighbours whose column c holds k, in returned order. */
  function WithKey(ns: seq<NodeV>, c: Col, k: Id): (r: seq<NodeV>)
    ensures forall n :: n in r <==> n in ns && StrOf(n.fields, c) == k
  {
    if ns == [] then [] else
    var before := WithKey(ns[..|ns|-1], c, k);
    if StrOf(ns[|ns|-1].fields, c) == k then before + [ns[|ns|-1]] else before
  }

  /** The last neighbour whose column c holds k. */
  function LastWithKey(ns: seq<NodeV>, c: Col, k: Id): Option<NodeV> {
    if ns == [] then None
    else if StrOf(ns[|ns|-1].fields, c) == k then Some(ns[|ns|-1])
    else LastWithKey(ns[..|ns|-1], c, k)
  }

  /** The index map keeps the last node of each identifier. */
  predicate LastOfId(base: seq<Row>, i: nat)
    requires i < |base|
  {
    forall j :: i < j < |base| ==> StrOf(base[j], ID) != StrOf(base[i], ID)
  }

  function ManyFor(base: seq<Row>, i: nat, ns: seq<NodeV>, fk: Col): seq<NodeV>
    requires i < |base|
  {
    if LastOfId(base, i) then WithKey(ns, fk, StrOf(base[i], ID)) else []
  }

  predicate KnownKey(e: Edge, base: seq<Row>, n: NodeV) {
    if e.many then exists i :: 0 <= i < |base| && StrOf(base[i], ID) == StrOf(n.fields, e.fk)
    else exists i :: 0 <= i < |base| && StrOf(base[i], e.fk) == StrOf(n.fields, ID)
  }

  function EdgeFor(e: Edge, base: seq<Row>, i: nat, ns: seq<NodeV>): EdgeV
    requires i < |base|
  {
    if e.many then Many(ManyFor(base, i, ns, e.fk))
    else One(LastWithKey(ns, ID, StrOf(base[i], e.fk)))
  }

  /** The foreign key or identifier that the loader did not ask for. */
  function KeyOf(e: Edge, n: NodeV): Id {
    StrOf(n.fields, if e.many then e.fk else ID)
  }

  function FirstUnknown(e: Edge, base: seq<Row>, ns: seq<NodeV>): (r: Option<Id>)
    ensures r.None? <==> forall n :: n in ns ==> KnownKey(e, base, n)
  {
    if ns == [] then None
    else
      var before := FirstUnknown(e, base, ns[..|ns|-1]);
      if before.Some? then before
      else if KnownKey(e, base, ns[|ns|-1]) then None else Some(KeyOf(e, ns[|ns|-1]))
  }

  /** Every node has one place per edge. */
  ghost predicate Shaped(nodes: seq<NodeV>, n: nat) {
    forall i :: 0 <= i < |nodes| ==> |nodes[i].edges| == n
  }

  /** Attach the neighbours ns to slot k of the nodes whose own fields are base. */
  function Attach(e: Edge, k: nat, base: seq<Row>, nodes: seq<NodeV>, ns: seq<NodeV>): (r: Result<seq<NodeV>, Error>)
    requires |nodes| == |base|
    requires forall i :: 0 <= i < |nodes| ==> k < |nodes[i].edges|
    ensures r.Ok? ==> |r.value| == |nodes| && forall i :: 0 <= i < |nodes| ==>
      r.value[i] == nodes[i].(edges := nodes[i].edges[k := EdgeFor(e, base, i, ns)])
  {
    match FirstUnknown(e, base, ns)
    case Some(key) => Err(UnexpectedForeignKey(key))
    case None => Ok(seq(|nodes|, i requires 0 <= i < |nodes| =>
      nodes[i].(edges := nodes[i].edges[k := EdgeFor(e, base, i, ns)])))
  }

  // ----- Running a query -----

  /** The key-set predicate a loader appends to its sub-query. */
  function KeyPred(e: Edge, base: seq<Row>): Pred {
    if e.many then In(e.fk, Ids(base)) else In(ID, DistinctKeys(base, e.fk))
  }

  /** The sub-query as a loader leaves it before running it: a one-to-many join key joins a non-empty
      selection, and the key-set predicate is appended. */
  function Narrow(e: Edge, c: Spec, base: seq<Row>): (r: Spec)
    ensures r.with == c.with && r.entity == c.entity
    ensures WellFormed(c) ==> WellFormed(r)
  {
    c.(fields := if e.many && c.fields != [] then AppendOnce(c.fields, e.fk) else c.fields,
       preds := c.preds + [KeyPred(e, base)])
  }

  function FirstInvalid(cs: seq<Col>, e: Entity): (r: Option<Col>)
    ensures r.None? <==> forall c :: c in cs ==> c in Columns(e)
  {
    if cs == [] then None
    else if cs[0] !in Columns(e) then Some(cs[0])
    else FirstInvalid(cs[1..], e)
  }

  function Unloaded(e: Edge): EdgeV {
    if e.many then Many([]) else One(None)
  }

  function Blank(q: Spec): seq<EdgeV> {
    var es := EdgesOf(q.entity);
    seq(|es|, k requires 0 <= k < |es| => Unloaded(es[k]))
  }

  /** The fields of the nodes a query returns, before any edge is loaded. */
  function Base(q: Spec, db: DB): (r: seq<Row>)
    requires WellFormed(q) && q.entity in db.tables
    ensures var rows := Fetch(db, q.entity, q.preds, q.order, q.offset, q.limit);
      |r| == |rows| && forall i :: 0 <= i < |r| ==> r[i] == Assigned(Selected(q), rows[i])
  {
    var rows := Fetch(db, q.entity, q.preds, q.order, q.offset, q.limit);
    seq(|rows|, i requires 0 <= i < |rows| => Assigned(Selected(q), rows[i]))
  }

  function Fresh(q: Spec, base: seq<Row>): (r: seq<NodeV>)
    ensures |r| == |base| && forall i :: 0 <= i < |r| ==> r[i] == NodeV(base[i], Blank(q), Loaded(q))
  {
    seq(|base|, i requires 0 <= i < |base| => NodeV(base[i], Blank(q), Loaded(q)))
  }

  /** Run a query: the contents its tree is left with, and the nodes or the error it returns. */
  function Run(q: Spec, db: DB): (r: (Spec, Result<seq<NodeV>, Error>))
    requires WellFormed(q) && HasTables(db)
    ensures WellFormed(r.0) && r.0 == q.(with := r.0.with)
    decreases q.with, |q.with| + 1, 0
  {
    match FirstInvalid(q.fields, q.entity)
    case Some(c) => (q, Err(InvalidField(c)))
    case None =>
      var base := Base(q, db);
      if base == [] then (q, Ok([]))
      else
        var l := LoadEdges(q, 0, base, Fresh(q, base), db);
        (q.(with := l.0), l.1)
  }

  /** Load the edge in slot k, if it was requested. */
  function LoadEdge(q: Spec, k: nat, base: seq<Row>, nodes: seq<NodeV>,
      db: DB): (r: (Option<Spec>, Result<seq<NodeV>, Error>))
    requires WellFormed(q) && HasTables(db)
    requires k < |q.with| && |nodes| == |base|
    requires Shaped(nodes, |q.with|)
    ensures SlotFits(EdgesOf(q.entity)[k], r.0)
    ensures r.0.Some? == q.with[k].Some?
    ensures r.1.Ok? ==> |r.1.value| == |nodes| && Shaped(r.1.value, |q.with|)
    decreases q.with, |q.with| - k, 0
  {
    match q.with[k]
    case None => (None, Ok(nodes))
    case Some(c) =>
      var e := EdgesOf(q.entity)[k];
      assert SlotFits(e, q.with[k]);
      var (c', neighbors) := Run(Narrow(e, c, base), db);
      match neighbors
      case Err(err) => (Some(c'), Err(err))
      case Ok(ns) => (Some(c'), Attach(e, k, base, nodes, ns))
  }

  /** Load the requested edges from slot k on, stopping at the first error: the contents of those slots
      afterwards, and the nodes. */
  function LoadEdges(q: Spec, k: nat, base: seq<Row>, nodes: seq<NodeV>,
      db: DB): (r: (seq<Option<Spec>>, Result<seq<NodeV>, Error>))
    requires WellFormed(q) && HasTables(db)
    requires k <= |q.with| && |nodes| == |base|
    requires Shaped(nodes, |q.with|)
    ensures |r.0| == |q.with| - k
    ensures forall j :: 0 <= j < |r.0| ==>
      SlotFits(EdgesOf(q.entity)[k + j], r.0[j]) && r.0[j].Some? == q.with[k + j].Some?
    decreases q.with, |q.with| - k, 1
  {
    if k == |q.with| then ([], Ok(nodes))
    else
      var (w, r) := LoadEdge(q, k, base, nodes, db);
      match r
      case Err(err) => ([w] + q.with[k+1..], Err(err))
      case Ok(nodes') =>
        var (ws, r') := LoadEdges(q, k + 1, base, nodes', db);
        ([w] + ws, r')
  }
}
