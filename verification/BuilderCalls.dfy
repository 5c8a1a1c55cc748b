/** What the calls on a query builder mean: each turns the contents of the builder's tree into other contents. */
module BuilderCalls {
  import opened Schema
  import opened Store
  import opened Plan

  /** A call on a builder, or on the eager-load builder it holds for edge k. */
  datatype Call =
    | Where(ps: seq<Pred>)
    | Limit(n: nat)
    | Offset(n: nat)
    | Unique(b: bool)
    | Order(o: seq<OrderTerm>)
    | Select(cs: seq<Col>)
    | With(k: nat)
    | All(db: DB)
    | At(k: nat, call: Call)

  ghost predicate Possible(c: Call) {
    match c
    case All(db) => HasTables(db)
    case At(_, d) => Possible(d)
    case _ => true
  }

  /** The contents of a builder after a call. */
  ghost function After(q: Spec, c: Call): (r: Spec)
    requires WellFormed(q) && Possible(c)
    ensures WellFormed(r) && r.entity == q.entity
    decreases c
  {
    match c
    case Where(ps) => q.(preds := q.preds + ps)
    case Limit(n) => q.(limit := Some(n))
    case Offset(n) => q.(offset := Some(n))
    case Unique(b) => q.(unique := Some(b))
    case Order(o) => q.(order := q.order + o)
    case Select(cs) => q.(fields := q.fields + cs)
    case With(k) => if k < |q.with| then q.(with := q.with[k := Some(NewSpec(EdgesOf(q.entity)[k].target))]) else q
    case All(db) => Run(q, db).0
    case At(k, d) => if k < |q.with| && q.with[k].Some? then q.(with := q.with[k := Some(After(q.with[k].value, d))])
      else q
  }

  ghost function AfterAll(q: Spec, cs: seq<Call>): (r: Spec)
    requires WellFormed(q) && forall c :: c in cs ==> Possible(c)
    ensures WellFormed(r) && r.entity == q.entity
  {
    if cs == [] then q else After(AfterAll(q, cs[..|cs|-1]), cs[|cs|-1])
  }
}
