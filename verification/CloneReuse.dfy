/** Using a builder and its clone independently, in any interleaving. */
module CloneReuse {
  import opened Schema
  import opened Store
  import opened Plan
  import opened BuilderCalls
  import opened QueryObjects

  /** A builder after only its eager-load builder of edge k was changed, whose footprint may have grown. */
  lemma SubBuilderGrew(q: Query, k: nat, before: Spec)
    requires k < |q.with| == |EdgesOf(q.entity)| == |before.with| && q.with[k] != null && q in q.Repr && q.ctx in q.Repr
    requires forall j :: 0 <= j < |q.with| && q.with[j] != null ==>
      && q.with[j] in q.Repr && q.with[j].Repr <= q.Repr && q !in q.with[j].Repr && q.ctx !in q.with[j].Repr
      && q.with[j].entity == EdgesOf(q.entity)[j].target && q.with[j].Valid()
    requires forall i, j :: 0 <= i < j < |q.with| && q.with[i] != null && q.with[j] != null ==>
      q.with[i].Repr !! q.with[j].Repr
    requires forall j :: 0 <= j < |q.with| && j != k ==>
      before.with[j] == if q.with[j] == null then None else Some(q.with[j].Contents())
    requires before == Spec(q.entity, q.ctx.fields, q.ctx.limit, q.ctx.offset, q.ctx.unique, q.order,
      q.predicates, before.with)
    ensures q.Valid() && q.Contents() == before.(with := before.with[k := Some(q.with[k].Contents())])
  {
    assert q.Valid();
    q.ContentsAre(before.with[k := Some(q.with[k].Contents())]);
  }

  /** Perform one call on the real objects. */
  method Perform(q: Query, c: Call)
    requires q.Valid() && Possible(c)
    modifies q.Repr
    ensures q.Valid() && fresh(q.Repr - old(q.Repr)) && q.Contents() == After(old(q.Contents()), c)
    decreases c, 0
  {
    match c
    case Where(ps) => q.Where(ps);
    case Limit(n) => q.Limit(n);
    case Offset(n) => q.Offset(n);
    case Unique(b) => q.Unique(b);
    case Order(o) => q.Order(o);
    case Select(cs) => q.Select(cs);
    case With(k) =>
      if k < |q.with| {
        var _ := q.With(k);
      }
    case All(db) =>
      var _, _ := q.All(db);
    case At(k, d) =>
      if k < |q.with| && q.with[k] != null {
        PerformAt(q, k, d);
      }
  }

  lemma SlotFacts(q: Query, k: nat)
    requires q.Valid() && k < |q.with| && q.with[k] != null
    ensures q in q.Repr && q.ctx in q.Repr && q.with[k].Repr < q.Repr
      && |q.Contents().with| == |q.with| == |EdgesOf(q.entity)|
    ensures q.Contents() == Spec(q.entity, q.ctx.fields, q.ctx.limit, q.ctx.offset, q.ctx.unique, q.order, q.predicates,
      q.Contents().with)
    ensures forall j :: 0 <= j < |q.with| && q.with[j] != null ==>
      && q.with[j] in q.Repr && q.with[j].Repr <= q.Repr && q !in q.with[j].Repr && q.ctx !in q.with[j].Repr
      && q.with[j].entity == EdgesOf(q.entity)[j].target && q.with[j].Valid() && q.with[j] in q.with[j].Repr
    ensures forall i, j :: 0 <= i < j < |q.with| && q.with[i] != null && q.with[j] != null ==>
      q.with[i].Repr !! q.with[j].Repr
    ensures forall j :: 0 <= j < |q.with| ==>
      q.Contents().with[j] == if q.with[j] == null then None else Some(q.with[j].Contents())
  {
    q.SubBuilder(k);
  }

  lemma AtIs(q: Spec, k: nat, d: Call)
    requires WellFormed(q) && Possible(d) && k < |q.with| && q.with[k].Some?
    ensures WellFormed(q.with[k].value) && Possible(At(k, d))
    ensures After(q, At(k, d)) == q.(with := q.with[k := Some(After(q.with[k].value, d))])
  {
  }

  /** Perform a call on the eager-load builder of edge k. */
  method PerformAt(q: Query, k: nat, d: Call)
    requires q.Valid() && Possible(d) && k < |q.with| && q.with[k] != null
    modifies q.Repr
    ensures q.Valid() && fresh(q.Repr - old(q.Repr)) && q.Contents() == After(old(q.Contents()), At(k, d))
    decreases d, 1
  {
    hide *;
    ghost var before := q.Contents();
    SlotFacts(q, k);
    AtIs(before, k, d);
    Perform(q.with[k], d);
    q.Repr := q.Repr + q.with[k].Repr;
    SubBuilderGrew(q, k, before);
  }

  // ----- Interleavings -----

  /** A call on the original builder or on its clone. */
  datatype Step = Step(onClone: bool, call: Call)

  function CallsOn(clone: bool, steps: seq<Step>): (cs: seq<Call>)
    ensures forall c :: c in cs ==> exists s :: s in steps && s.call == c
  {
    if steps == [] then [] else
    var before, s := CallsOn(clone, steps[..|steps|-1]), steps[|steps|-1];
    if s.onClone == clone then before + [s.call] else before
  }

  /** Clone a builder and make any interleaving of calls on the two: each ends up with the contents it would
      have if the other had never been used. */
  method UseBoth(q: Query, steps: seq<Step>) returns (c: Query)
    requires q.Valid() && forall s :: s in steps ==> Possible(s.call)
    modifies q.Repr
    ensures c.Valid() && q.Valid() && q.Repr !! c.Repr
    ensures q.Contents() == AfterAll(old(q.Contents()), CallsOn(false, steps))
    ensures c.Contents() == AfterAll(old(q.Contents()), CallsOn(true, steps))
  {
    hide *;
    c := q.Clone();
    ghost var q0 := q.Contents();
    NoCalls(q0, steps);
    for i := 0 to |steps|
      invariant q.Valid() && c.Valid() && q.Repr !! c.Repr && fresh(c.Repr) && fresh(q.Repr - old(q.Repr))
      invariant q.Contents() == AfterAll(q0, CallsOn(false, steps[..i]))
      invariant c.Contents() == AfterAll(q0, CallsOn(true, steps[..i]))
    {
      CallsSnoc(q0, steps, i);
      OwnFootprint(q);
      OwnFootprint(c);
      if steps[i].onClone {
        Perform(c, steps[i].call);
      } else {
        Perform(q, steps[i].call);
      }
    }
    assert steps[..|steps|] == steps;
  }

  lemma OwnFootprint(q: Query)
    requires q.Valid()
    ensures q in q.Repr
  {
  }

  lemma NoCalls(q: Spec, steps: seq<Step>)
    requires WellFormed(q)
    ensures forall b: bool :: CallsOn(b, steps[..0]) == [] && AfterAll(q, CallsOn(b, steps[..0])) == q
  {
  }

  lemma CallsSnoc(q: Spec, steps: seq<Step>, i: nat)
    requires WellFormed(q) && i < |steps| && forall s :: s in steps ==> Possible(s.call)
    ensures var on := steps[i].onClone;
      && AfterAll(q, CallsOn(on, steps[..i+1])) == After(AfterAll(q, CallsOn(on, steps[..i])), steps[i].call)
      && AfterAll(q, CallsOn(!on, steps[..i+1])) == AfterAll(q, CallsOn(!on, steps[..i]))
  {
    assert steps[..i+1][..i] == steps[..i] && steps[..i+1][i] == steps[i];
    var before := CallsOn(steps[i].onClone, steps[..i]);
    assert CallsOn(steps[i].onClone, steps[..i+1]) == before + [steps[i].call];
    assert (before + [steps[i].call])[..|before|] == before;
  }
}
