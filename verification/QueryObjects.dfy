/** The query builders as the mutable objects they are: a tree of builders that own their contexts and their
    eager-load builders. */
module QueryObjects {
  import opened Schema
  import opened Store
  import opened Plan
  import opened Nodes

  class QueryContext {
    var fields: seq<Col>
    var limit: Option<nat>
    var offset: Option<nat>
    var unique: Option<bool>

    constructor ()
      ensures fields == [] && limit == None && offset == None && unique == None
    {
      fields, limit, offset, unique := [], None, None, None;
    }

    method Clone() returns (c: QueryContext)
      ensures fresh(c) && c.fields == fields && c.limit == limit && c.offset == offset && c.unique == unique
    {
      c := new QueryContext();
      c.fields, c.limit, c.offset, c.unique := fields, limit, offset, unique;
    }

    method AppendFieldOnce(f: Col)
      modifies this`fields
      ensures fields == AppendOnce(old(fields), f)
    {
      if f !in fields {
        fields := fields + [f];
      }
    }
  }

  class Query {
    const entity: Entity
    var ctx: QueryContext
    var order: seq<OrderTerm>
    var predicates: seq<Pred>
    var with: seq<Query?>
    ghost var Repr: set<object>

    ghost predicate Valid()
      reads this, Repr
      decreases Repr
    {
      && this in Repr && ctx in Repr
      && |with| == |EdgesOf(entity)|
      && (forall k :: 0 <= k < |with| && with[k] != null ==>
            && with[k] in Repr && with[k].Repr <= Repr && this !in with[k].Repr && ctx !in with[k].Repr
            && with[k].entity == EdgesOf(entity)[k].target && with[k].Valid())
      && (forall j, k :: 0 <= j < k < |with| && with[j] != null && with[k] != null ==> with[j].Repr !! with[k].Repr)
    }

    /** The contents of the builder tree. */
    ghost function Contents(): (q: Spec)
      requires Valid()
      reads this, Repr
      ensures WellFormed(q) && q.entity == entity
      ensures |q.with| == |with| && forall k :: 0 <= k < |with| ==>
        q.with[k] == if with[k] == null then None else Some(with[k].Contents())
      decreases Repr, |with| + 2
    {
      Spec(entity, ctx.fields, ctx.limit, ctx.offset, ctx.unique, order, predicates, Slots(0))
    }

    ghost function Slot(k: nat): (w: Option<Spec>)
      requires Valid() && k < |with|
      reads this, Repr
      ensures w == if with[k] == null then None else Some(with[k].Contents())
      ensures SlotFits(EdgesOf(entity)[k], w)
      decreases Repr, 0
    {
      if with[k] == null then None else Some(with[k].Contents())
    }

    ghost function Slots(k: nat): (s: seq<Option<Spec>>)
      requires Valid() && k <= |with|
      reads this, Repr
      ensures |s| == |with| - k
      ensures forall j :: 0 <= j < |s| ==> s[j] == Slot(k + j)
      decreases Repr, |with| - k + 1
    {
      if k == |with| then [] else [Slot(k)] + Slots(k + 1)
    }

    constructor (e: Entity)
      ensures Valid() && fresh(Repr) && entity == e && Contents() == NewSpec(e)
    {
      entity := e;
      ctx := new QueryContext();
      order, predicates := [], [];
      with := seq(|EdgesOf(e)|, _ => null);
      new;
      Repr := {this, ctx};
    }

    method Where(ps: seq<Pred>)
      requires Valid()
      modifies this`predicates
      ensures Valid() && Contents() == old(Contents()).(preds := old(Contents()).preds + ps)
    {
      predicates := predicates + ps;
      OwnFieldsChanged();
    }

    /** Changing only this builder's own fields or its context leaves the sub-builders alone. */
    twostate lemma OwnFieldsChanged()
      requires old(Valid()) && ctx == old(ctx) && with == old(with) && Repr == old(Repr)
      requires forall o: object :: o in Repr && o != this && o != ctx ==> unchanged(o)
      ensures Valid() && Contents() == old(Contents()).(fields := ctx.fields, limit := ctx.limit, offset := ctx.offset,
        unique := ctx.unique, order := order, preds := predicates)
    {
      forall k | 0 <= k < |with| && with[k] != null
        ensures with[k].Valid() && with[k].Contents() == old(with[k].Contents()) {
        assert forall o: object :: o in with[k].Repr ==> unchanged(o);
      }
      assert Valid();
      assert Slots(0) == old(Slots(0));
    }

    method Limit(n: nat)
      requires Valid()
      modifies ctx`limit
      ensures Valid() && Contents() == old(Contents()).(limit := Some(n))
    {
      ctx.limit := Some(n);
      OwnFieldsChanged();
    }

    method Offset(n: nat)
      requires Valid()
      modifies ctx`offset
      ensures Valid() && Contents() == old(Contents()).(offset := Some(n))
    {
      ctx.offset := Some(n);
      OwnFieldsChanged();
    }

    method Unique(b: bool)
      requires Valid()
      modifies ctx`unique
      ensures Valid() && Contents() == old(Contents()).(unique := Some(b))
    {
      ctx.unique := Some(b);
      OwnFieldsChanged();
    }

    method Order(o: seq<OrderTerm>)
      requires Valid()
      modifies this`order
      ensures Valid() && Contents() == old(Contents()).(order := old(Contents()).order + o)
    {
      order := order + o;
      OwnFieldsChanged();
    }

    method Select(cs: seq<Col>)
      requires Valid()
      modifies ctx`fields
      ensures Valid() && Contents() == old(Contents()).(fields := old(Contents()).fields + cs)
    {
      ctx.fields := ctx.fields + cs;
      OwnFieldsChanged();
    }

    /** Ask for edge k to be eager-loaded through a new sub-builder, which is handed to the caller's
        options. An earlier sub-builder of the edge is dropped. */
    method With(k: nat) returns (sub: Query)
      requires Valid() && k < |with|
      modifies this`with, this`Repr
      ensures Valid() && fresh(Repr - old(Repr))
      ensures with == old(with)[k := sub] && fresh(sub.Repr) && sub.Valid()
      ensures Contents() == old(Contents()).(with :=
        old(Contents()).with[k := Some(NewSpec(EdgesOf(entity)[k].target))])
    {
      sub := new Query(EdgesOf(entity)[k].target);
      with := with[k := sub];
      Repr := Repr + sub.Repr;
      SlotReplaced(k, sub);
    }

    twostate lemma SlotReplaced(k: nat, new sub: Query)
      requires old(Valid()) && k < |old(with)| && with == old(with)[k := sub] && ctx == old(ctx)
        && Repr == old(Repr) + sub.Repr
      requires sub.Valid() && sub.entity == EdgesOf(entity)[k].target && sub.Repr !! old(Repr)
      requires predicates == old(predicates) && order == old(order)
      requires forall o: object :: o in old(Repr) && o != this ==> unchanged(o)
      ensures Valid() && Contents() == old(Contents()).(with := old(Contents()).with[k := Some(sub.Contents())])
    {
      forall j | 0 <= j < |with| && j != k && with[j] != null
        ensures with[j].Valid() && with[j].Contents() == old(with[j].Contents())
      {
        assert with[j] == old(with)[j];
        assert forall o: object :: o in old(with)[j].Repr ==> unchanged(o);
      }
      assert Valid();
      ContentsAre(old(Contents()).with[k := Some(sub.Contents())]);
    }

    /** The contents of a builder, given the contents of its slots. */
    lemma ContentsAre(w: seq<Option<Spec>>)
      requires Valid() && |w| == |with|
      requires forall k :: 0 <= k < |w| ==> w[k] == if with[k] == null then None else Some(with[k].Contents())
      ensures Contents() == Spec(entity, ctx.fields, ctx.limit, ctx.offset, ctx.unique, order, predicates, w)
    {
      assert Slots(0) == w;
    }

    constructor Assemble(src: Query, c: QueryContext, w: seq<Query?>, ghost R: set<object>)
      requires src.Valid() && Owned(src.with, src.Repr) && Copies(src.with, src.Repr, w, R) && c !in R
      requires c.fields == src.ctx.fields && c.limit == src.ctx.limit && c.offset == src.ctx.offset
        && c.unique == src.ctx.unique
      ensures Valid() && entity == src.entity && Contents() == src.Contents() && Repr == R + {this, c}
    {
      entity, ctx, order, predicates, with := src.entity, c, src.order, src.predicates, w;
      Repr := R + {this, c};
      new;
      assert Valid();
      ContentsAre(src.Contents().with);
    }

    /** Duplicate the builder with its context and all its eager-load builders. */
    method Clone() returns (c: Query)
      requires Valid()
      ensures c.Valid() && fresh(c.Repr) && c.entity == entity && c.Contents() == Contents()
      decreases Repr, 1
    {
      hide *;
      var ctx' := ctx.Clone();
      var with', R := CloneEdges();
      c := new Query.Assemble(this, ctx', with', R);
    }

    method CloneEdges() returns (with': seq<Query?>, ghost R: set<object>)
      requires Valid()
      ensures fresh(R) && Owned(with, Repr) && Copies(with, Repr, with', R)
      decreases Repr, 0
    {
      hide *;
      with', R := [], {};
      CopiesNone(Repr);
      for k := 0 to |with|
        invariant fresh(R) && Owned(with[..k], Repr) && Copies(with[..k], Repr, with', R)
      {
        assert with[..k+1] == with[..k] + [with[k]];
        if with[k] == null {
          CopiesNull(with[..k], Repr, with', R);
          with' := with' + [null];
        } else {
          SubBuilder(k);
          var d := with[k].Clone();
          SubBuilder(k);
          CopiesOne(with[..k], Repr, with', R, with[k], d);
          with' := with' + [d];
          R := R + d.Repr;
        }
      }
      assert with[..|with|] == with;
    }

    lemma SubBuilder(k: nat)
      requires Valid() && k < |with| && with[k] != null
      ensures with[k] in Repr && with[k].Repr < Repr && with[k].Valid() && with[k] in with[k].Repr
    {
      assert this !in with[k].Repr;
    }
    // ----- Running -----

    /** The check of the selected columns that precedes every run. */
    method CheckFields() returns (bad: Option<Col>)
      requires Valid()
      ensures bad == FirstInvalid(Contents().fields, entity)
    {
      for i := 0 to |ctx.fields|
        invariant FirstInvalid(ctx.fields, entity) == FirstInvalid(ctx.fields[i..], entity)
      {
        if ctx.fields[i] !in Columns(entity) {
          return Some(ctx.fields[i]);
        }
      }
      return None;
    }

    /** The columns of the query spec: the identifier, the selected fields other than it, and the foreign
        keys of the requested many-to-one edges. */
    method SelectColumns() returns (cols: seq<Col>)
      requires Valid()
      ensures cols == Selected(Contents())
    {
      if ctx.fields == [] {
        return Columns(entity);
      }
      cols := [ID];
      for i := 0 to |ctx.fields|
        invariant cols == [ID] + Without(ctx.fields[..i], ID)
      {
        WithoutSnoc(ctx.fields, i);
        if ctx.fields[i] != ID {
          cols := cols + [ctx.fields[i]];
        }
      }
      assert ctx.fields[..|ctx.fields|] == ctx.fields;
      var es := EdgesOf(entity);
      ghost var start, loaded := cols, Loaded(Contents());
      for k := 0 to |es|
        invariant AddKeys(es, loaded, 0, start) == AddKeys(es, loaded, k, cols)
      {
        if with[k] != null && !es[k].many && es[k].fk !in cols {
          cols := cols + [es[k].fk];
        }
      }
    }

    lemma WithoutSnoc(cs: seq<Col>, i: nat)
      requires i < |cs|
      ensures Without(cs[..i+1], ID) == Without(cs[..i], ID) + if cs[i] == ID then [] else [cs[i]]
    {
      if i > 0 {
        WithoutSnoc(cs[1..], i - 1);
        assert cs[..i+1][1..] == cs[1..][..i] && cs[..i][1..] == cs[1..][..i-1];
      }
    }
    /** Only the sub-builder in slot k was changed, within its own footprint. */
    twostate lemma SubBuilderChanged(k: nat)
      requires old(Valid()) && k < |with| && with[k] != null && unchanged(this) && unchanged(ctx)
      requires with[k].Valid() && with[k].Repr == old(with[k].Repr)
      requires forall o: object :: o in Repr && o !in with[k].Repr ==> unchanged(o)
      ensures Valid() && Contents() == old(Contents()).(with := old(Contents()).with[k := Some(with[k].Contents())])
    {
      forall j | 0 <= j < |with| && j != k && with[j] != null
        ensures with[j].Valid() && with[j].Contents() == old(with[j].Contents())
      {
        assert forall o: object :: o in with[j].Repr ==> unchanged(o);
      }
      assert Valid();
      ContentsAre(old(Contents()).with[k := Some(with[k].Contents())]);
    }

    /** Narrow the sub-builder in slot k to the keys of the nodes and run it. */
    method RunSub(k: nat, keys: seq<Id>, ghost base: seq<Row>, db: DB)
        returns (r: Result<seq<Node>, Error>, ghost H: set<Node>)
      requires Valid() && HasTables(db) && k < |with| && with[k] != null
      requires keys == if EdgesOf(entity)[k].many then Ids(base) else DistinctKeys(base, EdgesOf(entity)[k].fk)
      modifies Repr
      ensures Valid() && Repr == old(Repr) && with == old(with)
      ensures var e, q := EdgesOf(entity)[k], old(Contents());
        q.with[k].Some? &&
        var run := Run(Narrow(e, q.with[k].value, base), db);
        && Contents() == q.(with := q.with[k := Some(run.0)])
        && fresh(H) && Graph(H)
        && match r {
             case Ok(ns) => (forall n :: n in ns ==> n in H) && run.1 == Ok(Vals(ns))
             case Err(err) => run.1 == Err(err)
           }
      decreases Repr, 0
    {
      var e, child := EdgesOf(entity)[k], with[k];
      SubBuilder(k);
      if e.many && |child.ctx.fields| > 0 {
        child.SelectOnce(e.fk);
      }
      child.Where([In(if e.many then e.fk else ID, keys)]);
      assert child.Contents() == Narrow(e, old(Contents()).with[k].value, base);
      r, H := child.All(db);
      SubBuilderChanged(k);
    }

    /** Add a column to a selection that lacks it. */
    method SelectOnce(f: Col)
      requires Valid()
      modifies ctx`fields
      ensures Valid() && Repr == old(Repr)
        && Contents() == old(Contents()).(fields := AppendOnce(old(Contents()).fields, f))
    {
      ctx.AppendFieldOnce(f);
      OwnFieldsChanged();
    }

    // ----- Loading one edge -----

    /** Nodes into which the edges from slot k on may be loaded: those slots are still empty. */
    ghost predicate CanLoad(k: nat, nodes: seq<Node>, G: set<Node>)
      reads this, nodes, G
    {
      && Graph(G) && Roots(nodes, G)
      && (forall n :: n in nodes ==> n !in Repr)
      && (forall n :: n in G ==> n !in Repr)
      && (forall n :: n in nodes ==> EmptyFrom(EdgesOf(entity), k, n.edges))
    }

    /** What an edge loader is given: the nodes are set aside, slot k holds no neighbour. */
    lemma StartLoading(k: nat, nodes: seq<Node>, G: set<Node>)
      requires Valid() && k < |with| && CanLoad(k, nodes, G)
      ensures Loading(nodes, k, FieldsSeq(nodes), EdgesSeq(nodes), G)
      ensures Replaced(nodes, k, EdgesSeq(nodes),
        Repeat(|nodes|, if EdgesOf(entity)[k].many then ManyRef([]) else OneRef(None)))
      ensures Shaped(Vals(nodes), |with|) && HaveFields(nodes, FieldsSeq(nodes)) && Distinct(nodes)
        && |with| == |EdgesOf(entity)|
      ensures forall n :: n in nodes ==> k < |n.edges| && n !in Repr
      ensures forall n :: n in G ==> n !in Repr
      ensures forall i :: 0 <= i < |nodes| ==> EmptyFrom(EdgesOf(entity), k, EdgesSeq(nodes)[i])
    {
      forall i | 0 <= i < |nodes|
        ensures nodes[i].edges == EdgesSeq(nodes)[i][k := if EdgesOf(entity)[k].many then ManyRef([]) else OneRef(None)]
        ensures |nodes[i].val.edges| == |with|
      {
        var n := nodes[i];
        assert NodeOk(n, G) && EmptyFrom(EdgesOf(entity), k, n.edges);
        assert n.edges[k := n.edges[k]] == n.edges;
      }
    }

    /** After slot k was replaced the later slots are still empty. */
    lemma StopLoading(k: nat, nodes: seq<Node>, before: seq<seq<EdgeRef>>, G: set<Node>)
      requires |before| == |nodes| && Graph(G) && Roots(nodes, G) && exists refs :: Replaced(nodes, k, before, refs)
      requires forall n :: n in nodes ==> n !in Repr
      requires forall n :: n in G ==> n !in Repr
      requires forall i :: 0 <= i < |before| ==> EmptyFrom(EdgesOf(entity), k, before[i])
      ensures CanLoad(k + 1, nodes, G)
    {
      var refs :| Replaced(nodes, k, before, refs);
      forall i | 0 <= i < |nodes| ensures EmptyFrom(EdgesOf(entity), k + 1, nodes[i].edges) {
        assert nodes[i].edges == before[i][k := refs[i]];
      }
    }

    lemma LoadEdgeIs(q: Spec, k: nat, base: seq<Row>, vs: seq<NodeV>, db: DB)
      requires WellFormed(q) && HasTables(db) && k < |q.with| && q.with[k].Some? && |vs| == |base|
        && Shaped(vs, |q.with|)
      ensures var e := EdgesOf(q.entity)[k];
        var run := Run(Narrow(e, q.with[k].value, base), db);
        LoadEdge(q, k, base, vs, db) ==
          (Some(run.0), if run.1.Err? then Err(run.1.error) else Attach(e, k, base, vs, run.1.value))
    {
    }

    /** The loader of a one-to-many edge. */
    method LoadMany(k: nat, nodes: seq<Node>, ghost G: set<Node>, db: DB)
        returns (err: Option<Error>, ghost G': set<Node>)
      requires Valid() && HasTables(db) && k < |with| && with[k] != null && EdgesOf(entity)[k].many
        && CanLoad(k, nodes, G)
      modifies Repr, (set n | n in nodes)`edges, (set n | n in nodes)`val
      ensures Valid() && Repr == old(Repr) && with == old(with)
      ensures |old(Contents()).with| == |with| && Shaped(old(Vals(nodes)), |with|)
      ensures var l := LoadEdge(old(Contents()), k, old(FieldsSeq(nodes)), old(Vals(nodes)), db);
        && Contents() == old(Contents()).(with := old(Contents()).with[k := l.0])
        && l.1 == if err.Some? then Err(err.value) else Ok(Vals(nodes))
      ensures err.None? ==>
        G <= G' && fresh(G' - G) && CanLoad(k + 1, nodes, G') && FieldsSeq(nodes) == old(FieldsSeq(nodes))
      decreases Repr, 1
    {
      hide *;
      ghost var q, base, before, vs := Contents(), FieldsSeq(nodes), EdgesSeq(nodes), Vals(nodes);
      StartLoading(k, nodes, G);
      LoadEdgeIs(q, k, base, vs, db);
      var e := EdgesOf(entity)[k];
      var fks, index := InitMany(nodes, k, base, before, G);
      assert Valid() && Contents() == q;
      var r, H := RunSub(k, fks, base, db);
      ghost var q' := Contents();
      G' := G + H;
      if r.Err? {
        return Some(r.error), G';
      }
      err := AttachMany(e, k, nodes, index, r.value, base, before, G, H);
      assert Valid() && Contents() == q';
      if err.None? {
        GraphUnion(G, H);
        StopLoading(k, nodes, before, G');
        assert FieldsSeq(nodes) == base;
      }
    }

    /** The loader of a many-to-one edge. */
    method LoadOne(k: nat, nodes: seq<Node>, ghost G: set<Node>, db: DB)
        returns (err: Option<Error>, ghost G': set<Node>)
      requires Valid() && HasTables(db) && k < |with| && with[k] != null && !EdgesOf(entity)[k].many
        && CanLoad(k, nodes, G) && nodes != []
      modifies Repr, (set n | n in nodes)`edges, (set n | n in nodes)`val
      ensures Valid() && Repr == old(Repr) && with == old(with)
      ensures |old(Contents()).with| == |with| && Shaped(old(Vals(nodes)), |with|)
      ensures var l := LoadEdge(old(Contents()), k, old(FieldsSeq(nodes)), old(Vals(nodes)), db);
        && Contents() == old(Contents()).(with := old(Contents()).with[k := l.0])
        && l.1 == if err.Some? then Err(err.value) else Ok(Vals(nodes))
      ensures err.None? ==>
        G <= G' && fresh(G' - G) && CanLoad(k + 1, nodes, G') && FieldsSeq(nodes) == old(FieldsSeq(nodes))
      decreases Repr, 1
    {
      hide *;
      ghost var q, base, before, vs := Contents(), FieldsSeq(nodes), EdgesSeq(nodes), Vals(nodes);
      StartLoading(k, nodes, G);
      LoadEdgeIs(q, k, base, vs, db);
      var e := EdgesOf(entity)[k];
      var ids, groups := GroupByKey(nodes, e.fk, base);
      var r, H := RunSub(k, ids, base, db);
      ghost var q' := Contents();
      G' := G + H;
      if r.Err? {
        return Some(r.error), G';
      }
      err := AttachOne(e, k, nodes, groups, r.value, base, before, G, H);
      assert Valid() && Contents() == q';
      if err.None? {
        GraphUnion(G, H);
        StopLoading(k, nodes, before, G');
        assert FieldsSeq(nodes) == base;
      }
    }

    lemma LoadEdgeDepends(q: Spec, q': Spec, k: nat, base: seq<Row>, vs: seq<NodeV>, db: DB)
      requires WellFormed(q) && WellFormed(q') && HasTables(db) && q.entity == q'.entity && k < |q.with|
        && q.with[k] == q'.with[k]
      requires |vs| == |base| && Shaped(vs, |q.with|)
      ensures LoadEdge(q, k, base, vs, db) == LoadEdge(q', k, base, vs, db)
    {
    }

    /** One step of LoadEdges, seen from its start. */
    lemma LoadEdgesStep(q: Spec, k: nat, base: seq<Row>, vs: seq<NodeV>, db: DB)
      requires WellFormed(q) && HasTables(db) && k < |q.with| && |vs| == |base| && Shaped(vs, |q.with|)
      ensures var (w, r) := LoadEdge(q, k, base, vs, db);
        LoadEdges(q, k, base, vs, db) ==
          if r.Err? then ([w] + q.with[k+1..], Err(r.error))
          else ([w] + LoadEdges(q, k + 1, base, r.value, db).0, LoadEdges(q, k + 1, base, r.value, db).1)
    {
    }

    /** What has been done and what remains when the slots before k are loaded. */
    ghost predicate Progress(q: Spec, q': Spec, k: nat, base: seq<Row>, vs0: seq<NodeV>, vs: seq<NodeV>, db: DB) {
      && WellFormed(q) && WellFormed(q') && HasTables(db) && k <= |q.with|
      && q' == q.(with := q'.with) && |q'.with| == |q.with| && q'.with[k..] == q.with[k..]
      && |vs0| == |base| == |vs| && Shaped(vs0, |q.with|) && Shaped(vs, |q.with|)
      && LoadEdges(q, 0, base, vs0, db) ==
        (q'.with[..k] + LoadEdges(q, k, base, vs, db).0, LoadEdges(q, k, base, vs, db).1)
    }

    lemma ProgressStep(q: Spec, q': Spec, k: nat, base: seq<Row>, vs0: seq<NodeV>, vs: seq<NodeV>, db: DB)
      requires Progress(q, q', k, base, vs0, vs, db) && k < |q.with|
      ensures var (w, r) := LoadEdge(q', k, base, vs, db);
        var q1 := q'.(with := q'.with[k := w]);
        if r.Ok? then Progress(q, q1, k + 1, base, vs0, r.value, db)
        else q1 == q.(with := q1.with) && LoadEdges(q, 0, base, vs0, db) == (q1.with, Err(r.error))
    {
      assert q'.with[k] == q'.with[k..][0] == q.with[k..][0] == q.with[k];
      LoadEdgeDepends(q, q', k, base, vs, db);
      LoadEdgesStep(q, k, base, vs, db);
      var (w, r) := LoadEdge(q', k, base, vs, db);
      SlotGlue(q'.with, k, w, q.with[k+1..]);
      assert q'.with[k+1..] == q'.with[k..][1..] == q.with[k+1..];
      if r.Ok? {
        SlotGlue(q'.with, k, w, LoadEdges(q, k + 1, base, r.value, db).0);
        hide LoadEdges; hide LoadEdge;
        WellFormedStep(q, q', k, w);
      }
    }

    lemma WellFormedStep(q: Spec, q': Spec, k: nat, w: Option<Spec>)
      requires WellFormed(q') && q' == q.(with := q'.with) && k < |q'.with| && SlotFits(EdgesOf(q'.entity)[k], w)
      ensures WellFormed(q'.(with := q'.with[k := w]))
    {
    }

    lemma SlotGlue(x: seq<Option<Spec>>, k: nat, w: Option<Spec>, rest: seq<Option<Spec>>)
      requires k < |x|
      ensures x[k := w][..k+1] + rest == x[..k] + ([w] + rest)
      ensures x[k := w][k+1..] == x[k+1..] && x[k := w] == x[..k] + ([w] + x[k+1..])
    {
    }

    /** Load every requested edge, in slot order, stopping at the first error. */
    method LoadAll(nodes: seq<Node>, db: DB) returns (err: Option<Error>, ghost G: set<Node>)
      requires Valid() && HasTables(db) && CanLoad(0, nodes, {}) && nodes != []
      modifies Repr, (set n | n in nodes)`edges, (set n | n in nodes)`val
      ensures Valid() && Repr == old(Repr) && with == old(with)
      ensures WellFormed(old(Contents())) && Shaped(old(Vals(nodes)), |old(Contents()).with|)
      ensures var l := LoadEdges(old(Contents()), 0, old(FieldsSeq(nodes)), old(Vals(nodes)), db);
        && Contents() == old(Contents()).(with := l.0)
        && l.1 == if err.Some? then Err(err.value) else Ok(Vals(nodes))
      ensures fresh(G) && (err.None? ==> Graph(G) && Roots(nodes, G))
      decreases Repr, 2
    {
      hide *;
      ghost var q, base, vs0 := Contents(), FieldsSeq(nodes), Vals(nodes);
      G := {};
      ProgressStart(nodes, db);
      for k := 0 to |with|
        invariant Valid() && Repr == old(Repr) && with == old(with)
        invariant fresh(G) && CanLoad(k, nodes, G) && FieldsSeq(nodes) == base
        invariant Progress(q, Contents(), k, base, vs0, Vals(nodes), db)
      {
        ghost var q', vs := Contents(), Vals(nodes);
        ProgressStep(q, q', k, base, vs0, vs, db);
        if with[k] == null {
          NotRequested(k, nodes, G, base, db);
        } else {
          ghost var G0 := G;
          if EdgesOf(entity)[k].many {
            err, G := LoadMany(k, nodes, G, db);
          } else {
            err, G := LoadOne(k, nodes, G, db);
          }
          if err.Some? {
            G := {};
            return;
          }
          assert G == G0 + (G - G0);
        }
      }
      ProgressEnd(q, Contents(), base, vs0, Vals(nodes), db);
      CanLoadGraph(|with|, nodes, G);
      err := None;
    }

    lemma ProgressStart(nodes: seq<Node>, db: DB)
      requires Valid() && HasTables(db) && CanLoad(0, nodes, {})
      ensures WellFormed(Contents()) && Shaped(Vals(nodes), |Contents().with|)
        && |with| == |EdgesOf(entity)| == |Contents().with|
      ensures Progress(Contents(), Contents(), 0, FieldsSeq(nodes), Vals(nodes), Vals(nodes), db)
    {
      forall i | 0 <= i < |nodes| ensures |Vals(nodes)[i].edges| == |with| {
        assert NodeOk(nodes[i], {}) && EmptyFrom(EdgesOf(entity), 0, nodes[i].edges);
      }
      assert Shaped(Vals(nodes), |with|);
      assert Contents().with[..0] == [];
      var l := LoadEdges(Contents(), 0, FieldsSeq(nodes), Vals(nodes), db);
      assert [] + l.0 == l.0;
    }

    lemma ProgressEnd(q: Spec, q': Spec, base: seq<Row>, vs0: seq<NodeV>, vs: seq<NodeV>, db: DB)
      requires Progress(q, q', |q'.with|, base, vs0, vs, db)
      ensures LoadEdges(q, 0, base, vs0, db) == (q'.with, Ok(vs)) && q' == q.(with := q'.with)
    {
      assert q'.with[..|q'.with|] + [] == q'.with;
    }

    lemma CanLoadGraph(k: nat, nodes: seq<Node>, G: set<Node>)
      requires CanLoad(k, nodes, G)
      ensures Graph(G) && Roots(nodes, G)
    {
    }

    /** An edge that was not requested is skipped. */
    lemma NotRequested(k: nat, nodes: seq<Node>, G: set<Node>, base: seq<Row>, db: DB)
      requires Valid() && HasTables(db) && k < |with| && with[k] == null && CanLoad(k, nodes, G)
      requires |base| == |nodes|
      ensures CanLoad(k + 1, nodes, G) && Shaped(Vals(nodes), |Contents().with|)
      ensures LoadEdge(Contents(), k, base, Vals(nodes), db) == (None, Ok(Vals(nodes)))
      ensures Contents() == Contents().(with := Contents().with[k := None])
    {
      forall i | 0 <= i < |nodes| ensures |Vals(nodes)[i].edges| == |with| {
        assert NodeOk(nodes[i], G) && EmptyFrom(EdgesOf(entity), k, nodes[i].edges);
      }
      assert Contents().with[k] == None;
      assert Contents().with[k := None] == Contents().with;
    }

    /** Run the query: check the selection, fetch the rows, build a node per row and load the requested
        edges. */
    method All(db: DB) returns (r: Result<seq<Node>, Error>, ghost H: set<Node>)
      requires Valid() && HasTables(db)
      modifies Repr
      ensures Valid() && Repr == old(Repr) && with == old(with)
      ensures Contents() == Run(old(Contents()), db).0
      ensures fresh(H) && Graph(H)
      ensures match r
        case Ok(ns) => (forall n :: n in ns ==> n in H) && Run(old(Contents()), db).1 == Ok(Vals(ns))
        case Err(err) => Run(old(Contents()), db).1 == Err(err)
      decreases Repr, 3
    {
      hide *;
      H := {};
      NoNodes();
      ghost var q := Contents();
      RunCases(q, db);
      var bad := CheckFields();
      if bad.Some? {
        return Err(InvalidField(bad.value)), {};
      }
      var cols := SelectColumns();
      FetchOf(db);
      var rows := Fetch(db, entity, predicates, order, ctx.offset, ctx.limit);
      var requested := seq(|with|, k requires 0 <= k < |with| reads this => with[k] != null);
      var nodes := NewNodes(EdgesOf(entity), cols, rows, requested);
      NewNodesAre(q, db, nodes, rows, cols, requested);
      if |nodes| == 0 {
        return Ok([]), {};
      }
      var err, G := LoadAll(nodes, db);
      if err.Some? {
        return Err(err.value), {};
      }
      H := G + (set n | n in nodes);
      RootsJoin(nodes, G);
      r := Ok(nodes);
    }

    lemma FetchOf(db: DB)
      requires Valid() && HasTables(db)
      ensures entity in db.tables
      ensures var q := Contents();
        Fetch(db, q.entity, q.preds, q.order, q.offset, q.limit) ==
          Fetch(db, entity, predicates, order, ctx.offset, ctx.limit)
    {
    }

    /** The new nodes are what the evaluator starts from. */
    lemma NewNodesAre(q: Spec, db: DB, nodes: seq<Node>, rows: seq<Row>, cols: seq<Col>, requested: seq<bool>)
      requires Valid() && HasTables(db) && q == Contents() && cols == Selected(q) && Roots(nodes, {})
      requires rows == Fetch(db, q.entity, q.preds, q.order, q.offset, q.limit) && |nodes| == |rows|
      requires |requested| == |with| && forall k :: 0 <= k < |with| ==> requested[k] == (with[k] != null)
      requires forall n :: n in nodes ==> n !in Repr
      requires forall i :: 0 <= i < |nodes| ==>
        nodes[i].val == NodeV(Assigned(cols, rows[i]), BlankEdges(EdgesOf(entity)), requested)
          && EmptyFrom(EdgesOf(entity), 0, nodes[i].edges)
      ensures CanLoad(0, nodes, {}) && FieldsSeq(nodes) == Base(q, db) && Vals(nodes) == Fresh(q, Base(q, db))
    {
      assert requested == Loaded(q);
      assert BlankEdges(EdgesOf(entity)) == Blank(q);
      forall i | 0 <= i < |nodes| ensures nodes[i].fields == Base(q, db)[i] {
        assert NodeOk(nodes[i], {});
      }
    }
  }

  lemma NoNodes()
    ensures Graph({})
  {
  }

  /** The three ways a run goes. */
  lemma RunCases(q: Spec, db: DB)
    requires WellFormed(q) && HasTables(db)
    ensures var bad, base := FirstInvalid(q.fields, q.entity), Base(q, db);
      && Shaped(Fresh(q, base), |q.with|) && |Fresh(q, base)| == |base|
      && Run(q, db) ==
           if bad.Some? then (q, Err(InvalidField(bad.value)))
           else if base == [] then (q, Ok([]))
           else (q.(with := LoadEdges(q, 0, base, Fresh(q, base), db).0), LoadEdges(q, 0, base, Fresh(q, base), db).1)
  {
  }

  lemma RootsJoin(nodes: seq<Node>, G: set<Node>)
    requires Graph(G) && Roots(nodes, G)
    ensures Graph(G + set n | n in nodes)
  {
    var H := G + set n | n in nodes;
    forall n | n in H ensures NodeOk(n, H) {
      assert NodeOk(n, G);
    }
  }

  /** The slots a hold valid builders with footprints inside A. */
  ghost predicate Owned(a: seq<Query?>, A: set<object>)
    reads A
  {
    forall k :: 0 <= k < |a| && a[k] != null ==> a[k] in A && a[k].Repr <= A && a[k].Valid()
  }

  /** The slots b hold copies of the builders in a, with footprints that are disjoint and inside R. */
  ghost predicate Copies(a: seq<Query?>, A: set<object>, b: seq<Query?>, R: set<object>)
    requires Owned(a, A)
    reads A, R
  {
    && |a| == |b| && Owned(b, R)
    && (forall k :: 0 <= k < |a| ==> (a[k] == null <==> b[k] == null))
    && (forall k :: 0 <= k < |a| && a[k] != null ==> b[k].entity == a[k].entity && b[k].Contents() == a[k].Contents())
    && (forall i, j :: 0 <= i < j < |b| && b[i] != null && b[j] != null ==> b[i].Repr !! b[j].Repr)
  }

  lemma CopiesNone(A: set<object>)
    ensures Owned([], A) && Copies([], A, [], {})
  {
  }

  lemma CopiesNull(a: seq<Query?>, A: set<object>, b: seq<Query?>, R: set<object>)
    requires Owned(a, A) && Copies(a, A, b, R)
    ensures Owned(a + [null], A) && Copies(a + [null], A, b + [null], R)
  {
  }

  lemma CopiesOne(a: seq<Query?>, A: set<object>, b: seq<Query?>, R: set<object>, q: Query, c: Query)
    requires Owned(a, A) && Copies(a, A, b, R)
    requires q in A && q.Repr <= A && q.Valid() && c.Repr !! R && c.Valid()
    requires c.entity == q.entity && c.Contents() == q.Contents()
    ensures Owned(a + [q], A) && Copies(a + [q], A, b + [c], R + c.Repr)
  {
    var b' := b + [c];
    forall i, j | 0 <= i < j < |b'| && b'[i] != null && b'[j] != null ensures b'[i].Repr !! b'[j].Repr {
      assert b'[i] == b[i];
      if j < |b| {
        assert b'[j] == b[j];
      }
    }
  }
}
