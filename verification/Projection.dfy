/** Selecting columns never changes which entities are linked to which. */
module Projection {
  import opened Schema
  import opened Store
  import opened Plan
  import opened EagerLoad

  /** What is linked to what: the identifiers of a loaded tree and nothing else. */
  datatype Link = Link(id: Id, edges: seq<EdgeLink>)

  datatype EdgeLink = ManyLinks(nodes: seq<Link>) | OneLink(node: Option<Link>)

  function LinkOf(n: NodeV): Link
    decreases n, 1
  {
    Link(StrOf(n.fields, ID), seq(|n.edges|, k requires 0 <= k < |n.edges| => EdgeLinkOf(n, k)))
  }

  function EdgeLinkOf(n: NodeV, k: nat): EdgeLink
    requires k < |n.edges|
    decreases n, 0
  {
    match n.edges[k]
    case Many(ns) => ManyLinks(seq(|ns|, i requires 0 <= i < |ns| => LinkOf(ns[i])))
    case One(m) => OneLink(if m.Some? then Some(LinkOf(m.value)) else None)
  }

  /** The same query with other columns selected, at any depth. */
  ghost predicate SameButFields(q: Spec, q': Spec)
    requires WellFormed(q) && WellFormed(q')
  {
    && q' == q.(fields := q'.fields, with := q'.with)
    && (forall k :: 0 <= k < |q.with| ==> q.with[k].Some? == q'.with[k].Some?)
    && (forall k :: 0 <= k < |q.with| && q.with[k].Some? ==> SameButFields(q.with[k].value, q'.with[k].value))
  }

  /** Two lists of nodes that link the same entities and agree on column c. */
  ghost predicate Agree(ns: seq<NodeV>, ns': seq<NodeV>, c: Col) {
    |ns| == |ns'| && forall i :: 0 <= i < |ns| ==>
      LinkOf(ns[i]) == LinkOf(ns'[i]) && StrOf(ns[i].fields, c) == StrOf(ns'[i].fields, c)
  }

  lemma {:induction false} WithKeyAgree(ns: seq<NodeV>, ns': seq<NodeV>, c: Col, k: Id)
    requires Agree(ns, ns', c)
    ensures Agree(WithKey(ns, c, k), WithKey(ns', c, k), c)
  {
    if ns != [] {
      var n := |ns| - 1;
      WithKeyAgree(ns[..n], ns'[..n], c, k);
      assert StrOf(ns[n].fields, c) == StrOf(ns'[n].fields, c) && LinkOf(ns[n]) == LinkOf(ns'[n]);
      var a, b := WithKey(ns[..n], c, k), WithKey(ns'[..n], c, k);
      assert StrOf(ns[n].fields, c) == k ==> WithKey(ns, c, k) == a + [ns[n]] && WithKey(ns', c, k) == b + [ns'[n]];
    }
  }

  lemma {:induction false} LastAgree(ns: seq<NodeV>, ns': seq<NodeV>, c: Col, k: Id)
    requires Agree(ns, ns', c)
    ensures var m, m' := LastWithKey(ns, c, k), LastWithKey(ns', c, k);
      m.Some? == m'.Some? && (m.Some? ==> LinkOf(m.value) == LinkOf(m'.value))
  {
    if ns != [] {
      LastAgree(ns[..|ns|-1], ns'[..|ns|-1], c, k);
    }
  }

  lemma {:induction false} KeysAgree(a: seq<Row>, b: seq<Row>, c: Col)
    requires |a| == |b| && forall i :: 0 <= i < |a| ==> StrOf(a[i], c) == StrOf(b[i], c)
    ensures DistinctKeys(a, c) == DistinctKeys(b, c)
  {
    if a != [] {
      KeysAgree(a[..|a|-1], b[..|b|-1], c);
    }
  }

  /** The nodes' own fields, under both selections, come from the same rows. */
  lemma BasesAgree(q: Spec, q': Spec, db: DB)
    requires WellFormed(q) && WellFormed(q') && SameButFields(q, q') && ValidDB(db)
    ensures var b, b' := Base(q, db), Base(q', db);
      && |b| == |b'|
      && (forall c, i :: c in Selected(q) && c in Selected(q') && 0 <= i < |b| ==> StrOf(b[i], c) == StrOf(b'[i], c))
      && (forall i :: 0 <= i < |b| ==> StrOf(b[i], ID) == StrOf(b'[i], ID))
  {
    SelectedColumns(q);
    SelectedColumns(q');
  }

  lemma NarrowAgrees(q: Spec, q': Spec, k: nat, db: DB)
    requires WellFormed(q) && WellFormed(q') && SameButFields(q, q') && ValidDB(db)
    requires k < |q.with| && q.with[k].Some?
    ensures var e := EdgesOf(q.entity)[k];
      SameButFields(Narrow(e, q.with[k].value, Base(q, db)), Narrow(e, q'.with[k].value, Base(q', db)))
  {
    var e, b, b' := EdgesOf(q.entity)[k], Base(q, db), Base(q', db);
    BasesAgree(q, q', db);
    if e.many {
      assert Ids(b) == Ids(b');
    } else {
      SelectedColumns(q);
      SelectedColumns(q');
      KeysAgree(b, b', e.fk);
    }
  }

  lemma SlotAgrees(e: Edge, b: seq<Row>, b': seq<Row>, i: nat, ns: seq<NodeV>, ns': seq<NodeV>, n: NodeV,
      n': NodeV, k: nat)
    requires i < |b| == |b'| && (forall j :: 0 <= j < |b| ==> StrOf(b[j], ID) == StrOf(b'[j], ID))
    requires !e.many ==> StrOf(b[i], e.fk) == StrOf(b'[i], e.fk)
    requires Agree(ns, ns', if e.many then e.fk else ID)
    requires k < |n.edges| && k < |n'.edges| && n.edges[k] == EdgeFor(e, b, i, ns)
      && n'.edges[k] == EdgeFor(e, b', i, ns')
    ensures EdgeLinkOf(n, k) == EdgeLinkOf(n', k)
  {
    if e.many {
      assert LastOfId(b, i) == LastOfId(b', i);
      WithKeyAgree(ns, ns', e.fk, StrOf(b[i], ID));
      ManyLinked(n, n', k, e.fk);
    } else {
      LastAgree(ns, ns', ID, StrOf(b[i], e.fk));
    }
  }

  lemma ManyLinked(n: NodeV, n': NodeV, k: nat, c: Col)
    requires k < |n.edges| && k < |n'.edges| && n.edges[k].Many? && n'.edges[k].Many?
    requires Agree(n.edges[k].nodes, n'.edges[k].nodes, c)
    ensures EdgeLinkOf(n, k) == EdgeLinkOf(n', k)
  {
    var a, b := EdgeLinkOf(n, k).nodes, EdgeLinkOf(n', k).nodes;
    assert forall i :: 0 <= i < |a| ==> a[i] == b[i];
    assert a == b;
  }

  /** Whatever columns are selected, at any depth, the loaded tree links the same identifiers, and the nodes
      agree on every column that both selections contain. */
  lemma {:induction false} ProjectionKeepsLinks(q: Spec, q': Spec, db: DB)
    requires WellFormed(q) && WellFormed(q') && SameButFields(q, q') && ValidDB(db) && AllValid(q) && AllValid(q')
    ensures Run(q, db).1.Ok? && Run(q', db).1.Ok?
    ensures forall c :: c in Selected(q) && c in Selected(q') ==> Agree(Run(q, db).1.value, Run(q', db).1.value, c)
    ensures Agree(Run(q, db).1.value, Run(q', db).1.value, ID)
    decreases q.with
  {
    NeverUnexpected(q, db);
    NeverUnexpected(q', db);
    RunResult(q, db);
    RunResult(q', db);
    BasesAgree(q, q', db);
    SelectedColumns(q);
    SelectedColumns(q');
    var nodes, nodes' := Run(q, db).1.value, Run(q', db).1.value;
    forall k, i | 0 <= k < |q.with| && 0 <= i < |nodes| ensures EdgeLinkOf(nodes[i], k) == EdgeLinkOf(nodes'[i], k) {
      SlotLinks(q, q', k, i, db);
    }
    forall i | 0 <= i < |nodes| ensures LinkOf(nodes[i]) == LinkOf(nodes'[i]) {}
  }

  lemma {:induction false} SlotLinks(q: Spec, q': Spec, k: nat, i: nat, db: DB)
    requires WellFormed(q) && WellFormed(q') && SameButFields(q, q') && ValidDB(db) && AllValid(q) && AllValid(q')
    requires Run(q, db).1.Ok? && Run(q', db).1.Ok? && k < |q.with| && i < |Run(q, db).1.value|
      && i < |Run(q', db).1.value|
    ensures k < |Run(q, db).1.value[i].edges| && k < |Run(q', db).1.value[i].edges|
    ensures EdgeLinkOf(Run(q, db).1.value[i], k) == EdgeLinkOf(Run(q', db).1.value[i], k)
    decreases q.with, 0
  {
    RunResult(q, db);
    RunResult(q', db);
    var b, b', n, n' := Base(q, db), Base(q', db), Run(q, db).1.value[i], Run(q', db).1.value[i];
    assert SlotLoaded(q, k, b, i, n.edges[k], db) && SlotLoaded(q', k, b', i, n'.edges[k], db);
    if q.with[k].Some? {
      var e := EdgesOf(q.entity)[k];
      var c, c' := Narrow(e, q.with[k].value, b), Narrow(e, q'.with[k].value, b');
      NarrowAgrees(q, q', k, db);
      NarrowStaysValid(q, k, b);
      NarrowStaysValid(q', k, b');
      ProjectionKeepsLinks(c, c', db);
      NarrowSelectsKey(q, k, b);
      NarrowSelectsKey(q', k, b');
      BasesAgree(q, q', db);
      SelectedColumns(q);
      SelectedColumns(q');
      SlotAgrees(e, b, b', i, Run(c, db).1.value, Run(c', db).1.value, n, n', k);
    }
  }
}
