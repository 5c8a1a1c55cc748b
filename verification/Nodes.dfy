/** Entity structs that point at each other, and the loops of the eager-load loaders over them. */
module Nodes {
  import opened Schema
  import opened Plan

  // ----- Entities -----

  datatype EdgeRef = ManyRef(nodes: seq<Node>) | OneRef(node: Option<Node>)

  /** An entity struct. `val` is its contents together with those of everything it points at. */
  class Node {
    var fields: Row
    var edges: seq<EdgeRef>
    var loaded: seq<bool>
    ghost var val: NodeV

    constructor (es: seq<Edge>, loadedTypes: seq<bool>)
      ensures fields == map[] && loaded == loadedTypes && |edges| == |es|
      ensures forall k :: 0 <= k < |es| ==> edges[k] == if es[k].many then ManyRef([]) else OneRef(None)
    {
      fields := map[];
      edges := seq(|es|, k requires 0 <= k < |es| => if es[k].many then ManyRef([]) else OneRef(None));
      loaded := loadedTypes;
    }

    function GetId(): Id
      reads this`fields
    {
      StrOf(fields, ID)
    }

    /** Assign the cells of a row to the struct fields, column by column; NULL leaves the zero value. */
    method AssignValues(cols: seq<Col>, r: Row)
      requires fields == map[]
      modifies this`fields
      ensures fields == Assigned(cols, r)
    {
      for i := 0 to |cols|
        invariant fields == Assigned(cols[..i], r)
      {
        if cols[i] in r && r[cols[i]] != Null {
          fields := fields[cols[i] := r[cols[i]]];
        }
      }
      assert cols[..|cols|] == cols;
    }
  }

  ghost function Vals(ns: seq<Node>): (r: seq<NodeV>)
    reads ns
    ensures |r| == |ns| && forall i :: 0 <= i < |r| ==> r[i] == ns[i].val
  {
    seq(|ns|, i requires 0 <= i < |ns| reads ns => ns[i].val)
  }

  ghost predicate EdgeOk(r: EdgeRef, v: EdgeV, H: set<Node>)
    reads H
  {
    match r
    case ManyRef(ns) => (forall n :: n in ns ==> n in H) && v == Many(Vals(ns))
    case OneRef(None) => v == One(None)
    case OneRef(Some(n)) => n in H && v == One(Some(n.val))
  }

  ghost predicate EdgesOk(rs: seq<EdgeRef>, vs: seq<EdgeV>, H: set<Node>)
    reads H
  {
    |rs| == |vs| && forall k :: 0 <= k < |rs| ==> EdgeOk(rs[k], vs[k], H)
  }

  /** The recorded value of n is right and everything n points at is in H. */
  ghost predicate NodeOk(n: Node, H: set<Node>)
    reads n, H
  {
    n.val.fields == n.fields && n.val.loaded == n.loaded && EdgesOk(n.edges, n.val.edges, H)
  }

  /** A set of nodes that is closed under edges. */
  ghost predicate Graph(H: set<Node>)
    reads H
  {
    forall n :: n in H ==> NodeOk(n, H)
  }

  lemma GraphUnion(G: set<Node>, H: set<Node>)
    requires Graph(G) && Graph(H)
    ensures Graph(G + H)
  {
    forall n | n in G + H ensures NodeOk(n, G + H) {
      assert NodeOk(n, if n in G then G else H);
    }
  }

  // ----- The loaders' index maps and assignments -----

  function Repeat<T>(n: nat, x: T): (r: seq<T>)
    ensures |r| == n && forall i :: 0 <= i < n ==> r[i] == x
  {
    seq(n, _ => x)
  }

  ghost predicate Distinct(nodes: seq<Node>) {
    forall i, j :: 0 <= i < j < |nodes| ==> nodes[i] != nodes[j]
  }

  /** `base` lists the fields of the nodes. */
  ghost predicate HaveFields(nodes: seq<Node>, base: seq<Row>)
    reads nodes
  {
    |base| == |nodes| && forall i :: 0 <= i < |nodes| ==> nodes[i].fields == base[i]
  }

  /** `keys` lists what the neighbours hold under column c. */
  ghost predicate HaveKeys(ns: seq<Node>, c: Col, keys: seq<Id>)
    reads ns
  {
    |keys| == |ns| && forall j :: 0 <= j < |ns| ==> StrOf(ns[j].fields, c) == keys[j]
  }

  /** The neighbours with the given key, in returned order. */
  ghost function RefsWithKey(ns: seq<Node>, keys: seq<Id>, key: Id): (r: seq<Node>)
    requires |keys| == |ns|
    ensures forall n :: n in r ==> n in ns
  {
    if ns == [] then [] else
    var before := RefsWithKey(ns[..|ns|-1], keys[..|ns|-1], key);
    if keys[|ns|-1] == key then before + [ns[|ns|-1]] else before
  }

  ghost function LastRef(ns: seq<Node>, keys: seq<Id>, key: Id): (r: Option<Node>)
    requires |keys| == |ns|
    ensures r.Some? ==> r.value in ns
  {
    if ns == [] then None
    else if keys[|ns|-1] == key then Some(ns[|ns|-1])
    else LastRef(ns[..|ns|-1], keys[..|ns|-1], key)
  }

  lemma {:induction false} RefValues(ns: seq<Node>, c: Col, keys: seq<Id>, key: Id)
    requires ValuesMatch(ns) && HaveKeys(ns, c, keys)
    ensures Vals(RefsWithKey(ns, keys, key)) == WithKey(Vals(ns), c, key)
    ensures var r, v := LastRef(ns, keys, key), LastWithKey(Vals(ns), c, key);
      r.Some? == v.Some? && (r.Some? ==> v.value == r.value.val)
  {
    if ns != [] {
      var m, vs := |ns| - 1, Vals(ns);
      RefValues(ns[..m], c, keys[..m], key);
      assert vs[..m] == Vals(ns[..m]) && vs[m].fields == ns[m].fields;
      var before := RefsWithKey(ns[..m], keys[..m], key);
      assert Vals(before + [ns[m]]) == Vals(before) + [vs[m]];
    }
  }

  /** The identifiers of the nodes, and the map from an identifier to its last node. */
  ghost predicate IndexOk(index: map<Id, Node>, nodes: seq<Node>, base: seq<Row>)
    requires |base| == |nodes|
  {
    && (forall i :: 0 <= i < |nodes| ==> StrOf(base[i], ID) in index)
    && (forall key :: key in index ==> exists i ::
      0 <= i < |nodes| && StrOf(base[i], ID) == key && LastOfId(base, i) && index[key] == nodes[i])
  }

  lemma IndexSnoc(index: map<Id, Node>, nodes: seq<Node>, base: seq<Row>, n: Node, r: Row)
    requires |base| == |nodes| && IndexOk(index, nodes, base)
    ensures IndexOk(index[StrOf(r, ID) := n], nodes + [n], base + [r])
  {
    var id, nodes', base' := StrOf(r, ID), nodes + [n], base + [r];
    var index' := index[id := n];
    forall key | key in index'
      ensures exists i ::
        0 <= i < |nodes'| && StrOf(base'[i], ID) == key && LastOfId(base', i) && index'[key] == nodes'[i]
    {
      if key == id {
        assert LastOfId(base', |base|) && nodes'[|base|] == n;
      } else {
        var i :| 0 <= i < |nodes| && StrOf(base[i], ID) == key && LastOfId(base, i) && index[key] == nodes[i];
        assert base'[i] == base[i] && nodes'[i] == nodes[i] && LastOfId(base', i);
      }
    }
  }

  /** The loop that collects the parents' identifiers, indexes the parents by them and gives every parent an
      empty list. */
  method IndexById(nodes: seq<Node>, k: nat, ghost base: seq<Row>) returns (fks: seq<Id>, index: map<Id, Node>)
    requires Distinct(nodes) && HaveFields(nodes, base) && forall n :: n in nodes ==> k < |n.edges|
    modifies (set n | n in nodes)`edges
    ensures fks == Ids(base) && IndexOk(index, nodes, base)
    ensures forall i :: 0 <= i < |nodes| ==> nodes[i].edges == old(nodes[i].edges)[k := ManyRef([])]
  {
    fks, index := [], map[];
    for i := 0 to |nodes|
      invariant fks == Ids(base)[..i]
      invariant IndexOk(index, nodes[..i], base[..i])
      invariant forall j :: 0 <= j < i ==> nodes[j].edges == old(nodes[j].edges)[k := ManyRef([])]
      invariant forall j :: i <= j < |nodes| ==> nodes[j].edges == old(nodes[j].edges)
    {
      fks := fks + [nodes[i].GetId()];
      IndexSnoc(index, nodes[..i], base[..i], nodes[i], base[i]);
      assert base[..i+1] == base[..i] + [base[i]] && nodes[..i+1] == nodes[..i] + [nodes[i]];
      index := index[nodes[i].GetId() := nodes[i]];
      nodes[i].edges := nodes[i].edges[k := ManyRef([])];
    }
    assert base[..|nodes|] == base && nodes[..|nodes|] == nodes;
  }

  /** The list of parent i after the neighbours ns were assigned over a one-to-many edge. */
  ghost function ManyRefs(base: seq<Row>, i: nat, ns: seq<Node>, keys: seq<Id>): seq<Node>
    requires i < |base| && |keys| == |ns|
  {
    if LastOfId(base, i) then RefsWithKey(ns, keys, StrOf(base[i], ID)) else []
  }

  ghost predicate ValuesMatch(ns: seq<Node>)
    reads ns
  {
    forall n :: n in ns ==> n.val.fields == n.fields
  }

  lemma {:induction false} FirstUnknownStays(e: Edge, base: seq<Row>, ns: seq<NodeV>, j: nat)
    requires j <= |ns| && FirstUnknown(e, base, ns[..j]).Some?
    ensures FirstUnknown(e, base, ns) == FirstUnknown(e, base, ns[..j])
    decreases |ns| - j
  {
    if j == |ns| {
      assert ns[..j] == ns;
    } else {
      assert ns[..j+1][..j] == ns[..j];
      FirstUnknownStays(e, base, ns, j + 1);
    }
  }

  /** One more neighbour considered. */
  lemma FirstUnknownNext(e: Edge, base: seq<Row>, ns: seq<NodeV>, j: nat)
    requires j < |ns| && FirstUnknown(e, base, ns[..j]).None?
    ensures KnownKey(e, base, ns[j]) ==> FirstUnknown(e, base, ns[..j+1]).None?
    ensures !KnownKey(e, base, ns[j]) ==> FirstUnknown(e, base, ns) == Some(KeyOf(e, ns[j]))
  {
    assert ns[..j+1][..j] == ns[..j];
    if !KnownKey(e, base, ns[j]) {
      FirstUnknownStays(e, base, ns, j + 1);
    }
  }

  /** The nodes' edges, with slot k holding the given lists. */
  ghost predicate ListsAre(nodes: seq<Node>, before: seq<seq<EdgeRef>>, k: nat, lists: seq<seq<Node>>)
    reads nodes
  {
    && |before| == |lists| == |nodes|
    && forall i :: 0 <= i < |nodes| ==> k < |before[i]| && nodes[i].edges == before[i][k := ManyRef(lists[i])]
  }

  /** The assign callback of a one-to-many edge. */
  method AppendNeighbor(nodes: seq<Node>, node: Node, k: nat, n: Node, ghost p: nat, ghost before: seq<seq<EdgeRef>>,
      ghost lists: seq<seq<Node>>)
    requires Distinct(nodes) && ListsAre(nodes, before, k, lists) && p < |nodes| && nodes[p] == node
    modifies node`edges
    ensures ListsAre(nodes, before, k, lists[p := lists[p] + [n]])
  {
    node.edges := node.edges[k := ManyRef(node.edges[k].nodes + [n])];
    assert forall i :: 0 <= i < |nodes| && i != p ==> nodes[i] != node;
  }

  function Failure(key: Option<Id>): Option<Error> {
    if key.Some? then Some(UnexpectedForeignKey(key.value)) else None
  }

  ghost function ManyLists(base: seq<Row>, ns: seq<Node>, keys: seq<Id>): (r: seq<seq<Node>>)
    requires |keys| == |ns|
    ensures |r| == |base| && forall i :: 0 <= i < |base| ==> r[i] == ManyRefs(base, i, ns, keys)
  {
    seq(|base|, i requires 0 <= i < |base| => ManyRefs(base, i, ns, keys))
  }

  lemma ManyListsEmpty(base: seq<Row>)
    ensures ManyLists(base, [], []) == Repeat(|base|, [])
  {
  }

  /** A further neighbour joins the list of the last parent with its key, and no other. */
  lemma ManyListsNext(base: seq<Row>, ns: seq<Node>, keys: seq<Id>, j: nat, p: nat)
    requires j < |ns| == |keys| && p < |base| && LastOfId(base, p) && StrOf(base[p], ID) == keys[j]
    ensures var lists := ManyLists(base, ns[..j], keys[..j]);
      ManyLists(base, ns[..j+1], keys[..j+1]) == lists[p := lists[p] + [ns[j]]]
  {
    assert ns[..j+1][..j] == ns[..j] && keys[..j+1][..j] == keys[..j];
    var lists, lists' := ManyLists(base, ns[..j], keys[..j]), ManyLists(base, ns[..j+1], keys[..j+1]);
    forall i | 0 <= i < |base| ensures lists'[i] == lists[p := lists[p] + [ns[j]]][i] {
      if i != p && LastOfId(base, i) {
        assert StrOf(base[i], ID) != StrOf(base[p], ID);
      }
    }
  }

  lemma IndexKnows(e: Edge, base: seq<Row>, nodes: seq<Node>, index: map<Id, Node>, n: NodeV) returns (p: nat)
    requires e.many && |base| == |nodes| && IndexOk(index, nodes, base)
    ensures KeyOf(e, n) in index <==> KnownKey(e, base, n)
    ensures KeyOf(e, n) in index ==>
      p < |nodes| && StrOf(base[p], ID) == KeyOf(e, n) && LastOfId(base, p) && index[KeyOf(e, n)] == nodes[p]
  {
    p := 0;
    if KeyOf(e, n) in index {
      p :| 0 <= p < |nodes| && StrOf(base[p], ID) == KeyOf(e, n) && LastOfId(base, p) && index[KeyOf(e, n)] == nodes[p];
    }
  }

  /** The loop that appends every neighbour to the list of the parent its key names. */
  method AssignMany(e: Edge, k: nat, nodes: seq<Node>, index: map<Id, Node>, ns: seq<Node>,
                    ghost base: seq<Row>, ghost keys: seq<Id>, ghost before: seq<seq<EdgeRef>>)
                      returns (err: Option<Error>)
    requires e.many && Distinct(nodes) && |base| == |nodes|
    requires IndexOk(index, nodes, base)
    requires ListsAre(nodes, before, k, Repeat(|nodes|, []))
    requires HaveKeys(ns, e.fk, keys) && ValuesMatch(ns)
    modifies (set n | n in nodes)`edges
    ensures err == Failure(FirstUnknown(e, base, old(Vals(ns))))
    ensures err.None? ==> ListsAre(nodes, before, k, ManyLists(base, ns, keys))
  {
    hide FirstUnknown; hide KnownKey; hide IndexOk; hide ManyRefs; hide ListsAre; hide LastOfId;
    ghost var vs := Vals(ns);
    ManyListsEmpty(base);
    assert FirstUnknown(e, base, []).None?;
    assert ns[..0] == [] && vs[..0] == [] && keys[..0] == [];
    for j := 0 to |ns|
      invariant FirstUnknown(e, base, vs[..j]).None?
      invariant ListsAre(nodes, before, k, ManyLists(base, ns[..j], keys[..j]))
    {
      var fk := StrOf(ns[j].fields, e.fk);
      FirstUnknownNext(e, base, vs, j);
      assert KeyOf(e, vs[j]) == fk;
      ghost var p := IndexKnows(e, base, nodes, index, vs[j]);
      if fk !in index {
        return Some(UnexpectedForeignKey(fk));
      }
      ManyListsNext(base, ns, keys, j, p);
      AppendNeighbor(nodes, index[fk], k, ns[j], p, before, ManyLists(base, ns[..j], keys[..j]));
    }
    assert ns[..|ns|] == ns && vs[..|ns|] == vs && keys[..|ns|] == keys;
    err := None;
  }

  // ----- Many-to-one -----

  /** The map from a foreign key to the nodes that hold it. */
  ghost predicate GroupsOk(groups: map<Id, seq<Node>>, nodes: seq<Node>, base: seq<Row>, c: Col)
    requires |base| == |nodes|
  {
    && (forall i :: 0 <= i < |nodes| ==> StrOf(base[i], c) in groups && nodes[i] in groups[StrOf(base[i], c)])
    && (forall key :: key in groups ==> groups[key] != [])
    && (forall key, m :: key in groups && m in groups[key] ==> exists i ::
      0 <= i < |nodes| && nodes[i] == m && StrOf(base[i], c) == key)
  }

  lemma GroupsSnoc(groups: map<Id, seq<Node>>, nodes: seq<Node>, base: seq<Row>, c: Col, n: Node, r: Row)
    requires |base| == |nodes| && GroupsOk(groups, nodes, base, c)
    ensures var key := StrOf(r, c);
      GroupsOk(groups[key := (if key in groups then groups[key] else []) + [n]], nodes + [n], base + [r], c)
  {
    var key0, nodes', base' := StrOf(r, c), nodes + [n], base + [r];
    var groups' := groups[key0 := (if key0 in groups then groups[key0] else []) + [n]];
    forall key, m | key in groups' && m in groups'[key]
      ensures exists i :: 0 <= i < |nodes'| && nodes'[i] == m && StrOf(base'[i], c) == key
    {
      if key == key0 && m == n {
        assert nodes'[|nodes|] == n && base'[|base|] == r;
      } else {
        var i :| 0 <= i < |nodes| && nodes[i] == m && StrOf(base[i], c) == key;
        assert nodes'[i] == m && base'[i] == base[i];
      }
    }
  }

  /** The loop that collects the distinct foreign keys and groups the nodes by them. */
  method GroupByKey(nodes: seq<Node>, c: Col, ghost base: seq<Row>) returns (ids: seq<Id>, groups: map<Id, seq<Node>>)
    requires HaveFields(nodes, base)
    ensures ids == DistinctKeys(base, c) && GroupsOk(groups, nodes, base, c)
  {
    hide GroupsOk; hide DistinctKeys;
    ids, groups := [], map[];
    NoGroups(nodes, base, c);
    for i := 0 to |nodes|
      invariant ids == DistinctKeys(base[..i], c) && GroupsOk(groups, nodes[..i], base[..i], c)
      invariant forall key :: key in groups <==> key in ids
    {
      var fk := StrOf(nodes[i].fields, c);
      GroupsStep(groups, nodes, base, c, i);
      if fk !in groups {
        ids := ids + [fk];
      }
      groups := groups[fk := (if fk in groups then groups[fk] else []) + [nodes[i]]];
    }
    assert base[..|nodes|] == base && nodes[..|nodes|] == nodes;
  }

  lemma NoGroups(nodes: seq<Node>, base: seq<Row>, c: Col)
    ensures GroupsOk(map[], nodes[..0], base[..0], c) && DistinctKeys(base[..0], c) == []
  {
  }

  lemma GroupsStep(groups: map<Id, seq<Node>>, nodes: seq<Node>, base: seq<Row>, c: Col, i: nat)
    requires i < |base| == |nodes| && GroupsOk(groups, nodes[..i], base[..i], c)
    ensures var key := StrOf(base[i], c);
      && GroupsOk(groups[key := (if key in groups then groups[key] else []) + [nodes[i]]], nodes[..i+1], base[..i+1], c)
      && DistinctKeys(base[..i+1], c) ==
           if key in DistinctKeys(base[..i], c) then DistinctKeys(base[..i], c) else DistinctKeys(base[..i], c) + [key]
  {
    GroupsSnoc(groups, nodes[..i], base[..i], c, nodes[i], base[i]);
    assert base[..i+1] == base[..i] + [base[i]] && nodes[..i+1] == nodes[..i] + [nodes[i]];
    assert base[..i+1][..i] == base[..i];
  }

  /** The nodes' edges, with slot k pointing as given. */
  ghost predicate PointersAre(nodes: seq<Node>, before: seq<seq<EdgeRef>>, k: nat, ptrs: seq<Option<Node>>)
    reads nodes
  {
    && |before| == |ptrs| == |nodes|
    && forall i :: 0 <= i < |nodes| ==> k < |before[i]| && nodes[i].edges == before[i][k := OneRef(ptrs[i])]
  }

  ghost function Pointers(base: seq<Row>, c: Col, ns: seq<Node>, keys: seq<Id>): (r: seq<Option<Node>>)
    requires |keys| == |ns|
    ensures |r| == |base| && forall i :: 0 <= i < |base| ==> r[i] == LastRef(ns, keys, StrOf(base[i], c))
  {
    seq(|base|, i requires 0 <= i < |base| => LastRef(ns, keys, StrOf(base[i], c)))
  }

  /** The pointers after one more neighbour was assigned to every node with its key. */
  ghost function Repointed(base: seq<Row>, c: Col, ptrs: seq<Option<Node>>, key: Id, n: Node): (r: seq<Option<Node>>)
    requires |ptrs| == |base|
    ensures |r| == |base| && forall i :: 0 <= i < |base| ==>
      r[i] == if StrOf(base[i], c) == key then Some(n) else ptrs[i]
  {
    seq(|base|, i requires 0 <= i < |base| => if StrOf(base[i], c) == key then Some(n) else ptrs[i])
  }

  lemma PointersNext(base: seq<Row>, c: Col, ns: seq<Node>, keys: seq<Id>, j: nat)
    requires j < |ns| == |keys|
    ensures Pointers(base, c, ns[..j+1], keys[..j+1]) ==
      Repointed(base, c, Pointers(base, c, ns[..j], keys[..j]), keys[j], ns[j])
  {
    assert ns[..j+1][..j] == ns[..j] && keys[..j+1][..j] == keys[..j];
  }

  /** The inner loop: point every node of the group at the neighbour. */
  method PointGroup(nodes: seq<Node>, group: seq<Node>, k: nat, n: Node, c: Col, key: Id,
      ghost groups: map<Id, seq<Node>>, ghost base: seq<Row>, ghost before: seq<seq<EdgeRef>>,
      ghost ptrs: seq<Option<Node>>)
    requires Distinct(nodes) && |base| == |nodes| && PointersAre(nodes, before, k, ptrs)
    requires GroupsOk(groups, nodes, base, c) && key in groups && group == groups[key]
    modifies (set m | m in nodes)`edges
    ensures PointersAre(nodes, before, k, Repointed(base, c, ptrs, key, n))
  {
    hide GroupsOk, StrOf;
    GroupMembers(groups, nodes, base, c, key);
    for t := 0 to |group|
      invariant forall i :: 0 <= i < |nodes| ==>
        nodes[i].edges == before[i][k := OneRef(if nodes[i] in group[..t] then Some(n) else ptrs[i])]
    {
      assert group[t] in group;
      ghost var p :| 0 <= p < |nodes| && nodes[p] == group[t];
      group[t].edges := group[t].edges[k := OneRef(Some(n))];
      assert group[..t+1] == group[..t] + [group[t]];
    }
    assert group[..|group|] == group;
  }

  lemma GroupMembers(groups: map<Id, seq<Node>>, nodes: seq<Node>, base: seq<Row>, c: Col, key: Id)
    requires Distinct(nodes) && |base| == |nodes| && GroupsOk(groups, nodes, base, c) && key in groups
    ensures forall m :: m in groups[key] ==> exists i :: 0 <= i < |nodes| && nodes[i] == m
    ensures forall i :: 0 <= i < |nodes| ==> (nodes[i] in groups[key] <==> StrOf(base[i], c) == key)
  {
    forall i | 0 <= i < |nodes| ensures nodes[i] in groups[key] <==> StrOf(base[i], c) == key {
      if nodes[i] in groups[key] {
        var p :| 0 <= p < |nodes| && nodes[p] == nodes[i] && StrOf(base[p], c) == key;
        assert p == i;
      }
    }
  }

  lemma GroupsKnow(e: Edge, base: seq<Row>, nodes: seq<Node>, groups: map<Id, seq<Node>>, n: NodeV)
    requires !e.many && |base| == |nodes| && GroupsOk(groups, nodes, base, e.fk)
    ensures KeyOf(e, n) in groups <==> KnownKey(e, base, n)
  {
    if KeyOf(e, n) in groups {
      assert groups[KeyOf(e, n)][0] in groups[KeyOf(e, n)];
    }
  }

  /** The loop that points every node at the neighbour its foreign key names. */
  method AssignOne(e: Edge, k: nat, nodes: seq<Node>, groups: map<Id, seq<Node>>, ns: seq<Node>,
                   ghost base: seq<Row>, ghost keys: seq<Id>, ghost before: seq<seq<EdgeRef>>)
                     returns (err: Option<Error>)
    requires !e.many && Distinct(nodes) && |base| == |nodes| && GroupsOk(groups, nodes, base, e.fk)
    requires PointersAre(nodes, before, k, Repeat(|nodes|, None))
    requires HaveKeys(ns, ID, keys) && ValuesMatch(ns)
    modifies (set n | n in nodes)`edges
    ensures err == Failure(FirstUnknown(e, base, old(Vals(ns))))
    ensures err.None? ==> PointersAre(nodes, before, k, Pointers(base, e.fk, ns, keys))
  {
    hide FirstUnknown; hide KnownKey; hide GroupsOk; hide PointersAre;
    ghost var vs := Vals(ns);
    assert Pointers(base, e.fk, [], []) == Repeat(|base|, None);
    assert FirstUnknown(e, base, []).None?;
    assert ns[..0] == [] && vs[..0] == [] && keys[..0] == [];
    for j := 0 to |ns|
      invariant FirstUnknown(e, base, vs[..j]).None?
      invariant PointersAre(nodes, before, k, Pointers(base, e.fk, ns[..j], keys[..j]))
    {
      var id := StrOf(ns[j].fields, ID);
      FirstUnknownNext(e, base, vs, j);
      assert KeyOf(e, vs[j]) == id;
      GroupsKnow(e, base, nodes, groups, vs[j]);
      if id !in groups {
        return Some(UnexpectedForeignKey(id));
      }
      PointersNext(base, e.fk, ns, keys, j);
      PointGroup(nodes, groups[id], k, ns[j], e.fk, id, groups, base, before, Pointers(base, e.fk, ns[..j], keys[..j]));
    }
    assert ns[..|ns|] == ns && vs[..|ns|] == vs && keys[..|ns|] == keys;
    err := None;
  }

  // ----- Recording what was loaded -----

  /** Every node of the list is right over H and is not itself in H. */
  ghost predicate Roots(nodes: seq<Node>, H: set<Node>)
    reads nodes, H
  {
    Distinct(nodes) && forall n :: n in nodes ==> n !in H && NodeOk(n, H)
  }

  ghost function EdgesSeq(nodes: seq<Node>): (r: seq<seq<EdgeRef>>)
    reads nodes
    ensures |r| == |nodes| && forall i :: 0 <= i < |nodes| ==> r[i] == nodes[i].edges
  {
    seq(|nodes|, i requires 0 <= i < |nodes| reads nodes => nodes[i].edges)
  }

  ghost function FieldsSeq(nodes: seq<Node>): (r: seq<Row>)
    reads nodes
    ensures |r| == |nodes| && forall i :: 0 <= i < |nodes| ==> r[i] == nodes[i].fields
  {
    seq(|nodes|, i requires 0 <= i < |nodes| reads nodes => nodes[i].fields)
  }

  ghost function KeysSeq(ns: seq<Node>, c: Col): (r: seq<Id>)
    reads ns
    ensures HaveKeys(ns, c, r)
  {
    seq(|ns|, i requires 0 <= i < |ns| reads ns => StrOf(ns[i].fields, c))
  }

  lemma EdgesOkUpdated(rs: seq<EdgeRef>, vs: seq<EdgeV>, G: set<Node>, k: nat, r: EdgeRef, v: EdgeV, H: set<Node>)
    requires EdgesOk(rs, vs, G) && G <= H && k < |rs| && EdgeOk(r, v, H)
    ensures EdgesOk(rs[k := r], vs[k := v], H)
  {
    forall j | 0 <= j < |rs| && j != k ensures EdgeOk(rs[j], vs[j], H) {
      assert EdgeOk(rs[j], vs[j], G);
    }
  }

  /** Record the new values of slot k, once the nodes' edges there refer to nodes of H. */
  ghost method Record(nodes: seq<Node>, k: nat, G: set<Node>, H: set<Node>, before: seq<seq<EdgeRef>>,
      refs: seq<EdgeRef>, vs: seq<EdgeV>)
    requires Distinct(nodes) && |vs| == |nodes| == |before| == |refs| && G <= H
    requires forall n :: n in nodes ==> n !in H && n.val.fields == n.fields && n.val.loaded == n.loaded
    requires forall i :: 0 <= i < |nodes| ==> k < |before[i]| && nodes[i].edges == before[i][k := refs[i]]
    requires forall i :: 0 <= i < |nodes| ==> EdgeOk(refs[i], vs[i], H) && EdgesOk(before[i], nodes[i].val.edges, G)
    modifies (set n | n in nodes)`val
    ensures forall i :: 0 <= i < |nodes| ==>
      k < |old(nodes[i].val.edges)| && nodes[i].val == old(nodes[i].val).(edges := old(nodes[i].val.edges)[k := vs[i]])
    ensures Roots(nodes, H)
  {
    for i := 0 to |nodes|
      invariant forall j :: 0 <= j < i ==>
        k < |old(nodes[j].val.edges)| && nodes[j].val ==
          old(nodes[j].val).(edges := old(nodes[j].val.edges)[k := vs[j]])
      invariant forall j :: i <= j < |nodes| ==> nodes[j].val == old(nodes[j].val)
      invariant forall j :: 0 <= j < i ==> NodeOk(nodes[j], H)
    {
      EdgesOkUpdated(before[i], nodes[i].val.edges, G, k, refs[i], vs[i], H);
      nodes[i].val := nodes[i].val.(edges := nodes[i].val.edges[k := vs[i]]);
    }
  }

  /** Nodes whose slot k is being loaded: `before` lists their edges and `base` their fields at the start,
      and apart from slot k their edges and recorded values are still right over G. */
  ghost predicate Loading(nodes: seq<Node>, k: nat, base: seq<Row>, before: seq<seq<EdgeRef>>, G: set<Node>)
    reads nodes, G
  {
    && Distinct(nodes) && Graph(G) && HaveFields(nodes, base) && |before| == |nodes|
    && (forall n :: n in nodes ==> n !in G && n.val.fields == n.fields && n.val.loaded == n.loaded)
    && (forall i :: 0 <= i < |nodes| ==> k < |before[i]| && EdgesOk(before[i], nodes[i].val.edges, G))
  }

  /** The edges of the nodes are those of `before` with slot k replaced. */
  ghost predicate Replaced(nodes: seq<Node>, k: nat, before: seq<seq<EdgeRef>>, refs: seq<EdgeRef>)
    reads nodes
  {
    && |before| == |refs| == |nodes|
    && forall i :: 0 <= i < |nodes| ==> k < |before[i]| && nodes[i].edges == before[i][k := refs[i]]
  }

  lemma AttachIs(e: Edge, k: nat, base: seq<Row>, vs: seq<NodeV>, ns: seq<NodeV>, vs': seq<NodeV>)
    requires |vs| == |base| == |vs'| && FirstUnknown(e, base, ns).None?
    requires forall i :: 0 <= i < |vs| ==>
      k < |vs[i].edges| && vs'[i] == vs[i].(edges := vs[i].edges[k := EdgeFor(e, base, i, ns)])
    ensures Attach(e, k, base, vs, ns) == Ok(vs')
  {
    assert Attach(e, k, base, vs, ns).value == vs';
  }

  lemma EdgeOkUnion(rs: seq<EdgeRef>, vs: seq<EdgeV>, G: set<Node>, H: set<Node>)
    requires |rs| == |vs| && forall i :: 0 <= i < |rs| ==> EdgeOk(rs[i], vs[i], H)
    ensures forall i :: 0 <= i < |rs| ==> EdgeOk(rs[i], vs[i], G + H)
  {
  }

  /** Once every node's slot k refers to the right neighbours, record it. */
  ghost method Finish(e: Edge, k: nat, nodes: seq<Node>, base: seq<Row>, before: seq<seq<EdgeRef>>, refs: seq<EdgeRef>,
                      nv: seq<NodeV>, G: set<Node>, H: set<Node>)
    requires Loading(nodes, k, base, before, G) && Replaced(nodes, k, before, refs)
    requires FirstUnknown(e, base, nv).None? && forall n :: n in nodes ==> n !in H
    requires forall i :: 0 <= i < |nodes| ==> EdgeOk(refs[i], EdgeFor(e, base, i, nv), H)
    modifies (set n | n in nodes)`val
    ensures forall i :: 0 <= i < |nodes| ==> k < |old(nodes[i].val.edges)|
    ensures Attach(e, k, base, old(Vals(nodes)), nv) == Ok(Vals(nodes))
    ensures Roots(nodes, G + H) && Replaced(nodes, k, before, refs)
  {
    ghost var vs := Vals(nodes);
    ghost var edges := seq(|nodes|, i requires 0 <= i < |nodes| => EdgeFor(e, base, i, nv));
    EdgeOkUnion(refs, edges, G, H);
    hide EdgeFor; hide FirstUnknown; hide EdgeOk;
    Record(nodes, k, G, G + H, before, refs, edges);
    AttachIs(e, k, base, vs, nv, Vals(nodes));
  }

  lemma FailureIs(key: Option<Id>)
    ensures Failure(key).None? <==> key.None?
  {
  }

  lemma AttachFails(e: Edge, k: nat, base: seq<Row>, vs: seq<NodeV>, ns: seq<NodeV>)
    requires |vs| == |base| && (forall i :: 0 <= i < |vs| ==> k < |vs[i].edges|) && FirstUnknown(e, base, ns).Some?
    ensures Attach(e, k, base, vs, ns) == Err(Failure(FirstUnknown(e, base, ns)).value)
  {
  }

  lemma LoadingFacts(nodes: seq<Node>, k: nat, base: seq<Row>, before: seq<seq<EdgeRef>>, G: set<Node>)
    requires Loading(nodes, k, base, before, G)
    ensures |base| == |nodes| == |before| && Distinct(nodes) && Graph(G)
    ensures forall i :: 0 <= i < |nodes| ==>
      k < |before[i]| == |nodes[i].val.edges| && EdgesOk(before[i], nodes[i].val.edges, G)
    ensures forall i :: 0 <= i < |nodes| ==>
      nodes[i] !in G && nodes[i].fields == base[i] == nodes[i].val.fields && nodes[i].loaded == nodes[i].val.loaded
  {
  }

  lemma LoadingFrom(nodes: seq<Node>, k: nat, base: seq<Row>, before: seq<seq<EdgeRef>>, G: set<Node>)
    requires |base| == |nodes| == |before| && Distinct(nodes) && Graph(G)
    requires forall i :: 0 <= i < |nodes| ==>
      k < |before[i]| == |nodes[i].val.edges| && EdgesOk(before[i], nodes[i].val.edges, G)
    requires forall i :: 0 <= i < |nodes| ==>
      nodes[i] !in G && nodes[i].fields == base[i] == nodes[i].val.fields && nodes[i].loaded == nodes[i].val.loaded
    ensures Loading(nodes, k, base, before, G)
  {
  }

  lemma NeighborsMatch(ns: seq<Node>, H: set<Node>)
    requires Graph(H) && forall n :: n in ns ==> n in H
    ensures ValuesMatch(ns)
  {
  }

  lemma NoLists(nodes: seq<Node>, k: nat, before: seq<seq<EdgeRef>>)
    requires Replaced(nodes, k, before, Repeat(|nodes|, ManyRef([])))
    ensures ListsAre(nodes, before, k, Repeat(|nodes|, []))
  {
  }

  lemma NoPointers(nodes: seq<Node>, k: nat, before: seq<seq<EdgeRef>>)
    requires Replaced(nodes, k, before, Repeat(|nodes|, OneRef(None)))
    ensures PointersAre(nodes, before, k, Repeat(|nodes|, None))
  {
  }

  lemma ListsOk(e: Edge, k: nat, nodes: seq<Node>, base: seq<Row>, before: seq<seq<EdgeRef>>, ns: seq<Node>,
      keys: seq<Id>, H: set<Node>)
    returns (refs: seq<EdgeRef>)
    requires e.many && |base| == |nodes| && HaveKeys(ns, e.fk, keys) && ValuesMatch(ns)
      && forall n :: n in ns ==> n in H
    requires ListsAre(nodes, before, k, ManyLists(base, ns, keys))
    ensures Replaced(nodes, k, before, refs) && forall i :: 0 <= i < |nodes| ==>
      EdgeOk(refs[i], EdgeFor(e, base, i, Vals(ns)), H)
  {
    refs := seq(|nodes|, i requires 0 <= i < |nodes| => ManyRef(ManyRefs(base, i, ns, keys)));
    forall i | 0 <= i < |nodes| ensures EdgeOk(refs[i], EdgeFor(e, base, i, Vals(ns)), H) {
      RefValues(ns, e.fk, keys, StrOf(base[i], ID));
    }
  }

  lemma PointersOk(e: Edge, k: nat, nodes: seq<Node>, base: seq<Row>, before: seq<seq<EdgeRef>>, ns: seq<Node>,
      keys: seq<Id>, H: set<Node>)
    returns (refs: seq<EdgeRef>)
    requires !e.many && |base| == |nodes| && HaveKeys(ns, ID, keys) && ValuesMatch(ns) && forall n :: n in ns ==> n in H
    requires PointersAre(nodes, before, k, Pointers(base, e.fk, ns, keys))
    ensures Replaced(nodes, k, before, refs) && forall i :: 0 <= i < |nodes| ==>
      EdgeOk(refs[i], EdgeFor(e, base, i, Vals(ns)), H)
  {
    refs := seq(|nodes|, i requires 0 <= i < |nodes| => OneRef(LastRef(ns, keys, StrOf(base[i], e.fk))));
    forall i | 0 <= i < |nodes| ensures EdgeOk(refs[i], EdgeFor(e, base, i, Vals(ns)), H) {
      RefValues(ns, ID, keys, StrOf(base[i], e.fk));
    }
  }

  /** The first loop of a one-to-many loader, over nodes that are set aside for loading. */
  method InitMany(nodes: seq<Node>, k: nat, ghost base: seq<Row>, ghost before: seq<seq<EdgeRef>>, ghost G: set<Node>)
    returns (fks: seq<Id>, index: map<Id, Node>)
    requires Loading(nodes, k, base, before, G) && Replaced(nodes, k, before, Repeat(|nodes|, ManyRef([])))
    modifies (set n | n in nodes)`edges
    ensures |base| == |nodes| && fks == Ids(base) && IndexOk(index, nodes, base)
    ensures Loading(nodes, k, base, before, G) && Replaced(nodes, k, before, Repeat(|nodes|, ManyRef([])))
    ensures Vals(nodes) == old(Vals(nodes))
  {
    hide *;
    LoadingFacts(nodes, k, base, before, G);
    BlankLists(nodes, k, base, before);
    fks, index := IndexById(nodes, k, base);
    LoadingFrom(nodes, k, base, before, G);
    forall i | 0 <= i < |nodes| ensures nodes[i].edges == before[i][k := ManyRef([])] {
      assert nodes[i].edges == old(nodes[i].edges)[k := ManyRef([])];
    }
    BlankAgain(nodes, k, before);
    assert Vals(nodes) == old(Vals(nodes));
  }

  lemma BlankLists(nodes: seq<Node>, k: nat, base: seq<Row>, before: seq<seq<EdgeRef>>)
    requires Replaced(nodes, k, before, Repeat(|nodes|, ManyRef([])))
    requires |base| == |nodes| && forall i :: 0 <= i < |nodes| ==> nodes[i].fields == base[i]
    ensures HaveFields(nodes, base) && forall i :: 0 <= i < |nodes| ==> nodes[i].edges == before[i][k := ManyRef([])]
    ensures forall n :: n in nodes ==> k < |n.edges|
  {
  }

  lemma BlankAgain(nodes: seq<Node>, k: nat, before: seq<seq<EdgeRef>>)
    requires |before| == |nodes| && forall i :: 0 <= i < |nodes| ==>
      k < |before[i]| && nodes[i].edges == before[i][k := ManyRef([])]
    ensures Replaced(nodes, k, before, Repeat(|nodes|, ManyRef([])))
  {
  }

  /** Assign the neighbours over a one-to-many edge and record the result. */
  method AttachMany(e: Edge, k: nat, nodes: seq<Node>, index: map<Id, Node>, ns: seq<Node>,
                    ghost base: seq<Row>, ghost before: seq<seq<EdgeRef>>, ghost G: set<Node>, ghost H: set<Node>)
                      returns (err: Option<Error>)
    requires e.many && Loading(nodes, k, base, before, G) && |base| == |nodes| && IndexOk(index, nodes, base)
    requires Replaced(nodes, k, before, Repeat(|nodes|, ManyRef([])))
    requires Graph(H) && (forall n :: n in ns ==> n in H) && (forall n :: n in nodes ==> n !in H)
    modifies (set n | n in nodes)`edges, (set n | n in nodes)`val
    ensures forall i :: 0 <= i < |nodes| ==> k < |old(nodes[i].val.edges)|
    ensures Attach(e, k, base, old(Vals(nodes)), old(Vals(ns))) == if err.Some? then Err(err.value) else Ok(Vals(nodes))
    ensures err.None? ==> Roots(nodes, G + H) && exists refs :: Replaced(nodes, k, before, refs)
  {
    hide *;
    ghost var keys, vs, nv := KeysSeq(ns, e.fk), Vals(nodes), Vals(ns);
    LoadingFacts(nodes, k, base, before, G);
    NoLists(nodes, k, before);
    NeighborsMatch(ns, H);
    err := AssignMany(e, k, nodes, index, ns, base, keys, before);
    FailureIs(FirstUnknown(e, base, nv));
    if err.None? {
      LoadingFrom(nodes, k, base, before, G);
      assert Vals(nodes) == vs;
      ghost var refs := ListsOk(e, k, nodes, base, before, ns, keys, H);
      Finish(e, k, nodes, base, before, refs, nv, G, H);
    } else {
      AttachFails(e, k, base, vs, nv);
    }
  }

  /** Assign the neighbours over a many-to-one edge and record the result. */
  method AttachOne(e: Edge, k: nat, nodes: seq<Node>, groups: map<Id, seq<Node>>, ns: seq<Node>,
                   ghost base: seq<Row>, ghost before: seq<seq<EdgeRef>>, ghost G: set<Node>, ghost H: set<Node>)
                     returns (err: Option<Error>)
    requires !e.many && Loading(nodes, k, base, before, G) && |base| == |nodes| && GroupsOk(groups, nodes, base, e.fk)
    requires Replaced(nodes, k, before, Repeat(|nodes|, OneRef(None)))
    requires Graph(H) && (forall n :: n in ns ==> n in H) && (forall n :: n in nodes ==> n !in H)
    modifies (set n | n in nodes)`edges, (set n | n in nodes)`val
    ensures forall i :: 0 <= i < |nodes| ==> k < |old(nodes[i].val.edges)|
    ensures Attach(e, k, base, old(Vals(nodes)), old(Vals(ns))) == if err.Some? then Err(err.value) else Ok(Vals(nodes))
    ensures err.None? ==> Roots(nodes, G + H) && exists refs :: Replaced(nodes, k, before, refs)
  {
    hide *;
    ghost var keys, vs, nv := KeysSeq(ns, ID), Vals(nodes), Vals(ns);
    LoadingFacts(nodes, k, base, before, G);
    NoPointers(nodes, k, before);
    NeighborsMatch(ns, H);
    err := AssignOne(e, k, nodes, groups, ns, base, keys, before);
    FailureIs(FirstUnknown(e, base, nv));
    if err.None? {
      LoadingFrom(nodes, k, base, before, G);
      assert Vals(nodes) == vs;
      ghost var refs := PointersOk(e, k, nodes, base, before, ns, keys, H);
      Finish(e, k, nodes, base, before, refs, nv, G, H);
    } else {
      AttachFails(e, k, base, vs, nv);
    }
  }

  // ----- Creating the nodes of a result -----

  /** From slot k on the edges hold no neighbour. */
  predicate EmptyFrom(es: seq<Edge>, k: nat, rs: seq<EdgeRef>) {
    |rs| == |es| && forall j :: k <= j < |rs| ==> rs[j] == if es[j].many then ManyRef([]) else OneRef(None)
  }

  ghost function BlankEdges(es: seq<Edge>): (r: seq<EdgeV>)
    ensures |r| == |es| && forall k :: 0 <= k < |es| ==> r[k] == Unloaded(es[k])
  {
    seq(|es|, k requires 0 <= k < |es| => Unloaded(es[k]))
  }

  /** A new node per row, with the row's cells assigned and the requested edges marked. */
  method NewNodes(es: seq<Edge>, cols: seq<Col>, rows: seq<Row>, loadedTypes: seq<bool>) returns (nodes: seq<Node>)
    ensures |nodes| == |rows| && Roots(nodes, {}) && forall n :: n in nodes ==> fresh(n)
    ensures forall i :: 0 <= i < |nodes| ==>
      nodes[i].val == NodeV(Assigned(cols, rows[i]), BlankEdges(es), loadedTypes) && EmptyFrom(es, 0, nodes[i].edges)
  {
    nodes := [];
    for i := 0 to |rows|
      invariant |nodes| == i && Distinct(nodes) && forall n :: n in nodes ==> fresh(n)
      invariant forall j :: 0 <= j < i ==> NodeOk(nodes[j], {}) && EmptyFrom(es, 0, nodes[j].edges)
      invariant forall j :: 0 <= j < i ==> nodes[j].val == NodeV(Assigned(cols, rows[j]), BlankEdges(es), loadedTypes)
    {
      var n := new Node(es, loadedTypes);
      n.AssignValues(cols, rows[i]);
      n.val := NodeV(n.fields, BlankEdges(es), loadedTypes);
      nodes := nodes + [n];
    }
  }
}
