/** One edge of a mutation: the pending additions, removals and clearing, what they are lowered to, and what
    the saved result means in terms of the calls that were made. */
module EdgeHistory {
  import opened Schema

  /** The three fields a mutation keeps for an edge. A map that was never created is None. */
  datatype Pending = Pending(added: Option<set<Id>>, removed: Option<set<Id>>, cleared: bool)

  const UNTOUCHED := Pending(None, None, false)

  datatype EdgeCall = Add(ids: seq<Id>) | Remove(ids: seq<Id>) | Clear | Reset

  function SetOf(ids: seq<Id>): set<Id> {
    set x | x in ids
  }

  function Members(m: Option<set<Id>>): set<Id> {
    if m.Some? then m.value else {}
  }

  /** The pending changes after one call. */
  function Step(p: Pending, c: EdgeCall): Pending {
    match c
    case Add(ids) => p.(added := Some(Members(p.added) + SetOf(ids)))
    case Remove(ids) => p.(added := if p.added.Some? then Some(p.added.value - SetOf(ids)) else None,
                           removed := Some(Members(p.removed) + SetOf(ids)))
    case Clear => p.(cleared := true)
    case Reset => UNTOUCHED
  }

  function Play(h: seq<EdgeCall>): Pending {
    if h == [] then UNTOUCHED else Step(Play(h[..|h|-1]), h[|h|-1])
  }

  // ----- What the calls ask for -----

  /** Whether the last Add or Remove of x since the last Reset was an Add; None if there was neither. */
  function LastTouch(h: seq<EdgeCall>, x: Id): Option<bool> {
    if h == [] then None
    else match h[|h|-1]
      case Reset => None
      case Add(ids) => if x in ids then Some(true) else LastTouch(h[..|h|-1], x)
      case Remove(ids) => if x in ids then Some(false) else LastTouch(h[..|h|-1], x)
      case Clear => LastTouch(h[..|h|-1], x)
  }

  function ClearedSinceReset(h: seq<EdgeCall>): bool {
    h != [] && match h[|h|-1]
      case Reset => false
      case Clear => true
      case _ => ClearedSinceReset(h[..|h|-1])
  }

  function AddedSinceReset(h: seq<EdgeCall>): bool {
    h != [] && match h[|h|-1]
      case Reset => false
      case Add(_) => true
      case _ => AddedSinceReset(h[..|h|-1])
  }

  /** Whether x is to be linked after saving, when the linked set was S before. */
  predicate Linked(h: seq<EdgeCall>, S: set<Id>, x: Id) {
    match LastTouch(h, x)
    case Some(added) => added
    case None => x in S && !ClearedSinceReset(h)
  }

  // ----- What the pending changes are lowered to -----

  /** An edge of an update spec. */
  datatype EdgeSpec<E> = EdgeSpec(edge: E, nodes: seq<Id>)

  /** The store's contract: a clear without targets unlinks everything, one with targets unlinks those, and
      additions are applied after all clears. */
  function Unlink(S: set<Id>, nodes: seq<Id>): set<Id> {
    if nodes == [] then {} else S - SetOf(nodes)
  }

  function ClearAll<E(==)>(S: set<Id>, e: E, specs: seq<EdgeSpec<E>>): set<Id>
    decreases |specs|
  {
    if specs == [] then S
    else ClearAll(if specs[0].edge == e then Unlink(S, specs[0].nodes) else S, e, specs[1..])
  }

  function AddAll<E(==)>(S: set<Id>, e: E, specs: seq<EdgeSpec<E>>): set<Id>
    decreases |specs|
  {
    if specs == [] then S
    else AddAll(if specs[0].edge == e then S + SetOf(specs[0].nodes) else S, e, specs[1..])
  }

  /** The ids linked over edge e once a spec was applied. */
  function Applied<E(==)>(S: set<Id>, e: E, clear: seq<EdgeSpec<E>>, add: seq<EdgeSpec<E>>): set<Id> {
    AddAll(ClearAll(S, e, clear), e, add)
  }

  /** The ids of a map, in an order the map chooses. */
  ghost predicate ListsIds(ids: seq<Id>, m: Option<set<Id>>) {
    SetOf(ids) == Members(m) && forall i, j :: 0 <= i < j < |ids| ==> ids[i] != ids[j]
  }

  method IdsOf(m: Option<set<Id>>) returns (ids: seq<Id>)
    ensures ListsIds(ids, m)
  {
    ids := [];
    if m.Some? {
      var rest := m.value;
      while rest != {}
        invariant rest <= m.value && SetOf(ids) == m.value - rest
        invariant forall i, j :: 0 <= i < j < |ids| ==> ids[i] != ids[j]
        decreases rest
      {
        var x :| x in rest;
        assert x !in SetOf(ids);
        assert SetOf(ids + [x]) == SetOf(ids) + {x};
        ids := ids + [x];
        rest := rest - {x};
      }
    }
  }

  /** The block of sqlSave that lowers one edge: a cleared edge is cleared without targets and its removals
      are dropped, other removals and all additions name their targets. */
  method LowerEdge<E>(e: E, p: Pending, clear: seq<EdgeSpec<E>>, add: seq<EdgeSpec<E>>)
    returns (clear': seq<EdgeSpec<E>>, add': seq<EdgeSpec<E>>)
    ensures Lowered(e, p, clear, add, clear', add')
  {
    clear', add' := clear, add;
    if p.cleared {
      clear' := clear' + [EdgeSpec(e, [])];
    }
    var removed := IdsOf(p.removed);
    if |removed| > 0 && !p.cleared {
      clear' := clear' + [EdgeSpec(e, removed)];
    }
    var added := IdsOf(p.added);
    if |added| > 0 {
      add' := add' + [EdgeSpec(e, added)];
    }
  }

  /** What the block of edge e appends to the spec. The ids come in some order. */
  ghost predicate Lowered<E>(e: E, p: Pending, clear: seq<EdgeSpec<E>>, add: seq<EdgeSpec<E>>,
                             clear': seq<EdgeSpec<E>>, add': seq<EdgeSpec<E>>) {
    exists removed, added ::
      && ListsIds(removed, p.removed) && ListsIds(added, p.added)
      && clear' == clear + LoweredClear(e, p, removed) && add' == add + LoweredAdd(e, added)
  }

  function LoweredClear<E>(e: E, p: Pending, removed: seq<Id>): seq<EdgeSpec<E>> {
    if p.cleared then [EdgeSpec(e, [])] else if removed != [] then [EdgeSpec(e, removed)] else []
  }

  function LoweredAdd<E>(e: E, added: seq<Id>): seq<EdgeSpec<E>> {
    if added != [] then [EdgeSpec(e, added)] else []
  }

  // ----- The lowering agrees with the calls -----

  /** The pending changes are what the calls since the last reset amount to. */
  lemma {:induction false} PendingMeans(h: seq<EdgeCall>, x: Id)
    ensures var p := Play(h);
      && p.cleared == ClearedSinceReset(h)
      && (x in Members(p.added) <==> LastTouch(h, x) == Some(true))
      && (LastTouch(h, x) == Some(false) ==> x in Members(p.removed))
      && (x in Members(p.removed) ==> LastTouch(h, x).Some?)
      && (p.added.Some? <==> AddedSinceReset(h))
  {
    if h != [] {
      PendingMeans(h[..|h|-1], x);
    }
  }

  /** The set an edge is left with, as a function of the pending changes. */
  function Outcome(p: Pending, S: set<Id>): set<Id> {
    (if p.cleared then {} else S - Members(p.removed)) + Members(p.added)
  }

  /** Saving an edge links exactly the ids the history of calls asks for. */
  lemma OutcomeMeans(h: seq<EdgeCall>, S: set<Id>)
    ensures forall x :: x in Outcome(Play(h), S) <==> Linked(h, S, x)
  {
    forall x ensures x in Outcome(Play(h), S) <==> Linked(h, S, x) {
      PendingMeans(h, x);
    }
  }

  lemma {:induction false} ClearConcat<E>(S: set<Id>, e: E, a: seq<EdgeSpec<E>>, b: seq<EdgeSpec<E>>)
    ensures ClearAll(S, e, a + b) == ClearAll(ClearAll(S, e, a), e, b)
    decreases |a|
  {
    if a == [] {
      assert a + b == b;
    } else {
      assert (a + b)[1..] == a[1..] + b;
      ClearConcat(if a[0].edge == e then Unlink(S, a[0].nodes) else S, e, a[1..], b);
    }
  }

  lemma {:induction false} AddConcat<E>(S: set<Id>, e: E, a: seq<EdgeSpec<E>>, b: seq<EdgeSpec<E>>)
    ensures AddAll(S, e, a + b) == AddAll(AddAll(S, e, a), e, b)
    decreases |a|
  {
    if a == [] {
      assert a + b == b;
    } else {
      assert (a + b)[1..] == a[1..] + b;
      AddConcat(if a[0].edge == e then S + SetOf(a[0].nodes) else S, e, a[1..], b);
    }
  }

  /** The block of edge d acts on edge d and leaves every other edge alone. */
  lemma LoweredEffect<E>(S: set<Id>, T: set<Id>, e: E, d: E, p: Pending, removed: seq<Id>, added: seq<Id>)
    requires ListsIds(removed, p.removed) && ListsIds(added, p.added)
    ensures ClearAll(S, e, LoweredClear(d, p, removed)) == if e != d then S else if p.cleared then {}
      else S - Members(p.removed)
    ensures AddAll(T, e, LoweredAdd(d, added)) == if e != d then T else T + Members(p.added)
  {
    if removed == [] {
      assert SetOf(removed) == {};
    }
    if added == [] {
      assert SetOf(added) == {};
    }
  }
}
