/** The history of an eager-load builder: what becomes of it while calls are made on the query that holds it, and
    which of its predicates were asked of it and which were left by the loader. */
module SlotHistory {
  import opened Schema
  import opened Store
  import opened Plan
  import opened EagerLoad
  import opened BuilderCalls
  import opened Rerun

  /** A call that runs its builder, if it runs one, over a valid store. */
  ghost predicate Sensible(c: Call)
    ensures Sensible(c) ==> Possible(c)
  {
    match c
    case All(db) => HasTables(db) && ValidDB(db)
    case At(_, d) => Sensible(d)
    case _ => true
  }

  ghost predicate AllSensible(h: seq<Call>)
    ensures AllSensible(h) ==> forall c :: c in h ==> Possible(c)
  {
    forall c :: c in h ==> Sensible(c)
  }

  lemma {:induction false} AfterConcat(q: Spec, g: seq<Call>, h: seq<Call>)
    requires WellFormed(q) && AllSensible(g) && AllSensible(h)
    ensures AllSensible(g + h) && AfterAll(q, g + h) == AfterAll(AfterAll(q, g), h)
  {
    if h == [] {
      assert g + h == g;
    } else {
      var n := |h| - 1;
      AfterConcat(q, g, h[..n]);
      assert (g + h)[..|g + h|-1] == g + h[..n];
    }
  }

  lemma AfterNone(q: Spec)
    requires WellFormed(q)
    ensures AfterAll(q, []) == q
  {
  }

  lemma AfterOne(q: Spec, c: Call)
    requires WellFormed(q) && Sensible(c)
    ensures AllSensible([c]) && AfterAll(q, [c]) == After(q, c)
  {
    assert [c][..0] == [];
  }

  // ----- The builder in a slot -----

  /** What a loader does to a builder before it runs it, as calls on the builder. */
  function Narrowing(e: Edge, c: Spec, base: seq<Row>): seq<Call> {
    [Select(if e.many && c.fields != [] && e.fk !in c.fields then [e.fk] else []), Where([KeyPred(e, base)])]
  }

  lemma NarrowingIs(e: Edge, c: Spec, base: seq<Row>)
    requires WellFormed(c)
    ensures AllSensible(Narrowing(e, c, base))
    ensures AfterAll(c, Narrowing(e, c, base)) == Narrow(e, c, base)
  {
    hide WellFormed, KeyPred, After, AfterAll;
    var cs := Narrowing(e, c, base);
    assert cs == [cs[0]] + [cs[1]];
    assert Sensible(cs[0]) && Sensible(cs[1]);
    AfterOne(c, cs[0]);
    AfterOne(AfterAll(c, [cs[0]]), cs[1]);
    AfterConcat(c, [cs[0]], [cs[1]]);
    NarrowedTwice(e, c, base);
  }

  lemma NarrowedTwice(e: Edge, c: Spec, base: seq<Row>)
    requires WellFormed(c)
    ensures var cs := Narrowing(e, c, base);
      After(After(c, cs[0]), cs[1]) == Narrow(e, c, base)
  {
    assert c.fields + [] == c.fields;
  }

  /** The contents of the builder in slot k when it was requested, or before the history if it was then. */
  ghost function Start(q: Spec, k: nat, h: seq<Call>): (s: Option<Spec>)
    requires WellFormed(q) && k < |q.with|
    ensures SlotFits(EdgesOf(q.entity)[k], s)
  {
    if h == [] then q.with[k]
    else if h[|h|-1] == With(k) then Some(NewSpec(EdgesOf(q.entity)[k].target))
    else Start(q, k, h[..|h|-1])
  }

  /** The calls on the builder in slot k since then: those made on it, and those of the loader in every run that
      got as far as loading it. */
  ghost function SlotCalls(q: Spec, k: nat, h: seq<Call>): (cs: seq<Call>)
    requires WellFormed(q) && k < |q.with| && AllSensible(h)
    ensures AllSensible(cs)
  {
    if h == [] then []
    else
      var before, c := h[..|h|-1], h[|h|-1];
      assert Sensible(c);
      var p := AfterAll(q, before);
      match c
      case With(j) => if j == k then [] else SlotCalls(q, k, before)
      case At(j, d) => SlotCalls(q, k, before) + if j == k then [d] else []
      case All(db) =>
        if p.with[k].Some? && Reaches(p, k, db) then
          var base := Base(p, db);
          NarrowingIs(EdgesOf(p.entity)[k], p.with[k].value, base);
          SlotCalls(q, k, before) + Narrowing(EdgesOf(p.entity)[k], p.with[k].value, base) + [All(db)]
        else SlotCalls(q, k, before)
      case _ => SlotCalls(q, k, before)
  }

  /** A builder in a slot is where its own calls take it, whatever else happens to the query. */
  lemma {:induction false} SlotFollows(q: Spec, k: nat, h: seq<Call>)
    requires WellFormed(q) && k < |q.with| && AllSensible(h)
    ensures var s := Start(q, k, h);
      AfterAll(q, h).with[k] == if s.Some? then Some(AfterAll(s.value, SlotCalls(q, k, h))) else None
  {
    if h != [] {
      var before, c := h[..|h|-1], h[|h|-1];
      assert Sensible(c);
      SlotFollows(q, k, before);
      SlotStep(q, k, h);
    }
  }

  ghost function NextSlot(p: Spec, k: nat, c: Call): Option<Spec>
    requires WellFormed(p) && k < |p.with| && Sensible(c)
  {
    match c
    case With(j) => if j == k then Some(NewSpec(EdgesOf(p.entity)[k].target)) else p.with[k]
    case At(j, d) => if j == k && p.with[k].Some? then Some(After(p.with[k].value, d)) else p.with[k]
    case All(db) =>
      if p.with[k].Some? && Reaches(p, k, db) then
        Some(Run(Narrow(EdgesOf(p.entity)[k], p.with[k].value, Base(p, db)), db).0)
      else p.with[k]
    case _ => p.with[k]
  }

  /** What one call does to the builder in slot k. */
  lemma SlotAfter(p: Spec, k: nat, c: Call)
    requires WellFormed(p) && k < |p.with| && Sensible(c)
    ensures After(p, c).with[k] == NextSlot(p, k, c)
  {
    hide Run, Reaches, Base, Narrow;
    match c {
      case All(db) =>
        SlotsStay(p, k, db);
        if p.with[k].Some? {
          SlotAfterRun(p, k, db);
        } else {
          assert After(p, c).with[k] == None;
        }
      case _ =>
    }
  }

  lemma LastCall(q: Spec, h: seq<Call>)
    requires WellFormed(q) && AllSensible(h) && h != []
    ensures var before, c := h[..|h|-1], h[|h|-1];
      AllSensible(before) && Sensible(c) && AfterAll(q, h) == After(AfterAll(q, before), c)
  {
    assert h[|h|-1] in h;
  }

  lemma SlotStep(q: Spec, k: nat, h: seq<Call>)
    requires WellFormed(q) && k < |q.with| && AllSensible(h) && h != []
    requires var before := h[..|h|-1];
      var s := Start(q, k, before);
      AfterAll(q, before).with[k] == if s.Some? then Some(AfterAll(s.value, SlotCalls(q, k, before))) else None
    ensures var s := Start(q, k, h);
      AfterAll(q, h).with[k] == if s.Some? then Some(AfterAll(s.value, SlotCalls(q, k, h))) else None
  {
    hide Run, Reaches, Base, Narrow, Narrowing, AfterAll, After, AllSensible, ValidDB;
    LastCall(q, h);
    var before, c := h[..|h|-1], h[|h|-1];
    SlotAfter(AfterAll(q, before), k, c);
    var p, s, g := AfterAll(q, before), Start(q, k, before), SlotCalls(q, k, before);
    assert g + [] == g;
    match c {
      case With(j) => AfterNone(NewSpec(EdgesOf(p.entity)[k].target));
      case At(j, d) =>
        if j == k && s.Some? {
          AfterConcat(s.value, g, [d]);
          AfterOne(AfterAll(s.value, g), d);
        }
      case All(db) =>
        if s.Some? && Reaches(p, k, db) {
          LoadedAgain(s.value, g, EdgesOf(p.entity)[k], Base(p, db), db);
        }
      case _ =>
    }
  }

  /** Being loaded is being narrowed and run. */
  lemma LoadedAgain(s: Spec, g: seq<Call>, e: Edge, base: seq<Row>, db: DB)
    requires WellFormed(s) && AllSensible(g) && Sensible(All(db))
    ensures var c := AfterAll(s, g);
      var all := g + Narrowing(e, c, base) + [All(db)];
      AllSensible(all) && AfterAll(s, all) == Run(Narrow(e, c, base), db).0
  {
    hide Run, Narrow, Narrowing, AfterAll, WellFormed, AllSensible;
    var c := AfterAll(s, g);
    var n := Narrowing(e, c, base);
    NarrowingIs(e, c, base);
    AfterConcat(s, g, n);
    AfterOne(AfterAll(s, g + n), All(db));
    AfterConcat(s, g + n, [All(db)]);
  }

  lemma SlotsStay(p: Spec, k: nat, db: DB)
    requires WellFormed(p) && HasTables(db) && k < |p.with|
    ensures Run(p, db).0.with[k].Some? == p.with[k].Some?
  {
  }

  // ----- Whose predicates -----

  /** The predicates asked of the builder in slot k: those it had, and those of all Where calls on it since. */
  ghost function Own(q: Spec, k: nat, h: seq<Call>): seq<Pred>
    requires WellFormed(q) && k < |q.with|
  {
    if h == [] then if q.with[k].Some? then q.with[k].value.preds else []
    else
      var before, c := h[..|h|-1], h[|h|-1];
      match c
      case With(j) => if j == k then [] else Own(q, k, before)
      case At(j, d) => Own(q, k, before) + if j == k && d.Where? then d.ps else []
      case _ => Own(q, k, before)
  }

  /** The key sets that runs left on the builder in slot k: one for every run that got as far as loading it. */
  ghost function KeysUsed(q: Spec, k: nat, h: seq<Call>): seq<Pred>
    requires WellFormed(q) && k < |q.with| && AllSensible(h)
  {
    if h == [] then []
    else
      var before, c := h[..|h|-1], h[|h|-1];
      assert Sensible(c);
      var p := AfterAll(q, before);
      match c
      case With(j) => if j == k then [] else KeysUsed(q, k, before)
      case All(db) =>
        KeysUsed(q, k, before)
        + if p.with[k].Some? && Reaches(p, k, db) then [KeyPred(EdgesOf(p.entity)[k], Base(p, db))] else []
      case _ => KeysUsed(q, k, before)
  }

  /** After any history of calls, of runs over any stores, failed ones included, and of calls on eager-load builders,
      the builder in slot k has exactly the predicates asked of it and one key set per run that loaded it, and so
      it accepts a row iff all of them do. */
  lemma {:induction false} KeySetsAccumulate(q: Spec, k: nat, h: seq<Call>)
    requires WellFormed(q) && k < |q.with| && AllSensible(h) && AfterAll(q, h).with[k].Some?
    ensures var ps := AfterAll(q, h).with[k].value.preds;
      && multiset(ps) == multiset(Own(q, k, h)) + multiset(KeysUsed(q, k, h))
      && forall r :: MatchesAll(ps, r) <==> MatchesAll(Own(q, k, h), r) && MatchesAll(KeysUsed(q, k, h), r)
  {
    Tally(q, k, h);
    forall r {
      MatchesTally(AfterAll(q, h).with[k].value.preds, Own(q, k, h), KeysUsed(q, k, h), r);
    }
  }

  lemma MatchesTally(ps: seq<Pred>, a: seq<Pred>, b: seq<Pred>, r: Row)
    requires multiset(ps) == multiset(a) + multiset(b)
    ensures MatchesAll(ps, r) <==> MatchesAll(a, r) && MatchesAll(b, r)
  {
    hide Matches;
    MatchesIn(ps, r);
    MatchesIn(a, r);
    MatchesIn(b, r);
  }

  lemma MatchesIn(ps: seq<Pred>, r: Row)
    ensures MatchesAll(ps, r) <==> forall p :: p in multiset(ps) ==> Matches(p, r)
  {
    hide Matches;
    assert forall p :: p in multiset(ps) <==> p in ps;
  }

  lemma {:induction false} Tally(q: Spec, k: nat, h: seq<Call>)
    requires WellFormed(q) && k < |q.with| && AllSensible(h) && AfterAll(q, h).with[k].Some?
    ensures multiset(AfterAll(q, h).with[k].value.preds) ==
      multiset(Own(q, k, h)) + multiset(KeysUsed(q, k, h))
  {
    if h != [] {
      var before, c := h[..|h|-1], h[|h|-1];
      assert Sensible(c);
      if AfterAll(q, before).with[k].Some? {
        Tally(q, k, before);
      }
      TallyStep(q, k, h);
    }
  }

  lemma OnlyWhere(c: Spec, d: Call)
    requires WellFormed(c) && Sensible(d)
    ensures After(c, d).preds == c.preds + if d.Where? then d.ps else []
  {
    hide Run;
    assert c.preds + [] == c.preds;
  }

  lemma NarrowAppends(e: Edge, c: Spec, base: seq<Row>, db: DB)
    requires WellFormed(c) && HasTables(db)
    ensures Run(Narrow(e, c, base), db).0.preds == c.preds + [KeyPred(e, base)]
  {
    hide Run;
  }

  lemma TallyStep(q: Spec, k: nat, h: seq<Call>)
    requires WellFormed(q) && k < |q.with| && AllSensible(h) && h != [] && AfterAll(q, h).with[k].Some?
    requires var before := h[..|h|-1];
      AfterAll(q, before).with[k].Some? ==>
        multiset(AfterAll(q, before).with[k].value.preds) ==
          multiset(Own(q, k, before)) + multiset(KeysUsed(q, k, before))
    ensures multiset(AfterAll(q, h).with[k].value.preds) ==
      multiset(Own(q, k, h)) + multiset(KeysUsed(q, k, h))
  {
    hide Run, Reaches, Base, KeyPred, Narrow, AfterAll, After, AllSensible, ValidDB;
    LastCall(q, h);
    var before, c := h[..|h|-1], h[|h|-1];
    var p := AfterAll(q, before);
    SlotAfter(p, k, c);
    match c {
      case All(db) => NarrowAppends(EdgesOf(p.entity)[k], p.with[k].value, Base(p, db), db);
      case At(j, d) =>
        if j == k {
          OnlyWhere(p.with[k].value, d);
        }
      case _ =>
    }
  }
}
