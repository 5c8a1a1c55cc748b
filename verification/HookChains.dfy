/** Running a create builder, or a list of them in bulk, through the hooks of each: what is checked, what is
    written, and which mutations are marked as saved. */
module HookChains {
  import opened Schema
  import DeviceTokens

  type State = DeviceTokens.State
  type Spec = map<Col, Value>

  datatype Error = Check(e: DeviceTokens.Error) | Driver | ByHook(id: nat) | NilHook

  type Reply = Result<(), Error>

  /** Something a hook does to a mutation it can reach. */
  datatype Edit<R> = Call(on: R, call: DeviceTokens.Call) | SetID(on: R, id: Id)

  /** A hook edits a mutation, or calls the mutator it wraps, by default with the mutation it was given. */
  datatype Act<R> = Do(edit: Edit<R>) | CallOn(pass: Option<R>)

  /** What a hook does when it is called: it may call on any number of times. It gives a reply of its own or that
      of its last call, which is success if it made none. */
  datatype Turn<R> = Turn(acts: seq<Act<R>>, reply: Option<Reply>)

  /** A hook, by what it does the first, second and any later time it is called; the last turn stands for all
      later ones. Every run of hooks that inspect what they like is a run of such hooks. */
  datatype Hook<R> = Hook(turns: seq<Turn<R>>)

  datatype Event = Enter(builder: nat, hook: nat) | Exit(builder: nat, hook: nat) | Write(specs: seq<Spec>)

  /** What a run can see and change. `own` is the mutation each builder points at; specs and nodes are filled in
      as the run goes; `sent` counts the batches sent to the store. */
  datatype World<!R> = World(muts: map<R, State>, own: seq<R>, specs: seq<Spec>, nodes: seq<DeviceTokens.Token>,
                            stored: seq<Spec>, sent: nat, trace: seq<Event>)

  /** The builders' hooks, the validators, and which batches the store accepts, the first being batch 0. */
  datatype Env<R> = Env(bulk: bool, hooks: seq<seq<Hook<R>>>, valid: DeviceTokens.Validator, accepts: nat -> bool)

  ghost predicate Sized<R>(env: Env<R>, w: World<R>) {
    |w.own| == |w.specs| == |w.nodes| == |env.hooks|
  }

  function StateOf<R(==)>(muts: map<R, State>, r: R): State {
    if r in muts then muts[r] else DeviceTokens.New(None)
  }

  function Edited<R(==)>(w: World<R>, e: Edit<R>): World<R> {
    var s := StateOf(w.muts, e.on);
    var edited := match e case Call(_, c) => DeviceTokens.After(s, c) case SetID(_, id) => s.(id := Some(id));
    w.(muts := w.muts[e.on := edited])
  }

  /** The mutation of a saved builder gets the id of its node and is done. */
  function Marked<R(==)>(muts: map<R, State>, r: R, id: Id): map<R, State> {
    muts[r := StateOf(muts, r).(id := Some(id), done := true)]
  }

  /** Send specs to the store, which takes all of them or none. */
  function Written<R>(env: Env<R>, w: World<R>, specs: seq<Spec>): (World<R>, Reply) {
    var asked := w.(sent := w.sent + 1, trace := w.trace + [Write(specs)]);
    if env.accepts(w.sent) then (asked.(stored := w.stored + specs), Ok(())) else (asked, Err(Driver))
  }

  function NodeOf(s: State): DeviceTokens.Token {
    DeviceTokens.TokenOf(DeviceTokens.CreatedRow(s))
  }

  /** How often a hook was called so far. */
  function Times(t: seq<Event>, builder: nat, hook: nat): nat {
    if t == [] then 0
    else Times(t[..|t|-1], builder, hook) + if t[|t|-1] == Enter(builder, hook) then 1 else 0
  }

  function TurnOf<R>(h: Hook<R>, n: nat): Turn<R> {
    if h.turns == [] then Turn([CallOn(None)], None)
    else h.turns[if n < |h.turns| then n else |h.turns| - 1]
  }

  /** The mutator of builder i wrapped in its hooks from hook k on, called with mutation m. */
  function Mutate<R(==)>(env: Env<R>, w: World<R>, i: nat, k: nat, m: R): (r: (World<R>, Reply))
    requires i < |env.hooks| && k <= |env.hooks[i]| && Sized(env, w)
    ensures Sized(env, r.0)
    decreases |env.hooks| - i, |env.hooks[i]| - k, 1
  {
    if k == |env.hooks[i]| then
      if env.bulk then BulkCore(env, w, i, m) else SingleCore(env, w, i, m)
    else
      var turn := TurnOf(env.hooks[i][k], Times(w.trace, i, k));
      var (v, last) := Acts(env, w.(trace := w.trace + [Enter(i, k)]), i, k + 1, turn.acts, m, Ok(()));
      (v.(trace := v.trace + [Exit(i, k)]), if turn.reply.Some? then turn.reply.value else last)
  }

  /** What a hook does around the mutator of builder i wrapped in the hooks from hook k on: the world afterwards,
      and the reply of its last call. */
  function Acts<R(==)>(env: Env<R>, w: World<R>, i: nat, k: nat, acts: seq<Act<R>>, m: R,
      last: Reply): (r: (World<R>, Reply))
    requires i < |env.hooks| && k <= |env.hooks[i]| && Sized(env, w)
    ensures Sized(env, r.0)
    decreases |env.hooks| - i, |env.hooks[i]| - k, 2 + |acts|
  {
    if acts == [] then (w, last)
    else
      match acts[0]
      case Do(e) => Acts(env, Edited(w, e), i, k, acts[1..], m, last)
      case CallOn(pass) =>
        var (v, r) := Mutate(env, w, i, k, if pass.Some? then pass.value else m);
        Acts(env, v, i, k, acts[1..], m, r)
  }

  /** Builder i points at mutation m, and its node and spec are built from it. */
  function Filled<R(==)>(w: World<R>, i: nat, m: R): World<R>
    requires i < |w.own| == |w.specs| == |w.nodes|
  {
    var s := StateOf(w.muts, m);
    w.(own := w.own[i := m], nodes := w.nodes[i := NodeOf(s)], specs := w.specs[i := DeviceTokens.SpecOf(s)])
  }

  /** The innermost mutator of builder i of a bulk create. The check looks at the builder's mutation before
      the builder is pointed at the one that was handed down. */
  function BulkCore<R(==)>(env: Env<R>, w: World<R>, i: nat, m: R): (r: (World<R>, Reply))
    requires i < |env.hooks| && Sized(env, w)
    ensures Sized(env, r.0)
    decreases |env.hooks| - i, 0, 0
  {
    var unmet := DeviceTokens.FirstUnmet(env.valid, StateOf(w.muts, w.own[i]));
    if unmet.Some? then (w, Err(Check(unmet.value)))
    else
      var w1 := Filled(w, i, m);
      var (w2, r) :=
        if i + 1 < |env.hooks| then Mutate(env, w1, i + 1, 0, w1.own[i+1]) else Written(env, w1, w1.specs);
      if r.Err? then (w2, r) else (w2.(muts := Marked(w2.muts, m, w2.nodes[i].id)), Ok(()))
  }

  /** The innermost mutator of a single create: the builder's mutation takes over the contents of the one
      that was handed down and is then checked and saved. */
  function SingleCore<R(==)>(env: Env<R>, w: World<R>, i: nat, m: R): (r: (World<R>, Reply))
    requires i < |env.hooks| && Sized(env, w)
    ensures Sized(env, r.0)
  {
    var s := StateOf(w.muts, m);
    var w1 := w.(muts := w.muts[w.own[i] := s]);
    var unmet := DeviceTokens.FirstUnmet(env.valid, s);
    if unmet.Some? then (w1, Err(Check(unmet.value)))
    else
      var w2 := w1.(nodes := w1.nodes[i := NodeOf(s)]);
      var (w3, r) := Written(env, w2, [DeviceTokens.SpecOf(s)]);
      if r.Err? then (w3, r) else (w3.(muts := Marked(w3.muts, w3.own[i], w3.nodes[i].id)), Ok(()))
  }

  /** Save of a bulk create: with no builders there is nothing to do. */
  function SaveBulk<R(==)>(env: Env<R>, w: World<R>): (World<R>, Reply)
    requires env.bulk && Sized(env, w)
  {
    if |env.hooks| == 0 then (w, Ok(())) else Mutate(env, w, 0, 0, w.own[0])
  }

  // ----- Pass-through hooks -----

  /** The hook only calls on, with what it was given, and forwards the reply. */
  ghost predicate Passes<R>(h: Hook<R>) {
    forall t :: t in h.turns ==> t == Turn([CallOn(None)], None)
  }

  ghost predicate AllPass<R>(hs: seq<Hook<R>>) {
    forall h :: h in hs ==> Passes(h)
  }

  ghost predicate AllHooksPass<R>(env: Env<R>) {
    forall i :: 0 <= i < |env.hooks| ==> AllPass(env.hooks[i])
  }

  function Unmet<R(==)>(valid: DeviceTokens.Validator, muts: map<R, State>, r: R): Option<DeviceTokens.Error> {
    DeviceTokens.FirstUnmet(valid, StateOf(muts, r))
  }

  /** The first builder from i on whose check fails, or the number of builders. */
  function FirstFailing<R(==)>(valid: DeviceTokens.Validator, muts: map<R, State>, own: seq<R>, i: nat): (f: nat)
    requires i <= |own|
    ensures i <= f <= |own|
    ensures f < |own| ==> Unmet(valid, muts, own[f]).Some?
    ensures forall j: nat :: i <= j < f ==> Unmet(valid, muts, own[j]).None?
    decreases |own| - i
  {
    if i == |own| || Unmet(valid, muts, own[i]).Some? then i else FirstFailing(valid, muts, own, i + 1)
  }

  /** The specs of builders i and later, in builder order. */
  function SpecsFrom<R(==)>(muts: map<R, State>, own: seq<R>, i: nat): (specs: seq<Spec>)
    requires i <= |own|
    ensures |specs| == |own| - i
    ensures forall j :: 0 <= j < |specs| ==> specs[j] == DeviceTokens.SpecOf(StateOf(muts, own[i+j]))
    decreases |own| - i
  {
    if i == |own| then [] else [DeviceTokens.SpecOf(StateOf(muts, own[i]))] + SpecsFrom(muts, own, i + 1)
  }

  /** The mutations once those of builders i up to n are marked with the ids of their own nodes, the last
      builder's first. */
  function MarkedFrom<R(==)>(muts: map<R, State>, own: seq<R>, i: nat, n: nat): map<R, State>
    requires i <= n <= |own|
    decreases n - i
  {
    if i == n then muts else Marked(MarkedFrom(muts, own, i + 1, n), own[i], NodeOf(StateOf(muts, own[i])).id)
  }

  /** Events between the entries and the exits of hooks k up to n of builder i. */
  function Around(i: nat, k: nat, n: nat, core: seq<Event>): seq<Event>
    requires k <= n
    decreases n - k
  {
    if k == n then core else [Enter(i, k)] + Around(i, k + 1, n, core) + [Exit(i, k)]
  }

  /** The hooks of builder i from hook k on around the hooks of builder i+1, and so on up to builder `last`. */
  function Nested<R>(env: Env<R>, i: nat, k: nat, last: nat, core: seq<Event>): seq<Event>
    requires i <= last < |env.hooks| && k <= |env.hooks[i]|
    decreases last - i
  {
    Around(i, k, |env.hooks[i]|, if i == last then core else Nested(env, i + 1, 0, last, core))
  }

  /** Builder i, wrapped in hooks that pass everything through, and all builders after it. */
  ghost predicate Through<R>(env: Env<R>, w: World<R>, i: nat, k: nat, w': World<R>, r: Reply)
    requires Sized(env, w) && i < |env.hooks| && k <= |env.hooks[i]|
  {
    var f, n := FirstFailing(env.valid, w.muts, w.own, i), |env.hooks|;
    && w'.own == w.own && |w'.specs| == |w'.nodes| == n
    && w'.specs[..i] == w.specs[..i] && w'.nodes[..i] == w.nodes[..i]
    && (f < n ==>
         && r == Err(Check(Unmet(env.valid, w.muts, w.own[f]).value))
         && w'.muts == w.muts && w'.stored == w.stored
         && w'.trace == w.trace + Nested(env, i, k, f, []))
    && (f == n ==>
         var specs := w.specs[..i] + SpecsFrom(w.muts, w.own, i);
         && w'.trace == w.trace + Nested(env, i, k, n - 1, [Write(specs)])
         && if env.accepts(w.sent) then
              r == Ok(()) && w'.stored == w.stored + specs && w'.muts == MarkedFrom(w.muts, w.own, i, n)
            else r == Err(Driver) && w'.stored == w.stored && w'.muts == w.muts)
  }

  lemma {:induction false} PassThrough<R>(env: Env<R>, w: World<R>, i: nat, k: nat)
    requires env.bulk && Sized(env, w) && i < |env.hooks| && k <= |env.hooks[i]| && AllHooksPass(env)
    ensures var (w', r) := Mutate(env, w, i, k, w.own[i]); Through(env, w, i, k, w', r)
    decreases |env.hooks| - i, |env.hooks[i]| - k
  {
    if k < |env.hooks[i]| {
      var w1 := w.(trace := w.trace + [Enter(i, k)]);
      assert AllPass(env.hooks[i]);
      PassThrough(env, w1, i, k + 1);
      PassStep(env, w, i, k, w.own[i]);
      var (w2, r) := Mutate(env, w1, i, k + 1, w.own[i]);
      AroundOne(env, w, i, k, w1, w2, r);
    } else {
      hide Through, Mutate;
      if Unmet(env.valid, w.muts, w.own[i]).Some? {
        CoreFails(env, w, i);
      } else if i + 1 == |env.hooks| {
        CoreLast(env, w, i);
      } else {
        assert Filled(w, i, w.own[i]).own[i+1] == w.own[i+1];
        PassThrough(env, Filled(w, i, w.own[i]), i + 1, 0);
        CoreNext(env, w, i);
      }
    }
  }

  /** A hook that passes everything through only adds its entry and its exit. */
  lemma PassStep<R>(env: Env<R>, w: World<R>, i: nat, k: nat, m: R)
    requires Sized(env, w) && i < |env.hooks| && k < |env.hooks[i]| && Passes(env.hooks[i][k])
    ensures var (w2, r2) := Mutate(env, w.(trace := w.trace + [Enter(i, k)]), i, k + 1, m);
      Mutate(env, w, i, k, m) == (w2.(trace := w2.trace + [Exit(i, k)]), r2)
  {
    hide BulkCore, SingleCore;
    var w1 := w.(trace := w.trace + [Enter(i, k)]);
    var h := env.hooks[i][k];
    assert h.turns != [] ==> TurnOf(h, Times(w.trace, i, k)) in h.turns;
    OneCall(env, w1, i, k + 1, None, m, Ok(()));
  }

  lemma OneCall<R>(env: Env<R>, w: World<R>, i: nat, k: nat, pass: Option<R>, m: R, last: Reply)
    requires Sized(env, w) && i < |env.hooks| && k <= |env.hooks[i]|
    ensures Acts(env, w, i, k, [CallOn(pass)], m, last) == Mutate(env, w, i, k, if pass.Some? then pass.value else m)
  {
    hide Mutate;
    assert [CallOn(pass)][1..] == [];
  }

  lemma NestedOne<R>(env: Env<R>, i: nat, k: nat, last: nat, core: seq<Event>, t: seq<Event>)
    requires i <= last < |env.hooks| && k < |env.hooks[i]|
    ensures t + Nested(env, i, k, last, core) ==
      t + [Enter(i, k)] + Nested(env, i, k + 1, last, core) + [Exit(i, k)]
  {
    var n, inner := |env.hooks[i]|, if i == last then core else Nested(env, i + 1, 0, last, core);
    assert Nested(env, i, k, last, core) == [Enter(i, k)] + Around(i, k + 1, n, inner) + [Exit(i, k)];
  }

  lemma AroundOne<R>(env: Env<R>, w: World<R>, i: nat, k: nat, w1: World<R>, w2: World<R>, r: Reply)
    requires Sized(env, w) && i < |env.hooks| && k < |env.hooks[i]|
    requires w1 == w.(trace := w.trace + [Enter(i, k)])
    requires Through(env, w1, i, k + 1, w2, r)
    ensures Through(env, w, i, k, w2.(trace := w2.trace + [Exit(i, k)]), r)
  {
    hide Nested, FirstFailing, SpecsFrom, MarkedFrom, Unmet;
    var f, n := FirstFailing(env.valid, w.muts, w.own, i), |env.hooks|;
    var core := if f < n then [] else [Write(w.specs[..i] + SpecsFrom(w.muts, w.own, i))];
    NestedOne(env, i, k, if f < n then f else n - 1, core, w.trace);
  }

  /** The innermost mutator of a builder whose check fails replies at once. */
  lemma CoreFails<R>(env: Env<R>, w: World<R>, i: nat)
    requires env.bulk && Sized(env, w) && i < |env.hooks| && Unmet(env.valid, w.muts, w.own[i]).Some?
    ensures var (w', r) := Mutate(env, w, i, |env.hooks[i]|, w.own[i]); Through(env, w, i, |env.hooks[i]|, w', r)
  {
    assert w.trace + [] == w.trace;
  }

  lemma CoreLast<R>(env: Env<R>, w: World<R>, i: nat)
    requires env.bulk && Sized(env, w) && i == |env.hooks| - 1 && Unmet(env.valid, w.muts, w.own[i]).None?
    ensures var (w', r) := Mutate(env, w, i, |env.hooks[i]|, w.own[i]); Through(env, w, i, |env.hooks[i]|, w', r)
  {
    hide NodeOf, DeviceTokens.SpecOf, DeviceTokens.FirstUnmet;
    var w1 := Filled(w, i, w.own[i]);
    assert w1.own == w.own;
    assert w1.specs == w.specs[..i] + SpecsFrom(w.muts, w.own, i);
    assert FirstFailing(env.valid, w.muts, w.own, i) == |env.hooks|;
    assert MarkedFrom(w.muts, w.own, i, |env.hooks|) == Marked(w.muts, w.own[i], w1.nodes[i].id);
  }

  lemma CoreNext<R>(env: Env<R>, w: World<R>, i: nat)
    requires env.bulk && Sized(env, w) && i + 1 < |env.hooks| && Unmet(env.valid, w.muts, w.own[i]).None?
    requires var (w', r) := Mutate(env, Filled(w, i, w.own[i]), i + 1, 0, w.own[i+1]);
      Through(env, Filled(w, i, w.own[i]), i + 1, 0, w', r)
    ensures var (w', r) := Mutate(env, w, i, |env.hooks[i]|, w.own[i]); Through(env, w, i, |env.hooks[i]|, w', r)
  {
    hide NodeOf, DeviceTokens.SpecOf, DeviceTokens.FirstUnmet;
    var w1 := Filled(w, i, w.own[i]);
    var (w2, r2) := Mutate(env, w1, i + 1, 0, w1.own[i+1]);
    assert w1.own == w.own;
    assert w1.specs[..i+1] == w.specs[..i] + [DeviceTokens.SpecOf(StateOf(w.muts, w.own[i]))];
    assert w1.specs[..i+1] + SpecsFrom(w.muts, w.own, i + 1) == w.specs[..i] + SpecsFrom(w.muts, w.own, i);
    assert w2.specs[..i] == w2.specs[..i+1][..i] && w2.nodes[..i] == w2.nodes[..i+1][..i];
    assert w2.nodes[i] == w2.nodes[..i+1][i] == w1.nodes[i];
    assert Mutate(env, w, i, |env.hooks[i]|, w.own[i]) ==
      if r2.Err? then (w2, r2) else (w2.(muts := Marked(w2.muts, w.own[i], w2.nodes[i].id)), Ok(()));
    NestedCore(env, i);
  }

  lemma NestedCore<R>(env: Env<R>, i: nat)
    requires i + 1 < |env.hooks|
    ensures forall last, core :: i < last < |env.hooks| ==>
      Nested(env, i, |env.hooks[i]|, last, core) == Nested(env, i + 1, 0, last, core)
  {
  }

  /** The entities of builders i and later, in builder order. */
  function NodesFrom<R(==)>(muts: map<R, State>, own: seq<R>, i: nat): (nodes: seq<DeviceTokens.Token>)
    requires i <= |own|
    ensures |nodes| == |own| - i
    ensures forall j :: 0 <= j < |nodes| ==> nodes[j] == NodeOf(StateOf(muts, own[i+j]))
    decreases |own| - i
  {
    if i == |own| then [] else [NodeOf(StateOf(muts, own[i]))] + NodesFrom(muts, own, i + 1)
  }

  /** The entities a bulk create builds: one per builder, from the builder's own mutation. */
  lemma {:induction false} PassNodes<R>(env: Env<R>, w: World<R>, i: nat, k: nat)
    requires env.bulk && Sized(env, w) && i < |env.hooks| && k <= |env.hooks[i]| && AllHooksPass(env)
    requires FirstFailing(env.valid, w.muts, w.own, i) == |env.hooks|
    ensures Mutate(env, w, i, k, w.own[i]).0.nodes == w.nodes[..i] + NodesFrom(w.muts, w.own, i)
    decreases |env.hooks| - i, |env.hooks[i]| - k
  {
    hide Mutate, Filled, Unmet, NodeOf, DeviceTokens.SpecOf, NodesFrom;
    if k < |env.hooks[i]| {
      assert AllPass(env.hooks[i]);
      PassNodes(env, w.(trace := w.trace + [Enter(i, k)]), i, k + 1);
      PassStep(env, w, i, k, w.own[i]);
    } else {
      var w1 := Filled(w, i, w.own[i]);
      CoreIs(env, w, i, w.own[i]);
      NodesNext(w, i);
      if i + 1 < |env.hooks| {
        PassNodes(env, w1, i + 1, 0);
      }
    }
  }

  lemma NodesNext<R>(w: World<R>, i: nat)
    requires i < |w.own| == |w.specs| == |w.nodes|
    ensures var w1 := Filled(w, i, w.own[i]);
      && w1.own == w.own && |w1.nodes| == |w.nodes|
      && w1.nodes[..i+1] + NodesFrom(w.muts, w.own, i + 1) == w.nodes[..i] + NodesFrom(w.muts, w.own, i)
      && (i + 1 == |w.own| ==> w1.nodes == w.nodes[..i] + NodesFrom(w.muts, w.own, i))
  {
    hide NodeOf, DeviceTokens.SpecOf;
    FilledSame(w, i);
    var w1 := Filled(w, i, w.own[i]);
    assert w1.nodes[..i+1] == w.nodes[..i] + [NodeOf(StateOf(w.muts, w.own[i]))];
    assert i + 1 == |w.own| ==> w1.nodes[..i+1] == w1.nodes;
  }

  // ----- What a bulk create does -----

  /** The batches sent to the store. */
  function Writes(t: seq<Event>): seq<seq<Spec>> {
    if t == [] then [] else Writes(t[..|t|-1]) + match t[|t|-1] case Write(specs) => [specs] case _ => []
  }

  lemma {:induction false} WritesConcat(t: seq<Event>, u: seq<Event>)
    ensures Writes(t + u) == Writes(t) + Writes(u)
  {
    if u == [] {
      assert t + u == t;
    } else {
      assert (t + u)[..|t+u|-1] == t + u[..|u|-1];
      WritesConcat(t, u[..|u|-1]);
    }
  }

  lemma {:induction false} WritesAround(i: nat, k: nat, n: nat, core: seq<Event>)
    requires k <= n
    ensures Writes(Around(i, k, n, core)) == Writes(core)
    decreases n - k
  {
    if k < n {
      WritesAround(i, k + 1, n, core);
      WritesConcat([Enter(i, k)] + Around(i, k + 1, n, core), [Exit(i, k)]);
      WritesConcat([Enter(i, k)], Around(i, k + 1, n, core));
      assert Writes([Enter(i, k)]) == [] && Writes([Exit(i, k)]) == [];
    }
  }

  lemma {:induction false} WritesNested<R>(env: Env<R>, i: nat, k: nat, last: nat, core: seq<Event>)
    requires i <= last < |env.hooks| && k <= |env.hooks[i]|
    ensures Writes(Nested(env, i, k, last, core)) == Writes(core)
    decreases last - i
  {
    if i < last {
      WritesNested(env, i + 1, 0, last, core);
    }
    WritesAround(i, k, |env.hooks[i]|, if i == last then core else Nested(env, i + 1, 0, last, core));
  }

  ghost predicate Distinct<R>(own: seq<R>) {
    forall i, j :: 0 <= i < j < |own| ==> own[i] != own[j]
  }

  lemma {:induction false} MarkedEach<R>(muts: map<R, State>, own: seq<R>, i: nat, r: R)
    requires i <= |own| && Distinct(own)
    ensures var s, after := StateOf(muts, r), MarkedFrom(muts, own, i, |own|);
      StateOf(after, r) == if r in own[i..] then s.(id := Some(NodeOf(s).id), done := true) else s
    decreases |own| - i
  {
    if i < |own| {
      hide NodeOf;
      MarkedEach(muts, own, i + 1, r);
      assert own[i..] == [own[i]] + own[i+1..];
      assert own[i] !in own[i+1..];
    }
  }

  lemma NodeID(s: State)
    ensures NodeOf(s).id == if s.id.Some? then s.id.value else ""
  {
  }

  /** The entities that a successful bulk create returns: one per builder, holding what the row stored for it holds. */
  lemma ReturnedNodes<R>(env: Env<R>, w: World<R>)
    requires env.bulk && Sized(env, w) && AllHooksPass(env) && Distinct(w.own) && SaveBulk(env, w).1.Ok?
    ensures var nodes, rows := SaveBulk(env, w).0.nodes, SpecsFrom(w.muts, w.own, 0);
      |nodes| == |rows| == |w.own| && forall j :: 0 <= j < |nodes| ==> DeviceTokens.Reads(nodes[j], rows[j])
  {
    hide Mutate, NodeOf, DeviceTokens.SpecOf, DeviceTokens.Reads, Unmet;
    if |w.own| > 0 {
      PassThrough(env, w, 0, 0);
      PassNodes(env, w, 0, 0);
      assert w.nodes[..0] + NodesFrom(w.muts, w.own, 0) == NodesFrom(w.muts, w.own, 0);
    }
    forall j | 0 <= j < |w.own|
      ensures DeviceTokens.Reads(NodeOf(StateOf(w.muts, w.own[j])), DeviceTokens.SpecOf(StateOf(w.muts, w.own[j])))
    {
      NodeReads(StateOf(w.muts, w.own[j]));
    }
  }

  lemma NodeReads(s: State)
    ensures DeviceTokens.Reads(NodeOf(s), DeviceTokens.SpecOf(s))
  {
    DeviceTokens.CreatedReads(s);
  }

  /** With hooks that pass everything through and builders that have mutations of their own, a bulk create
      sends one batch, of all specs in builder order, iff there is a builder and every check passes; then it
      marks every mutation with the id of its own node, and in every other outcome it marks none. */
  lemma BulkAllOrNothing<R>(env: Env<R>, w: World<R>)
    requires env.bulk && Sized(env, w) && AllHooksPass(env) && Distinct(w.own)
    ensures var (w', r) := SaveBulk(env, w);
      var n, checked := |w.own|, (forall j :: 0 <= j < |w.own| ==> Unmet(env.valid, w.muts, w.own[j]).None?);
      && Writes(w'.trace) == Writes(w.trace) + (if n > 0 && checked then [SpecsFrom(w.muts, w.own, 0)] else [])
      && (r.Ok? <==> n == 0 || (checked && env.accepts(w.sent)))
      && (r.Ok? ==> w'.stored == w.stored + SpecsFrom(w.muts, w.own, 0))
      && (r.Ok? ==> forall j :: 0 <= j < n ==>
           var s := StateOf(w.muts, w.own[j]);
           StateOf(w'.muts, w.own[j]) == s.(id := Some(if s.id.Some? then s.id.value else ""), done := true))
      && (r.Err? ==> w'.stored == w.stored && w'.muts == w.muts)
  {
    if |w.own| > 0 {
      var f, n := FirstFailing(env.valid, w.muts, w.own, 0), |w.own|;
      PassThrough(env, w, 0, 0);
      BulkOutcome(env, w, f);
      assert w.own[0..] == w.own;
      hide NodeOf, Mutate, Writes, SpecsFrom;
      forall j | 0 <= j < n
        ensures var s := StateOf(w.muts, w.own[j]);
          StateOf(MarkedFrom(w.muts, w.own, 0, n), w.own[j]) ==
          s.(id := Some(if s.id.Some? then s.id.value else ""), done := true)
      {
        MarkedEach(w.muts, w.own, 0, w.own[j]);
        NodeID(StateOf(w.muts, w.own[j]));
      }
    }
  }

  lemma BulkOutcome<R>(env: Env<R>, w: World<R>, f: nat)
    requires env.bulk && Sized(env, w) && |w.own| > 0 && f == FirstFailing(env.valid, w.muts, w.own, 0)
    requires var (w', r) := SaveBulk(env, w); Through(env, w, 0, 0, w', r)
    ensures var (w', r) := SaveBulk(env, w);
      && Writes(w'.trace) == Writes(w.trace) + (if f == |w.own| then [SpecsFrom(w.muts, w.own, 0)] else [])
      && if f == |w.own| && env.accepts(w.sent) then
           && r == Ok(()) && w'.stored == w.stored + SpecsFrom(w.muts, w.own, 0)
           && w'.muts == MarkedFrom(w.muts, w.own, 0, |w.own|)
         else r.Err? && w'.stored == w.stored && w'.muts == w.muts
  {
    hide Mutate, Nested, SpecsFrom, MarkedFrom, Unmet;
    var n := |w.own|;
    var specs := SpecsFrom(w.muts, w.own, 0);
    assert w.specs[..0] + specs == specs;
    var last, core := if f < n then f else n - 1, if f < n then [] else [Write(specs)];
    WritesConcat(w.trace, Nested(env, 0, 0, last, core));
    WritesNested(env, 0, 0, last, core);
    assert [Write(specs)][..0] == [];
  }

  // ----- Any hooks -----

  /** All hooks of the builders before i, and the first k of builder i, outermost first. */
  function Outside<R>(env: Env<R>, i: nat, k: nat): seq<(nat, nat)>
    requires i < |env.hooks| && k <= |env.hooks[i]|
    decreases i, k
  {
    if k > 0 then Outside(env, i, k - 1) + [(i, k - 1)]
    else if i > 0 then Outside(env, i - 1, |env.hooks[i-1]|)
    else []
  }

  /** All hooks there are. */
  function Everything<R>(env: Env<R>): seq<(nat, nat)> {
    var n := |env.hooks|;
    if n == 0 then [] else Outside(env, n - 1, |env.hooks[n-1]|)
  }

  /** The hooks entered and not yet left after some events. None unless every hook was entered inside exactly the
      hooks of all earlier builders and those before it of its own, every batch was sent inside all hooks there
      are, and every exit left the hook entered last. */
  function Open<R>(env: Env<R>, t: seq<Event>): Option<seq<(nat, nat)>> {
    if t == [] then Some([])
    else
      match Open(env, t[..|t|-1])
      case None => None
      case Some(open) =>
        match t[|t|-1]
        case Enter(b, h) =>
          if b < |env.hooks| && h < |env.hooks[b]| && open == Outside(env, b, h) then Some(open + [(b, h)]) else None
        case Exit(b, h) => if open != [] && open[|open|-1] == (b, h) then Some(open[..|open|-1]) else None
        case Write(_) => if open == Everything(env) then Some(open) else None
  }

  lemma OpenSnoc(t: seq<Event>, e: Event)
    ensures (t + [e])[..|t|] == t && (t + [e])[|t|] == e
  {
  }

  lemma WriteInside<R>(env: Env<R>, t: seq<Event>, specs: seq<Spec>)
    requires Open(env, t) == Some(Everything(env))
    ensures Open(env, t + [Write(specs)]) == Open(env, t)
  {
    OpenSnoc(t, Write(specs));
  }

  /** Entering a hook opens it; leaving it when nothing else is open any more closes it. */
  lemma EnterExit<R>(env: Env<R>, t: seq<Event>, u: seq<Event>, i: nat, k: nat)
    requires i < |env.hooks| && k < |env.hooks[i]| && Open(env, t) == Some(Outside(env, i, k))
    ensures Open(env, t + [Enter(i, k)]) == Some(Outside(env, i, k + 1))
    ensures Open(env, u) == Some(Outside(env, i, k + 1)) ==> Open(env, u + [Exit(i, k)]) == Open(env, t)
  {
    var open := Outside(env, i, k);
    OpenSnoc(t, Enter(i, k));
    OpenSnoc(u, Exit(i, k));
    assert (open + [(i, k)])[..|open|] == open;
  }

  /** Whatever the hooks do and however often they call on: every hook is entered inside all hooks of the builders
      before its own and the earlier hooks of its own, and no others; every batch is sent inside all hooks; and
      hooks are left in the reverse order. */
  lemma {:induction false} Bracketed<R>(env: Env<R>, w: World<R>, i: nat, k: nat, m: R)
    requires Sized(env, w) && i < |env.hooks| && k <= |env.hooks[i]| && (env.bulk || |env.hooks| == 1)
    requires Open(env, w.trace) == Some(Outside(env, i, k))
    ensures Open(env, Mutate(env, w, i, k, m).0.trace) == Open(env, w.trace)
    decreases |env.hooks| - i, |env.hooks[i]| - k, 1
  {
    if k < |env.hooks[i]| {
      hide BulkCore, SingleCore, Open, Acts, Outside;
      var entered := w.(trace := w.trace + [Enter(i, k)]);
      var turn := TurnOf(env.hooks[i][k], Times(w.trace, i, k));
      EnterExit(env, w.trace, entered.trace, i, k);
      BracketedActs(env, entered, i, k + 1, turn.acts, m, Ok(()));
      EnterExit(env, w.trace, Acts(env, entered, i, k + 1, turn.acts, m, Ok(())).0.trace, i, k);
    } else if env.bulk {
      hide *;
      var w1 := Filled(w, i, m);
      CoreIs(env, w, i, m);
      NextOutside(env, i);
      if i + 1 < |env.hooks| {
        Bracketed(env, w1, i + 1, 0, w1.own[i+1]);
      } else {
        WriteInside(env, w.trace, w1.specs);
      }
    } else {
      hide Open, NodeOf, DeviceTokens.SpecOf, DeviceTokens.FirstUnmet;
      WriteInside(env, w.trace, [DeviceTokens.SpecOf(StateOf(w.muts, m))]);
    }
  }

  lemma NextOutside<R>(env: Env<R>, i: nat)
    requires i < |env.hooks|
    ensures Outside(env, i, |env.hooks[i]|) == if i + 1 < |env.hooks| then Outside(env, i + 1, 0) else Everything(env)
  {
  }

  /** What a bracketed trace says of each of its events. */
  lemma {:induction false} EveryEvent<R>(env: Env<R>, t: seq<Event>, j: nat)
    requires Open(env, t).Some? && j < |t|
    ensures var open := Open(env, t[..j]);
      && open.Some?
      && (t[j].Enter? ==>
           var b, h := t[j].builder, t[j].hook;
           b < |env.hooks| && h < |env.hooks[b]| && open.value == Outside(env, b, h))
      && (t[j].Exit? ==> open.value != [] && open.value[|open.value|-1] == (t[j].builder, t[j].hook))
      && (t[j].Write? ==> open.value == Everything(env))
  {
    if j < |t| - 1 {
      EveryEvent(env, t[..|t|-1], j);
      assert t[..|t|-1][..j] == t[..j];
    }
  }

  /** The innermost mutator of a bulk create once more. */
  lemma CoreIs<R>(env: Env<R>, w: World<R>, i: nat, m: R)
    requires env.bulk && Sized(env, w) && i < |env.hooks|
    ensures var w1 := Filled(w, i, m);
      && Sized(env, w1) && w1.trace == w.trace && w1.stored == w.stored && w1.sent == w.sent && w1.muts == w.muts
      && w1.own == w.own[i := m] && w1.specs == w.specs[i := DeviceTokens.SpecOf(StateOf(w.muts, m))]
    ensures var (w', r) := Mutate(env, w, i, |env.hooks[i]|, m);
      var w1, unmet := Filled(w, i, m), Unmet(env.valid, w.muts, w.own[i]);
      if unmet.Some? then w' == w && r == Err(Check(unmet.value))
      else
        var (w2, r2) :=
          if i + 1 < |env.hooks| then Mutate(env, w1, i + 1, 0, w1.own[i+1])
          else (w1.(sent := w.sent + 1, trace := w.trace + [Write(w1.specs)],
                    stored := w.stored + if env.accepts(w.sent) then w1.specs else []),
                if env.accepts(w.sent) then Ok(()) else Err(Driver));
        && r == r2 && |w2.nodes| == |env.hooks|
        && w' == w2.(muts := if r2.Ok? then Marked(w2.muts, m, w2.nodes[i].id) else w2.muts)
  {
    hide NodeOf, DeviceTokens.SpecOf, DeviceTokens.FirstUnmet;
    assert w.stored + [] == w.stored;
    var w1 := Filled(w, i, m);
    if i + 1 < |env.hooks| {
      OneSuccess(Mutate(env, w1, i + 1, 0, w1.own[i+1]).1);
    }
  }

  lemma OneSuccess(r: Reply)
    ensures r.Ok? ==> r == Ok(())
  {
    if r.Ok? {
      assert r.value == ();
    }
  }

  lemma {:induction false} BracketedActs<R>(env: Env<R>, w: World<R>, i: nat, k: nat, acts: seq<Act<R>>,
      m: R, last: Reply)
    requires Sized(env, w) && i < |env.hooks| && k <= |env.hooks[i]| && (env.bulk || |env.hooks| == 1)
    requires Open(env, w.trace) == Some(Outside(env, i, k))
    ensures Open(env, Acts(env, w, i, k, acts, m, last).0.trace) == Open(env, w.trace)
    decreases |env.hooks| - i, |env.hooks[i]| - k, 2 + |acts|
  {
    hide Open, Outside, Mutate;
    if acts != [] {
      match acts[0] {
        case Do(e) => BracketedActs(env, Edited(w, e), i, k, acts[1..], m, last);
        case CallOn(pass) =>
          var next := if pass.Some? then pass.value else m;
          Bracketed(env, w, i, k, next);
          var (v, r) := Mutate(env, w, i, k, next);
          BracketedActs(env, v, i, k, acts[1..], m, r);
      }
    }
  }

  /** A row as the check of the create builder demands it. */
  predicate Meets(valid: DeviceTokens.Validator, spec: Spec) {
    && TokenHash in spec && valid(TokenHash, spec[TokenHash])
    && UserID in spec && valid(UserID, spec[UserID])
    && TenantID in spec && valid(TenantID, spec[TenantID])
    && CreatedAt in spec
  }

  lemma CheckedSpec(valid: DeviceTokens.Validator, s: State)
    ensures DeviceTokens.FirstUnmet(valid, s).None? <==> Meets(valid, DeviceTokens.SpecOf(s))
  {
    var spec := DeviceTokens.SpecOf(s);
    assert forall c :: c != ID ==> (c in spec <==> c in s.values) && (c in spec ==> spec[c] == s.values[c]);
  }

  ghost predicate MeetAll(valid: DeviceTokens.Validator, specs: seq<Spec>) {
    forall spec :: spec in specs ==> Meets(valid, spec)
  }

  /** All rows that were added meet the check. */
  ghost predicate AddsMeeting(valid: DeviceTokens.Validator, before: seq<Spec>, after: seq<Spec>) {
    before <= after && MeetAll(valid, after[|before|..])
  }

  lemma AddsMore(valid: DeviceTokens.Validator, a: seq<Spec>, b: seq<Spec>, c: seq<Spec>)
    requires AddsMeeting(valid, a, b) && AddsMeeting(valid, b, c)
    ensures AddsMeeting(valid, a, c)
  {
    assert c[|a|..] == b[|a|..] + c[|b|..];
  }

  /** Whatever the hooks of a single create do to the mutation, whichever mutations they hand down and however
      often they call on, every row that reaches the store meets the check. */
  lemma {:induction false} SingleIsChecked<R>(env: Env<R>, w: World<R>, i: nat, k: nat, m: R)
    requires !env.bulk && Sized(env, w) && i < |env.hooks| && k <= |env.hooks[i]|
    ensures AddsMeeting(env.valid, w.stored, Mutate(env, w, i, k, m).0.stored)
    decreases |env.hooks[i]| - k, 1
  {
    hide Meets, Acts;
    if k < |env.hooks[i]| {
      hide AddsMeeting;
      var turn := TurnOf(env.hooks[i][k], Times(w.trace, i, k));
      SingleActs(env, w.(trace := w.trace + [Enter(i, k)]), i, k + 1, turn.acts, m, Ok(()));
    } else {
      CheckedSpec(env.valid, StateOf(w.muts, m));
    }
  }

  lemma {:induction false} SingleActs<R>(env: Env<R>, w: World<R>, i: nat, k: nat, acts: seq<Act<R>>, m: R, last: Reply)
    requires !env.bulk && Sized(env, w) && i < |env.hooks| && k <= |env.hooks[i]|
    ensures AddsMeeting(env.valid, w.stored, Acts(env, w, i, k, acts, m, last).0.stored)
    decreases |env.hooks[i]| - k, 2 + |acts|
  {
    hide Meets, Mutate;
    if acts != [] {
      match acts[0] {
        case Do(e) => SingleActs(env, Edited(w, e), i, k, acts[1..], m, last);
        case CallOn(pass) =>
          var next := if pass.Some? then pass.value else m;
          SingleIsChecked(env, w, i, k, next);
          var (v, r) := Mutate(env, w, i, k, next);
          SingleActs(env, v, i, k, acts[1..], m, r);
          AddsMore(env.valid, w.stored, v.stored, Acts(env, w, i, k, acts, m, last).0.stored);
      }
    }
  }

  /** How often a hook calls on. */
  function Calls<R>(acts: seq<Act<R>>): nat {
    if acts == [] then 0 else (if acts[0].CallOn? then 1 else 0) + Calls(acts[1..])
  }

  ghost predicate CallsAtMostOnce<R>(h: Hook<R>) {
    forall t :: t in h.turns ==> Calls(t.acts) <= 1
  }

  /** With hooks that call on at most once, a single create stores at most one row. */
  lemma {:induction false} SingleStoresOnce<R>(env: Env<R>, w: World<R>, i: nat, k: nat, m: R)
    requires !env.bulk && Sized(env, w) && i < |env.hooks| && k <= |env.hooks[i]|
    requires forall h :: h in env.hooks[i] ==> CallsAtMostOnce(h)
    ensures |Mutate(env, w, i, k, m).0.stored| <= |w.stored| + 1
    decreases |env.hooks[i]| - k, 1
  {
    hide Acts;
    if k < |env.hooks[i]| {
      var h := env.hooks[i][k];
      var turn := TurnOf(h, Times(w.trace, i, k));
      assert h in env.hooks[i] && Calls(turn.acts) <= 1;
      SingleActsOnce(env, w.(trace := w.trace + [Enter(i, k)]), i, k + 1, turn.acts, m, Ok(()));
    }
  }

  lemma {:induction false} SingleActsOnce<R>(env: Env<R>, w: World<R>, i: nat, k: nat, acts: seq<Act<R>>,
      m: R, last: Reply)
    requires !env.bulk && Sized(env, w) && i < |env.hooks| && k <= |env.hooks[i]|
    requires forall h :: h in env.hooks[i] ==> CallsAtMostOnce(h)
    ensures |Acts(env, w, i, k, acts, m, last).0.stored| <= |w.stored| + Calls(acts)
    decreases |env.hooks[i]| - k, 2 + |acts|
  {
    hide Mutate;
    if acts != [] {
      match acts[0] {
        case Do(e) => SingleActsOnce(env, Edited(w, e), i, k, acts[1..], m, last);
        case CallOn(pass) =>
          var next := if pass.Some? then pass.value else m;
          SingleStoresOnce(env, w, i, k, next);
          var (v, r) := Mutate(env, w, i, k, next);
          SingleActsOnce(env, v, i, k, acts[1..], m, r);
      }
    }
  }

  /** No hook hands down another mutation than the one it was given. */
  ghost predicate NoSwap<R>(acts: seq<Act<R>>) {
    forall a :: a in acts ==> a.CallOn? ==> a.pass.None?
  }

  ghost predicate NoSwaps<R>(env: Env<R>) {
    forall i, k :: 0 <= i < |env.hooks| && 0 <= k < |env.hooks[i]| ==>
      forall t :: t in env.hooks[i][k].turns ==> NoSwap(t.acts)
  }

  /** What level i of a bulk create keeps when nothing is swapped. */
  ghost predicate Keeps<R>(env: Env<R>, w: World<R>, i: nat, w': World<R>) {
    && w'.own == w.own && |w.specs| == |w'.specs| && i <= |w.specs| && w'.specs[..i] == w.specs[..i]
    && AddsMeeting(env.valid, w.stored, w'.stored)
  }

  /** In a bulk create, hooks that edit what they like and call on as often as they like, but hand down the
      mutation they were given, let only rows that meet the check reach the store. */
  lemma {:induction false} BulkIsChecked<R>(env: Env<R>, w: World<R>, i: nat, k: nat)
    requires env.bulk && Sized(env, w) && i < |env.hooks| && k <= |env.hooks[i]|
    requires NoSwaps(env) && MeetAll(env.valid, w.specs[..i])
    ensures Keeps(env, w, i, Mutate(env, w, i, k, w.own[i]).0)
    decreases |env.hooks| - i, |env.hooks[i]| - k, 1
  {
    hide Meets;
    if k < |env.hooks[i]| {
      hide Acts, Keeps;
      KeepsIgnores(env, w, i);
      var h := env.hooks[i][k];
      var turn := TurnOf(h, Times(w.trace, i, k));
      assert NoSwap(turn.acts) by {
        assert h.turns != [] ==> turn in h.turns;
      }
      BulkActs(env, w.(trace := w.trace + [Enter(i, k)]), i, k + 1, turn.acts, Ok(()));
    } else {
      BulkCoreIsChecked(env, w, i);
    }
  }

  lemma KeepsIgnores<R>(env: Env<R>, w: World<R>, i: nat)
    ensures forall t: seq<Event>, t': seq<Event>, w': World<R> :: Keeps(env, w.(trace := t), i, w') ==>
      Keeps(env, w, i, w'.(trace := t'))
  {
  }

  lemma FilledKeeps<R>(env: Env<R>, w: World<R>, i: nat)
    requires Sized(env, w) && i < |env.hooks| && MeetAll(env.valid, w.specs[..i])
    requires Unmet(env.valid, w.muts, w.own[i]).None?
    ensures var w1 := Filled(w, i, w.own[i]);
      && w1.own == w.own && w1.specs[..i] == w.specs[..i] && MeetAll(env.valid, w1.specs[..i+1])
      && (i + 1 == |w1.specs| ==> MeetAll(env.valid, w1.specs))
  {
    hide Meets, DeviceTokens.SpecOf, DeviceTokens.FirstUnmet;
    CheckedSpec(env.valid, StateOf(w.muts, w.own[i]));
    var w1 := Filled(w, i, w.own[i]);
    assert w1.own == w.own;
    assert w1.specs[..i+1] == w.specs[..i] + [DeviceTokens.SpecOf(StateOf(w.muts, w.own[i]))];
    assert i + 1 == |w1.specs| ==> w1.specs[..i+1] == w1.specs;
  }

  /** What builder i+1 keeps, builder i keeps. */
  lemma KeepsOut<R>(env: Env<R>, w: World<R>, w1: World<R>, i: nat, w2: World<R>, w': World<R>)
    requires w1.own == w.own && |w1.specs| == |w.specs| && i < |w.specs| && w1.specs[..i] == w.specs[..i]
    requires w1.stored == w.stored && Keeps(env, w1, i + 1, w2) && w' == w2.(muts := w'.muts)
    ensures Keeps(env, w, i, w')
  {
    hide AddsMeeting;
    assert w2.specs[..i] == w2.specs[..i+1][..i] && w1.specs[..i] == w1.specs[..i+1][..i];
  }

  lemma KeepsWriting<R>(env: Env<R>, w: World<R>, i: nat, w': World<R>)
    requires w'.own == w.own && |w.specs| == |w'.specs| && i <= |w.specs| && w'.specs[..i] == w.specs[..i]
    requires w'.stored == w.stored || (w'.stored == w.stored + w'.specs && MeetAll(env.valid, w'.specs))
    ensures Keeps(env, w, i, w')
  {
    assert w'.stored[|w.stored|..] == if w'.stored == w.stored then [] else w'.specs;
  }

  lemma BulkCoreIsChecked<R>(env: Env<R>, w: World<R>, i: nat)
    requires env.bulk && Sized(env, w) && i < |env.hooks| && NoSwaps(env) && MeetAll(env.valid, w.specs[..i])
    ensures Keeps(env, w, i, Mutate(env, w, i, |env.hooks[i]|, w.own[i]).0)
    decreases |env.hooks| - i, 0, 0
  {
    hide Meets, MeetAll, Keeps, AddsMeeting, NoSwaps, Mutate, Filled, Unmet;
    CoreIs(env, w, i, w.own[i]);
    var w' := Mutate(env, w, i, |env.hooks[i]|, w.own[i]).0;
    if Unmet(env.valid, w.muts, w.own[i]).Some? {
      KeepsWriting(env, w, i, w');
    } else {
      var w1 := Filled(w, i, w.own[i]);
      FilledKeeps(env, w, i);
      if i + 1 < |env.hooks| {
        BulkIsChecked(env, w1, i + 1, 0);
        KeepsOut(env, w, w1, i, Mutate(env, w1, i + 1, 0, w1.own[i+1]).0, w');
      } else {
        assert w.stored + [] == w.stored;
        KeepsWriting(env, w, i, w');
      }
    }
  }

  lemma {:induction false} BulkActs<R>(env: Env<R>, w: World<R>, i: nat, k: nat, acts: seq<Act<R>>, last: Reply)
    requires env.bulk && Sized(env, w) && i < |env.hooks| && k <= |env.hooks[i]|
    requires NoSwaps(env) && NoSwap(acts) && MeetAll(env.valid, w.specs[..i])
    ensures Keeps(env, w, i, Acts(env, w, i, k, acts, w.own[i], last).0)
    decreases |env.hooks| - i, |env.hooks[i]| - k, 2 + |acts|
  {
    hide Meets, Mutate, NoSwaps;
    if acts != [] {
      match acts[0] {
        case Do(e) => BulkActs(env, Edited(w, e), i, k, acts[1..], last);
        case CallOn(pass) =>
          assert acts[0] in acts;
          BulkIsChecked(env, w, i, k);
          var (v, r) := Mutate(env, w, i, k, w.own[i]);
          BulkActs(env, v, i, k, acts[1..], r);
          AddsMore(env.valid, w.stored, v.stored, Acts(env, w, i, k, acts, w.own[i], last).0.stored);
      }
    }
  }

  // ----- When success can be trusted -----

  /** A turn that never replies with success on its own: it forwards the reply of a call it made, or an error. */
  predicate HonestTurn<R>(t: Turn<R>) {
    t.reply != Some(Ok(())) && (t.reply.None? ==> Calls(t.acts) > 0)
  }

  ghost predicate Honest<R>(env: Env<R>) {
    forall i, k :: 0 <= i < |env.hooks| && 0 <= k < |env.hooks[i]| ==>
      forall t :: t in env.hooks[i][k].turns ==> HonestTurn(t)
  }

  /** The last batch of a run was accepted, and it is the one spec per builder that the run leaves behind. */
  ghost predicate BatchStored<R>(env: Env<R>, w: World<R>, w': World<R>) {
    var n := if env.bulk then |env.hooks| else 1;
    && w.sent < w'.sent && env.accepts(w'.sent - 1)
    && |w.stored| + n <= |w'.stored|
    && (env.bulk ==> w'.stored[|w'.stored|-n..] == w'.specs)
  }

  ghost predicate Grows<R>(w: World<R>, w': World<R>) {
    w.stored <= w'.stored && w.sent <= w'.sent
  }

  /** Whatever else the hooks edit, hand down or repeat: when none of them replies with success on its own, a
      create that reports success has stored what it leaves behind. */
  lemma {:induction false} SuccessIsStored<R>(env: Env<R>, w: World<R>, i: nat, k: nat, m: R)
    requires Sized(env, w) && i < |env.hooks| && k <= |env.hooks[i]| && Honest(env)
    ensures var (w', r) := Mutate(env, w, i, k, m); Grows(w, w') && (r.Ok? ==> BatchStored(env, w, w'))
    decreases |env.hooks| - i, |env.hooks[i]| - k, 1
  {
    if k < |env.hooks[i]| {
      hide Acts, BatchStored, Grows;
      StoredIgnores(env, w);
      var h := env.hooks[i][k];
      var turn := TurnOf(h, Times(w.trace, i, k));
      var entered := w.(trace := w.trace + [Enter(i, k)]);
      assert h.turns != [] ==> turn in h.turns;
      assert HonestTurn(turn);
      ActsAreStored(env, entered, entered, i, k + 1, turn.acts, m, Ok(()));
      OneSuccess(Mutate(env, w, i, k, m).1);
    } else {
      CoreIsStored(env, w, i, m);
    }
  }

  lemma CoreIsStored<R>(env: Env<R>, w: World<R>, i: nat, m: R)
    requires Sized(env, w) && i < |env.hooks| && Honest(env)
    ensures var (w', r) := Mutate(env, w, i, |env.hooks[i]|, m); Grows(w, w') && (r.Ok? ==> BatchStored(env, w, w'))
    decreases |env.hooks| - i, 0, 0
  {
    hide *;
    if !env.bulk {
      SingleIsStored(env, w, i, m);
    } else {
      CoreIs(env, w, i, m);
      SizedIs(env, w);
      SizedIs(env, Mutate(env, w, i, |env.hooks[i]|, m).0);
      var w1, w' := Filled(w, i, m), Mutate(env, w, i, |env.hooks[i]|, m).0;
      if Unmet(env.valid, w.muts, w.own[i]).Some? {
        GrowsNot(w);
      } else if i + 1 < |env.hooks| {
        SuccessIsStored(env, w1, i + 1, 0, w1.own[i+1]);
        StoredOut(env, w, w1, Mutate(env, w1, i + 1, 0, w1.own[i+1]).0, w');
      } else {
        LastIsStored(env, w, w');
      }
    }
  }

  lemma SizedIs<R>(env: Env<R>, w: World<R>)
    requires Sized(env, w)
    ensures |w.own| == |w.specs| == |w.nodes| == |env.hooks|
  {
  }

  lemma GrowsNot<R>(w: World<R>)
    ensures Grows(w, w)
  {
  }

  lemma StoredOut<R>(env: Env<R>, w: World<R>, w1: World<R>, w2: World<R>, w': World<R>)
    requires w1.stored == w.stored && w1.sent == w.sent && w' == w2.(muts := w'.muts)
    ensures Grows(w1, w2) ==> Grows(w, w')
    ensures BatchStored(env, w1, w2) ==> BatchStored(env, w, w')
  {
  }

  lemma LastIsStored<R>(env: Env<R>, w: World<R>, w': World<R>)
    requires env.bulk && |w'.specs| == |env.hooks| && w'.sent == w.sent + 1
    requires w'.stored == w.stored + if env.accepts(w.sent) then w'.specs else []
    ensures Grows(w, w') && (env.accepts(w.sent) ==> BatchStored(env, w, w'))
  {
  }

  lemma StoredIgnores<R>(env: Env<R>, w: World<R>)
    ensures forall t: seq<Event>, t': seq<Event>, w': World<R> :: BatchStored(env, w.(trace := t), w') ==>
      BatchStored(env, w, w'.(trace := t'))
    ensures forall t: seq<Event>, t': seq<Event>, w': World<R> :: Grows(w.(trace := t), w') ==>
      Grows(w, w'.(trace := t'))
    ensures Grows(w, w)
  {
  }

  lemma SingleIsStored<R>(env: Env<R>, w: World<R>, i: nat, m: R)
    requires !env.bulk && Sized(env, w) && i < |env.hooks|
    ensures var (w', r) := Mutate(env, w, i, |env.hooks[i]|, m); Grows(w, w') && (r.Ok? ==> BatchStored(env, w, w'))
  {
    hide NodeOf, DeviceTokens.SpecOf, DeviceTokens.FirstUnmet;
  }

  lemma {:induction false} ActsAreStored<R>(env: Env<R>, start: World<R>, w: World<R>, i: nat, k: nat,
      acts: seq<Act<R>>, m: R, last: Reply)
    requires Sized(env, w) && i < |env.hooks| && k <= |env.hooks[i]| && Honest(env) && Grows(start, w)
    ensures var (w', r) := Acts(env, w, i, k, acts, m, last);
      && Grows(start, w')
      && ((Calls(acts) == 0 && last.Ok? ==> BatchStored(env, start, w)) && r.Ok? ==> BatchStored(env, start, w'))
    decreases |env.hooks| - i, |env.hooks[i]| - k, 2 + |acts|
  {
    hide Mutate, Honest;
    if acts != [] {
      match acts[0] {
        case Do(e) => ActsAreStored(env, start, Edited(w, e), i, k, acts[1..], m, last);
        case CallOn(pass) =>
          var next := if pass.Some? then pass.value else m;
          SuccessIsStored(env, w, i, k, next);
          var (v, r) := Mutate(env, w, i, k, next);
          ActsAreStored(env, start, v, i, k, acts[1..], m, r);
      }
    }
  }

  // ----- Hooks that edit nothing: the exact outcome -----

  /** The hook does the same each time, edits nothing and calls on at most once. It may hand down another
      mutation and give a reply of its own. */
  predicate Calm<R>(h: Hook<R>) {
    |h.turns| <= 1 && (Stops(h) || CallsOn(h))
  }

  predicate Stops<R>(h: Hook<R>) {
    TurnOf(h, 0).acts == []
  }

  predicate CallsOn<R>(h: Hook<R>) {
    |TurnOf(h, 0).acts| == 1 && TurnOf(h, 0).acts[0].CallOn?
  }

  ghost predicate AllCalm<R>(env: Env<R>) {
    forall i, k :: 0 <= i < |env.hooks| && 0 <= k < |env.hooks[i]| ==> Calm(env.hooks[i][k])
  }

  /** The reply a hook gives whatever happens inside it, if there is one. */
  function Answer<R>(h: Hook<R>): Option<Reply> {
    if TurnOf(h, 0).reply.Some? then TurnOf(h, 0).reply else if Stops(h) then Some(Ok(())) else None
  }

  function FirstAnswer<R>(hs: seq<Hook<R>>): Option<Reply> {
    if hs == [] then None else if Answer(hs[0]).Some? then Answer(hs[0]) else FirstAnswer(hs[1..])
  }

  ghost predicate SomeStops<R>(hs: seq<Hook<R>>) {
    exists h :: h in hs && Stops(h)
  }

  /** All hooks from hook k of builder i to those of builder `last`, outermost first. */
  function HooksFrom<R>(env: Env<R>, i: nat, k: nat, last: nat): seq<Hook<R>>
    requires i <= last < |env.hooks| && k <= |env.hooks[i]|
    decreases last - i, |env.hooks[i]| - k
  {
    if k < |env.hooks[i]| then [env.hooks[i][k]] + HooksFrom(env, i, k + 1, last)
    else if i < last then HooksFrom(env, i + 1, 0, last)
    else []
  }

  /** The mutation that reaches the innermost mutator of builder i when hook k is called with m. */
  function Handed<R>(env: Env<R>, i: nat, k: nat, m: R): R
    requires i < |env.hooks| && k <= |env.hooks[i]|
    decreases |env.hooks[i]| - k
  {
    if k == |env.hooks[i]| then m
    else
      var h := env.hooks[i][k];
      var pass := if CallsOn(h) then TurnOf(h, 0).acts[0].pass else None;
      Handed(env, i, k + 1, if pass.Some? then pass.value else m)
  }

  /** The mutations that reach the innermost mutators of all builders when each gets its builder's own. */
  function AllHanded<R>(env: Env<R>, own: seq<R>): (handed: seq<R>)
    requires |own| == |env.hooks|
    ensures |handed| == |own| && forall j :: 0 <= j < |own| ==> handed[j] == Handed(env, j, 0, own[j])
  {
    seq(|own|, j requires 0 <= j < |own| => Handed(env, j, 0, own[j]))
  }

  /** The builders up to the first whose check fails are reached unless a hook stops. */
  function LastReached<R(==)>(env: Env<R>, w: World<R>, i: nat): (last: nat)
    requires Sized(env, w) && i < |env.hooks|
    ensures i <= last < |env.hooks|
  {
    var f := FirstFailing(env.valid, w.muts, w.own, i);
    if f < |env.hooks| then f else f - 1
  }

  /** The batch reaches the store and is accepted: all checks pass and no hook stops. */
  ghost predicate Stores<R>(env: Env<R>, w: World<R>, i: nat, hs: seq<Hook<R>>)
    requires Sized(env, w) && i < |env.hooks|
  {
    FirstFailing(env.valid, w.muts, w.own, i) == |env.hooks| && env.accepts(w.sent) && !SomeStops(hs)
  }

  /** The reply when no hook answers on its own. */
  function Outcome<R(==)>(env: Env<R>, w: World<R>, i: nat): Reply
    requires Sized(env, w) && i < |env.hooks|
  {
    var f := FirstFailing(env.valid, w.muts, w.own, i);
    if f < |env.hooks| then Err(Check(Unmet(env.valid, w.muts, w.own[f]).value))
    else if env.accepts(w.sent) then Ok(())
    else Err(Driver)
  }

  /** The exact outcome: the first answer a hook gives on its own counts, and only then what happened; rows of the
      mutations handed down are stored iff the batch reaches the store and is accepted. */
  ghost predicate Exactly<R>(env: Env<R>, w: World<R>, i: nat, k: nat, m: R, w': World<R>, r: Reply)
    requires Sized(env, w) && i < |env.hooks| && k <= |env.hooks[i]|
  {
    var hs := HooksFrom(env, i, k, LastReached(env, w, i));
    var handed := AllHanded(env, w.own)[i := Handed(env, i, k, m)];
    var rows := w.specs[..i] + SpecsFrom(w.muts, handed, i);
    && r == (if FirstAnswer(hs).Some? then FirstAnswer(hs).value else Outcome(env, w, i))
    && w'.stored == w.stored + (if Stores(env, w, i, hs) then rows else [])
  }

  lemma {:induction false} EditFree<R>(env: Env<R>, w: World<R>, i: nat, k: nat, m: R)
    requires env.bulk && Sized(env, w) && i < |env.hooks| && k <= |env.hooks[i]| && AllCalm(env)
    ensures var (w', r) := Mutate(env, w, i, k, m); Exactly(env, w, i, k, m, w', r)
    decreases |env.hooks| - i, |env.hooks[i]| - k
  {
    if k < |env.hooks[i]| {
      hide Exactly, Mutate;
      var h, w1 := env.hooks[i][k], w.(trace := w.trace + [Enter(i, k)]);
      assert Calm(h);
      if CallsOn(h) {
        var pass := TurnOf(h, 0).acts[0].pass;
        EditFree(env, w1, i, k + 1, if pass.Some? then pass.value else m);
        CalmCalls(env, w, i, k, m);
      } else {
        CalmStops(env, w, i, k, m);
      }
    } else if Unmet(env.valid, w.muts, w.own[i]).Some? || i + 1 == |env.hooks| {
      CalmEnds(env, w, i, m);
    } else {
      hide Exactly, Mutate;
      var w1 := Filled(w, i, m);
      EditFree(env, w1, i + 1, 0, w1.own[i+1]);
      CalmNext(env, w, i, m);
    }
  }

  lemma CalmCalls<R>(env: Env<R>, w: World<R>, i: nat, k: nat, m: R)
    requires env.bulk && Sized(env, w) && i < |env.hooks| && k < |env.hooks[i]|
    requires Calm(env.hooks[i][k]) && CallsOn(env.hooks[i][k])
    requires var pass := TurnOf(env.hooks[i][k], 0).acts[0].pass;
      var w1, next := w.(trace := w.trace + [Enter(i, k)]), if pass.Some? then pass.value else m;
      var (w', r) := Mutate(env, w1, i, k + 1, next); Exactly(env, w1, i, k + 1, next, w', r)
    ensures var (w', r) := Mutate(env, w, i, k, m); Exactly(env, w, i, k, m, w', r)
  {
    hide Mutate, FirstFailing, Unmet, SpecsFrom, AllHanded, FirstAnswer, SomeStops, Calm;
    var h, w1 := env.hooks[i][k], w.(trace := w.trace + [Enter(i, k)]);
    CallStep(env, w, i, k, m);
    var last := LastReached(env, w, i);
    assert LastReached(env, w1, i) == last;
    HooksStep(h, HooksFrom(env, i, k + 1, last));
  }

  /** A hook that calls on adds its entry and its exit, and perhaps a reply of its own. */
  lemma CallStep<R>(env: Env<R>, w: World<R>, i: nat, k: nat, m: R)
    requires Sized(env, w) && i < |env.hooks| && k < |env.hooks[i]|
    requires Calm(env.hooks[i][k]) && CallsOn(env.hooks[i][k])
    ensures var turn := TurnOf(env.hooks[i][k], 0);
      var next := if turn.acts[0].pass.Some? then turn.acts[0].pass.value else m;
      var (v, r) := Mutate(env, w.(trace := w.trace + [Enter(i, k)]), i, k + 1, next);
      Mutate(env, w, i, k, m) ==
        (v.(trace := v.trace + [Exit(i, k)]), if turn.reply.Some? then turn.reply.value else r)
  {
    hide BulkCore, SingleCore, Acts;
    var turn := TurnOf(env.hooks[i][k], 0);
    assert TurnOf(env.hooks[i][k], Times(w.trace, i, k)) == turn && turn.acts == [CallOn(turn.acts[0].pass)];
    OneCall(env, w.(trace := w.trace + [Enter(i, k)]), i, k + 1, turn.acts[0].pass, m, Ok(()));
  }

  lemma HooksStep<R>(h: Hook<R>, hs: seq<Hook<R>>)
    ensures FirstAnswer([h] + hs) == if Answer(h).Some? then Answer(h) else FirstAnswer(hs)
    ensures SomeStops([h] + hs) <==> Stops(h) || SomeStops(hs)
  {
    assert ([h] + hs)[1..] == hs;
    assert h in [h] + hs;
    assert forall x :: x in hs ==> x in [h] + hs;
  }

  lemma CalmStops<R>(env: Env<R>, w: World<R>, i: nat, k: nat, m: R)
    requires env.bulk && Sized(env, w) && i < |env.hooks| && k < |env.hooks[i]|
    requires Calm(env.hooks[i][k]) && Stops(env.hooks[i][k])
    ensures var (w', r) := Mutate(env, w, i, k, m); Exactly(env, w, i, k, m, w', r)
  {
    hide BulkCore, SingleCore, FirstFailing, Unmet;
    var h := env.hooks[i][k];
    assert TurnOf(h, Times(w.trace, i, k)) == TurnOf(h, 0);
    HooksStep(h, HooksFrom(env, i, k + 1, LastReached(env, w, i)));
  }

  lemma CalmEnds<R>(env: Env<R>, w: World<R>, i: nat, m: R)
    requires env.bulk && Sized(env, w) && i < |env.hooks|
    requires Unmet(env.valid, w.muts, w.own[i]).Some? || i + 1 == |env.hooks|
    ensures var (w', r) := Mutate(env, w, i, |env.hooks[i]|, m); Exactly(env, w, i, |env.hooks[i]|, m, w', r)
  {
    hide Mutate, Filled, NodeOf, DeviceTokens.SpecOf, DeviceTokens.FirstUnmet, Unmet;
    CoreIs(env, w, i, m);
    var handed := AllHanded(env, w.own)[i := m];
    var hs := HooksFrom(env, i, |env.hooks[i]|, i);
    assert LastReached(env, w, i) == i && hs == [];
    assert w.stored + [] == w.stored;
    if i + 1 == |env.hooks| {
      assert Filled(w, i, m).specs == w.specs[..i] + SpecsFrom(w.muts, handed, i);
    }
  }

  lemma {:induction false} FailingAfter<R>(valid: DeviceTokens.Validator, muts: map<R, State>, own: seq<R>,
      own': seq<R>, i: nat)
    requires i <= |own| == |own'| && forall j :: i <= j < |own| ==> own[j] == own'[j]
    ensures FirstFailing(valid, muts, own, i) == FirstFailing(valid, muts, own', i)
    decreases |own| - i
  {
    if i < |own| {
      FailingAfter(valid, muts, own, own', i + 1);
    }
  }

  lemma CalmNext<R>(env: Env<R>, w: World<R>, i: nat, m: R)
    requires env.bulk && Sized(env, w) && i + 1 < |env.hooks| && Unmet(env.valid, w.muts, w.own[i]).None?
    requires var w1 := Filled(w, i, m);
      var (w', r) := Mutate(env, w1, i + 1, 0, w1.own[i+1]); Exactly(env, w1, i + 1, 0, w1.own[i+1], w', r)
    ensures var (w', r) := Mutate(env, w, i, |env.hooks[i]|, m); Exactly(env, w, i, |env.hooks[i]|, m, w', r)
  {
    hide Mutate, Filled, NodeOf, DeviceTokens.SpecOf, Unmet, FirstAnswer, SomeStops, SpecsFrom, AllHanded;
    CoreIs(env, w, i, m);
    var w1 := Filled(w, i, m);
    FailingAfter(env.valid, w.muts, w.own, w1.own, i + 1);
    RowsNext(env, w.muts, w.own, w.specs, i, m);
    assert Handed(env, i, |env.hooks[i]|, m) == m;
  }

  /** The rows of all builders, seen from builder i and from the next. */
  lemma RowsNext<R>(env: Env<R>, muts: map<R, State>, own: seq<R>, specs: seq<Spec>, i: nat, m: R)
    requires |own| == |specs| == |env.hooks| && i + 1 < |own|
    ensures var own1, specs1 := own[i := m], specs[i := DeviceTokens.SpecOf(StateOf(muts, m))];
      var handed1 := AllHanded(env, own1)[i+1 := Handed(env, i + 1, 0, own1[i+1])];
      specs1[..i+1] + SpecsFrom(muts, handed1, i + 1) == specs[..i] + SpecsFrom(muts, AllHanded(env, own)[i := m], i)
  {
    hide DeviceTokens.SpecOf, Handed;
  }

  /** The exact outcome of a whole bulk create. */
  lemma SaveIs<R>(env: Env<R>, w: World<R>)
    requires env.bulk && Sized(env, w) && |env.hooks| > 0 && AllCalm(env)
    ensures var (w', r) := SaveBulk(env, w);
      var hs := HooksFrom(env, 0, 0, LastReached(env, w, 0));
      && r == (if FirstAnswer(hs).Some? then FirstAnswer(hs).value else Outcome(env, w, 0))
      && w'.stored == w.stored + if Stores(env, w, 0, hs) then SpecsFrom(w.muts, AllHanded(env, w.own), 0) else []
  {
    hide Mutate, Handed, Stores, HooksFrom, LastReached, FirstAnswer, Outcome, SpecsFrom;
    EditFree(env, w, 0, 0, w.own[0]);
    var handed := AllHanded(env, w.own);
    assert handed[0 := Handed(env, 0, 0, w.own[0])] == handed;
    assert w.specs[..0] + SpecsFrom(w.muts, handed, 0) == SpecsFrom(w.muts, handed, 0);
  }

  /** Which rows a bulk create with such hooks leaves unchecked, for any number of builders: every row it stores
      meets the check iff the batch is not stored or every mutation handed down meets the check. The checks the
      run makes are those of the builders' own mutations, which is another matter. */
  lemma SwapEscapesIff<R>(env: Env<R>, w: World<R>)
    requires env.bulk && Sized(env, w) && |env.hooks| > 0 && AllCalm(env)
    ensures var hs := HooksFrom(env, 0, 0, LastReached(env, w, 0));
      AddsMeeting(env.valid, w.stored, SaveBulk(env, w).0.stored) <==>
      !Stores(env, w, 0, hs)
      || forall j :: 0 <= j < |w.own| ==> Unmet(env.valid, w.muts, Handed(env, j, 0, w.own[j])).None?
  {
    hide SaveBulk, Stores, Handed, Meets, DeviceTokens.FirstUnmet, DeviceTokens.SpecOf, HooksFrom, FirstAnswer;
    SaveIs(env, w);
    var handed := AllHanded(env, w.own);
    var rows := SpecsFrom(w.muts, handed, 0);
    assert (w.stored + rows)[|w.stored|..] == rows && (w.stored + [])[|w.stored|..] == [];
    forall j | 0 <= j < |w.own|
      ensures Unmet(env.valid, w.muts, handed[j]).None? <==> Meets(env.valid, rows[j])
    {
      CheckedSpec(env.valid, StateOf(w.muts, handed[j]));
    }
    assert forall spec :: spec in rows <==> exists j :: 0 <= j < |w.own| && rows[j] == spec;
  }

  /** One hook that hands down a mutation nothing was set on is enough: it is stored although no check passes. */
  lemma SwapEscapesCheck<R>(env: Env<R>, w: World<R>, other: R)
    requires env.bulk && Sized(env, w) && env.accepts(w.sent)
    requires env.hooks == [[Hook([Turn([CallOn(Some(other))], None)])]]
    requires Unmet(env.valid, w.muts, w.own[0]).None? && StateOf(w.muts, other) == DeviceTokens.New(None)
    ensures var (w', r) := SaveBulk(env, w);
      && r == Ok(()) && w'.stored == w.stored + [DeviceTokens.SpecOf(StateOf(w.muts, other))]
      && !AddsMeeting(env.valid, w.stored, w'.stored)
  {
    hide SaveBulk, Meets, AddsMeeting, DeviceTokens.FirstUnmet, DeviceTokens.SpecOf;
    SaveIs(env, w);
    SwapEscapesIff(env, w);
    assert Unmet(env.valid, w.muts, other).Some? by { UnsetFails(env.valid); }
    assert HooksFrom(env, 0, 1, 0) == [];
    assert HooksFrom(env, 0, 0, 0) == [env.hooks[0][0]];
    assert Handed(env, 0, 1, other) == other;
    assert Handed(env, 0, 0, w.own[0]) == other;
  }

  lemma UnsetFails(valid: DeviceTokens.Validator)
    ensures DeviceTokens.FirstUnmet(valid, DeviceTokens.New(None)).Some?
  {
  }

  /** Exactly when such a bulk create reports a success although nothing was stored: the outermost hook that
      answers on its own says so, and a check fails, the store refuses, or a hook stops. */
  lemma FalseSuccessIff<R>(env: Env<R>, w: World<R>)
    requires env.bulk && Sized(env, w) && |env.hooks| > 0 && AllCalm(env)
    ensures var (w', r) := SaveBulk(env, w);
      var f, hs := FirstFailing(env.valid, w.muts, w.own, 0), HooksFrom(env, 0, 0, LastReached(env, w, 0));
      r.Ok? && w'.stored == w.stored <==>
      FirstAnswer(hs) == Some(Ok(())) && (f < |w.own| || !env.accepts(w.sent) || SomeStops(hs))
  {
    hide SaveBulk, FirstFailing, Unmet, SpecsFrom, AllHanded, HooksFrom, SomeStops, FirstAnswer;
    SaveIs(env, w);
    var hs := HooksFrom(env, 0, 0, LastReached(env, w, 0));
    OneSuccess(SaveBulk(env, w).1);
    if SomeStops(hs) {
      StopsAnswer(hs);
    }
    assert (w.stored + []) == w.stored;
  }

  lemma {:induction false} StopsAnswer<R>(hs: seq<Hook<R>>)
    requires SomeStops(hs)
    ensures FirstAnswer(hs).Some?
  {
    if Answer(hs[0]).None? {
      StopsAnswer(hs[1..]);
    }
  }

  /** A hook that calls on and replies with success whatever the reply was hides that the store refused. */
  lemma SwallowedError<R>(env: Env<R>, w: World<R>)
    requires env.bulk && Sized(env, w) && !env.accepts(w.sent)
    requires env.hooks == [[Hook([Turn([CallOn(None)], Some(Ok(())))])]]
    ensures var (w', r) := SaveBulk(env, w); r == Ok(()) && w'.stored == w.stored
  {
    hide SaveBulk, Unmet;
    FalseSuccessIff(env, w);
    var hs := HooksFrom(env, 0, 0, 0);
    assert LastReached(env, w, 0) == 0 && HooksFrom(env, 0, 1, 0) == [] && hs == [env.hooks[0][0]];
    assert FirstAnswer(hs) == Some(Ok(()));
    OneSuccess(SaveBulk(env, w).1);
  }

  // ----- Edits and retries -----

  /** What a hook sets on the mutation before it calls on is stored. */
  lemma EditIsStored<R>(env: Env<R>, w: World<R>, m: R, c: Col, v: Value)
    requires !env.bulk && Sized(env, w) && env.accepts(w.sent) && w.own == [m]
    requires env.hooks == [[Hook([Turn([Do(Call(m, DeviceTokens.SetField(c, v))), CallOn(None)], None)])]]
    requires DeviceTokens.IsField(c) && DeviceTokens.HasType(c, v)
    requires var s := StateOf(w.muts, m);
      DeviceTokens.FirstUnmet(env.valid, s.(values := s.values[c := v])).None?
    ensures var (w', r) := Mutate(env, w, 0, 0, m);
      && r == Ok(()) && |w'.stored| == |w.stored| + 1 && w'.stored[..|w.stored|] == w.stored
      && var row := w'.stored[|w.stored|];
      && c in row && row[c] == v
      && forall d :: d in StateOf(w.muts, m).values && d != c && d != ID ==>
           d in row && row[d] == StateOf(w.muts, m).values[d]
  {
    hide DeviceTokens.FirstUnmet, NodeOf;
    var s := StateOf(w.muts, m);
    var call: DeviceTokens.Call := DeviceTokens.SetField(c, v);
    var acts: seq<Act<R>> := [Do(Call(m, call)), CallOn(None)];
    var w1 := w.(trace := w.trace + [Enter(0, 0)]);
    assert TurnOf(env.hooks[0][0], Times(w.trace, 0, 0)) == Turn(acts, None);
    var w2 := Edited(w1, Call(m, call));
    assert StateOf(w2.muts, m) == s.(values := s.values[c := v]);
    assert acts[1..] == [CallOn(None)];
    OneCall(env, w2, 0, 1, None, m, Ok(()));
    hide Acts;
    var (v3, r3) := Mutate(env, w2, 0, 1, m);
    assert (v3, r3) == SingleCore(env, w2, 0, m);
  }

  /** A hook that calls on twice may get through the second time: the second batch is stored, and once. */
  lemma RetryIsStored<R>(env: Env<R>, w: World<R>)
    requires env.bulk && Sized(env, w) && !env.accepts(w.sent) && env.accepts(w.sent + 1)
    requires env.hooks == [[Hook([Turn([CallOn(None), CallOn(None)], None)])]]
    requires Unmet(env.valid, w.muts, w.own[0]).None?
    ensures var (w', r) := SaveBulk(env, w);
      r == Ok(()) && w'.stored == w.stored + [DeviceTokens.SpecOf(StateOf(w.muts, w.own[0]))]
  {
    hide DeviceTokens.SpecOf, DeviceTokens.FirstUnmet, NodeOf;
    var m := w.own[0];
    var acts: seq<Act<R>> := [CallOn(None), CallOn(None)];
    var w1 := w.(trace := w.trace + [Enter(0, 0)]);
    assert TurnOf(env.hooks[0][0], Times(w.trace, 0, 0)) == Turn(acts, None);
    assert acts[1..] == [CallOn(None)];
    CoreIs(env, w1, 0, m);
    var (v, r) := Mutate(env, w1, 0, 1, m);
    assert r == Err(Driver) && v.muts == w.muts && v.own == w.own && v.sent == w.sent + 1;
    assert v.stored == w.stored + [] == w.stored;
    CoreIs(env, v, 0, m);
    OneCall(env, v, 0, 1, None, m, r);
    assert Filled(v, 0, m).specs == [DeviceTokens.SpecOf(StateOf(w.muts, m))];
    var (v2, r2) := Mutate(env, v, 0, 1, m);
    assert r2 == Ok(()) && v2.stored == w.stored + [DeviceTokens.SpecOf(StateOf(w.muts, m))];
    assert Acts(env, w1, 0, 1, acts, m, Ok(())) == (v2, r2);
  }

  /** A hook takes its turns in order: one that refuses the first time and passes the second lets an outer hook that
      calls on twice save. */
  lemma TurnsInOrder<R>(env: Env<R>, w: World<R>, e: Error)
    requires !env.bulk && Sized(env, w) && env.accepts(w.sent) && w.trace == []
    requires env.hooks == [[Hook([Turn([CallOn(None), CallOn(None)], None)]),
                            Hook([Turn([], Some(Err(e))), Turn([CallOn(None)], None)])]]
    requires Unmet(env.valid, w.muts, w.own[0]).None?
    ensures var (w', r) := Mutate(env, w, 0, 0, w.own[0]);
      r == Ok(()) && w'.stored == w.stored + [DeviceTokens.SpecOf(StateOf(w.muts, w.own[0]))]
  {
    hide DeviceTokens.SpecOf, DeviceTokens.FirstUnmet, NodeOf;
    var m, inner := w.own[0], env.hooks[0][1];
    var acts: seq<Act<R>> := [CallOn(None), CallOn(None)];
    var w1 := w.(trace := [Enter(0, 0)]);
    assert w.trace + [Enter(0, 0)] == [Enter(0, 0)];
    assert TurnOf(env.hooks[0][0], Times(w.trace, 0, 0)) == Turn(acts, None);
    assert acts[1..] == [CallOn(None)];
    assert [Enter(0, 0)][..0] == [] && Times(w1.trace, 0, 1) == 0;
    var w2 := w.(trace := [Enter(0, 0), Enter(0, 1), Exit(0, 1)]);
    assert w1.trace + [Enter(0, 1)] + [Exit(0, 1)] == w2.trace;
    assert Mutate(env, w1, 0, 1, m) == (w2, Err(e));
    OneCall(env, w2, 0, 1, None, m, Err(e));
    SecondTurn(w2.trace);
    assert TurnOf(inner, Times(w2.trace, 0, 1)) == Turn([CallOn(None)], None);
    var w3 := w2.(trace := w2.trace + [Enter(0, 1)]);
    OneCall(env, w3, 0, 2, None, m, Ok(()));
    SingleCoreIs(env, w3, 0);
    hide Acts, SingleCore;
    OneSuccess(Mutate(env, w, 0, 0, m).1);
  }

  lemma SecondTurn(t: seq<Event>)
    requires t == [Enter(0, 0), Enter(0, 1), Exit(0, 1)]
    ensures Times(t, 0, 1) == 1
  {
    var t1, t2 := [Enter(0, 0)], [Enter(0, 0), Enter(0, 1)];
    assert t1[..0] == [] && Times(t1, 0, 1) == 0;
    assert t2[..1] == t1 && Times(t2, 0, 1) == 1;
    assert t[..2] == t2;
  }

  // ----- Short circuits -----

  /** From hook k on, hooks that pass everything through up to one that replies with success itself. */
  ghost predicate CutsShort<R>(hs: seq<Hook<R>>, k: nat)
    requires k <= |hs|
    decreases |hs| - k
  {
    k < |hs| && if Passes(hs[k]) then CutsShort(hs, k + 1) else hs[k] == Hook([Turn([], Some(Ok(())))])
  }

  /** Builders from i on, when the hooks of builder s cut short and all other hooks pass everything through. */
  lemma {:induction false} CutShort<R>(env: Env<R>, w: World<R>, i: nat, k: nat, s: nat)
    requires env.bulk && Sized(env, w) && i <= s < |env.hooks| && k <= |env.hooks[i]| && Distinct(w.own)
    requires (i == s ==> CutsShort(env.hooks[i], k)) && CutsShort(env.hooks[s], 0)
    requires forall j :: 0 <= j < s ==> AllPass(env.hooks[j])
    requires FirstFailing(env.valid, w.muts, w.own, i) >= s
    ensures var (w', r) := Mutate(env, w, i, k, w.own[i]);
      && r == Ok(()) && w'.stored == w.stored && Writes(w'.trace) == Writes(w.trace)
      && w'.muts == MarkedFrom(w.muts, w.own, i, s)
      && |w'.nodes| == |w.nodes| && w'.nodes[..i] == w.nodes[..i]
    decreases |env.hooks| - i, |env.hooks[i]| - k, 1
  {
    hide Mutate, FirstFailing, Unmet, MarkedFrom, Writes;
    if k < |env.hooks[i]| {
      var w1 := w.(trace := w.trace + [Enter(i, k)]);
      NoWrite(w.trace, i, k);
      if Passes(env.hooks[i][k]) {
        CutShort(env, w1, i, k + 1, s);
        PassStep(env, w, i, k, w.own[i]);
        NoWrite(Mutate(env, w1, i, k + 1, w.own[i]).0.trace, i, k);
      } else {
        CutStep(env, w, i, k, w.own[i]);
        NoWrite(w1.trace, i, k);
        NoneMarked(w.muts, w.own, i);
      }
    } else {
      CutShortCore(env, w, i, s);
    }
  }

  lemma NoWrite(t: seq<Event>, i: nat, k: nat)
    ensures Writes(t + [Enter(i, k)]) == Writes(t) == Writes(t + [Exit(i, k)])
  {
    OpenSnoc(t, Enter(i, k));
    OpenSnoc(t, Exit(i, k));
  }

  lemma NoneMarked<R>(muts: map<R, State>, own: seq<R>, i: nat)
    requires i <= |own|
    ensures MarkedFrom(muts, own, i, i) == muts
  {
  }

  lemma CutStep<R>(env: Env<R>, w: World<R>, i: nat, k: nat, m: R)
    requires Sized(env, w) && i < |env.hooks| && k < |env.hooks[i]|
    requires env.hooks[i][k] == Hook([Turn([], Some(Ok(())))])
    ensures Mutate(env, w, i, k, m) == (w.(trace := w.trace + [Enter(i, k)] + [Exit(i, k)]), Ok(()))
  {
    hide BulkCore, SingleCore;
    assert TurnOf(env.hooks[i][k], Times(w.trace, i, k)) == Turn([], Some(Ok(())));
  }

  lemma CutShortCore<R>(env: Env<R>, w: World<R>, i: nat, s: nat)
    requires env.bulk && Sized(env, w) && i < s < |env.hooks| && Distinct(w.own) && CutsShort(env.hooks[s], 0)
    requires forall j :: 0 <= j < s ==> AllPass(env.hooks[j])
    requires FirstFailing(env.valid, w.muts, w.own, i) >= s
    ensures var (w', r) := Mutate(env, w, i, |env.hooks[i]|, w.own[i]);
      && r == Ok(()) && w'.stored == w.stored && Writes(w'.trace) == Writes(w.trace)
      && w'.muts == MarkedFrom(w.muts, w.own, i, s)
      && |w'.nodes| == |w.nodes| && w'.nodes[..i] == w.nodes[..i]
    decreases |env.hooks| - i, 0, 0
  {
    hide Mutate, Filled, Unmet, NodeOf, DeviceTokens.SpecOf, Writes, CutsShort, AllPass, MarkedFrom;
    var w1 := Filled(w, i, w.own[i]);
    CoreIs(env, w, i, w.own[i]);
    FilledSame(w, i);
    FailingLater(env.valid, w.muts, w.own, i, s);
    CutShort(env, w1, i + 1, 0, s);
    var w2 := Mutate(env, w1, i + 1, 0, w.own[i+1]).0;
    assert w2.nodes[i] == w2.nodes[..i+1][i] == w1.nodes[i];
    assert w2.nodes[..i] == w2.nodes[..i+1][..i];
    MarkedOne(w.muts, w.own, i, s);
  }

  lemma FilledSame<R>(w: World<R>, i: nat)
    requires i < |w.own| == |w.specs| == |w.nodes|
    ensures var w1 := Filled(w, i, w.own[i]);
      && w1.own == w.own && |w1.nodes| == |w.nodes| && w1.nodes[..i] == w.nodes[..i]
      && w1.nodes[i] == NodeOf(StateOf(w.muts, w.own[i]))
  {
    hide NodeOf, DeviceTokens.SpecOf;
  }

  lemma FailingLater<R>(valid: DeviceTokens.Validator, muts: map<R, State>, own: seq<R>, i: nat, s: nat)
    requires i < s <= |own| && FirstFailing(valid, muts, own, i) >= s
    ensures Unmet(valid, muts, own[i]).None? && FirstFailing(valid, muts, own, i + 1) >= s
  {
    hide Unmet;
  }

  lemma MarkedOne<R>(muts: map<R, State>, own: seq<R>, i: nat, n: nat)
    requires i < n <= |own|
    ensures MarkedFrom(muts, own, i, n) ==
      Marked(MarkedFrom(muts, own, i + 1, n), own[i], NodeOf(StateOf(muts, own[i])).id)
  {
    hide NodeOf;
  }

  /** A hook that replies with success without calling on makes a bulk create report success although
      nothing was written, with the mutations of all earlier builders marked as saved and the others not. */
  lemma ShortCircuitReportsSuccess<R>(env: Env<R>, w: World<R>, s: nat)
    requires env.bulk && Sized(env, w) && s < |env.hooks| && Distinct(w.own)
    requires CutsShort(env.hooks[s], 0) && forall j :: 0 <= j < s ==> AllPass(env.hooks[j])
    requires forall j :: 0 <= j < s ==> Unmet(env.valid, w.muts, w.own[j]).None?
    ensures var (w', r) := SaveBulk(env, w);
      && r == Ok(()) && w'.stored == w.stored && Writes(w'.trace) == Writes(w.trace)
      && w'.muts == MarkedFrom(w.muts, w.own, 0, s)
      && forall j :: s <= j < |w.own| ==> StateOf(w'.muts, w.own[j]) == StateOf(w.muts, w.own[j])
  {
    CutShort(env, w, 0, 0, s);
    forall j | s <= j < |w.own| ensures StateOf(MarkedFrom(w.muts, w.own, 0, s), w.own[j]) ==
      StateOf(w.muts, w.own[j]) {
      UnmarkedFrom(w.muts, w.own, 0, s, w.own[j]);
    }
  }

  lemma {:induction false} UnmarkedFrom<R>(muts: map<R, State>, own: seq<R>, i: nat, n: nat, r: R)
    requires i <= n <= |own| && r !in own[i..n]
    ensures StateOf(MarkedFrom(muts, own, i, n), r) == StateOf(muts, r)
    decreases n - i
  {
    if i < n {
      assert own[i..n] == [own[i]] + own[i+1..n];
      UnmarkedFrom(muts, own, i + 1, n, r);
    }
  }

  // ----- The hooks of one builder -----

  function Entries(i: nat, k: nat, n: nat): seq<Event>
    requires k <= n
  {
    seq(n - k, j requires 0 <= j < n - k => Enter(i, k + j))
  }

  function ExitsBackwards(i: nat, k: nat, n: nat): seq<Event>
    requires k <= n
  {
    seq(n - k, j requires 0 <= j < n - k => Exit(i, n - 1 - j))
  }

  /** The entries come in list order, then what they enclose, then the exits in reverse order. */
  lemma {:induction false} AroundIs(i: nat, k: nat, n: nat, core: seq<Event>)
    requires k <= n
    ensures Around(i, k, n, core) == Entries(i, k, n) + core + ExitsBackwards(i, k, n)
    decreases n - k
  {
    if k < n {
      AroundIs(i, k + 1, n, core);
      assert Entries(i, k, n) == [Enter(i, k)] + Entries(i, k + 1, n);
      assert ExitsBackwards(i, k, n) == ExitsBackwards(i, k + 1, n) + [Exit(i, k)];
    }
  }

  /** A single create through hooks that pass everything through: they enclose the save like an onion, and
      the save marks the mutation iff its row was stored. */
  lemma {:induction false} SingleOnion<R>(env: Env<R>, w: World<R>, i: nat, k: nat)
    requires !env.bulk && Sized(env, w) && i < |env.hooks| && k <= |env.hooks[i]| && AllPass(env.hooks[i])
    ensures var (w', r) := Mutate(env, w, i, k, w.own[i]);
      var s := StateOf(w.muts, w.own[i]);
      var checked := Unmet(env.valid, w.muts, w.own[i]).None?;
      var core := if checked then [Write([DeviceTokens.SpecOf(s)])] else [];
      && w'.trace == w.trace + Around(i, k, |env.hooks[i]|, core)
      && (r.Ok? <==> checked && env.accepts(w.sent))
      && w'.stored == (if r.Ok? then w.stored + [DeviceTokens.SpecOf(s)] else w.stored)
      && (r.Ok? ==> |w'.nodes| == |w.nodes| && w'.nodes[i] == NodeOf(s))
      && StateOf(w'.muts, w.own[i]) == if r.Ok? then s.(id := Some(NodeOf(s).id), done := true) else s
    decreases |env.hooks[i]| - k
  {
    hide Mutate, Unmet, NodeOf, DeviceTokens.SpecOf, DeviceTokens.FirstUnmet;
    if k < |env.hooks[i]| {
      var w1 := w.(trace := w.trace + [Enter(i, k)]);
      assert Passes(env.hooks[i][k]);
      SingleOnion(env, w1, i, k + 1);
      PassStep(env, w, i, k, w.own[i]);
      var s, checked := StateOf(w.muts, w.own[i]), Unmet(env.valid, w.muts, w.own[i]).None?;
      var core := if checked then [Write([DeviceTokens.SpecOf(s)])] else [];
      var inner := Around(i, k + 1, |env.hooks[i]|, core);
      assert w.trace + [Enter(i, k)] + inner + [Exit(i, k)] == w.trace + ([Enter(i, k)] + inner + [Exit(i, k)]);
    } else {
      SingleCoreIs(env, w, i);
    }
  }

  lemma SingleCoreIs<R>(env: Env<R>, w: World<R>, i: nat)
    requires !env.bulk && Sized(env, w) && i < |env.hooks|
    ensures var (w', r) := Mutate(env, w, i, |env.hooks[i]|, w.own[i]);
      var s := StateOf(w.muts, w.own[i]);
      var checked := Unmet(env.valid, w.muts, w.own[i]).None?;
      && w'.trace == w.trace + (if checked then [Write([DeviceTokens.SpecOf(s)])] else [])
      && (r.Ok? <==> checked && env.accepts(w.sent))
      && w'.stored == (if r.Ok? then w.stored + [DeviceTokens.SpecOf(s)] else w.stored)
      && (r.Ok? ==> |w'.nodes| == |w.nodes| && w'.nodes[i] == NodeOf(s))
      && StateOf(w'.muts, w.own[i]) == if r.Ok? then s.(id := Some(NodeOf(s).id), done := true) else s
  {
    hide NodeOf, DeviceTokens.SpecOf, DeviceTokens.FirstUnmet;
    assert w.trace + [] == w.trace;
  }
}
