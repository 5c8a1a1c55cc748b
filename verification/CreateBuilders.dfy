/** The create builders at work on real mutation objects: Save of one builder and of many, with the arrays
    they fill and the mutators they chain. */
module CreateBuilders {
  import opened Schema
  import opened HookChains
  import DeviceTokens

  type Ref = DeviceTokens.DeviceTokenMutation

  /** A closure that runs builder i: the innermost one, or one wrapped in the builder's hook k. */
  datatype Mutator = Innermost(i: nat) | Wrapped(i: nat, k: nat, hook: Hook<Ref>, next: Mutator)

  /** The mutator of builder i wrapped in hooks, the first of which is the builder's hook k. */
  function Layers(i: nat, k: nat, hs: seq<Hook<Ref>>): Mutator
    decreases |hs|
  {
    if hs == [] then Innermost(i) else Wrapped(i, k, hs[0], Layers(i, k + 1, hs[1..]))
  }

  ghost predicate ActReaches(pool: set<Ref>, a: Act<Ref>) {
    match a
    case Do(e) => e.on in pool
    case CallOn(pass) => pass.Some? ==> pass.value in pool
  }

  ghost predicate ActsReach(pool: set<Ref>, acts: seq<Act<Ref>>) {
    forall a :: a in acts ==> ActReaches(pool, a)
  }

  ghost predicate Reaches(pool: set<Ref>, hs: seq<Hook<Ref>>) {
    forall k :: 0 <= k < |hs| ==> forall t :: t in hs[k].turns ==> ActsReach(pool, t.acts)
  }

  /** Make one of the calls that may fail and do not matter to a hook when they do. */
  method MakeCall(m: Ref, call: DeviceTokens.Call)
    requires m.Valid()
    modifies m
    ensures m.Valid() && m.Contents() == DeviceTokens.After(old(m.Contents()), call)
  {
    match call
    case SetField(c, v) => var _ := m.SetField(c, v);
    case ClearField(c) => var _ := m.ClearField(c);
    case ResetField(c) => var _ := m.ResetField(c);
  }

  /** The state shared by the mutators of one Save. The pool holds every mutation they can reach. */
  class Saving {
    ghost const pool: set<Ref>
    ghost const hooks: seq<seq<Hook<Ref>>>
    const bulk: bool
    const valid: DeviceTokens.Validator
    const accepts: nat -> bool
    const own: array<Ref>
    const specs: array<Spec>
    const nodes: array<DeviceTokens.Token>
    const mutators: array<Mutator>
    var stored: seq<Spec>
    var sent: nat
    var trace: seq<Event>

    ghost function Env(): Env<Ref> {
      HookChains.Env(bulk, hooks, valid, accepts)
    }

    ghost function World(): World<Ref>
      reads this, pool, own, specs, nodes
    {
      HookChains.World(map m | m in pool :: m.Contents(), own[..], specs[..], nodes[..], stored, sent, trace)
    }

    constructor (ghost pool: set<Ref>, ghost hooks: seq<seq<Hook<Ref>>>, bulk: bool, valid: DeviceTokens.Validator,
                 accepts: nat -> bool, own: array<Ref>, mutators: array<Mutator>)
      requires own.Length == mutators.Length == |hooks|
      ensures this.pool == pool && Env() == HookChains.Env(bulk, hooks, valid, accepts)
      ensures this.own == own && this.mutators == mutators
      ensures fresh(specs) && fresh(nodes) && specs.Length == nodes.Length == |hooks|
      ensures stored == [] && sent == 0 && trace == []
      ensures specs[..] == Blank(|hooks|, map[]) && nodes[..] == Blank(|hooks|, DeviceTokens.ZERO)
    {
      this.pool, this.hooks, this.bulk, this.valid, this.accepts := pool, hooks, bulk, valid, accepts;
      this.own, this.mutators := own, mutators;
      specs := new Spec[own.Length](_ => map[]);
      nodes := new DeviceTokens.Token[own.Length](_ => DeviceTokens.ZERO);
      stored, sent, trace := [], 0, [];
    }

    ghost predicate Valid()
      reads this, pool, own, specs, nodes, mutators
    {
      && own.Length == specs.Length == nodes.Length == mutators.Length == |hooks|
      && (forall m :: m in pool ==> m.Valid())
      && (forall i :: 0 <= i < own.Length ==> own[i] in pool)
      && (forall i :: 0 <= i < |hooks| ==> Reaches(pool, hooks[i]) && mutators[i] == Layers(i, 0, hooks[i]))
    }

    /** Do to a mutation what a hook does. */
    method Apply(e: Edit<Ref>)
      requires Valid() && e.on in pool
      modifies pool
      ensures Valid() && World() == Edited(old(World()), e)
    {
      hide Layers, Reaches, DeviceTokens.After;
      ghost var before := World();
      match e {
        case Call(m, call) => MakeCall(m, call);
        case SetID(m, id) => m.id := Some(id);
      }
      assert World().muts == before.muts[e.on := e.on.Contents()];
    }

    /** Record what happened. */
    method Note(e: Event)
      requires Valid()
      modifies this`trace
      ensures Valid() && World() == old(World()).(trace := old(World()).trace + [e])
    {
      trace := trace + [e];
    }

    /** Point builder i at m, and build its node and spec from it. */
    method Fill(i: nat, m: Ref)
      requires Valid() && i < own.Length && m in pool
      modifies own, specs, nodes
      ensures Valid() && World() == Filled(old(World()), i, m)
    {
      hide Reaches, Layers, DeviceTokens.ValidState, DeviceTokens.SpecOf, DeviceTokens.TokenOf;
      hide DeviceTokens.CreatedRow, DeviceTokens.DeviceTokenMutation.Valid, DeviceTokens.Describes, DeviceTokens.Reads;
      own[i] := m;
      var node, spec := DeviceTokens.CreateSpec(m);
      nodes[i] := node.Contents();
      specs[i] := spec;
      assert World().muts == old(World().muts);
    }

    /** The mutation takes the id of the node and is done. */
    method Mark(m: Ref, id: Id)
      requires Valid() && m in pool
      modifies m`id, m`done
      ensures Valid() && World() == old(World()).(muts := Marked(old(World().muts), m, id))
    {
      m.id := Some(id);
      m.done := true;
      assert World().muts == Marked(old(World().muts), m, id);
    }

    /** Send specs to the store. */
    method Send(batch: seq<Spec>) returns (r: Reply)
      requires Valid()
      modifies this`stored, this`sent, this`trace
      ensures Valid() && (World(), r) == Written(Env(), old(World()), batch)
    {
      trace, sent := trace + [Write(batch)], sent + 1;
      assert World().muts == old(World()).muts;
      if !accepts(sent - 1) {
        return Err(Driver);
      }
      stored := stored + batch;
      assert World().muts == old(World()).muts;
      return Ok(());
    }

    /** The builder's mutation takes over every field of another. */
    method Overwrite(i: nat, m: Ref)
      requires Valid() && i < own.Length && m in pool
      modifies own[i]
      ensures Valid() && World() == old(World()).(muts := old(World().muts)[own[i] := m.Contents()])
        && m.Contents() == old(m.Contents())
    {
      own[i].id, own[i].values, own[i].clearedFields, own[i].done := m.id, m.values, m.clearedFields, m.done;
      assert World().muts == old(World().muts)[own[i] := m.Contents()];
    }

    lemma WorldIs()
      requires Valid()
      ensures Sized(Env(), World()) && World().own == own[..] && World().nodes == nodes[..]
        && World().specs == specs[..]
      ensures World().trace == trace
      ensures forall m :: m in pool ==> StateOf(World().muts, m) == m.Contents()
      ensures Env().bulk == bulk && Env().valid == valid && Env().hooks == hooks
      ensures forall i :: 0 <= i < own.Length ==> own[i] in pool
      ensures forall i :: 0 <= i < |hooks| ==> Reaches(pool, hooks[i]) && mutators[i] == Layers(i, 0, hooks[i])
      ensures own.Length == nodes.Length == specs.Length == mutators.Length == |hooks|
    {
    }

    lemma BulkFacts(w: World<Ref>, i: nat, m: Ref)
      requires i < |hooks| && Sized(Env(), w)
      ensures var unmet := DeviceTokens.FirstUnmet(valid, StateOf(w.muts, w.own[i]));
        var w1 := Filled(w, i, m);
        && Sized(Env(), w1)
        && if unmet.Some? then BulkCore(Env(), w, i, m) == (w, Err(Check(unmet.value)))
          else
            var (w2, r) :=
              if i + 1 < |hooks| then HookChains.Mutate(Env(), w1, i + 1, 0, w1.own[i+1])
                else Written(Env(), w1, w1.specs);
            && Sized(Env(), w2)
            && BulkCore(Env(), w, i, m) == if r.Err? then (w2, r)
              else (w2.(muts := Marked(w2.muts, m, w2.nodes[i].id)), Ok(()))
    {
    }

    /** The innermost mutator of a bulk create. */
    method RunBulk(i: nat, m: Ref) returns (r: Reply)
      requires Valid() && bulk && i < |hooks| && m in pool
      modifies this`stored, this`sent, this`trace, pool, own, specs, nodes
      ensures Valid() && (World(), r) == BulkCore(Env(), old(World()), i, m)
      decreases |hooks| - i, 0, 0
    {
      hide *;
      WorldIs();
      BulkFacts(World(), i, m);
      var unmet := DeviceTokens.FirstUnmet(valid, own[i].Contents());
      if unmet.Some? {
        return Err(Check(unmet.value));
      }
      Fill(i, m);
      WorldIs();
      if i + 1 < own.Length {
        assert hooks[i+1][0..] == hooks[i+1];
        r := Mutate(mutators[i+1], own[i+1], i + 1, 0);
      } else {
        r := Send(specs[..]);
      }
      if r.Err? {
        return;
      }
      WorldIs();
      Mark(m, nodes[i].id);
      return Ok(());
    }

    /** Build the node and the spec of builder i and insert them. */
    method Insert(i: nat) returns (r: Reply)
      requires Valid() && i < |hooks|
      modifies this`stored, this`sent, this`trace, nodes
      ensures Valid()
      ensures var s := old(own[i].Contents());
        var w := old(World());
        (World(), r) == Written(Env(), w.(nodes := w.nodes[i := NodeOf(s)]), [DeviceTokens.SpecOf(s)])
    {
      hide DeviceTokens.Describes, DeviceTokens.Reads;
      var node, spec := DeviceTokens.CreateSpec(own[i]);
      nodes[i] := node.Contents();
      assert World().muts == old(World()).muts;
      r := Send([spec]);
    }

    lemma SingleFacts(w: World<Ref>, i: nat, m: Ref)
      requires i < |hooks| && Sized(Env(), w)
      ensures var s := StateOf(w.muts, m);
        var w1 := w.(muts := w.muts[w.own[i] := s]);
        var unmet := DeviceTokens.FirstUnmet(valid, s);
        && Sized(Env(), w1)
        && if unmet.Some? then SingleCore(Env(), w, i, m) == (w1, Err(Check(unmet.value)))
          else
            var (w3, r) := Written(Env(), w1.(nodes := w1.nodes[i := NodeOf(s)]), [DeviceTokens.SpecOf(s)]);
            && |w3.own| == |w3.nodes| == |hooks| && w3.own == w.own
            && SingleCore(Env(), w, i, m) == if r.Err? then (w3, r)
              else (w3.(muts := Marked(w3.muts, w3.own[i], w3.nodes[i].id)), Ok(()))
    {
    }

    /** The innermost mutator of a single create. */
    method RunSingle(i: nat, m: Ref) returns (r: Reply)
      requires Valid() && !bulk && i < |hooks| && m in pool
      modifies this`stored, this`sent, this`trace, pool, own, specs, nodes
      ensures Valid() && (World(), r) == SingleCore(Env(), old(World()), i, m)
    {
      hide *;
      WorldIs();
      SingleFacts(World(), i, m);
      Overwrite(i, m);
      WorldIs();
      OwnIs(World(), i, m.Contents());
      var unmet := DeviceTokens.FirstUnmet(valid, own[i].Contents());
      if unmet.Some? {
        return Err(Check(unmet.value));
      }
      r := Insert(i);
      if r.Err? {
        return;
      }
      WorldIs();
      Mark(own[i], nodes[i].id);
      return Ok(());
    }

    lemma OwnIs(w: World<Ref>, i: nat, s: State)
      requires i < |w.own| && w.own[i] in w.muts
      ensures StateOf(w.muts, w.own[i]) == w.muts[w.own[i]]
    {
    }

    lemma HookFacts(i: nat, k: nat, w: World<Ref>, m: Ref)
      requires i < |hooks| && k < |hooks[i]| && Reaches(pool, hooks[i]) && Sized(Env(), w)
      ensures var h := hooks[i][k];
        && Layers(i, k, hooks[i][k..]) == Wrapped(i, k, h, Layers(i, k + 1, hooks[i][k+1..]))
        && forall n :: ActsReach(pool, TurnOf(h, n).acts)
      ensures var turn, w1 := TurnOf(hooks[i][k], Times(w.trace, i, k)), w.(trace := w.trace + [Enter(i, k)]);
        && Sized(Env(), w1)
        && var (v, last) := Acts(Env(), w1, i, k + 1, turn.acts, m, Ok(()));
        HookChains.Mutate(Env(), w, i, k, m) ==
          (v.(trace := v.trace + [Exit(i, k)]), if turn.reply.Some? then turn.reply.value else last)
    {
      hide BulkCore, SingleCore, Acts, ActsReach;
      var h := hooks[i][k];
      assert hooks[i][k..][1..] == hooks[i][k+1..];
      forall n ensures ActsReach(pool, TurnOf(h, n).acts) {
        if h.turns == [] {
          PassingReaches();
        } else {
          assert TurnOf(h, n) in h.turns;
        }
      }
    }

    lemma PassingReaches()
      ensures ActsReach(pool, [CallOn(None)])
    {
    }

    lemma ActFacts(w: World<Ref>, i: nat, k: nat, acts: seq<Act<Ref>>, n: nat, m: Ref, last: Reply)
      requires i < |hooks| && k <= |hooks[i]| && Sized(Env(), w) && n < |acts| && ActsReach(pool, acts) && m in pool
      ensures match acts[n]
        case Do(e) => e.on in pool
        case CallOn(pass) => (if pass.Some? then pass.value else m) in pool
      ensures Acts(Env(), w, i, k, acts[n..], m, last) ==
        match acts[n]
        case Do(e) => Acts(Env(), Edited(w, e), i, k, acts[n+1..], m, last)
        case CallOn(pass) =>
          var (v, r) := HookChains.Mutate(Env(), w, i, k, if pass.Some? then pass.value else m);
          Acts(Env(), v, i, k, acts[n+1..], m, r)
    {
      hide HookChains.Mutate;
      assert acts[n] in acts && ActReaches(pool, acts[n]);
      assert acts[n..][0] == acts[n] && acts[n..][1..] == acts[n+1..];
    }

    lemma ActsDone(w: World<Ref>, i: nat, k: nat, acts: seq<Act<Ref>>, m: Ref, last: Reply)
      requires i < |hooks| && k <= |hooks[i]| && Sized(Env(), w)
      ensures Acts(Env(), w, i, k, acts[|acts|..], m, last) == (w, last)
    {
    }

    /** Call a mutator. */
    method Mutate(mut: Mutator, m: Ref, ghost i: nat, ghost k: nat) returns (r: Reply)
      requires Valid() && m in pool && i < |hooks| && k <= |hooks[i]| && mut == Layers(i, k, hooks[i][k..])
      modifies this`stored, this`sent, this`trace, pool, own, specs, nodes
      ensures Valid() && (World(), r) == HookChains.Mutate(Env(), old(World()), i, k, m)
      decreases |hooks| - i, |hooks[i]| - k, 1
    {
      hide BulkCore, SingleCore, Acts;
      match mut
      case Innermost(j) =>
        assert k == |hooks[i]| && j == i;
        if bulk {
          r := RunBulk(j, m);
        } else {
          r := RunSingle(j, m);
        }
      case Wrapped(b, n, h, next) =>
        r := CallHook(h, next, m, b, n);
    }

    /** Call hook k of builder i with the mutator it wraps. */
    method CallHook(h: Hook<Ref>, next: Mutator, m: Ref, i: nat, k: nat) returns (r: Reply)
      requires Valid() && m in pool && i < |hooks| && k < |hooks[i]|
      requires Wrapped(i, k, h, next) == Layers(i, k, hooks[i][k..])
      modifies this`stored, this`sent, this`trace, pool, own, specs, nodes
      ensures Valid() && (World(), r) == HookChains.Mutate(Env(), old(World()), i, k, m)
      decreases |hooks| - i, |hooks[i]| - k, 0
    {
      hide *;
      ghost var before := World();
      WorldIs();
      HookFacts(i, k, before, m);
      var turn := TurnOf(h, Times(trace, i, k));
      Note(Enter(i, k));
      ghost var entered := World();
      WorldIs();
      assert entered == before.(trace := before.trace + [Enter(i, k)]);
      r := Ok(());
      assert turn.acts[0..] == turn.acts;
      for n := 0 to |turn.acts|
        invariant Valid() && Sized(Env(), World())
        invariant Acts(Env(), World(), i, k + 1, turn.acts[n..], m, r) ==
          Acts(Env(), entered, i, k + 1, turn.acts, m, Ok(()))
      {
        ActFacts(World(), i, k + 1, turn.acts, n, m, r);
        match turn.acts[n] {
          case Do(e) => Apply(e);
          case CallOn(pass) => r := Mutate(next, if pass.Some? then pass.value else m, i, k + 1);
        }
        WorldIs();
      }
      ActsDone(World(), i, k + 1, turn.acts, m, r);
      Note(Exit(i, k));
      if turn.reply.Some? {
        r := turn.reply.value;
      }
    }
  }

  function Blank<T>(n: nat, t: T): seq<T> {
    seq(n, _ => t)
  }

  /** The hooks of a builder when none of them is nil. */
  function Given(hooks: seq<Option<Hook<Ref>>>): seq<Hook<Ref>>
    requires None !in hooks
  {
    if hooks == [] then []
    else assert hooks[0] in hooks; [hooks[0].value] + Given(hooks[1..])
  }

  /** Wrap the innermost mutator of builder i in its hooks, the last first. A nil hook stops the loop. */
  method Chain(i: nat, hooks: seq<Option<Hook<Ref>>>) returns (mut: Option<Mutator>)
    ensures mut.None? <==> None in hooks
    ensures mut.Some? ==> mut.value == Layers(i, 0, Given(hooks))
  {
    var m := Innermost(i);
    var k := |hooks|;
    while k > 0
      invariant 0 <= k <= |hooks| && None !in hooks[k..] && m == Layers(i, k, Given(hooks[k..]))
    {
      k := k - 1;
      if hooks[k].None? {
        return None;
      }
      assert hooks[k..] == [hooks[k]] + hooks[k+1..];
      m := Wrapped(i, k, hooks[k].value, m);
    }
    assert hooks[0..] == hooks;
    return Some(m);
  }

  /** Fill in the default name and creation time where none is set. */
  method Defaults(m: Ref, deviceName: string, now: int)
    requires m.Valid()
    modifies m`values
    ensures m.Valid() && m.Contents() == DeviceTokens.Defaulted(old(m.Contents()), deviceName, now)
    ensures DeviceTokens.WithDefaults(old(m.Contents()), m.Contents(), deviceName, now)
  {
    DeviceTokens.DefaultedIs(m.Contents(), deviceName, now);
    if DeviceName !in m.values {
      var _ := m.SetField(DeviceName, Str(deviceName));
    }
    if CreatedAt !in m.values {
      var _ := m.SetField(CreatedAt, Time(now));
    }
  }

  /** The mutations after the defaults of the first n builders. */
  function DefaultedAll<R(==)>(muts: map<R, State>, own: seq<R>, n: nat, deviceName: string, now: int): map<R, State>
    requires n <= |own|
  {
    if n == 0 then muts
    else var before := DefaultedAll(muts, own, n - 1, deviceName, now);
      before[own[n-1] := DeviceTokens.Defaulted(StateOf(before, own[n-1]), deviceName, now)]
  }

  ghost function States(pool: set<Ref>): map<Ref, State>
    reads pool
  {
    map m | m in pool :: m.Contents()
  }

  datatype Outcome = Panic | Replied(r: Reply)

  ghost predicate NilFree(hooks: seq<seq<Option<Hook<Ref>>>>) {
    forall i :: 0 <= i < |hooks| ==> None !in hooks[i]
  }

  /** The hooks of all builders when none of them is nil. */
  function AllGiven(hooks: seq<seq<Option<Hook<Ref>>>>): (all: seq<seq<Hook<Ref>>>)
    requires forall i :: 0 <= i < |hooks| ==> None !in hooks[i]
    ensures |all| == |hooks| && forall i :: 0 <= i < |hooks| ==> all[i] == Given(hooks[i])
  {
    seq(|hooks|, i requires 0 <= i < |hooks| => Given(hooks[i]))
  }

  /** The defaults of one builder, seen from the pool. */
  method DefaultsIn(m: Ref, deviceName: string, now: int, ghost pool: set<Ref>)
    requires m in pool && forall x :: x in pool ==> x.Valid()
    modifies m`values
    ensures forall x :: x in pool ==> x.Valid()
    ensures States(pool) == old(States(pool))[m :=
      DeviceTokens.Defaulted(StateOf(old(States(pool)), m), deviceName, now)]
  {
    hide DeviceTokens.ValidState, DeviceTokens.Defaulted;
    ghost var before := States(pool);
    Defaults(m, deviceName, now);
    assert States(pool) == before[m := m.Contents()];
  }

  /** Apply the defaults of every builder and chain its mutators; a nil hook panics where it is called. */
  method Prepare(own: array<Ref>, hooks: seq<seq<Option<Hook<Ref>>>>, mutators: array<Mutator>, deviceName: string,
      now: int, ghost pool: set<Ref>)
    returns (panicked: bool)
    requires own.Length == mutators.Length == |hooks|
    requires (forall m :: m in pool ==> m.Valid()) && forall i :: 0 <= i < own.Length ==> own[i] in pool
    modifies pool, mutators
    ensures forall m :: m in pool ==> m.Valid()
    ensures panicked <==> !NilFree(hooks)
    ensures !panicked ==> forall i :: 0 <= i < |hooks| ==> mutators[i] == Layers(i, 0, Given(hooks[i]))
    ensures !panicked ==> States(pool) == DefaultedAll(old(States(pool)), own[..], own.Length, deviceName, now)
    ensures forall m :: m in pool ==> m.done == old(m.done)
  {
    hide DeviceTokens.ValidState, DeviceTokens.Defaulted, DeviceTokens.DeviceTokenMutation.Valid, Layers;
    hide Given, States, StateOf;
    for i := 0 to own.Length
      invariant forall m :: m in pool ==> m.Valid() && m.done == old(m.done)
      invariant forall j :: 0 <= j < i ==> None !in hooks[j] && mutators[j] == Layers(j, 0, Given(hooks[j]))
      invariant States(pool) == DefaultedAll(old(States(pool)), own[..], i, deviceName, now)
    {
      DefaultsIn(own[i], deviceName, now, pool);
      var mut := Chain(i, hooks[i]);
      if mut.None? {
        return true;
      }
      mutators[i] := mut.value;
    }
    return false;
  }

  /** Save of a bulk create: with no nil hook it does what the evaluator says, from the mutations with their
      defaults filled in; a nil hook panics before anything ran. */
  method SaveMany(own: array<Ref>, hooks: seq<seq<Option<Hook<Ref>>>>, valid: DeviceTokens.Validator,
      accepts: nat -> bool, deviceName: string, now: int, ghost pool: set<Ref>) returns (o: Outcome, run: Saving?)
    requires own.Length == |hooks|
    requires (forall m :: m in pool ==> m.Valid()) && forall i :: 0 <= i < own.Length ==> own[i] in pool
    requires forall i :: 0 <= i < |hooks| && None !in hooks[i] ==> Reaches(pool, Given(hooks[i]))
    modifies pool, own
    ensures o.Panic? <==> !NilFree(hooks)
    ensures o.Panic? ==> run == null && forall m :: m in pool ==> m.done == old(m.done)
    ensures o.Replied? ==>
      && run != null && fresh(run) && run.pool == pool && run.own == own && run.Valid()
      && run.Env() == HookChains.Env(true, AllGiven(hooks), valid, accepts)
      && (run.World(), o.r) == SaveBulk(run.Env(), Start(old(States(pool)), old(own[..]), deviceName, now))
  {
    hide DeviceTokens.ValidState, DeviceTokens.Defaulted, DeviceTokens.DeviceTokenMutation.Valid, Layers;
    hide Given, Reaches, HookChains.Mutate;
    var mutators := new Mutator[own.Length](_ => Innermost(0));
    var panicked := Prepare(own, hooks, mutators, deviceName, now, pool);
    if panicked {
      return Panic, null;
    }
    ghost var given := AllGiven(hooks);
    run := new Saving(pool, given, true, valid, accepts, own, mutators);
    assert run.Valid();
    assert run.World() == Start(old(States(pool)), old(own[..]), deviceName, now);
    if own.Length == 0 {
      return Replied(Ok(())), run;
    }
    var r := run.Mutate(mutators[0], own[0], 0, 0);
    return Replied(r), run;
  }

  /** The world a bulk create starts in. */
  ghost function Start(muts: map<Ref, State>, own: seq<Ref>, deviceName: string, now: int): World<Ref> {
    HookChains.World(DefaultedAll(muts, own, |own|, deviceName, now), own, Blank(|own|, map[]),
      Blank(|own|, DeviceTokens.ZERO), [], 0, [])
  }

  /** Fill in the defaults, chain the hooks of a single create and call them. */
  method RunOne(m: Ref, hooks: seq<Option<Hook<Ref>>>, valid: DeviceTokens.Validator, accepts: nat -> bool,
      deviceName: string, now: int, ghost pool: set<Ref>) returns (r: Reply, run: Saving?)
    requires m in pool && (forall x :: x in pool ==> x.Valid()) && (None !in hooks ==> Reaches(pool, Given(hooks)))
    modifies pool
    ensures None in hooks ==> r == Err(NilHook) && run == null && forall x :: x in pool ==> x.done == old(x.done)
    ensures None !in hooks ==>
      && run != null && fresh(run) && run.pool == pool && run.Valid()
      && run.Env() == HookChains.Env(false, [Given(hooks)], valid, accepts)
      && (run.World(), r) == HookChains.Mutate(run.Env(), Start(old(States(pool)), [m], deviceName, now), 0, 0, m)
  {
    hide DeviceTokens.ValidState, DeviceTokens.Defaulted, DeviceTokens.DeviceTokenMutation.Valid, Layers;
    hide Given, Reaches, HookChains.Mutate, DeviceTokens.After, DefaultedAll, StateOf;
    ghost var before := States(pool);
    DefaultsIn(m, deviceName, now, pool);
    var mut := Chain(0, hooks);
    if mut.None? {
      return Err(NilHook), null;
    }
    var own := new Ref[1](_ => m);
    var mutators := new Mutator[1](_ => mut.value);
    assert own[..] == [m];
    run := new Saving(pool, [Given(hooks)], false, valid, accepts, own, mutators);
    assert run.Valid();
    OneDefaulted(before, m, deviceName, now);
    assert run.World() == Start(old(States(pool)), [m], deviceName, now);
    r := run.Mutate(mutators[0], m, 0, 0);
  }

  /** Save of a single create. A nil hook is an error, and then the save itself never runs. */
  method SaveOne(m: Ref, hooks: seq<Option<Hook<Ref>>>, valid: DeviceTokens.Validator, accepts: nat -> bool,
      deviceName: string, now: int, ghost pool: set<Ref>) returns (r: Reply, run: Saving?)
    requires m in pool && (forall x :: x in pool ==> x.Valid()) && (None !in hooks ==> Reaches(pool, Given(hooks)))
    modifies pool
    ensures None in hooks ==> r == Err(NilHook) && run == null && forall x :: x in pool ==> x.done == old(x.done)
    ensures None !in hooks ==>
      && run != null && fresh(run) && run.pool == pool && run.Valid()
      && run.Env() == HookChains.Env(false, [Given(hooks)], valid, accepts)
      && (run.World(), r) == HookChains.Mutate(run.Env(), Start(old(States(pool)), [m], deviceName, now), 0, 0, m)
    ensures None !in hooks && AllPass(Given(hooks)) ==>
      && (r.Ok? <==> accepts(0) && Ready(valid, old(m.Contents())))
      && (if r.Ok? then |run.stored| == 1 && MadeFrom(run.stored[0], old(m.Contents()), deviceName, now)
          else run.stored == [])
      && (r.Ok? ==> NodesHold(run.nodes[..], run.stored))
  {
    hide *;
    ghost var before := States(pool);
    InPool(m, pool);
    r, run := RunOne(m, hooks, valid, accepts, deviceName, now, pool);
    if None !in hooks {
      RunStates(run);
      if AllPass(Given(hooks)) {
        OneFrom(run.Env(), before, m, deviceName, now);
      }
    }
  }

  lemma InPool(m: Ref, pool: set<Ref>)
    requires m in pool && m.Valid()
    ensures m in States(pool) && States(pool)[m] == m.Contents() && DeviceTokens.ValidState(m.Contents())
  {
  }

  /** A builder's mutation, before its defaults, can be created: the required fields are set and no validator refuses
      them. */
  ghost predicate Ready(valid: DeviceTokens.Validator, s: State) {
    && TokenHash in s.values && valid(TokenHash, s.values[TokenHash])
    && UserID in s.values && valid(UserID, s.values[UserID])
    && TenantID in s.values && valid(TenantID, s.values[TenantID])
  }

  /** A stored row made from a mutation as it was before its defaults: every value that was set on it, the default name
      and creation time where none was, its id if it had one, and nothing else. */
  ghost predicate MadeFrom(row: Spec, s: State, deviceName: string, now: int) {
    && (forall c :: c in row <==> c in s.values || c == DeviceName || c == CreatedAt || (c == ID && s.id.Some?))
    && (forall c :: c in s.values ==> row[c] == s.values[c])
    && (DeviceName !in s.values ==> row[DeviceName] == Str(deviceName))
    && (CreatedAt !in s.values ==> row[CreatedAt] == Time(now))
    && (s.id.Some? ==> row[ID] == Str(s.id.value))
  }

  lemma DefaultedMakes(valid: DeviceTokens.Validator, s: State, deviceName: string, now: int)
    requires DeviceTokens.ValidState(s)
    ensures var t := DeviceTokens.Defaulted(s, deviceName, now);
      && MadeFrom(DeviceTokens.SpecOf(t), s, deviceName, now)
      && (DeviceTokens.FirstUnmet(valid, t).None? <==> Ready(valid, s))
  {
    hide *;
    var t := DeviceTokens.Defaulted(s, deviceName, now);
    DeviceTokens.DefaultedIs(s, deviceName, now);
    DefaultsStayValid(s, t, deviceName, now);
    DeviceTokens.SpecDescribes(t);
    MadeFromDefaults(s, t, deviceName, now, DeviceTokens.SpecOf(t));
    ReadyIs(valid, s, t, deviceName, now);
  }

  lemma DefaultsStayValid(s: State, t: State, deviceName: string, now: int)
    requires DeviceTokens.ValidState(s) && DeviceTokens.WithDefaults(s, t, deviceName, now)
    ensures DeviceTokens.ValidState(t)
  {
  }

  lemma MadeFromDefaults(s: State, t: State, deviceName: string, now: int, spec: Spec)
    requires DeviceTokens.WithDefaults(s, t, deviceName, now) && DeviceTokens.Describes(spec, t)
    ensures MadeFrom(spec, s, deviceName, now)
  {
  }

  lemma ReadyIs(valid: DeviceTokens.Validator, s: State, t: State, deviceName: string, now: int)
    requires DeviceTokens.WithDefaults(s, t, deviceName, now)
    ensures DeviceTokens.FirstUnmet(valid, t).None? <==> Ready(valid, s)
  {
  }

  /** A single create through hooks that pass everything through, in terms of the state before the defaults. */
  lemma OneFrom(env: Env<Ref>, muts: map<Ref, State>, m: Ref, deviceName: string, now: int)
    requires !env.bulk && |env.hooks| == 1 && AllPass(env.hooks[0]) && m in muts && DeviceTokens.ValidState(muts[m])
    ensures var (w, r) := HookChains.Mutate(env, Start(muts, [m], deviceName, now), 0, 0, m);
      && (r.Ok? <==> env.accepts(0) && Ready(env.valid, muts[m]))
      && (if r.Ok? then |w.stored| == 1 && MadeFrom(w.stored[0], muts[m], deviceName, now) else w.stored == [])
      && (r.Ok? ==> NodesHold(w.nodes, w.stored))
  {
    hide HookChains.Mutate, DeviceTokens.SpecOf, DeviceTokens.FirstUnmet, DeviceTokens.Defaulted, NodeOf;
    var start := Start(muts, [m], deviceName, now);
    OneDefaulted(muts, m, deviceName, now);
    SingleOnion(env, start, 0, 0);
    DefaultedMakes(env.valid, muts[m], deviceName, now);
    NodeReads(start.muts[m]);
    hide DeviceTokens.Reads;
    assert [] + [DeviceTokens.SpecOf(start.muts[m])] == [DeviceTokens.SpecOf(start.muts[m])];
  }

  lemma OneDefaulted(muts: map<Ref, State>, m: Ref, deviceName: string, now: int)
    ensures DefaultedAll(muts, [m], 1, deviceName, now) ==
      muts[m := DeviceTokens.Defaulted(StateOf(muts, m), deviceName, now)]
  {
    assert DefaultedAll(muts, [m], 0, deviceName, now) == muts;
  }

  lemma {:induction false} DefaultedEach(muts: map<Ref, State>, own: seq<Ref>, n: nat, deviceName: string,
      now: int, r: Ref)
    requires n <= |own| && Distinct(own)
    ensures var after := DefaultedAll(muts, own, n, deviceName, now);
      && (r in own[..n] ==> StateOf(after, r) == DeviceTokens.Defaulted(StateOf(muts, r), deviceName, now))
      && (r !in own[..n] ==> StateOf(after, r) == StateOf(muts, r))
  {
    if n > 0 {
      hide DeviceTokens.Defaulted;
      DefaultedEach(muts, own, n - 1, deviceName, now, r);
      assert own[..n] == own[..n-1] + [own[n-1]];
      assert own[n-1] !in own[..n-1];
    }
  }

  /** The states of the mutations with their defaults filled in. */
  ghost function FilledIn(own: seq<Ref>, deviceName: string, now: int): (filled: seq<State>)
    reads own
    ensures |filled| == |own| && forall i :: 0 <= i < |own| ==>
      filled[i] == DeviceTokens.Defaulted(own[i].Contents(), deviceName, now)
  {
    if own == [] then []
    else FilledIn(own[..|own|-1], deviceName, now) + [DeviceTokens.Defaulted(own[|own|-1].Contents(), deviceName, now)]
  }

  function SpecsOf(filled: seq<State>): (specs: seq<Spec>)
    ensures |specs| == |filled| && forall i :: 0 <= i < |filled| ==> specs[i] == DeviceTokens.SpecOf(filled[i])
  {
    if filled == [] then [] else SpecsOf(filled[..|filled|-1]) + [DeviceTokens.SpecOf(filled[|filled|-1])]
  }

  ghost predicate AllMeet(valid: DeviceTokens.Validator, filled: seq<State>) {
    forall i :: 0 <= i < |filled| ==> DeviceTokens.FirstUnmet(valid, filled[i]).None?
  }

  function Saved(s: State): State {
    s.(id := Some(if s.id.Some? then s.id.value else ""), done := true)
  }

  /** Each of the entities holds what the row in its place holds. */
  ghost predicate NodesHold(nodes: seq<DeviceTokens.Token>, rows: seq<Spec>) {
    |nodes| == |rows| && forall i :: 0 <= i < |nodes| ==> DeviceTokens.Reads(nodes[i], rows[i])
  }

  lemma NodesHoldThem(nodes: seq<DeviceTokens.Token>, rows: seq<Spec>)
    requires |nodes| == |rows| && forall i :: 0 <= i < |nodes| ==> DeviceTokens.Reads(nodes[i], rows[i])
    ensures NodesHold(nodes, rows)
  {
  }

  /** The all-or-nothing law, in terms of the states the builders' mutations had before the defaults. */
  lemma BulkFrom(env: Env<Ref>, muts: map<Ref, State>, own: seq<Ref>, deviceName: string, now: int, filled: seq<State>)
    requires env.bulk && |own| == |env.hooks| == |filled| && AllHooksPass(env) && Distinct(own)
    requires forall i :: 0 <= i < |own| ==> filled[i] == DeviceTokens.Defaulted(StateOf(muts, own[i]), deviceName, now)
    ensures var (w, r) := SaveBulk(env, Start(muts, own, deviceName, now));
      && (r.Ok? <==> |own| == 0 || (env.accepts(0) && AllMeet(env.valid, filled)))
      && (r.Ok? ==> w.stored == SpecsOf(filled) && forall i :: 0 <= i < |own| ==>
        StateOf(w.muts, own[i]) == Saved(filled[i]))
      && (r.Ok? ==> NodesHold(w.nodes, SpecsOf(filled)))
      && (r.Err? ==> w.stored == [] && w.muts == DefaultedAll(muts, own, |own|, deviceName, now))
  {
    hide *;
    var start := Start(muts, own, deviceName, now);
    StartFacts(env, muts, own, deviceName, now);
    BulkAllOrNothing(env, start);
    forall i | 0 <= i < |own| ensures StateOf(start.muts, own[i]) == filled[i] {
      assert own[..|own|] == own && own[i] in own;
      DefaultedEach(muts, own, |own|, deviceName, now, own[i]);
    }
    FilledFacts(env.valid, start.muts, own, filled);
    if SaveBulk(env, start).1.Ok? {
      ReturnedNodes(env, start);
      NodesHoldThem(SaveBulk(env, start).0.nodes, SpecsOf(filled));
    }
    assert [] + SpecsOf(filled) == SpecsOf(filled);
  }

  lemma StartFacts(env: Env<Ref>, muts: map<Ref, State>, own: seq<Ref>, deviceName: string, now: int)
    requires |own| == |env.hooks|
    ensures var start := Start(muts, own, deviceName, now);
      && start.own == own && start.muts == DefaultedAll(muts, own, |own|, deviceName, now) && start.stored == []
        && start.sent == 0 && Sized(env, start)
  {
  }

  lemma FilledFacts(valid: DeviceTokens.Validator, muts: map<Ref, State>, own: seq<Ref>, filled: seq<State>)
    requires |own| == |filled| && forall i :: 0 <= i < |own| ==> StateOf(muts, own[i]) == filled[i]
    ensures AllMeet(valid, filled) <==> forall j :: 0 <= j < |own| ==> Unmet(valid, muts, own[j]).None?
    ensures SpecsFrom(muts, own, 0) == SpecsOf(filled)
    ensures forall s: State :: Saved(s) == s.(id := Some(if s.id.Some? then s.id.value else ""), done := true)
  {
    hide DeviceTokens.FirstUnmet, DeviceTokens.SpecOf;
  }

  lemma {:induction false} DefaultsKeepDone(muts: map<Ref, State>, own: seq<Ref>, n: nat, deviceName: string,
      now: int, r: Ref)
    requires n <= |own|
    ensures StateOf(DefaultedAll(muts, own, n, deviceName, now), r).done == StateOf(muts, r).done
  {
    if n > 0 {
      DefaultsKeepDone(muts, own, n - 1, deviceName, now, r);
    }
  }

  lemma RunStates(run: Saving)
    ensures forall m :: m in run.pool ==> StateOf(run.World().muts, m) == m.Contents()
    ensures run.World().stored == run.stored && run.World().nodes == run.nodes[..]
  {
  }

  lemma PoolStates(pool: set<Ref>)
    ensures forall m :: m in pool ==> StateOf(States(pool), m) == m.Contents()
  {
  }

  /** Save builders that have mutations of their own and hooks that pass everything through. */
  method CreateEach(own: array<Ref>, hooks: seq<seq<Option<Hook<Ref>>>>, valid: DeviceTokens.Validator,
      accepts: nat -> bool, deviceName: string, now: int, ghost pool: set<Ref>)
    returns (r: Reply, stored: seq<Spec>, nodes: seq<DeviceTokens.Token>)
    requires own.Length == |hooks| && NilFree(hooks) && Distinct(own[..])
    requires (forall m :: m in pool ==> m.Valid()) && forall i :: 0 <= i < own.Length ==> own[i] in pool
    requires forall i :: 0 <= i < |hooks| ==> Reaches(pool, Given(hooks[i])) && AllPass(Given(hooks[i]))
    modifies pool, own
    ensures var filled := old(FilledIn(own[..], deviceName, now));
      && (r.Ok? <==> own.Length == 0 || (accepts(0) && AllMeet(valid, filled)))
      && (r.Ok? ==> stored == SpecsOf(filled) && forall i :: 0 <= i < own.Length ==>
        old(own[i]).Contents() == Saved(filled[i]))
      && (r.Ok? ==> NodesHold(nodes, stored))
      && (r.Err? ==> stored == [] && forall m :: m in pool ==> m.done == old(m.done))
  {
    hide SaveBulk, Start, Reaches, FilledIn, SpecsOf, AllMeet, Saved, DefaultedAll, States, Saving.World, NodesHold;
    hide StateOf, DeviceTokens.Defaulted, DeviceTokens.ValidState;
    ghost var muts, before, filled := States(pool), own[..], FilledIn(own[..], deviceName, now);
    PoolStates(pool);
    var o, run := SaveMany(own, hooks, valid, accepts, deviceName, now, pool);
    assert forall i :: 0 <= i < |before| ==> before[i] in pool;
    BulkFrom(run.Env(), muts, before, deviceName, now, filled);
    RunStates(run);
    forall m | m in pool {
      DefaultsKeepDone(muts, before, |before|, deviceName, now, m);
    }
    return o.r, run.stored, run.nodes[..];
  }
  /** Creating many with builders that have mutations of their own and hooks that pass everything through:
      everything is stored, in order, and every mutation is done with the id of its node, or nothing is
      stored and none is done. */
  method CreateAll(own: array<Ref>, hooks: seq<seq<Option<Hook<Ref>>>>, valid: DeviceTokens.Validator,
      accepts: nat -> bool, deviceName: string, now: int, ghost pool: set<Ref>)
    returns (r: Reply, stored: seq<Spec>, nodes: seq<DeviceTokens.Token>)
    requires own.Length == |hooks| && NilFree(hooks) && Distinct(own[..])
    requires (forall m :: m in pool ==> m.Valid()) && forall i :: 0 <= i < own.Length ==> own[i] in pool
    requires forall i :: 0 <= i < |hooks| ==> Reaches(pool, Given(hooks[i])) && AllPass(Given(hooks[i]))
    modifies pool, own
    ensures var filled := old(FilledIn(own[..], deviceName, now));
      && (r.Ok? <==> own.Length == 0 || (accepts(0) && AllMeet(valid, filled)))
      && (r.Ok? ==> stored == SpecsOf(filled) && forall i :: 0 <= i < own.Length ==>
        old(own[i]).Contents() == Saved(filled[i]))
      && (r.Err? ==> stored == [] && forall m :: m in pool ==> m.done == old(m.done))
    ensures r.Ok? <==> own.Length == 0 || (accepts(0) && forall i :: 0 <= i < own.Length ==>
      Ready(valid, old(own[i].Contents())))
    ensures r.Ok? ==> |stored| == own.Length && forall i :: 0 <= i < own.Length ==>
      && MadeFrom(stored[i], old(own[i].Contents()), deviceName, now)
      && SavedFrom(old(own[i].Contents()), old(own[i]).Contents(), deviceName, now)
    ensures r.Ok? ==> NodesHold(nodes, stored)
  {
    hide *;
    ghost var given, filled := StatesOf(own[..]), FilledIn(own[..], deviceName, now);
    ListOf(own, pool);
    assert forall i :: 0 <= i < own.Length ==> given[i] == old(own[i].Contents());
    AllFrom(valid, given, filled, deviceName, now);
    r, stored, nodes := CreateEach(own, hooks, valid, accepts, deviceName, now, pool);
  }

  lemma ListOf(own: array<Ref>, pool: set<Ref>)
    requires (forall m :: m in pool ==> m.Valid()) && forall i :: 0 <= i < own.Length ==> own[i] in pool
    ensures |own[..]| == own.Length && forall i :: 0 <= i < own.Length ==>
      own[..][i] == own[i] && DeviceTokens.ValidState(own[i].Contents())
  {
  }

  ghost function StatesOf(own: seq<Ref>): (states: seq<State>)
    reads own
    ensures |states| == |own| && forall i :: 0 <= i < |own| ==> states[i] == own[i].Contents()
  {
    if own == [] then [] else StatesOf(own[..|own|-1]) + [own[|own|-1].Contents()]
  }

  /** A mutation after its create, seen from before its defaults. */
  ghost predicate SavedFrom(s: State, t: State, deviceName: string, now: int) {
    && t.done && t.id == Some(if s.id.Some? then s.id.value else "")
    && DeviceTokens.WithDefaults(s, t.(id := s.id, done := s.done), deviceName, now)
  }

  lemma AllFrom(valid: DeviceTokens.Validator, given: seq<State>, filled: seq<State>, deviceName: string, now: int)
    requires |given| == |filled| && forall i :: 0 <= i < |given| ==>
      DeviceTokens.ValidState(given[i]) && filled[i] == DeviceTokens.Defaulted(given[i], deviceName, now)
    ensures AllMeet(valid, filled) <==> forall i :: 0 <= i < |given| ==> Ready(valid, given[i])
    ensures |SpecsOf(filled)| == |given|
    ensures forall i :: 0 <= i < |given| ==>
      && MadeFrom(SpecsOf(filled)[i], given[i], deviceName, now)
      && SavedFrom(given[i], Saved(filled[i]), deviceName, now)
  {
    hide MadeFrom, Ready, DeviceTokens.Defaulted, DeviceTokens.SpecOf, DeviceTokens.FirstUnmet;
    forall i | 0 <= i < |given|
      ensures DeviceTokens.FirstUnmet(valid, filled[i]).None? <==> Ready(valid, given[i])
      ensures MadeFrom(SpecsOf(filled)[i], given[i], deviceName, now)
      ensures SavedFrom(given[i], Saved(filled[i]), deviceName, now)
    {
      DefaultedMakes(valid, given[i], deviceName, now);
      DeviceTokens.DefaultedIs(given[i], deviceName, now);
    }
  }

}
