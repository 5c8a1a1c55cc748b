/** The old values of update-one mutations: closures that fetch the stored entity at most once and remember the
    outcome, and that mutations take over from each other. */
module OldValues {
  import opened Schema

  datatype Op = Create | Update | UpdateOne | Delete | DeleteOne

  datatype Error = OnlyUpdateOne | NoID | PostMutation | NotFound | Driver

  /** The table of roles as the driver answers for it at some moment. */
  datatype Store = Up(rows: map<Id, Row>) | Down

  function Get(store: Store, id: Id): Result<Row, Error> {
    if store.Down? then Err(Driver) else if id in store.rows then Ok(store.rows[id]) else Err(NotFound)
  }

  function Column(r: Result<Row, Error>, c: Col): Result<Value, Error> {
    match r
    case Ok(row) => Ok(if c in row then row[c] else Null)
    case Err(e) => Err(e)
  }

  /** An answer for column c that comes from a row. */
  ghost predicate FromRow(a: Result<Value, Error>, row: Row, c: Col) {
    a.Ok? && (c in row ==> a.value == row[c]) && (c !in row ==> a.value == Null)
  }

  /** An answer for column c that comes from a fetch of entity x from the store, or, when it was too late for one, from
      none. */
  ghost predicate FromFetch(a: Result<Value, Error>, late: bool, store: Store, x: Id, c: Col) {
    if late then a == Err(PostMutation)
    else
      match store
      case Down => a == Err(Driver)
      case Up(rows) => if x in rows then FromRow(a, rows[x], c) else a == Err(NotFound)
  }

  // ----- The state machine -----

  /** Where the id of a mutation is kept: nowhere, in a place of its own, or in an entity its caller holds. */
  datatype IDRef = Unset | Own(id: Id) | In(role: nat)

  /** Where its old values come from: nowhere, an entity its caller holds, or a closure. */
  datatype Source = Nowhere | Given(role: nat) | Stored(closure: nat)

  datatype Mutation = Mutation(op: Op, id: IDRef, source: Source, done: bool)

  /** A closure was made for one mutation and the id that mutation then had. */
  datatype Closure = Closure(owner: nat, id: Id, outcome: Option<Result<Row, Error>>, fetches: nat)

  /** Some mutations, the closures made for them, the entities that callers hold, and the store. */
  datatype World = World(muts: seq<Mutation>, closures: seq<Closure>, roles: seq<Row>, store: Store)

  /** A call for an old value, a change of the store, a save, a setter, a caller's change of an entity, or what
      running with hooks does when another mutation is handed down: every field is overwritten. */
  datatype Event =
    | Old(m: nat, c: Col)
    | StoreBecomes(store: Store)
    | Save(m: nat, ok: bool)
    | SetID(m: nat, id: Id)
    | SetOp(m: nat, op: Op)
    | Edit(role: nat, row: Row)
    | Overwrite(m: nat, from: nat)

  predicate Sound(w: World) {
    && (forall m :: 0 <= m < |w.muts| ==>
          && (w.muts[m].id.In? ==> w.muts[m].id.role < |w.roles|)
          && (w.muts[m].source.Given? ==> w.muts[m].source.role < |w.roles|)
          && (w.muts[m].source.Stored? ==> w.muts[m].source.closure < |w.closures|))
    && (forall j :: 0 <= j < |w.closures| ==> w.closures[j].owner < |w.muts|)
  }

  predicate Possible(w: World, e: Event) {
    match e
    case StoreBecomes(_) => true
    case Edit(r, _) => r < |w.roles|
    case Overwrite(m, from) => m < |w.muts| && from < |w.muts|
    case _ => e.m < |w.muts|
  }

  /** Whether a call for an old value gets past the guards. */
  predicate Allowed(m: Mutation) {
    m.op.UpdateOne? && !m.id.Unset? && !m.source.Nowhere?
  }

  /** What a closure answers when it is called. */
  function Recall(w: World, j: nat): Result<Row, Error>
    requires Sound(w) && j < |w.closures|
  {
    var f := w.closures[j];
    if f.outcome.Some? then f.outcome.value
    else if w.muts[f.owner].done then Err(PostMutation)
    else Get(w.store, f.id)
  }

  function Answer(w: World, m: nat, c: Col): Result<Value, Error>
    requires Sound(w) && m < |w.muts|
  {
    var x := w.muts[m];
    if !x.op.UpdateOne? then Err(OnlyUpdateOne)
    else if x.id.Unset? then Err(NoID)
    else
      match x.source
      case Nowhere => Err(NoID)
      case Given(r) => Column(Ok(w.roles[r]), c)
      case Stored(j) => Column(Recall(w, j), c)
  }

  /** The world after an event; an event about something that is not there changes nothing. */
  function Next(w: World, e: Event): (v: World)
    requires Sound(w)
    ensures Sound(v) && |v.muts| == |w.muts| && |v.closures| == |w.closures| && |v.roles| == |w.roles|
  {
    if !Possible(w, e) then w
    else
      match e
      case Old(m, _) => if Allowed(w.muts[m]) && w.muts[m].source.Stored? then Asked(w, w.muts[m].source.closure) else w
      case StoreBecomes(store) => w.(store := store)
      case Save(m, ok) => w.(muts := w.muts[m := w.muts[m].(done := w.muts[m].done || ok)])
      case SetID(m, id) => w.(muts := w.muts[m := w.muts[m].(id := Own(id))])
      case SetOp(m, op) => w.(muts := w.muts[m := w.muts[m].(op := op)])
      case Edit(r, row) => w.(roles := w.roles[r := row])
      case Overwrite(m, from) => w.(muts := w.muts[m := w.muts[from]])
  }

  /** A closure remembers what it answers first. */
  function Asked(w: World, j: nat): (v: World)
    requires Sound(w) && j < |w.closures|
    ensures Sound(v) && v == w.(closures := v.closures) && |v.closures| == |w.closures|
  {
    var f := w.closures[j];
    if f.outcome.Some? then w
    else
      var fetches := f.fetches + if w.muts[f.owner].done then 0 else 1;
      w.(closures := w.closures[j := f.(outcome := Some(Recall(w, j)), fetches := fetches)])
  }

  function Run(w: World, es: seq<Event>): (v: World)
    requires Sound(w)
    ensures Sound(v) && |v.muts| == |w.muts| && |v.closures| == |w.closures| && |v.roles| == |w.roles|
  {
    if es == [] then w else Next(Run(w, es[..|es|-1]), es[|es|-1])
  }

  // ----- The objects -----

  /** An entity that a caller holds. */
  class Role {
    var row: Row

    constructor (row: Row)
      ensures this.row == row
    {
      this.row := row;
    }
  }

  /** The closure of a mutation made for an id. It refers to that mutation, whoever calls it. */
  class Memo {
    const owner: RoleMutation
    const id: Id
    var outcome: Option<Result<Row, Error>>
    ghost var fetches: nat

    constructor (owner: RoleMutation, id: Id)
      ensures this.owner == owner && this.id == id && outcome == None && fetches == 0
    {
      this.owner, this.id, outcome, fetches := owner, id, None, 0;
    }

    method Call(store: Store) returns (r: Result<Row, Error>)
      modifies this
      ensures old(outcome).Some? ==> r == old(outcome).value && fetches == old(fetches)
      ensures old(outcome).None? ==> r == (if owner.done then Err(PostMutation) else Get(store, id))
      ensures old(outcome).None? ==> fetches == old(fetches) + if owner.done then 0 else 1
      ensures outcome == Some(r)
    {
      if outcome.None? {
        if owner.done {
          outcome := Some(Err(PostMutation));
        } else {
          fetches := fetches + 1;
          outcome := Some(Get(store, id));
        }
      }
      r := outcome.value;
    }
  }

  /** The pointer to the id of a mutation. */
  datatype Pointer = Nil | To(id: Id) | Into(role: Role)

  class RoleMutation {
    var op: Op
    var id: Pointer
    var given: Role?
    var memo: Memo?
    var done: bool

    /** A mutation for the entity with the given id. */
    constructor WithID(x: Id)
      ensures op == UpdateOne && id == To(x) && given == null && !done
      ensures memo != null && fresh(memo) && memo.owner == this && memo.id == x && memo.outcome == None
        && memo.fetches == 0
    {
      op, id, given, done, memo := UpdateOne, To(x), null, false, null;
      new;
      memo := new Memo(this, x);
    }

    /** A mutation for an entity the caller holds: its id is the entity's. */
    constructor WithRole(node: Role)
      ensures op == UpdateOne && id == Into(node) && given == node && memo == null && !done
    {
      op, id, given, memo, done := UpdateOne, Into(node), node, null, false;
    }

    method OldField(c: Col, store: Store) returns (r: Result<Value, Error>)
      modifies memo
      ensures !op.UpdateOne? ==> r == Err(OnlyUpdateOne)
      ensures op.UpdateOne? && (id.Nil? || (given == null && memo == null)) ==> r == Err(NoID)
      ensures op.UpdateOne? && !id.Nil? && given != null ==> r == Column(Ok(given.row), c) && FromRow(r, given.row, c)
      ensures op.UpdateOne? && !id.Nil? && given == null && memo != null ==>
        && memo.outcome.Some? && r == Column(memo.outcome.value, c)
        && (memo.outcome.value.Err? ==> r == Err(memo.outcome.value.error))
        && (memo.outcome.value.Ok? ==> FromRow(r, memo.outcome.value.value, c))
        && (old(memo.outcome).Some? ==> memo.outcome == old(memo.outcome) && memo.fetches == old(memo.fetches))
        && (old(memo.outcome).None? ==>
             && memo.outcome.value == (if memo.owner.done then Err(PostMutation) else Get(store, memo.id))
             && FromFetch(r, memo.owner.done, store, memo.id, c)
             && memo.fetches == old(memo.fetches) + if memo.owner.done then 0 else 1)
      ensures !(op.UpdateOne? && !id.Nil? && given == null) && memo != null ==>
        memo.outcome == old(memo.outcome) && memo.fetches == old(memo.fetches)
    {
      if !op.UpdateOne? {
        return Err(OnlyUpdateOne);
      }
      if id.Nil? || (given == null && memo == null) {
        return Err(NoID);
      }
      var outcome: Result<Row, Error>;
      if given != null {
        outcome := Ok(given.row);
      } else {
        outcome := memo.Call(store);
      }
      r := Column(outcome, c);
    }

    /** What running with hooks does to the builder's mutation: every field is overwritten. */
    method CopyFrom(m: RoleMutation)
      modifies this
      ensures op == old(m.op) && id == old(m.id) && given == old(m.given) && memo == old(m.memo) && done == old(m.done)
    {
      op, id, given, memo, done := m.op, m.id, m.given, m.memo, m.done;
    }
  }

  ghost predicate Distinct<T>(xs: seq<T>) {
    forall i, j :: 0 <= i < j < |xs| ==> xs[i] != xs[j]
  }

  /** The pointers of a mutation object are what the state of the mutation says. */
  ghost predicate ShowsMutation(x: Mutation, m: RoleMutation, memos: seq<Memo>, roles: seq<Role>)
    reads m
  {
    && m.op == x.op && m.done == x.done
    && (match x.id
        case Unset => m.id == Nil
        case Own(id) => m.id == To(id)
        case In(r) => r < |roles| && m.id == Into(roles[r]))
    && (match x.source
        case Nowhere => m.given == null && m.memo == null
        case Given(r) => r < |roles| && m.given == roles[r] && m.memo == null
        case Stored(j) => j < |memos| && m.memo == memos[j] && m.given == null)
  }

  ghost predicate ShowsClosure(f: Closure, memo: Memo, muts: seq<RoleMutation>)
    reads memo
  {
    f.owner < |muts| && memo.owner == muts[f.owner] && memo.id == f.id && memo.outcome == f.outcome
    && memo.fetches == f.fetches
  }

  /** The objects are in the state w, apart from the store. */
  ghost predicate Shows(w: World, muts: seq<RoleMutation>, memos: seq<Memo>, roles: seq<Role>)
    reads muts, memos, roles
  {
    && Sound(w) && |w.muts| == |muts| && |w.closures| == |memos| && |w.roles| == |roles|
    && Distinct(muts) && Distinct(memos) && Distinct(roles)
    && (forall i :: 0 <= i < |muts| ==> ShowsMutation(w.muts[i], muts[i], memos, roles))
    && (forall j :: 0 <= j < |memos| ==> ShowsClosure(w.closures[j], memos[j], muts))
    && (forall r :: 0 <= r < |roles| ==> roles[r].row == w.roles[r])
  }

  /** Ask a real mutation for an old value. */
  method Ask(ghost w: World, muts: seq<RoleMutation>, memos: seq<Memo>, roles: seq<Role>, store: Store, m: nat, c: Col)
      returns (answer: Result<Value, Error>)
    requires Shows(w, muts, memos, roles) && w.store == store && m < |muts|
    modifies memos
    ensures Shows(Next(w, Old(m, c)), muts, memos, roles) && answer == Answer(w, m, c)
  {
    assert ShowsMutation(w.muts[m], muts[m], memos, roles);
    ghost var x := w.muts[m];
    if x.source.Stored? {
      assert ShowsClosure(w.closures[x.source.closure], memos[x.source.closure], muts);
    }
    answer := muts[m].OldField(c, store);
  }

  /** Change one field of a real mutation. */
  method Set(ghost w: World, muts: seq<RoleMutation>, memos: seq<Memo>, roles: seq<Role>, e: Event)
    requires Shows(w, muts, memos, roles) && (e.Save? || e.SetID? || e.SetOp?) && e.m < |muts|
    modifies muts[e.m]
    ensures Shows(Next(w, e), muts, memos, roles)
  {
    hide ShowsClosure;
    var m := muts[e.m];
    assert ShowsMutation(w.muts[e.m], m, memos, roles);
    match e {
      case Save(_, ok) => m.done := m.done || ok;
      case SetID(_, x) => m.id := To(x);
      case SetOp(_, op) => m.op := op;
    }
    ghost var x := Next(w, e).muts[e.m];
    assert ShowsMutation(x, m, memos, roles) && Next(w, e) == w.(muts := w.muts[e.m := x]);
    hide ShowsMutation, Next;
    assert forall i :: 0 <= i < |muts| && i != e.m ==> muts[i] != m;
  }

  /** Overwrite a real mutation. */
  method Replace(ghost w: World, muts: seq<RoleMutation>, memos: seq<Memo>, roles: seq<Role>, m: nat, from: nat)
    requires Shows(w, muts, memos, roles) && m < |muts| && from < |muts|
    modifies muts[m]
    ensures Shows(Next(w, Overwrite(m, from)), muts, memos, roles)
  {
    hide ShowsClosure;
    assert ShowsMutation(w.muts[from], muts[from], memos, roles);
    muts[m].CopyFrom(muts[from]);
    assert forall i :: 0 <= i < |muts| && i != m ==> muts[i] != muts[m];
  }

  /** One event on real objects. */
  method PerformOne(ghost w: World, muts: seq<RoleMutation>, memos: seq<Memo>, roles: seq<Role>, store: Store,
      e: Event) returns (answer: Result<Value, Error>, store': Store)
    requires Shows(w, muts, memos, roles) && w.store == store
    modifies muts, memos, roles
    ensures Shows(Next(w, e), muts, memos, roles) && Next(w, e).store == store'
    ensures e.Old? && e.m < |muts| ==> answer == Answer(w, e.m, e.c)
  {
    hide ShowsMutation, ShowsClosure, Answer;
    answer, store' := Ok(Null), store;
    match e {
      case Old(m, c) =>
        if m < |muts| {
          answer := Ask(w, muts, memos, roles, store, m, c);
        }
      case StoreBecomes(now) => store' := now;
      case Edit(r, row) =>
        if r < |roles| {
          roles[r].row := row;
        }
      case Overwrite(m, from) =>
        if m < |muts| && from < |muts| {
          Replace(w, muts, memos, roles, m, from);
        }
      case _ =>
        if e.m < |muts| {
          Set(w, muts, memos, roles, e);
        }
    }
  }

  /** Take real mutations, with the closures they share and the entities their callers hold, through a run. */
  method Perform(ghost w: World, muts: seq<RoleMutation>, memos: seq<Memo>, roles: seq<Role>, store: Store,
      es: seq<Event>) returns (answers: seq<Result<Value, Error>>, store': Store)
    requires Shows(w, muts, memos, roles) && w.store == store
    modifies muts, memos, roles
    ensures Shows(Run(w, es), muts, memos, roles) && Run(w, es).store == store'
    ensures |answers| == |es|
    ensures forall n :: 0 <= n < |es| && es[n].Old? && es[n].m < |muts| ==>
      answers[n] == Answer(Run(w, es[..n]), es[n].m, es[n].c)
  {
    hide Next, Answer, Shows;
    ShowsSound(w, muts, memos, roles);
    answers, store' := [], store;
    for i := 0 to |es|
      invariant Shows(Run(w, es[..i]), muts, memos, roles) && Run(w, es[..i]).store == store'
      invariant |answers| == i
      invariant forall n :: 0 <= n < i && es[n].Old? && es[n].m < |muts| ==>
        answers[n] == Answer(Run(w, es[..n]), es[n].m, es[n].c)
    {
      assert es[..i+1][..i] == es[..i];
      var answer;
      answer, store' := PerformOne(Run(w, es[..i]), muts, memos, roles, store', es[i]);
      answers := answers + [answer];
    }
    assert es[..|es|] == es;
  }

  lemma ShowsSound(w: World, muts: seq<RoleMutation>, memos: seq<Memo>, roles: seq<Role>)
    requires Shows(w, muts, memos, roles)
    ensures Sound(w) && |w.muts| == |muts|
  {
  }

  // ----- One snapshot -----

  /** Event n asks for an old value, gets past the guards and is answered by closure j. */
  predicate Asks(w: World, es: seq<Event>, n: nat, j: nat)
    requires Sound(w)
  {
    && n < |es| && es[n].Old? && es[n].m < |w.muts|
    && var x := Run(w, es[..n]).muts[es[n].m];
    Allowed(x) && x.source == Stored(j)
  }

  ghost predicate FirstAsk(w: World, es: seq<Event>, n: nat, j: nat)
    requires Sound(w)
  {
    Asks(w, es, n, j) && forall i: nat :: i < n ==> !Asks(w, es, i, j)
  }

  /** A closure changes only when it is asked, and keeps its owner and its id. */
  lemma Untouched(w: World, es: seq<Event>, n: nat, j: nat)
    requires Sound(w) && n < |es| && j < |w.closures|
    ensures var before, after := Run(w, es[..n]), Run(w, es[..n+1]);
      && (!Asks(w, es, n, j) ==> after.closures[j] == before.closures[j])
      && (Asks(w, es, n, j) ==> after == Asked(before, j))
  {
    assert es[..n+1][..n] == es[..n];
  }

  /** Until some mutation asks it a closure fetches nothing and remembers nothing, whatever becomes of the
      mutation it was made for. */
  lemma {:induction false} NotAsked(w: World, es: seq<Event>, n: nat, j: nat)
    requires Sound(w) && n <= |es| && j < |w.closures| && forall i: nat :: i < n ==> !Asks(w, es, i, j)
    ensures Run(w, es[..n]).closures[j] == w.closures[j]
  {
    if n > 0 {
      NotAsked(w, es, n - 1, j);
      Untouched(w, es, n - 1, j);
    }
  }

  /** From the first call on a closure keeps the outcome of that call. */
  lemma {:induction false} Remembered(w: World, es: seq<Event>, k: nat, n: nat, j: nat)
    requires Sound(w) && j < |w.closures| && w.closures[j].outcome.None? && FirstAsk(w, es, k, j) && k < n <= |es|
    ensures var at, f := Run(w, es[..k]), w.closures[j];
      Run(w, es[..n]).closures[j] ==
        f.(outcome := Some(Recall(at, j)), fetches := f.fetches + if at.muts[f.owner].done then 0 else 1)
  {
    Untouched(w, es, n - 1, j);
    if n == k + 1 {
      NotAsked(w, es, k, j);
    } else {
      Remembered(w, es, k, n - 1, j);
    }
  }

  /** Over any interleaving of calls for old values on any mutations, changes of the store, saves, setters, edits of
      entities and hooks that hand mutations down: everything a closure answers, through whichever mutation, comes
      from one snapshot: the stored entity at the first call, fetched once, or, when the mutation it was made for
      was saved by then, one error without a fetch. */
  lemma OneSnapshot(w: World, es: seq<Event>, k: nat, n: nat, j: nat)
    requires Sound(w) && j < |w.closures| && w.closures[j].outcome.None? && FirstAsk(w, es, k, j) && Asks(w, es, n, j)
    ensures var at, f := Run(w, es[..k]), w.closures[j];
      && k <= n
      && Answer(Run(w, es[..n]), es[n].m, es[n].c) ==
        Column(if at.muts[f.owner].done then Err(PostMutation) else Get(at.store, f.id), es[n].c)
      && FromFetch(Answer(Run(w, es[..n]), es[n].m, es[n].c), at.muts[f.owner].done, at.store, f.id, es[n].c)
      && Run(w, es).closures[j].fetches == f.fetches + if at.muts[f.owner].done then 0 else 1
  {
    NotAsked(w, es, k, j);
    assert es[..|es|] == es;
    hide Run, Next;
    Remembered(w, es, k, |es|, j);
    if n != k {
      Remembered(w, es, k, n, j);
    }
  }

  /** A mutation that is saved and not overwritten stays saved. */
  lemma {:induction false} DoneStays(w: World, es: seq<Event>, m: nat, k: nat, n: nat)
    requires Sound(w) && m < |w.muts| && k <= n <= |es| && Run(w, es[..k]).muts[m].done
    requires forall i :: k <= i < n ==> es[i].Overwrite? ==> es[i].m != m
    ensures Run(w, es[..n]).muts[m].done
  {
    hide Next;
    if k < n {
      DoneStays(w, es, m, k, n - 1);
      assert es[..n][..n-1] == es[..n-1];
      DoneStep(Run(w, es[..n-1]), es[n-1], m);
    }
  }

  lemma DoneStep(w: World, e: Event, m: nat)
    requires Sound(w) && m < |w.muts| && w.muts[m].done && (e.Overwrite? ==> e.m != m)
    ensures Next(w, e).muts[m].done
  {
  }

  /** If a closure was not asked before the mutation it was made for was saved, every later call fails and nothing is
      ever fetched, unless that mutation is overwritten. */
  lemma AskedTooLate(w: World, es: seq<Event>, saved: nat, n: nat, j: nat)
    requires Sound(w) && j < |w.closures| && w.closures[j].outcome.None?
    requires saved < |es| && es[saved] == Save(w.closures[j].owner, true)
    requires (forall i: nat :: i < saved ==> !Asks(w, es, i, j)) && Asks(w, es, n, j)
    requires forall i :: saved < i < |es| ==> es[i].Overwrite? ==> es[i].m != w.closures[j].owner
    ensures Answer(Run(w, es[..n]), es[n].m, es[n].c) == Err(PostMutation)
    ensures Run(w, es).closures[j].fetches == w.closures[j].fetches
  {
    hide Answer, Allowed;
    var owner := w.closures[j].owner;
    assert es[..saved+1][..saved] == es[..saved];
    assert Run(w, es[..saved+1]).muts[owner].done;
    assert !Asks(w, es, saved, j);
    hide Next, Run;
    var k := FindFirst(w, es, n, j);
    DoneStays(w, es, owner, saved + 1, k);
    OneSnapshot(w, es, k, n, j);
  }

  lemma {:induction false} FindFirst(w: World, es: seq<Event>, n: nat, j: nat) returns (k: nat)
    requires Sound(w) && Asks(w, es, n, j)
    ensures k <= n && FirstAsk(w, es, k, j)
  {
    if exists i: nat :: i < n && Asks(w, es, i, j) {
      var i: nat :| i < n && Asks(w, es, i, j);
      k := FindFirst(w, es, i, j);
    } else {
      k := n;
    }
  }

  // ----- Entities that callers hold -----

  /** An entity as its caller last left it. */
  function LastEdit(row: Row, es: seq<Event>, r: nat): Row {
    if es == [] then row
    else if es[|es|-1].Edit? && es[|es|-1].role == r then es[|es|-1].row
    else LastEdit(row, es[..|es|-1], r)
  }

  /** That is what the last edit of it says, if there was one. */
  lemma {:induction false} LastEditIs(row: Row, es: seq<Event>, r: nat, i: nat)
    requires i <= |es| && forall j :: i <= j < |es| ==> es[j].Edit? ==> es[j].role != r
    requires i > 0 ==> es[i-1].Edit? && es[i-1].role == r
    ensures LastEdit(row, es, r) == if i > 0 then es[i-1].row else row
  {
    if i < |es| {
      LastEditIs(row, es[..|es|-1], r, i);
    }
  }

  /** A mutation made for an entity its caller holds answers every call, before and after the save, from that entity
      as the caller last left it, and without a fetch. */
  lemma {:induction false} GivenAnswers(w: World, es: seq<Event>, n: nat, m: nat)
    requires Sound(w) && m < |w.muts| && w.muts[m].source.Given? && n <= |es|
    requires forall i :: 0 <= i < n ==> es[i].Overwrite? ==> es[i].m != m
    ensures var at, r := Run(w, es[..n]), w.muts[m].source.role;
      && at.muts[m].source == Given(r) && at.roles[r] == LastEdit(w.roles[r], es[..n], r)
      && (n < |es| && es[n].Old? && es[n].m == m ==>
           && Next(at, es[n]) == at
           && (Allowed(at.muts[m]) ==> FromRow(Answer(at, m, es[n].c), LastEdit(w.roles[r], es[..n], r), es[n].c)))
  {
    if n > 0 {
      GivenAnswers(w, es, n - 1, m);
      assert es[..n][..n-1] == es[..n-1];
    }
  }

  // ----- A hook that hands another mutation down -----

  /** The closure looks at the mutation it was made for. When a hook handed another mutation down, the save
      marks only the builder's own mutation as done, and a first call after the save is answered with the
      new stored value instead of an error. */
  method HookHandsDownAnother(x: Id, c: Col, after: Store) returns (r: Result<Value, Error>)
    ensures FromFetch(r, false, after, x, c)
  {
    var mine := new RoleMutation.WithID(x);
    var other := new RoleMutation.WithID(x);
    mine.CopyFrom(other);
    mine.done := true;
    r := mine.OldField(c, after);
  }

  /** The first call on a mutation that was saved fails iff the closure belongs to the saved mutation or the
      mutation it belongs to was saved as well. */
  method FirstCallAfterSave(m: RoleMutation, c: Col, store: Store) returns (r: Result<Value, Error>)
    requires m.done && m.op == UpdateOne && !m.id.Nil? && m.given == null && m.memo != null && m.memo.outcome == None
    requires Get(store, m.memo.id).Ok?
    modifies m.memo
    ensures r == Err(PostMutation) <==> m.memo.owner == m || m.memo.owner.done
    ensures FromFetch(r, m.memo.owner == m || m.memo.owner.done, store, m.memo.id, c)
  {
    r := m.OldField(c, store);
  }
}
