/** Drivers, transactions and the clients that share them, as a state machine over runs: what reaches the
    database, and when. */
module Transactions {
  import opened Schema
  import Hooks = CompletionHooks

  type Statement = string

  /** What a client sends its statements through. */
  datatype Driver = Base | InTx(t: nat) | Debug(inner: Driver)

  /** What a driver's Tx call returns: a connection with a transaction open on it, or a transactional driver
      itself. */
  datatype Handle = Conn(n: nat) | Nested(t: nat)

  /** A transactional driver: the driver it was started from, and the transaction it sends everything to. */
  datatype TxDriver = TxDriver(drv: Driver, tx: Handle)

  datatype Status = Active | Committed | RolledBack

  datatype Connection = Connection(log: seq<Statement>, status: Status)

  datatype Client = Client(driver: Driver, debug: bool)

  /** A statement that took effect, and the connection it was committed on, if any. */
  datatype Entry = Entry(via: Option<nat>, statement: Statement)

  datatype World = World(base: seq<Entry>, conns: seq<Connection>, txs: seq<TxDriver>, clients: seq<Client>,
      handles: seq<Handle>)

  datatype Error = TxStarted | TxDone | NotTransactional | Failed | ByHook

  type Reply = Result<(), Error>

  // ----- Drivers -----

  predicate KnownHandle(w: World, h: Handle) {
    match h
    case Conn(n) => n < |w.conns|
    case Nested(t) => t < |w.txs|
  }

  predicate Known(w: World, d: Driver) {
    match d
    case Base => true
    case InTx(t) => t < |w.txs|
    case Debug(inner) => Known(w, inner)
  }

  /** The transaction a driver is in, looking through debug wrappers. */
  function TxIn(d: Driver): Option<nat> {
    match d
    case Base => None
    case InTx(t) => Some(t)
    case Debug(inner) => TxIn(inner)
  }

  /** Transactional drivers refer to earlier ones only, and send to what the Tx call of their driver
      returned. */
  ghost predicate Ordered(w: World) {
    forall t :: 0 <= t < |w.txs| ==>
      var x := w.txs[t];
      && (x.tx.Conn? ==> x.tx.n < |w.conns|)
      && (x.tx.Nested? ==> x.tx.t < t)
      && (match TxIn(x.drv) case Some(u) => u < t && x.tx == Nested(u) case None => x.tx.Conn?)
  }

  /** The connection a handle reaches: a transactional driver passes everything to its own transaction. */
  function Reaches(w: World, h: Handle): (n: nat)
    requires Ordered(w) && KnownHandle(w, h)
    ensures n < |w.conns|
    decreases if h.Conn? then 0 else h.t + 1
  {
    match h
    case Conn(n) => n
    case Nested(t) => Reaches(w, w.txs[t].tx)
  }

  /** Exec on a transaction; a transaction that is over refuses. */
  function ExecOn(w: World, h: Handle, s: Statement): (World, Reply)
    requires Ordered(w) && KnownHandle(w, h)
    decreases if h.Conn? then 0 else h.t + 1
  {
    match h
    case Conn(n) =>
      var c := w.conns[n];
      if c.status != Active then (w, Err(TxDone))
      else (w.(conns := w.conns[n := c.(log := c.log + [s])]), Ok(()))
    case Nested(t) => ExecOn(w, w.txs[t].tx, s)
  }

  /** Exec on a driver; outside a transaction a statement takes effect at once. */
  function Exec(w: World, d: Driver, s: Statement): (World, Reply)
    requires Ordered(w) && Known(w, d)
  {
    match d
    case Base => (w.(base := w.base + [Entry(None, s)]), Ok(()))
    case InTx(t) => ExecOn(w, w.txs[t].tx, s)
    case Debug(inner) => Exec(w, inner, s)
  }

  /** Tx on a driver: the database opens a connection, a transactional driver returns itself. */
  function Begin(w: World, d: Driver): (World, Handle)
    requires Known(w, d)
  {
    match d
    case Base => (w.(conns := w.conns + [Connection([], Active)]), Conn(|w.conns|))
    case InTx(t) => (w, Nested(t))
    case Debug(inner) => Begin(w, inner)
  }

  function Entries(n: nat, log: seq<Statement>): (es: seq<Entry>)
    ensures |es| == |log| && forall i :: 0 <= i < |log| ==> es[i] == Entry(Some(n), log[i])
  {
    seq(|log|, i requires 0 <= i < |log| => Entry(Some(n), log[i]))
  }

  /** Commit of a handle: a transactional driver does nothing; a connection publishes its log unless the
      database fails. */
  function CommitOn(w: World, h: Handle, works: bool): (World, Reply)
    requires KnownHandle(w, h)
  {
    match h
    case Nested(_) => (w, Ok(()))
    case Conn(n) =>
      var c := w.conns[n];
      if c.status != Active then (w, Err(TxDone))
      else if !works then (w.(conns := w.conns[n := c.(status := RolledBack)]), Err(Failed))
      else (w.(conns := w.conns[n := c.(status := Committed)], base := w.base + Entries(n, c.log)), Ok(()))
  }

  function RollbackOn(w: World, h: Handle): (World, Reply)
    requires KnownHandle(w, h)
  {
    match h
    case Nested(_) => (w, Ok(()))
    case Conn(n) =>
      var c := w.conns[n];
      if c.status != Active then (w, Err(TxDone))
      else (w.(conns := w.conns[n := c.(status := RolledBack)]), Ok(()))
  }

  /** The two ways to end a transaction. */
  datatype Ending = Committing(works: bool) | RollingBack

  function EndOn(w: World, h: Handle, e: Ending): (World, Reply)
    requires KnownHandle(w, h)
  {
    match e
    case Committing(works) => CommitOn(w, h, works)
    case RollingBack => RollbackOn(w, h)
  }

  lemma StillKnown(w: World, h: Handle, e: Ending)
    requires KnownHandle(w, h)
    ensures KnownHandle(EndOn(w, h, e).0, h)
  {
  }

  /** End a transaction through the hooks of its user, which act as the run says. */
  function EndThrough(w: World, h: Handle, e: Ending, run: Hooks.Run): (r: (World, Reply))
    requires KnownHandle(w, h)
    ensures KnownHandle(r.0, h)
    decreases run
  {
    match run
    case Reach => StillKnown(w, h, e); EndOn(w, h, e)
    case Call(_, calls, reply) =>
      var (v, last) := EndAll(w, h, e, calls, Ok(()));
      (v, if reply.None? then last else if reply.value then Ok(()) else Err(ByHook))
  }

  function EndAll(w: World, h: Handle, e: Ending, runs: seq<Hooks.Run>, last: Reply): (r: (World, Reply))
    requires KnownHandle(w, h)
    ensures KnownHandle(r.0, h)
    decreases runs
  {
    if runs == [] then (w, last)
    else var (v, r) := EndThrough(w, h, e, runs[0]); EndAll(v, h, e, runs[1..], r)
  }

  // ----- Steps -----

  /** Something done with one of the clients, transactions or handles at hand. A client stands for
      everything that carries its configuration: entity clients, builders, mutations, entities. */
  datatype Event =
    | StartTx(c: nat)                          // Client.Tx
    | Derive(c: nat)                           // anything made from a client
    | DebugClient(c: nat)                      // Client.Debug
    | Unwrap(c: nat)                           // Unwrap of an entity
    | Run(c: nat, s: Statement)                // a builder's statement
    | InnerTx(c: nat)                          // a builder's driver.Tx
    | InnerExec(h: nat, s: Statement)
    | InnerCommit(h: nat, works: bool)
    | InnerRollback(h: nat)
    | Commit(t: nat, run: Hooks.Run, works: bool)  // Tx.Commit by the user, through the registered hooks
    | Rollback(t: nat, run: Hooks.Run)             // Tx.Rollback by the user, through the registered hooks

  predicate Possible(w: World, e: Event) {
    match e
    case StartTx(c) => c < |w.clients|
    case Derive(c) => c < |w.clients|
    case DebugClient(c) => c < |w.clients|
    case Unwrap(c) => c < |w.clients|
    case Run(c, _) => c < |w.clients|
    case InnerTx(c) => c < |w.clients|
    case InnerExec(h, _) => h < |w.handles|
    case InnerCommit(h, _) => h < |w.handles|
    case InnerRollback(h) => h < |w.handles|
    case Commit(t, _, _) => t < |w.txs|
    case Rollback(t, _) => t < |w.txs|
  }

  ghost predicate Sound(w: World) {
    && Ordered(w)
    && (forall c :: 0 <= c < |w.clients| ==> Known(w, w.clients[c].driver))
    && (forall h :: 0 <= h < |w.handles| ==> KnownHandle(w, w.handles[h]))
  }

  function Step(w: World, e: Event): (World, Reply)
    requires Sound(w) && Possible(w, e)
  {
    match e
    case StartTx(c) =>
      var d := w.clients[c].driver;
      if d.InTx? then (w, Err(TxStarted))
      else
        var (v, h) := Begin(w, d);
        (v.(txs := v.txs + [TxDriver(d, h)], clients := v.clients + [Client(InTx(|v.txs|), w.clients[c].debug)]),
          Ok(()))
    case Derive(c) => (w.(clients := w.clients + [w.clients[c]]), Ok(()))
    case DebugClient(c) =>
      var cl := w.clients[c];
      (w.(clients := w.clients + [if cl.debug then cl else cl.(driver := Debug(cl.driver))]), Ok(()))
    case Unwrap(c) =>
      var cl := w.clients[c];
      if !cl.driver.InTx? then (w, Err(NotTransactional))
      else (w.(clients := w.clients[c := cl.(driver := w.txs[cl.driver.t].drv)]), Ok(()))
    case Run(c, s) => Exec(w, w.clients[c].driver, s)
    case InnerTx(c) => var (v, h) := Begin(w, w.clients[c].driver); (v.(handles := v.handles + [h]), Ok(()))
    case InnerExec(h, s) => ExecOn(w, w.handles[h], s)
    case InnerCommit(h, works) => CommitOn(w, w.handles[h], works)
    case InnerRollback(h) => RollbackOn(w, w.handles[h])
    case Commit(t, run, works) => EndThrough(w, w.txs[t].tx, Committing(works), run)
    case Rollback(t, run) => EndThrough(w, w.txs[t].tx, RollingBack, run)
  }

  lemma {:induction false} KnownIff(w: World, d: Driver)
    ensures Known(w, d) <==> (TxIn(d).Some? ==> TxIn(d).value < |w.txs|)
  {
    if d.Debug? {
      KnownIff(w, d.inner);
    }
  }

  lemma {:induction false} ExecKeeps(w: World, d: Driver, s: Statement)
    requires Ordered(w) && Known(w, d)
    ensures var v := Exec(w, d, s).0;
      v.txs == w.txs && v.clients == w.clients && v.handles == w.handles && |v.conns| == |w.conns|
  {
    match d
    case Base =>
    case InTx(t) => ExecOnIs(w, w.txs[t].tx, s);
    case Debug(inner) => ExecKeeps(w, inner, s);
  }

  /** Other events neither start transactions nor hand out handles, and few make clients. */
  lemma OthersStay(w: World, e: Event)
    requires Sound(w) && !e.StartTx? && !e.InnerTx?
    ensures Next(w, e).txs == w.txs && Next(w, e).handles == w.handles && |Next(w, e).conns| == |w.conns|
    ensures !e.Derive? && !e.DebugClient? && !e.Unwrap? ==> Next(w, e).clients == w.clients
  {
    hide Reaches, ExecOn, Exec, Begin, Known, EndThrough, EndAll;
    if Possible(w, e) {
      match e {
        case Run(c, s) => ExecKeeps(w, w.clients[c].driver, s);
        case InnerExec(h, s) => ExecOnIs(w, w.handles[h], s);
        case Commit(t, run, works) => EndThroughIs(w, w.txs[t].tx, Committing(works), run);
        case Rollback(t, run) => EndThroughIs(w, w.txs[t].tx, RollingBack, run);
        case _ =>
      }
    }
  }

  lemma SoundStep(w: World, e: Event)
    requires Sound(w)
    ensures Sound(Next(w, e))
  {
    hide Begin, Exec, ExecOn, EndThrough, EndAll, EndOn, CommitOn, RollbackOn;
    if Possible(w, e) {
      var v := Step(w, e).0;
      if e.StartTx? || e.InnerTx? {
        BeginIs(w, w.clients[e.c].driver);
      } else {
        OthersStay(w, e);
      }
      assert |w.txs| <= |v.txs| && |w.conns| <= |v.conns|;
      forall c | 0 <= c < |v.clients| ensures Known(v, v.clients[c].driver) {
        KnownIff(v, v.clients[c].driver);
        if c < |w.clients| {
          KnownIff(w, w.clients[c].driver);
        }
        if e.StartTx? || e.Derive? || e.DebugClient? || e.Unwrap? {
          KnownIff(w, w.clients[e.c].driver);
        }
      }
    }
  }

  /** The world after an event; an event about something that is not there changes nothing. */
  function Next(w: World, e: Event): World
    requires Sound(w)
  {
    if Possible(w, e) then Step(w, e).0 else w
  }

  function Play(w: World, es: seq<Event>): (v: World)
    requires Sound(w)
    ensures Sound(v)
  {
    if es == [] then w
    else
      var before := Play(w, es[..|es|-1]);
      SoundStep(before, es[|es|-1]);
      Next(before, es[|es|-1])
  }

  /** A client on the database, with or without debug logging. */
  function Start(debug: bool): (w: World)
    ensures Sound(w)
  {
    World([], [], [], [Client(if debug then Debug(Base) else Base, debug)], [])
  }

  // ----- What a step does -----

  lemma {:induction false} BeginIs(w: World, d: Driver)
    requires Ordered(w) && Known(w, d)
    ensures Begin(w, d) == match TxIn(d)
      case Some(t) => (w, Nested(t))
      case None => (w.(conns := w.conns + [Connection([], Active)]), Conn(|w.conns|))
    ensures TxIn(d).Some? ==> TxIn(d).value < |w.txs|
  {
    if d.Debug? {
      BeginIs(w, d.inner);
    }
  }

  /** A statement through any chain of transactional drivers lands in the log of the connection it reaches. */
  lemma {:induction false} ExecOnIs(w: World, h: Handle, s: Statement)
    requires Ordered(w) && KnownHandle(w, h)
    ensures var n := Reaches(w, h);
      var c := w.conns[n];
      ExecOn(w, h, s) == if c.status == Active then (w.(conns := w.conns[n := c.(log := c.log + [s])]), Ok(()))
        else (w, Err(TxDone))
    decreases if h.Conn? then 0 else h.t + 1
  {
    if h.Nested? {
      ExecOnIs(w, w.txs[h.t].tx, s);
    }
  }

  lemma {:induction false} ExecIs(w: World, d: Driver, s: Statement)
    requires Ordered(w) && Known(w, d)
    ensures TxIn(d).Some? ==> TxIn(d).value < |w.txs|
    ensures Exec(w, d, s) == match TxIn(d)
      case Some(t) => ExecOn(w, Nested(t), s)
      case None => (w.(base := w.base + [Entry(None, s)]), Ok(()))
  {
    if d.Debug? {
      ExecIs(w, d.inner, s);
    }
  }

  /** Hooks that let a call through end the transaction as a call without hooks would, however often and with whatever
      reply; hooks that refuse leave everything as it is. */
  lemma {:induction false} EndThroughIs(w: World, h: Handle, e: Ending, run: Hooks.Run)
    requires KnownHandle(w, h)
    ensures EndThrough(w, h, e, run).0 == if Hooks.Refused(run) then w else EndOn(w, h, e).0
    decreases run
  {
    if run.Call? {
      EndAllIs(w, h, e, run.calls, Ok(()));
    }
  }

  lemma {:induction false} EndAllIs(w: World, h: Handle, e: Ending, runs: seq<Hooks.Run>, last: Reply)
    requires KnownHandle(w, h)
    ensures EndAll(w, h, e, runs, last).0 == if Hooks.ReachesAll(runs) == 0 then w else EndOn(w, h, e).0
    decreases runs
  {
    if runs != [] {
      EndThroughIs(w, h, e, runs[0]);
      var (v, r) := EndThrough(w, h, e, runs[0]);
      EndAllIs(v, h, e, runs[1..], r);
      EndsOnce(w, h, e);
    }
  }

  /** Ending a transaction that has ended changes nothing. */
  lemma EndsOnce(w: World, h: Handle, e: Ending)
    requires KnownHandle(w, h)
    ensures var v := EndOn(w, h, e).0; KnownHandle(v, h) && EndOn(v, h, e).0 == v
  {
  }

  /** The connection the statement of an event goes to. */
  function Target(w: World, e: Event): (n: Option<nat>)
    requires Sound(w) && Possible(w, e)
    ensures n.Some? ==> n.value < |w.conns|
  {
    match e
    case Run(c, _) =>
      KnownIff(w, w.clients[c].driver);
      if TxIn(w.clients[c].driver).Some? then Some(Reaches(w, Nested(TxIn(w.clients[c].driver).value))) else None
    case InnerExec(h, _) => Some(Reaches(w, w.handles[h]))
    case _ => None
  }

  /** The connection an event closes by committing or rolling back. */
  function Closes(w: World, e: Event): (n: Option<nat>)
    requires Sound(w) && Possible(w, e)
    ensures n.Some? ==> n.value < |w.conns| && w.conns[n.value].status == Active
  {
    var h := match e
      case InnerCommit(h, _) => w.handles[h]
      case InnerRollback(h) => w.handles[h]
      case Commit(t, run, _) => if Hooks.Refused(run) then Nested(0) else w.txs[t].tx
      case Rollback(t, run) => if Hooks.Refused(run) then Nested(0) else w.txs[t].tx
      case _ => Nested(0);
    if h.Conn? && w.conns[h.n].status == Active then Some(h.n) else None
  }

  predicate Works(e: Event) {
    match e
    case InnerCommit(_, works) => works
    case Commit(_, _, works) => works
    case _ => false
  }

  /** What an event does to the connections and to the database, with no driver left in it: a statement
      outside a transaction takes effect at once, one inside is logged while its connection is active, and
      only a commit that reaches a connection publishes anything: the whole log, in order. */
  lemma StepIs(w: World, e: Event)
    requires Sound(w) && Possible(w, e)
    ensures var v := Next(w, e);
      var target, closes := Target(w, e), Closes(w, e);
      && |v.conns| >= |w.conns| && (target.None? || closes.None?)
      && (forall n :: 0 <= n < |w.conns| ==>
           v.conns[n] ==
             if target == Some(n) && w.conns[n].status == Active then w.conns[n].(log := w.conns[n].log + [e.s])
             else if closes == Some(n) then w.conns[n].(status := if Works(e) then Committed else RolledBack)
             else w.conns[n])
      && (forall n :: |w.conns| <= n < |v.conns| ==> v.conns[n] == Connection([], Active))
      && v.base == w.base + (if closes.Some? && Works(e) then Entries(closes.value, w.conns[closes.value].log)
                             else if e.Run? && target.None? then [Entry(None, e.s)] else [])
  {
    assert w.base + [] == w.base;
    match e {
      case StartTx(c) => BeginIs(w, w.clients[c].driver);
      case InnerTx(c) => BeginIs(w, w.clients[c].driver);
      case Run(c, s) =>
        ExecIs(w, w.clients[c].driver, s);
        if TxIn(w.clients[c].driver).Some? {
          ExecOnIs(w, Nested(TxIn(w.clients[c].driver).value), s);
        }
      case InnerExec(h, s) => ExecOnIs(w, w.handles[h], s);
      case Commit(t, run, works) => EndThroughIs(w, w.txs[t].tx, Committing(works), run);
      case Rollback(t, run) => EndThroughIs(w, w.txs[t].tx, RollingBack, run);
      case _ =>
    }
  }

  // ----- Atomicity over whole runs -----

  /** The statements in effect that were committed on connection n. */
  function Via(base: seq<Entry>, n: nat): seq<Statement> {
    if base == [] then []
    else
      var last := base[|base|-1];
      Via(base[..|base|-1], n) + if last.via == Some(n) then [last.statement] else []
  }

  lemma {:induction false} ViaConcat(a: seq<Entry>, b: seq<Entry>, n: nat)
    ensures Via(a + b, n) == Via(a, n) + Via(b, n)
  {
    if b == [] {
      assert a + b == a;
    } else {
      assert (a + b)[..|a+b|-1] == a + b[..|b|-1];
      ViaConcat(a, b[..|b|-1], n);
    }
  }

  lemma {:induction false} ViaEntries(m: nat, log: seq<Statement>, n: nat)
    ensures Via(Entries(m, log), n) == if m == n then log else []
  {
    if log != [] {
      assert Entries(m, log)[..|log|-1] == Entries(m, log[..|log|-1]);
      ViaEntries(m, log[..|log|-1], n);
      assert log == log[..|log|-1] + [log[|log|-1]];
    }
  }

  lemma ViaSmall(n: nat, s: Statement)
    ensures Via([], n) == [] && Via([Entry(None, s)], n) == []
  {
  }

  /** What the database holds of a connection: its whole log once it was committed, nothing before and
      nothing otherwise. */
  ghost predicate Atomic(w: World) {
    && (forall n: nat :: n < |w.conns| ==>
      Via(w.base, n) == if w.conns[n].status == Committed then w.conns[n].log else [])
    && (forall n: nat :: n >= |w.conns| ==> Via(w.base, n) == [])
  }

  lemma AtomicStep(w: World, e: Event)
    requires Sound(w) && Atomic(w)
    ensures Atomic(Next(w, e))
  {
    hide Via, Sound, Next, Step, Target, Closes, Works, Reaches;
    if Possible(w, e) {
      StepIs(w, e);
      var v := Next(w, e);
      var closes := Closes(w, e);
      var added := if closes.Some? && Works(e) then Entries(closes.value, w.conns[closes.value].log)
                 else if e.Run? && Target(w, e).None? then [Entry(None, e.s)] else [];
      forall n: nat ensures Via(v.base, n) ==
        Via(w.base, n) + if closes == Some(n) && Works(e) then w.conns[n].log else [] {
        ViaConcat(w.base, added, n);
        ViaSmall(n, if e.Run? then e.s else "");
        if closes.Some? && Works(e) {
          ViaEntries(closes.value, w.conns[closes.value].log, n);
        }
      }
    } else {
      Ignored(w, e);
    }
  }

  /** The statement an event adds to connection n. */
  function Wrote(w: World, e: Event, n: nat): seq<Statement>
    requires Sound(w)
  {
    if n < |w.conns| && Possible(w, e) && Target(w, e) == Some(n) && w.conns[n].status == Active then [e.s] else []
  }

  lemma LogStep(w: World, e: Event, n: nat)
    requires Sound(w)
    ensures var v := Next(w, e);
      && |w.conns| <= |v.conns|
      && (n < |w.conns| ==> v.conns[n].log == w.conns[n].log + Wrote(w, e, n))
      && (|w.conns| <= n < |v.conns| ==> v.conns[n].log == [])
      && (n >= |w.conns| ==> Wrote(w, e, n) == [])
  {
    hide Sound, Next, Step, Target, Closes, Works, Reaches;
    if Possible(w, e) {
      StepIs(w, e);
    } else {
      Ignored(w, e);
    }
  }

  lemma Ignored(w: World, e: Event)
    requires Sound(w) && !Possible(w, e)
    ensures Next(w, e) == w
  {
  }

  /** All statements sent to connection n while it was active, in order. */
  function WroteAll(w: World, es: seq<Event>, n: nat): seq<Statement>
    requires Sound(w)
  {
    if es == [] then []
    else var before := es[..|es|-1]; WroteAll(w, before, n) + Wrote(Play(w, before), es[|es|-1], n)
  }

  /** In every run from a fresh client, whatever the interleaving of clients, transactions, builders and
      debug wrappers: the database holds exactly the statements sent through each committed connection while
      it was active, in order, and nothing of any other. */
  lemma {:induction false} Atomicity(debug: bool, es: seq<Event>, n: nat)
    ensures var w := Play(Start(debug), es);
      && Atomic(w)
      && (n < |w.conns| ==> w.conns[n].log == WroteAll(Start(debug), es, n))
      && (n >= |w.conns| ==> WroteAll(Start(debug), es, n) == [])
  {
    if es != [] {
      hide Atomic, Sound, Next, Step, Wrote, Possible;
      var before, e := es[..|es|-1], es[|es|-1];
      Atomicity(debug, before, n);
      var w := Play(Start(debug), before);
      AtomicStep(w, e);
      LogStep(w, e, n);
    }
  }

  // ----- The transaction of a user -----

  /** No two transactions share a connection, and no builder holds the connection of a transaction. */
  ghost predicate Owned(w: World) {
    && (forall s, t :: 0 <= s < t < |w.txs| && w.txs[s].tx.Conn? ==> w.txs[s].tx != w.txs[t].tx)
    && (forall t, h :: 0 <= t < |w.txs| && 0 <= h < |w.handles| && w.txs[t].tx.Conn? ==> w.txs[t].tx != w.handles[h])
  }

  /** A transaction keeps its driver and its connection for good. */
  ghost predicate Grows(w: World, v: World) {
    |w.txs| <= |v.txs| && v.txs[..|w.txs|] == w.txs && |w.conns| <= |v.conns|
  }

  lemma OwnedStep(w: World, e: Event)
    requires Sound(w) && Owned(w)
    ensures Owned(Next(w, e)) && Grows(w, Next(w, e))
  {
    hide Reaches, ExecOn, Exec, Begin, Known, EndThrough, EndAll, EndOn;
    if !e.StartTx? && !e.InnerTx? {
      OthersStay(w, e);
    } else if Possible(w, e) {
      BeginIs(w, w.clients[e.c].driver);
    }
  }

  /** A Commit or Rollback of t by its user that the hooks let through to the transaction. */
  predicate Ends(e: Event, t: nat) {
    (e.Commit? || e.Rollback?) && e.t == t && !Hooks.Refused(e.run)
  }

  /** A Commit of t that reaches the transaction and works there, whatever the hooks reply. */
  predicate Commits(e: Event, t: nat) {
    Ends(e, t) && e.Commit? && e.works
  }

  /** Only a Commit or Rollback by the user that the hooks let through ends a transaction; a refused one does
      not, and what builders do with what they were given does not. */
  lemma OnlyTheUserEnds(w: World, e: Event, t: nat)
    requires Sound(w) && Owned(w) && t < |w.txs| && w.txs[t].tx.Conn?
    ensures var n, v := w.txs[t].tx.n, Next(w, e);
      && n < |v.conns|
      && v.conns[n].status == (if w.conns[n].status == Active && Commits(e, t) then Committed
                               else if w.conns[n].status == Active && Ends(e, t) then RolledBack else w.conns[n].status)
  {
    if Possible(w, e) {
      StepIs(w, e);
    }
  }

  lemma {:induction false} RunKeeps(w: World, es: seq<Event>)
    requires Sound(w) && Owned(w)
    ensures Owned(Play(w, es)) && Grows(w, Play(w, es))
  {
    if es != [] {
      RunKeeps(w, es[..|es|-1]);
      var v := Play(w, es[..|es|-1]);
      OwnedStep(v, es[|es|-1]);
      var u := Next(v, es[|es|-1]);
      assert u.txs[..|w.txs|] == u.txs[..|v.txs|][..|w.txs|];
    }
  }

  /** The status of a transaction after a run depends on the first Commit or Rollback of it by the user that
      the hooks let through, if there was one. */
  lemma {:induction false} StatusAfter(w: World, es: seq<Event>, t: nat, k: nat)
    requires Sound(w) && Owned(w) && t < |w.txs| && w.txs[t].tx.Conn? && w.conns[w.txs[t].tx.n].status == Active
    requires k <= |es| && (forall j :: 0 <= j < k ==> !Ends(es[j], t)) && (k < |es| ==> Ends(es[k], t))
    ensures var v := Play(w, es);
      var n := w.txs[t].tx.n;
      && n < |v.conns|
      && v.conns[n].status == if k == |es| then Active else if Commits(es[k], t) then Committed else RolledBack
  {
    if es != [] {
      var before := es[..|es|-1];
      StatusAfter(w, before, t, if k == |es| then k - 1 else k);
      RunKeeps(w, before);
      var v := Play(w, before);
      assert v.txs[t] == v.txs[..|w.txs|][t];
      OnlyTheUserEnds(v, es[|es|-1], t);
    }
  }

  /** Atomicity of the connection of a transaction. In a run in which transaction t was active after the events
      `opening`, whatever else goes on: the database holds nothing of it unless,
        of the user's Commits and Rollbacks of it
      that the hooks let through, the first is a Commit that works. Then it holds every statement that was
      sent to its connection up to that Commit, in order, those sent after a refused Commit included. */
  lemma LogAtomicity(debug: bool, opening: seq<Event>, rest: seq<Event>, t: nat, k: nat)
    requires var w := Play(Start(debug), opening);
      t < |w.txs| && w.txs[t].tx.Conn? && w.txs[t].tx.n < |w.conns| && w.conns[w.txs[t].tx.n].status == Active
    requires k <= |rest| && (forall j :: 0 <= j < k ==> !Ends(rest[j], t)) && (k < |rest| ==> Ends(rest[k], t))
    ensures var n := Play(Start(debug), opening).txs[t].tx.n;
      Via(Play(Start(debug), opening + rest).base, n) ==
        if k < |rest| && Commits(rest[k], t) then WroteAll(Start(debug), opening + rest[..k], n) else []
  {
    var w := Play(Start(debug), opening);
    var n := w.txs[t].tx.n;
    RunKeeps(Start(debug), opening);
    PlayConcat(Start(debug), opening, rest);
    StatusAfter(w, rest, t, k);
    Atomicity(debug, opening + rest, n);
    if k < |rest| && Commits(rest[k], t) {
      WrittenUntil(Start(debug), opening, rest, t, k);
    }
  }

  lemma {:induction false} PlayConcat(w: World, a: seq<Event>, b: seq<Event>)
    requires Sound(w)
    ensures Play(w, a + b) == Play(Play(w, a), b)
  {
    if b == [] {
      assert a + b == a;
    } else {
      assert (a + b)[..|a+b|-1] == a + b[..|b|-1];
      PlayConcat(w, a, b[..|b|-1]);
    }
  }

  /** Once a transaction ended, statements sent through it are refused. */
  lemma {:induction false} WrittenUntil(start: World, opening: seq<Event>, rest: seq<Event>, t: nat, k: nat)
    requires Sound(start) && Owned(start)
    requires var w := Play(start, opening);
      t < |w.txs| && w.txs[t].tx.Conn? && w.txs[t].tx.n < |w.conns| && w.conns[w.txs[t].tx.n].status == Active
    requires k < |rest| && (forall j :: 0 <= j < k ==> !Ends(rest[j], t)) && Ends(rest[k], t)
    ensures var n := Play(start, opening).txs[t].tx.n;
      WroteAll(start, opening + rest, n) == WroteAll(start, opening + rest[..k], n)
  {
    var n := Play(start, opening).txs[t].tx.n;
    var before := rest[..|rest|-1];
    WroteSnoc(start, opening, rest, n);
    RunKeeps(start, opening);
    PlayConcat(start, opening, before);
    if k < |rest| - 1 {
      WrittenUntil(start, opening, before, t, k);
      assert before[..k] == rest[..k];
      StatusAfter(Play(start, opening), before, t, k);
    } else {
      assert before == rest[..k] && rest[k] == rest[|rest|-1];
    }
    hide *;
    WritesNothing(Play(start, opening + before), rest[|rest|-1], n);
  }

  lemma WroteSnoc(start: World, opening: seq<Event>, rest: seq<Event>, n: nat)
    requires Sound(start) && rest != []
    ensures var before := rest[..|rest|-1];
      WroteAll(start, opening + rest, n) ==
        WroteAll(start, opening + before, n) + Wrote(Play(start, opening + before), rest[|rest|-1], n)
  {
    hide Sound, Wrote, Play;
    var all, before := opening + rest, rest[..|rest|-1];
    assert all[..|all|-1] == opening + before && all[|all|-1] == rest[|rest|-1];
  }

  lemma WritesNothing(w: World, e: Event, n: nat)
    requires Sound(w) && (e.Commit? || e.Rollback? || (n < |w.conns| && w.conns[n].status != Active))
    ensures Wrote(w, e, n) == []
  {
  }

  // ----- Nesting -----

  /** No transaction was started from a transactional driver itself: the guard of Client.Tx sees to it in
      every run. */
  lemma {:induction false} NeverDirectlyNested(debug: bool, es: seq<Event>, t: nat)
    ensures t < |Play(Start(debug), es).txs| ==> !Play(Start(debug), es).txs[t].drv.InTx?
  {
    if es != [] {
      NeverDirectlyNested(debug, es[..|es|-1], t);
      var w, e := Play(Start(debug), es[..|es|-1]), es[|es|-1];
      TxsAfter(w, e);
    }
  }

  /** Only starting a transaction adds one, and it is started from the driver of the client. */
  lemma TxsAfter(w: World, e: Event)
    requires Sound(w)
    ensures var v := Next(w, e);
      v.txs == w.txs || (Possible(w, e) && e.StartTx? && !w.clients[e.c].driver.InTx? && |v.txs| == |w.txs| + 1
                         && v.txs[..|w.txs|] == w.txs && v.txs[|w.txs|].drv == w.clients[e.c].driver)
  {
    if Possible(w, e) {
      match e {
        case StartTx(c) => BeginIs(w, w.clients[c].driver);
        case InnerTx(c) => BeginIs(w, w.clients[c].driver);
        case Run(c, s) => ExecKeeps(w, w.clients[c].driver, s);
        case InnerExec(h, s) => ExecOnIs(w, w.handles[h], s);
        case Commit(t, run, works) => EndThroughIs(w, w.txs[t].tx, Committing(works), run);
        case Rollback(t, run) => EndThroughIs(w, w.txs[t].tx, RollingBack, run);
        case _ =>
      }
    }
  }

  /** No transaction is started from within another, and whatever is in a transaction has its driver
      unwrapped. */
  ghost predicate Flat(w: World) {
    && (forall t :: 0 <= t < |w.txs| ==> TxIn(w.txs[t].drv).None?)
    && (forall c :: 0 <= c < |w.clients| ==> TxIn(w.clients[c].driver).Some? ==> w.clients[c].driver.InTx?)
  }

  /** An event that wraps the driver of a transaction in debug logging. */
  predicate WrapsTx(w: World, e: Event) {
    e.DebugClient? && e.c < |w.clients| && !w.clients[e.c].debug && TxIn(w.clients[e.c].driver).Some?
  }

  lemma FlatStep(w: World, e: Event)
    requires Sound(w) && Flat(w) && !WrapsTx(w, e)
    ensures Flat(Next(w, e))
  {
    TxsAfter(w, e);
    if Possible(w, e) && e.Run? {
      ExecKeeps(w, w.clients[e.c].driver, e.s);
    } else if Possible(w, e) && e.InnerExec? {
      ExecOnIs(w, w.handles[e.h], e.s);
    } else if Possible(w, e) && (e.StartTx? || e.InnerTx?) {
      BeginIs(w, w.clients[e.c].driver);
    } else if Possible(w, e) && (e.Commit? || e.Rollback?) {
      EndThroughIs(w, w.txs[e.t].tx, if e.Commit? then Committing(e.works) else RollingBack, e.run);
    }
  }

  /** In every run that wraps no transaction in debug logging there is no nesting. */
  lemma {:induction false} NoNesting(debug: bool, es: seq<Event>)
    requires forall k :: 0 <= k < |es| ==> !WrapsTx(Play(Start(debug), es[..k]), es[k])
    ensures Flat(Play(Start(debug), es))
  {
    if es != [] {
      var before := es[..|es|-1];
      forall k | 0 <= k < |before| ensures !WrapsTx(Play(Start(debug), before[..k]), before[k]) {
        assert before[..k] == es[..k];
      }
      NoNesting(debug, before);
      assert es[..|es|-1] == before;
      FlatStep(Play(Start(debug), before), es[|es|-1]);
    }
  }

  /** What that means for the clients at hand: one in a transaction refuses to start another, the
      transaction has a connection of its own, and a single Unwrap leads out of it for good. */
  lemma FlatClients(w: World, c: nat)
    requires Sound(w) && Flat(w) && c < |w.clients| && TxIn(w.clients[c].driver).Some?
    ensures Step(w, StartTx(c)) == (w, Err(TxStarted))
    ensures w.txs[w.clients[c].driver.t].tx.Conn?
    ensures var (v, r) := Step(w, Unwrap(c));
      r.Ok? && TxIn(v.clients[c].driver).None?
  {
    assert w.clients[c].driver.InTx? && w.clients[c].driver.t < |w.txs|;
  }

  /** Starting a transaction nests exactly for clients whose transactional driver is wrapped in debug
      logging. */
  lemma NestsIff(w: World, c: nat)
    requires Sound(w) && c < |w.clients|
    ensures var (v, r) := Step(w, StartTx(c));
      var d := w.clients[c].driver;
      (r.Ok? && v.txs != [] && v.txs[|v.txs|-1].tx.Nested?) <==> d.Debug? && TxIn(d).Some?
  {
    BeginIs(w, w.clients[c].driver);
  }

  /** A transaction, the debug client of its client, and a transaction started from that. */
  const NESTING := World([], [Connection([], Active)], [TxDriver(Base, Conn(0)), TxDriver(Debug(InTx(0)), Nested(0))],
                         [Client(Base, false), Client(InTx(0), false), Client(Debug(InTx(0)), false),
                           Client(InTx(1), false)], [])

  lemma FirstTwo()
    ensures Play(Start(false), [StartTx(0), DebugClient(1)]) ==
      NESTING.(txs := NESTING.txs[..1], clients := NESTING.clients[..3])
  {
    var e1, e2, w0 := StartTx(0), DebugClient(1), Start(false);
    assert [e1][..0] == [] && Play(w0, []) == w0;
    var w1 := Next(w0, e1);
    assert Play(w0, [e1]) == w1;
    assert w1.txs == NESTING.txs[..1] && w1.clients == NESTING.clients[..2] && w1.conns == NESTING.conns;
    assert [e1, e2][..1] == [e1];
    assert Play(w0, [e1, e2]) == Next(w1, e2);
    assert Next(w1, e2).clients == NESTING.clients[..3];
  }

  /** Such a client exists: the debug client of a transactional client gets round the guard. The nested
      transaction's Commit and Rollback then do nothing at all, and one Unwrap of its entities ends inside
      the outer transaction. */
  lemma DebugGetsRoundTheGuard(run: Hooks.Run, works: bool)
    ensures var w := Play(Start(false), [StartTx(0), DebugClient(1), StartTx(2)]);
      && w == NESTING
      && TxIn(Next(w, Unwrap(3)).clients[3].driver) == Some(0)
      && Next(w, Commit(1, run, works)) == w && Next(w, Rollback(1, run)) == w
  {
    FirstTwo();
    assert [StartTx(0), DebugClient(1), StartTx(2)][..2] == [StartTx(0), DebugClient(1)];
    var w2 := NESTING.(txs := NESTING.txs[..1], clients := NESTING.clients[..3]);
    assert Sound(w2);
    BeginIs(w2, Debug(InTx(0)));
    assert Next(w2, StartTx(2)).txs == NESTING.txs && Next(w2, StartTx(2)).clients == NESTING.clients;
    NestedEndings(run, works);
  }

  lemma NestedEndings(run: Hooks.Run, works: bool)
    ensures Next(NESTING, Commit(1, run, works)) == NESTING && Next(NESTING, Rollback(1, run)) == NESTING
  {
    hide EndThrough, EndAll;
    EndThroughIs(NESTING, Nested(0), Committing(works), run);
    EndThroughIs(NESTING, Nested(0), RollingBack, run);
  }
}
