/** Which client belongs to which transaction, read off the events of a run alone, and what the database holds of the
    statements of a transaction's clients. */
module Membership {
  import opened Schema
  import opened Transactions
  import Hooks = CompletionHooks

  /** The transaction a client is in, if any, and how often its driver was wrapped in debug logging since. */
  datatype Member = Member(tx: Option<nat>, wraps: nat)

  /** The clients, the clients that transactions were started from, and the transactions that the handles of builders
      are in. */
  datatype Roll = Roll(clients: seq<Member>, started: seq<Member>, handles: seq<Option<nat>>)

  /** The guard of Client.Tx and Unwrap see a client's transaction only when it is not wrapped. */
  predicate Plain(m: Member) {
    m.tx.Some? && m.wraps == 0
  }

  /** Starting a transaction opens one for a new client, unless the client is plainly in one; what is made from a
      client and its debug client stay where it is; unwrapping leads to where the transaction was started. */
  function Enroll(debug: bool, r: Roll, e: Event): Roll {
    match e
    case StartTx(c) =>
      if c < |r.clients| && !Plain(r.clients[c]) then
        r.(clients := r.clients + [Member(Some(|r.started|), 0)], started := r.started + [r.clients[c]])
      else r
    case Derive(c) => if c < |r.clients| then r.(clients := r.clients + [r.clients[c]]) else r
    case DebugClient(c) =>
      if c < |r.clients| then
        var m := r.clients[c];
        r.(clients := r.clients + [if debug then m else m.(wraps := m.wraps + 1)])
      else r
    case Unwrap(c) =>
      if c < |r.clients| && Plain(r.clients[c]) && r.clients[c].tx.value < |r.started| then
        r.(clients := r.clients[c := r.started[r.clients[c].tx.value]])
      else r
    case InnerTx(c) => if c < |r.clients| then r.(handles := r.handles + [r.clients[c].tx]) else r
    case _ => r
  }

  function Members(debug: bool, es: seq<Event>): Roll {
    if es == [] then Roll([Member(None, if debug then 1 else 0)], [], [])
    else Enroll(debug, Members(debug, es[..|es|-1]), es[|es|-1])
  }

  // ----- The roll is right -----

  function DriverOf(m: Member): Driver
    decreases m.wraps
  {
    if m.wraps > 0 then Debug(DriverOf(m.(wraps := m.wraps - 1)))
    else match m.tx case None => Base case Some(t) => InTx(t)
  }

  lemma {:induction false} DriverIs(m: Member)
    ensures TxIn(DriverOf(m)) == m.tx && (DriverOf(m).InTx? <==> Plain(m))
    decreases m.wraps
  {
    if m.wraps > 0 {
      DriverIs(m.(wraps := m.wraps - 1));
    }
  }

  ghost predicate Shows(debug: bool, r: Roll, w: World) {
    && |r.clients| == |w.clients| && |r.started| == |w.txs| && |r.handles| == |w.handles|
    && (forall c :: 0 <= c < |w.clients| ==> w.clients[c] == Client(DriverOf(r.clients[c]), debug))
    && (forall t :: 0 <= t < |w.txs| ==> w.txs[t].drv == DriverOf(r.started[t]))
    && (forall h :: 0 <= h < |w.handles| ==>
          match r.handles[h] case Some(t) => w.handles[h] == Nested(t) case None => w.handles[h].Conn?)
  }

  lemma ShowsStep(debug: bool, r: Roll, w: World, e: Event)
    requires Sound(w) && Shows(debug, r, w)
    ensures Shows(debug, Enroll(debug, r, e), Next(w, e))
  {
    hide Begin, Exec, ExecOn, EndThrough, EndAll, Reaches;
    if e.StartTx? || e.InnerTx? {
      if e.c < |w.clients| {
        DriverIs(r.clients[e.c]);
        BeginIs(w, w.clients[e.c].driver);
      }
    } else {
      OthersStay(w, e);
      if e.Unwrap? && e.c < |w.clients| {
        DriverIs(r.clients[e.c]);
      }
    }
  }

  lemma {:induction false} RunShows(debug: bool, es: seq<Event>)
    ensures Shows(debug, Members(debug, es), Play(Start(debug), es))
  {
    if es == [] {
      assert DriverOf(Member(None, 0)) == Base && DriverOf(Member(None, 1)) == Debug(Base);
    } else {
      hide Shows, Enroll, Next, Start;
      RunShows(debug, es[..|es|-1]);
      ShowsStep(debug, Members(debug, es[..|es|-1]), Play(Start(debug), es[..|es|-1]), es[|es|-1]);
    }
  }

  /** In every run a client sends its statements into the transaction that the roll says it is in, and to the database
      when the roll says it is in none. */
  lemma Belongs(debug: bool, es: seq<Event>, c: nat)
    ensures var r, w := Members(debug, es), Play(Start(debug), es);
      |r.clients| == |w.clients| && (c < |w.clients| ==> TxIn(w.clients[c].driver) == r.clients[c].tx)
  {
    RunShows(debug, es);
    var r := Members(debug, es);
    if c < |r.clients| {
      DriverIs(r.clients[c]);
    }
  }

  // ----- The statements of a transaction -----

  /** The transaction that a transaction was started in, and that one, and so on, up to one started in none. */
  function Root(started: seq<Member>, t: nat): nat {
    if t < |started| && started[t].tx.Some? && started[t].tx.value < t then Root(started, started[t].tx.value) else t
  }

  /** The statement of an event, when the client or the handle it is sent through is in transaction t. */
  function SentBy(r: Roll, e: Event, t: nat): seq<Statement> {
    match e
    case Run(c, s) =>
      if c < |r.clients| && r.clients[c].tx.Some? && Root(r.started, r.clients[c].tx.value) == t then [s] else []
    case InnerExec(h, s) =>
      if h < |r.handles| && r.handles[h].Some? && Root(r.started, r.handles[h].value) == t then [s] else []
    case _ => []
  }

  /** All statements sent by clients in transaction t, in order. */
  function Sent(debug: bool, es: seq<Event>, t: nat): seq<Statement> {
    if es == [] then []
    else var before := es[..|es|-1]; Sent(debug, before, t) + SentBy(Members(debug, before), es[|es|-1], t)
  }

  lemma {:induction false} RootReaches(debug: bool, r: Roll, w: World, t: nat)
    requires Sound(w) && Shows(debug, r, w) && t < |w.txs|
    ensures var k := Root(r.started, t);
      k <= t && w.txs[k].tx.Conn? && Reaches(w, Nested(t)) == w.txs[k].tx.n
    decreases t
  {
    DriverIs(r.started[t]);
    if r.started[t].tx.Some? {
      RootReaches(debug, r, w, r.started[t].tx.value);
    }
  }

  /** A statement goes to the connection of transaction t iff its sender is in t. */
  lemma TargetIs(debug: bool, r: Roll, w: World, e: Event, t: nat)
    requires Sound(w) && Owned(w) && Shows(debug, r, w) && Possible(w, e) && t < |w.txs| && w.txs[t].tx.Conn?
    ensures SentBy(r, e, t) == if Target(w, e) == Some(w.txs[t].tx.n) then [e.s] else []
  {
    match e {
      case Run(c, s) =>
        DriverIs(r.clients[c]);
        KnownIff(w, w.clients[c].driver);
        if r.clients[c].tx.Some? {
          RootReaches(debug, r, w, r.clients[c].tx.value);
        }
      case InnerExec(h, s) =>
        if r.handles[h].Some? {
          RootReaches(debug, r, w, r.handles[h].value);
        }
      case _ =>
    }
  }

  lemma SentByNone(debug: bool, r: Roll, w: World, e: Event, t: nat)
    requires Sound(w) && Shows(debug, r, w) && t >= |w.txs|
    ensures SentBy(r, e, t) == []
  {
    match e {
      case Run(c, s) =>
        if c < |w.clients| && r.clients[c].tx.Some? {
          DriverIs(r.clients[c]);
          KnownIff(w, w.clients[c].driver);
          RootReaches(debug, r, w, r.clients[c].tx.value);
        }
      case InnerExec(h, s) =>
        if h < |w.handles| && r.handles[h].Some? {
          RootReaches(debug, r, w, r.handles[h].value);
        }
      case _ =>
    }
  }

  /** While its connection is active the log of a transaction is what its clients sent. */
  lemma {:induction false} LogIsSent(debug: bool, es: seq<Event>, t: nat)
    ensures var w := Play(Start(debug), es);
      && (t >= |w.txs| ==> Sent(debug, es, t) == [])
      && (t < |w.txs| && w.txs[t].tx.Conn? && w.txs[t].tx.n < |w.conns| && w.conns[w.txs[t].tx.n].status == Active ==>
           WroteAll(Start(debug), es, w.txs[t].tx.n) == Sent(debug, es, t))
  {
    if es != [] {
      var before, e := es[..|es|-1], es[|es|-1];
      LogIsSent(debug, before, t);
      RunShows(debug, before);
      RunKeeps(Start(debug), before);
      hide Shows, Sound, SentBy, Members, Next, Owned;
      LogStepIsSent(debug, before, Members(debug, before), Play(Start(debug), before), e, t);
    }
  }

  lemma LogStepIsSent(debug: bool, before: seq<Event>, r: Roll, w: World, e: Event, t: nat)
    requires w == Play(Start(debug), before) && Owned(w) && Shows(debug, r, w)
    ensures var v := Next(w, e);
      && |w.txs| <= |v.txs|
      && (t >= |v.txs| ==> SentBy(r, e, t) == [])
      && (t < |v.txs| && v.txs[t].tx.Conn? && v.txs[t].tx.n < |v.conns| && v.conns[v.txs[t].tx.n].status == Active ==>
           var n := v.txs[t].tx.n;
           && SentBy(r, e, t) == Wrote(w, e, n)
           && (t < |w.txs| ==> w.txs[t].tx == v.txs[t].tx && n < |w.conns| && w.conns[n].status == Active)
           && (t >= |w.txs| ==> WroteAll(Start(debug), before, n) == []))
  {
    var v := Next(w, e);
    OwnedStep(w, e);
    if t >= |w.txs| {
      SentByNone(debug, r, w, e, t);
      if t < |v.txs| && v.txs[t].tx.Conn? {
        NewConnection(w, e, t);
        Atomicity(debug, before, v.txs[t].tx.n);
      }
    } else {
      assert v.txs[t] == v.txs[..|w.txs|][t];
      if v.txs[t].tx.Conn? {
        StepInLog(debug, r, w, e, t);
      }
    }
  }

  lemma StepInLog(debug: bool, r: Roll, w: World, e: Event, t: nat)
    requires Sound(w) && Owned(w) && Shows(debug, r, w) && t < |w.txs| && w.txs[t].tx.Conn?
    ensures var n, v := w.txs[t].tx.n, Next(w, e);
      && n < |w.conns| && n < |v.conns|
      && (v.conns[n].status == Active ==> w.conns[n].status == Active && SentBy(r, e, t) == Wrote(w, e, n))
  {
    hide Next, Target, Reaches, SentBy;
    if Possible(w, e) {
      OnlyTheUserEnds(w, e, t);
      TargetIs(debug, r, w, e, t);
    } else {
      Ignored(w, e);
      NobodySends(debug, r, w, e, t);
    }
  }

  lemma NobodySends(debug: bool, r: Roll, w: World, e: Event, t: nat)
    requires Sound(w) && Shows(debug, r, w) && !Possible(w, e)
    ensures SentBy(r, e, t) == []
  {
  }

  /** A new transaction that is not nested has a connection of its own. */
  lemma NewConnection(w: World, e: Event, t: nat)
    requires Sound(w) && |w.txs| <= t < |Next(w, e).txs| && Next(w, e).txs[t].tx.Conn?
    ensures Next(w, e).txs[t].tx.n == |w.conns| && e.StartTx?
  {
    hide Exec, ExecOn, EndThrough, EndAll, Reaches;
    if e.StartTx? || e.InnerTx? {
      if Possible(w, e) {
        BeginIs(w, w.clients[e.c].driver);
      }
    } else {
      OthersStay(w, e);
    }
  }

  /** Atomicity as the user sees it, with the statements told by who sent them. In a run in which transaction t was
      active after the events `opening`, whatever else goes on: the database holds nothing of it unless, of the user's
      Commits and Rollbacks of it that the hooks let through, the first is a Commit that works. Then it holds every
      statement that any client in the transaction sent up to that Commit, in order: its own client, clients and
      debug clients made from it, their builders, and transactions nested in it. */
  lemma TransactionAtomicity(debug: bool, opening: seq<Event>, rest: seq<Event>, t: nat, k: nat)
    requires var w := Play(Start(debug), opening);
      t < |w.txs| && w.txs[t].tx.Conn? && w.txs[t].tx.n < |w.conns| && w.conns[w.txs[t].tx.n].status == Active
    requires k <= |rest| && (forall j :: 0 <= j < k ==> !Ends(rest[j], t)) && (k < |rest| ==> Ends(rest[k], t))
    ensures var n := Play(Start(debug), opening).txs[t].tx.n;
      Via(Play(Start(debug), opening + rest).base, n) ==
        if k < |rest| && Commits(rest[k], t) then Sent(debug, opening + rest[..k], t) else []
  {
    hide Play, Next, Via, WroteAll, Sent, Members, Ends;
    LogAtomicity(debug, opening, rest, t, k);
    if k < |rest| && Commits(rest[k], t) {
      StillActive(debug, opening, rest[..k], t);
      LogIsSent(debug, opening + rest[..k], t);
    }
  }

  /** A transaction stays active while nothing that the hooks let through ends it. */
  lemma StillActive(debug: bool, opening: seq<Event>, until: seq<Event>, t: nat)
    requires var w := Play(Start(debug), opening);
      t < |w.txs| && w.txs[t].tx.Conn? && w.txs[t].tx.n < |w.conns| && w.conns[w.txs[t].tx.n].status == Active
    requires forall j :: 0 <= j < |until| ==> !Ends(until[j], t)
    ensures var w, v := Play(Start(debug), opening), Play(Start(debug), opening + until);
      && t < |v.txs| && v.txs[t].tx == w.txs[t].tx && v.txs[t].tx.n < |v.conns|
      && v.conns[v.txs[t].tx.n].status == Active
  {
    hide Play, Next, Ends;
    var start, w := Start(debug), Play(Start(debug), opening);
    RunKeeps(start, opening);
    PlayConcat(start, opening, until);
    StatusAfter(w, until, t, |until|);
    RunKeeps(w, until);
    var v := Play(w, until);
    assert v.txs[t] == v.txs[..|w.txs|][t];
  }

  /** The same with everything told by events: a client outside all transactions starts one. */
  lemma StartedTransaction(debug: bool, opening: seq<Event>, c: nat, rest: seq<Event>, k: nat)
    requires c < |Members(debug, opening).clients| && Members(debug, opening).clients[c].tx.None?
    requires var t := |Members(debug, opening).started|;
      k <= |rest| && (forall j :: 0 <= j < k ==> !Ends(rest[j], t)) && (k < |rest| ==> Ends(rest[k], t))
    ensures var t, es := |Members(debug, opening).started|, opening + [StartTx(c)];
      var w := Play(Start(debug), es);
      && t < |w.txs| && w.txs[t].tx.Conn?
      && Via(Play(Start(debug), es + rest).base, w.txs[t].tx.n) ==
        if k < |rest| && Commits(rest[k], t) then Sent(debug, es + rest[..k], t) else []
  {
    var t, es := |Members(debug, opening).started|, opening + [StartTx(c)];
    var w, v := Play(Start(debug), opening), Play(Start(debug), es);
    RunShows(debug, opening);
    assert es[..|es|-1] == opening;
    DriverIs(Members(debug, opening).clients[c]);
    BeginIs(w, w.clients[c].driver);
    assert v.txs[t].tx == Conn(|w.conns|) && v.conns[|w.conns|].status == Active;
    TransactionAtomicity(debug, es, rest, t, k);
  }

  // ----- Outside transactions -----

  /** The statements that took effect outside any transaction. */
  function Direct(base: seq<Entry>): seq<Statement> {
    if base == [] then []
    else var last := base[|base|-1]; Direct(base[..|base|-1]) + if last.via.None? then [last.statement] else []
  }

  function SentOutside(debug: bool, es: seq<Event>): seq<Statement> {
    if es == [] then []
    else
      var before, e := es[..|es|-1], es[|es|-1];
      var r := Members(debug, before);
      SentOutside(debug, before) +
        if e.Run? && e.c < |r.clients| && r.clients[e.c].tx.None? then [e.s] else []
  }

  lemma {:induction false} DirectConcat(a: seq<Entry>, b: seq<Entry>)
    ensures Direct(a + b) == Direct(a) + Direct(b)
  {
    if b == [] {
      assert a + b == a;
    } else {
      assert (a + b)[..|a + b|-1] == a + b[..|b|-1];
      DirectConcat(a, b[..|b|-1]);
    }
  }

  lemma {:induction false} DirectEntries(n: nat, log: seq<Statement>)
    ensures Direct(Entries(n, log)) == []
  {
    if log != [] {
      assert Entries(n, log)[..|log|-1] == Entries(n, log[..|log|-1]);
      DirectEntries(n, log[..|log|-1]);
    }
  }

  /** The other statements in effect are those of clients in no transaction, each at once and in order. */
  lemma {:induction false} OutsideTakesEffect(debug: bool, es: seq<Event>)
    ensures Direct(Play(Start(debug), es).base) == SentOutside(debug, es)
  {
    if es != [] {
      var before, e := es[..|es|-1], es[|es|-1];
      OutsideTakesEffect(debug, before);
      var w, r := Play(Start(debug), before), Members(debug, before);
      RunShows(debug, before);
      OutsideStep(debug, r, w, e);
    }
  }

  lemma OutsideStep(debug: bool, r: Roll, w: World, e: Event)
    requires Sound(w) && Shows(debug, r, w)
    ensures Direct(Next(w, e).base) ==
      Direct(w.base) + if e.Run? && e.c < |r.clients| && r.clients[e.c].tx.None? then [e.s] else []
  {
    hide Next, Reaches, Closes;
    if Possible(w, e) {
      StepIs(w, e);
      var closes := Closes(w, e);
      var added := if closes.Some? && Works(e) then Entries(closes.value, w.conns[closes.value].log)
                 else if e.Run? && Target(w, e).None? then [Entry(None, e.s)] else [];
      DirectConcat(w.base, added);
      if closes.Some? && Works(e) {
        DirectEntries(closes.value, w.conns[closes.value].log);
      }
      if e.Run? {
        DriverIs(r.clients[e.c]);
        NothingCloses(w, e);
      }
      assert Direct([Entry(None, if e.Run? then e.s else "")]) == [if e.Run? then e.s else ""];
    } else {
      Ignored(w, e);
    }
  }

  lemma NothingCloses(w: World, e: Event)
    requires Sound(w) && Possible(w, e) && e.Run?
    ensures Closes(w, e).None?
  {
  }

  // ----- Replies -----

  /** What callers are told, by the roll: a client plainly in a transaction may not start one and is the only one that
      may be unwrapped; a statement in a transaction that is over is refused; without hooks, ending a nested
      transaction always seems to work, ending another one twice does not, and a Commit fails iff the database does. */
  function Told(r: Roll, w: World, e: Event): Option<Reply> {
    match e
    case StartTx(c) =>
      if c < |r.clients| then Some(if Plain(r.clients[c]) then Err(TxStarted) else Ok(())) else None
    case Unwrap(c) =>
      if c < |r.clients| then Some(if Plain(r.clients[c]) then Ok(()) else Err(NotTransactional)) else None
    case Run(c, _) =>
      if c >= |r.clients| then None
      else if r.clients[c].tx.None? || Standing(r, w, r.clients[c].tx.value) == Some(Active) then Some(Ok(()))
      else Some(Err(TxDone))
    case Commit(t, run, works) =>
      if t >= |r.started| || !run.Reach? then None
      else if r.started[t].tx.Some? then Some(Ok(()))
      else if Standing(r, w, t) != Some(Active) then Some(Err(TxDone))
      else Some(if works then Ok(()) else Err(Failed))
    case Rollback(t, run) =>
      if t >= |r.started| || !run.Reach? then None
      else if r.started[t].tx.Some? || Standing(r, w, t) == Some(Active) then Some(Ok(()))
      else Some(Err(TxDone))
    case _ => None
  }

  lemma Replies(debug: bool, es: seq<Event>, e: Event)
    requires Possible(Play(Start(debug), es), e)
    ensures var r, w := Members(debug, es), Play(Start(debug), es);
      Told(r, w, e).Some? ==> Step(w, e).1 == Told(r, w, e).value
  {
    hide Members, Play;
    RunShows(debug, es);
    RepliesFrom(debug, Members(debug, es), Play(Start(debug), es), e);
  }

  /** The status of the connection that a transaction sends everything to. */
  function Standing(r: Roll, w: World, t: nat): Option<Status> {
    var k := Root(r.started, t);
    if k < |w.txs| && w.txs[k].tx.Conn? && w.txs[k].tx.n < |w.conns| then Some(w.conns[w.txs[k].tx.n].status) else None
  }

  lemma RepliesFrom(debug: bool, r: Roll, w: World, e: Event)
    requires Sound(w) && Shows(debug, r, w) && Possible(w, e)
    ensures Told(r, w, e).Some? ==> Step(w, e).1 == Told(r, w, e).value
  {
    match e {
      case StartTx(c) => DriverIs(r.clients[c]);
      case Unwrap(c) => DriverIs(r.clients[c]);
      case Run(c, s) =>
        DriverIs(r.clients[c]);
        ExecIs(w, w.clients[c].driver, s);
        if r.clients[c].tx.Some? {
          var t := r.clients[c].tx.value;
          RootReaches(debug, r, w, t);
          ExecOnIs(w, Nested(t), s);
        }
      case Commit(t, _, _) =>
        DriverIs(r.started[t]);
        RootReaches(debug, r, w, t);
      case Rollback(t, _) =>
        DriverIs(r.started[t]);
        RootReaches(debug, r, w, t);
      case _ =>
    }
  }
}
