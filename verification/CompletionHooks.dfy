/** The hooks of a transaction's Commit. Rollback runs its own list of hooks in the same way. */
module CompletionHooks {
  import opened Schema

  /** What happened when a hook was called: the hooks it registered, the runs of what it wraps, one per call it
      made, and its reply, by default that of its last call and success if it made none. The innermost function
      reaches the transaction. Hooks may act differently from call to call. */
  datatype Run = Reach | Call(registers: seq<nat>, calls: seq<Run>, reply: Option<bool>)

  datatype Committer = Underlying | Hooked(hook: nat, next: Committer)

  datatype Event = Enter(hook: nat) | Exit(hook: nat) | Complete

  /** The transaction below: once it has ended, committing and rolling back are errors. */
  datatype Below = Pending | Done | Undone

  function Chain(hooks: seq<nat>): Committer {
    if hooks == [] then Underlying else Hooked(hooks[0], Chain(hooks[1..]))
  }

  /** A run of n hooks. */
  ghost predicate Fits(run: Run, n: nat) {
    match run
    case Reach => n == 0
    case Call(_, calls, _) => n > 0 && forall c :: c in calls ==> Fits(c, n - 1)
  }

  /** How often the transaction is reached. */
  function Reaches(run: Run): nat {
    match run
    case Reach => 1
    case Call(_, calls, _) => ReachesAll(calls)
  }

  function ReachesAll(runs: seq<Run>): nat {
    if runs == [] then 0 else Reaches(runs[0]) + ReachesAll(runs[1..])
  }

  /** The hooks kept the call from the transaction. */
  predicate Refused(run: Run) {
    Reaches(run) == 0
  }

  /** What happens when a list of hooks acts as the run says, the first hook outermost. */
  ghost function Trace(run: Run, hooks: seq<nat>): seq<Event>
    requires Fits(run, |hooks|)
  {
    match run
    case Reach => [Complete]
    case Call(_, calls, _) => [Enter(hooks[0])] + TraceAll(calls, hooks[1..]) + [Exit(hooks[0])]
  }

  ghost function TraceAll(runs: seq<Run>, hooks: seq<nat>): seq<Event>
    requires forall c :: c in runs ==> Fits(c, |hooks|)
  {
    if runs == [] then [] else Trace(runs[0], hooks) + TraceAll(runs[1..], hooks)
  }

  function Registered(run: Run): seq<nat> {
    match run
    case Reach => []
    case Call(registers, calls, _) => registers + RegisteredAll(calls)
  }

  function RegisteredAll(runs: seq<Run>): seq<nat> {
    if runs == [] then [] else Registered(runs[0]) + RegisteredAll(runs[1..])
  }

  function End(below: Below, works: bool): (Below, bool) {
    if !below.Pending? then (below, false) else if works then (Done, true) else (Undone, false)
  }

  /** The transaction after a run, and the reply of the outermost hook. */
  function Eval(run: Run, below: Below, works: bool): (Below, bool) {
    match run
    case Reach => End(below, works)
    case Call(_, calls, reply) =>
      var (b, last) := EvalAll(calls, below, works, true);
      (b, if reply.Some? then reply.value else last)
  }

  function EvalAll(runs: seq<Run>, below: Below, works: bool, last: bool): (Below, bool) {
    if runs == [] then (below, last)
    else var (b, r) := Eval(runs[0], below, works); EvalAll(runs[1..], b, works, r)
  }

  /** The hooks of one transaction, and the transaction below them. */
  class Completion {
    var onCommit: seq<nat>
    const works: bool
    var below: Below
    var reached: nat
    ghost var trace: seq<Event>

    constructor (works: bool)
      ensures onCommit == [] && this.works == works && below == Pending && reached == 0 && trace == []
    {
      onCommit, this.works, below, reached, trace := [], works, Pending, 0, [];
    }

    method OnCommit(f: nat)
      modifies `onCommit
      ensures onCommit == old(onCommit) + [f]
    {
      onCommit := onCommit + [f];
    }

    method Register(fs: seq<nat>)
      modifies `onCommit
      ensures onCommit == old(onCommit) + fs
    {
      for i := 0 to |fs|
        invariant onCommit == old(onCommit) + fs[..i]
      {
        OnCommit(fs[i]);
      }
      assert fs[..|fs|] == fs;
    }

    /** Call a chain of hooks that act as the run says. */
    method Call(fn: Committer, run: Run, ghost hooks: seq<nat>) returns (ok: bool)
      requires fn == Chain(hooks) && Fits(run, |hooks|)
      modifies this
      ensures (below, ok) == Eval(run, old(below), works)
      ensures reached == old(reached) + Reaches(run)
      ensures trace == old(trace) + Trace(run, hooks)
      ensures onCommit == old(onCommit) + Registered(run)
      decreases fn, 1
    {
      match fn
      case Underlying =>
        reached := reached + 1;
        trace := trace + [Complete];
        ok := below.Pending? && works;
        below := if !below.Pending? then below else if works then Done else Undone;
      case Hooked(hook, next) =>
        trace := trace + [Enter(hook)];
        Register(run.registers);
        ok := CallAll(next, run.calls, true, hooks[1..]);
        if run.reply.Some? {
          ok := run.reply.value;
        }
        trace := trace + [Exit(hook)];
    }

    /** The calls a hook makes, one after the other. */
    method CallAll(next: Committer, calls: seq<Run>, last: bool, ghost hooks: seq<nat>)
        returns (ok: bool)
      requires next == Chain(hooks) && forall c :: c in calls ==> Fits(c, |hooks|)
      modifies this
      ensures (below, ok) == EvalAll(calls, old(below), works, last)
      ensures reached == old(reached) + ReachesAll(calls)
      ensures trace == old(trace) + TraceAll(calls, hooks)
      ensures onCommit == old(onCommit) + RegisteredAll(calls)
      decreases next, 2, calls
    {
      if |calls| == 0 {
        return last;
      }
      ok := Call(next, calls[0], hooks);
      ok := CallAll(next, calls[1..], ok, hooks);
      hide Trace, Registered, Eval, Reaches;
      assert old(trace) + (Trace(calls[0], hooks) + TraceAll(calls[1..], hooks)) == trace;
      assert old(onCommit) + (Registered(calls[0]) + RegisteredAll(calls[1..])) == onCommit;
    }

    /** Commit works on a copy of the hooks taken at its start: hooks registered while it runs are kept for a
        later call and take no part in this one. */
    method Commit(run: Run) returns (ok: bool)
      requires Fits(run, |onCommit|)
      modifies this
      ensures (below, ok) == Eval(run, old(below), works)
      ensures reached == old(reached) + Reaches(run)
      ensures trace == old(trace) + Trace(run, old(onCommit))
      ensures onCommit == old(onCommit) + Registered(run)
    {
      var hooks := onCommit;
      var fn := Underlying;
      var i := |hooks|;
      while i > 0
        invariant 0 <= i <= |hooks| && fn == Chain(hooks[i..])
      {
        i := i - 1;
        assert hooks[i..] == [hooks[i]] + hooks[i+1..];
        fn := Hooked(hooks[i], fn);
      }
      assert hooks[0..] == hooks;
      ok := Call(fn, run, hooks);
    }
  }

  // ----- What the hooks let through -----

  /** Whatever the hooks do, a run ends the transaction iff they let a call through, and the first such call
      decides how; one they all refuse leaves it pending. */
  lemma {:induction false} EndsIffReached(run: Run, below: Below, works: bool)
    ensures Eval(run, below, works).0 == if Refused(run) then below else End(below, works).0
  {
    if run.Call? {
      AllEnd(run.calls, below, works, true);
    }
  }

  lemma {:induction false} AllEnd(runs: seq<Run>, below: Below, works: bool, last: bool)
    ensures EvalAll(runs, below, works, last).0 == if ReachesAll(runs) == 0 then below else End(below, works).0
  {
    if runs != [] {
      EndsIffReached(runs[0], below, works);
      var (b, r) := Eval(runs[0], below, works);
      AllEnd(runs[1..], b, works, r);
    }
  }

  /** No hook reports a success it did not get from what it wraps. */
  predicate Honest(run: Run) {
    match run
    case Reach => true
    case Call(_, calls, reply) =>
      && reply != Some(true) && (reply.None? ==> calls != [])
      && forall i :: 0 <= i < |calls| ==> Honest(calls[i])
  }

  /** Under such hooks a successful Commit committed the transaction. */
  lemma {:induction false} SuccessCommits(run: Run, below: Below, works: bool)
    requires Honest(run) && Eval(run, below, works).1
    ensures below == Pending && works && Eval(run, below, works).0 == Done
  {
    if run.Call? {
      LastCommits(run.calls, below, works, true);
      EndsIffReached(run, below, works);
    }
  }

  lemma {:induction false} LastCommits(runs: seq<Run>, below: Below, works: bool, last: bool)
    requires runs != [] && (forall i :: 0 <= i < |runs| ==> Honest(runs[i])) && EvalAll(runs, below, works, last).1
    ensures below == Pending && works && ReachesAll(runs) > 0
  {
    var (b, r) := Eval(runs[0], below, works);
    EndsIffReached(runs[0], below, works);
    if |runs| == 1 {
      assert runs[1..] == [];
      SuccessCommits(runs[0], below, works);
    } else {
      LastCommits(runs[1..], b, works, r);
    }
  }

  /** Every hook calls on once and forwards the reply. */
  predicate Forwards(run: Run) {
    run.Call? ==> |run.calls| == 1 && run.reply.None? && Forwards(run.calls[0])
  }

  /** Through such hooks the caller is told what became of the transaction: a Commit of a pending one succeeds iff the
      database commits it, which otherwise rolls it back, and ending it again fails and changes nothing. */
  lemma {:induction false} RepliesTruly(run: Run, below: Below, works: bool)
    requires Forwards(run)
    ensures below == Pending && works ==> Eval(run, below, works) == (Done, true)
    ensures below == Pending && !works ==> Eval(run, below, works) == (Undone, false)
    ensures below != Pending ==> Eval(run, below, works) == (below, false)
  {
    if run.Call? {
      RepliesTruly(run.calls[0], below, works);
      var (b, r) := Eval(run.calls[0], below, works);
      assert run.calls[1..] == [] && EvalAll(run.calls[1..], b, works, r) == (b, r);
    }
  }

  // ----- Hooks that call on at most once -----

  predicate Straight(run: Run) {
    run.Call? ==> |run.calls| <= 1 && (run.calls != [] ==> Straight(run.calls[0]))
  }

  /** How many hooks get called. */
  function Called(run: Run): nat {
    if run.Reach? then 0 else 1 + if run.calls == [] then 0 else Called(run.calls[0])
  }

  function Entries(hooks: seq<nat>): seq<Event> {
    seq(|hooks|, k requires 0 <= k < |hooks| => Enter(hooks[k]))
  }

  function ExitsBackwards(hooks: seq<nat>): seq<Event> {
    seq(|hooks|, k requires 0 <= k < |hooks| => Exit(hooks[|hooks| - 1 - k]))
  }

  lemma OneMore(h: nat, hooks: seq<nat>)
    ensures Entries([h] + hooks) == [Enter(h)] + Entries(hooks)
    ensures ExitsBackwards([h] + hooks) == ExitsBackwards(hooks) + [Exit(h)]
    ensures Entries([]) == [] && ExitsBackwards([]) == []
  {
  }

  /** The hooks up to the first that refuses are entered in the order in which they were registered and left in reverse
      order, around the completion of the transaction when none refuses. */
  lemma {:induction false} OnionIs(run: Run, hooks: seq<nat>)
    requires Straight(run) && Fits(run, |hooks|)
    ensures Called(run) <= |hooks|
    ensures var called := hooks[..Called(run)];
      Trace(run, hooks) == Entries(called) + (if Refused(run) then [] else [Complete]) + ExitsBackwards(called)
  {
    hide Entries, ExitsBackwards;
    OneMore(0, []);
    match run
    case Reach =>
      assert hooks[..0] == [];
    case Call(_, calls, _) =>
      var h, rest := hooks[0], hooks[1..];
      if calls == [] {
        assert Trace(run, hooks) == [Enter(h)] + [] + [Exit(h)];
        assert Reaches(run) == ReachesAll([]) == 0 && Called(run) == 1;
        assert hooks[..1] == [h] + [];
        OneMore(h, []);
      } else {
        assert calls == [calls[0]] && calls[0] in calls;
        OneRun(calls[0], rest);
        OnionIs(calls[0], rest);
        OneMore(h, rest[..Called(calls[0])]);
        assert hooks[..Called(run)] == [h] + rest[..Called(calls[0])];
      }
  }

  lemma OneRun(run: Run, hooks: seq<nat>)
    requires Fits(run, |hooks|)
    ensures TraceAll([run], hooks) == Trace(run, hooks) && ReachesAll([run]) == Reaches(run)
  {
    assert [run][1..] == [];
    assert TraceAll([run], hooks) == Trace(run, hooks) + [];
  }
}
