/** What the control thread and a worker do when nothing goes wrong, step by step: every request's
    effect on the turn table, the thread table and the log, and whole provider runs. */
module TurnRuns {
  import opened Sequences
  import opened OperationalHistory
  import opened ProviderAdapter
  import opened TurnProtocol
  import opened WorkerProgress

  function Types(rows: Log): seq<EventType> {
    seq(|rows|, i requires 0 <= i < |rows| => rows[i].event.eventType)
  }

  function TypesOf(w: World, t: string): seq<EventType> {
    Types(InTurn(w.log, t))
  }

  function Repeat(l: Label, n: nat): seq<Label> {
    seq(n, _ => l)
  }

  lemma RepeatRuns(w: World, l: Label, n: nat)
    ensures Run(w, Repeat(l, n + 1)) == Move(Run(w, Repeat(l, n)), l)
  {
    assert Repeat(l, n + 1)[..n] == Repeat(l, n);
  }

  lemma {:induction false} RunAppend(w: World, a: seq<Label>, b: seq<Label>)
    ensures Run(w, a + b) == Run(Run(w, a), b)
    decreases |b|
  {
    if b == [] {
      assert a + b == a;
    } else {
      assert (a + b)[..|a + b| - 1] == a + b[..|b| - 1];
      RunAppend(w, a, b[..|b| - 1]);
    }
  }

  /** An append adds one event of its type to its own turn and none to any other. */
  lemma AppendTypes(w: World, turnId: string, e: EventType, t: string)
    requires turnId in w.turns
    ensures TypesOf(Append(w, turnId, e), t) == TypesOf(w, t) + if t == turnId then [e] else []
  {
    AppendRows(w, turnId, e, t);
  }

  // ---------- starting a turn ----------

  /** `n` successful steps of the control thread, which draws the identifier `t` if it needs one. */
  function Controls(w: World, t: string, n: nat): World {
    Run(w, Repeat(ControlStep(t, true), n))
  }

  /** Only turn `t` differs: it is running in session `s` with these events. */
  ghost predicate Opened(w: World, w': World, s: string, t: string, types: seq<EventType>) {
    && w'.turns == w.turns[t := Turn(s, Running)] && TypesOf(w', t) == types
    && w'.cancelled == w.cancelled && w'.finalizers == w.finalizers
    && forall x :: x != t ==> TypesOf(w', x) == TypesOf(w, x)
  }

  ghost predicate MayStart(w: World, s: string, t: string) {
    Invariant(w) && w.control == Idle && s in w.sessions && !HasRunningTurn(w, s) && t !in w.turns
  }

  lemma {:induction false} NoRowsYet(turns: map<string, Turn>, log: Log, t: string)
    requires SessionsAgree(turns, log) && t !in turns
    ensures InTurn(log, t) == []
  {
    if log != [] {
      var init, last := log[..|log| - 1], log[|log| - 1];
      assert last in log && forall r :: r in init ==> r in log;
      NoRowsYet(turns, init, t);
    }
  }

  /** After the INSERT the turn is running and has no events. */
  lemma Inserted(w: World, s: string, t: string)
    requires MayStart(w, s, t)
    ensures var w' := Move(Move(w, Accept(StartTurn(s))), ControlStep(t, true));
            && w'.control == Greeting(s, t) && Opened(w, w', s, t, []) && w'.workers == w.workers
            && w'.hasRuntime == w.hasRuntime && t !in w.workers
  {
    NoRowsYet(w.turns, w.log, t);
  }

  lemma Greeted(w0: World, w: World, s: string, t: string)
    requires w.control == Greeting(s, t) && Opened(w0, w, s, t, [])
    ensures var w' := Move(w, ControlStep(t, true));
            && Opened(w0, w', s, t, [UserMessage]) && w'.workers == w.workers && w'.hasRuntime == w.hasRuntime
            && w'.control == if w.hasRuntime then Queueing(s, t) else Idle
  {
    forall x ensures TypesOf(Append(w, t, UserMessage), x) == TypesOf(w, x) + if x == t then [UserMessage] else [] {
      AppendTypes(w, t, UserMessage, x);
    }
  }

  lemma Queued(w0: World, w: World, s: string, t: string)
    requires w.control == Queueing(s, t) && Opened(w0, w, s, t, [UserMessage]) && t !in w.workers
    ensures var w' := Move(w, ControlStep(t, true));
            && Opened(w0, w', s, t, [UserMessage, ProviderQueued]) && w'.workers == w.workers
            && w'.control == Spawning(t)
  {
    forall x
      ensures TypesOf(Append(w, t, ProviderQueued), x) == TypesOf(w, x) + if x == t then [ProviderQueued] else []
    {
      AppendTypes(w, t, ProviderQueued, x);
    }
    assert [UserMessage] + [ProviderQueued] == [UserMessage, ProviderQueued];
  }

  lemma Spawned(w0: World, w: World, s: string, t: string, types: seq<EventType>)
    requires w.control == Spawning(t) && Opened(w0, w, s, t, types)
    ensures var w' := Move(w, ControlStep(t, true));
            Opened(w0, w', s, t, types) && w'.workers == w.workers[t := Announcing] && w'.control == Idle
  {}

  lemma ControlsNext(w: World, t: string, n: nat)
    ensures Controls(w, t, 0) == w && Controls(w, t, n + 1) == Move(Controls(w, t, n), ControlStep(t, true))
  {
    RepeatRuns(w, ControlStep(t, true), n);
  }

  /** An accepted start: with a runtime the turn is greeted, queued and its worker started; without
      one it is greeted, and no worker exists. Nothing else changes. */
  lemma StartRuns(w: World, s: string, t: string)
    requires MayStart(w, s, t)
    ensures var w' := Controls(Move(w, Accept(StartTurn(s))), t, if w.hasRuntime then 4 else 2);
            if w.hasRuntime
            then && Opened(w, w', s, t, [UserMessage, ProviderQueued]) && w'.workers == w.workers[t := Announcing]
                 && w'.control == Idle
            else && Opened(w, w', s, t, [UserMessage]) && w'.workers == w.workers && t !in w'.workers
                 && w'.control == Idle
  {
    var w0 := Move(w, Accept(StartTurn(s)));
    GreetingRuns(w, s, t);
    if w.hasRuntime {
      QueueingRuns(w, Controls(w0, t, 2), s, t);
      ControlsMore(w0, t, 2, 2);
    }
  }

  lemma GreetingRuns(w: World, s: string, t: string)
    requires MayStart(w, s, t)
    ensures var w' := Controls(Move(w, Accept(StartTurn(s))), t, 2);
            && Opened(w, w', s, t, [UserMessage]) && w'.workers == w.workers && t !in w.workers
            && w'.control == if w.hasRuntime then Queueing(s, t) else Idle
  {
    var w0 := Move(w, Accept(StartTurn(s)));
    Inserted(w, s, t);
    Greeted(w, Move(w0, ControlStep(t, true)), s, t);
    ControlsTwo(w0, t);
  }

  lemma QueueingRuns(w0: World, w: World, s: string, t: string)
    requires w.control == Queueing(s, t) && Opened(w0, w, s, t, [UserMessage]) && t !in w.workers
    ensures var w' := Controls(w, t, 2);
            && Opened(w0, w', s, t, [UserMessage, ProviderQueued]) && w'.workers == w.workers[t := Announcing]
            && w'.control == Idle
  {
    Queued(w0, w, s, t);
    Spawned(w0, Move(w, ControlStep(t, true)), s, t, [UserMessage, ProviderQueued]);
    ControlsTwo(w, t);
  }

  lemma ControlsTwo(w: World, t: string)
    ensures Controls(w, t, 2) == Move(Move(w, ControlStep(t, true)), ControlStep(t, true))
  {
    ControlsNext(w, t, 0);
    ControlsNext(w, t, 1);
  }

  /** A start is refused, and changes nothing, while the session has a running turn or is unknown. */
  lemma StartRefused(w: World, s: string)
    requires w.control == Idle
    ensures Move(w, Accept(StartTurn(s))) == w <==> s !in w.sessions || HasRunningTurn(w, s)
  {}

  // ---------- requests about a running turn ----------

  /** Only the events of `t` differ, by one of this type at their end. */
  ghost predicate Noted(w: World, w': World, t: string, e: EventType) {
    && w'.turns == w.turns && w'.workers == w.workers && w'.cancelled == w.cancelled && w'.finalizers == w.finalizers
    && w'.control == Idle
    && forall x :: TypesOf(w', x) == TypesOf(w, x) + if x == t then [e] else []
  }

  lemma NoteNotes(w: World, w1: World, t: string, e: EventType)
    requires t in w.turns && w1 == w.(control := w1.control)
    ensures Noted(w, Note(w1, t, e, true, Idle), t, e)
  {
    forall x ensures TypesOf(Note(w1, t, e, true, Idle), x) == TypesOf(w, x) + if x == t then [e] else [] {
      AppendTypes(w1, t, e, x);
    }
  }

  /** Steering appends `turn.steering.received` to the active turn, an interrupt
      `turn.interrupt.requested`, and neither does anything else. */
  lemma NotesOfRequests(w: World, s: string, t: string)
    requires w.control == Idle && s in w.sessions && Active(w, s, t)
    ensures Noted(w, Controls(Move(w, Accept(SteerTurn(s, t))), t, 1), t, SteeringReceived)
    ensures Noted(w, Controls(Move(w, Accept(InterruptTurn(s, t))), t, 1), t, InterruptRequested)
  {
    var steer, interrupt := Move(w, Accept(SteerTurn(s, t))), Move(w, Accept(InterruptTurn(s, t)));
    ControlsNext(steer, t, 0);
    ControlsNext(interrupt, t, 0);
    NoteNotes(w, steer, t, SteeringReceived);
    NoteNotes(w, interrupt, t, InterruptRequested);
  }

  /** Requests about a turn that is not active in their session change nothing. */
  lemma InactiveRefused(w: World, s: string, t: string)
    requires w.control == Idle && !(s in w.sessions && Active(w, s, t))
    ensures Move(w, Accept(SteerTurn(s, t))) == w && Move(w, Accept(InterruptTurn(s, t))) == w
    ensures Move(w, Accept(CancelTurn(s, t))) == w
  {}

  /** The turn is cancelled by control and `turn.cancelled` is its last event; the flag is as given. */
  ghost predicate CancelledNow(w: World, w': World, s: string, t: string, cancelled: set<string>) {
    && w'.turns == w.turns[t := Turn(s, Cancelled)] && w'.finalizers == w.finalizers[t := ByControl]
    && w'.workers == w.workers && w'.cancelled == cancelled && w'.control == Idle
    && forall x :: TypesOf(w', x) == TypesOf(w, x) + if x == t then [TurnCancelled] else []
  }

  lemma MarkAndClose(w: World, w1: World, s: string, t: string)
    requires Active(w, s, t) && w1 == w.(control := Marking(s, t), cancelled := w1.cancelled)
    ensures CancelledNow(w, Controls(w1, t, 2), s, t, w1.cancelled)
  {
    ControlsNext(w1, t, 0);
    ControlsNext(w1, t, 1);
    forall x
      ensures TypesOf(Append(w1, t, TurnCancelled), x) == TypesOf(w, x) + if x == t then [TurnCancelled] else []
    {
      AppendTypes(w1, t, TurnCancelled, x);
    }
  }

  lemma ControlsMore(w: World, t: string, m: nat, n: nat)
    ensures Controls(w, t, m + n) == Controls(Controls(w, t, m), t, n)
  {
    var l := ControlStep(t, true);
    assert Repeat(l, m + n) == Repeat(l, m) + Repeat(l, n);
    RunAppend(w, Repeat(l, m), Repeat(l, n));
  }

  /** A cancel of an active turn: without a worker it is marked and finalised; with one it is flagged
      first if the transport can be cancelled, and otherwise refused. */
  lemma CancelRuns(w: World, s: string, t: string)
    requires w.control == Idle && s in w.sessions && Active(w, s, t)
    ensures var w1 := Move(w, Accept(CancelTurn(s, t)));
            && (t !in w.workers ==> CancelledNow(w, Controls(w1, t, 3), s, t, w.cancelled))
            && (t in w.workers && w.cancellable ==> CancelledNow(w, Controls(w1, t, 5), s, t, w.cancelled + {t}))
            && (t in w.workers && !w.cancellable ==> Controls(w1, t, 1) == w)
  {
    var w1 := Move(w, Accept(CancelTurn(s, t)));
    ControlsNext(w1, t, 0);
    if t !in w.workers {
      MarkAndClose(w, Controls(w1, t, 1), s, t);
      ControlsMore(w1, t, 1, 2);
    } else if w.cancellable {
      ControlsNext(w1, t, 1);
      ControlsNext(w1, t, 2);
      assert Controls(w1, t, 2) == w.(control := Flagging(s, t));
      MarkAndClose(w, Controls(w1, t, 3), s, t);
      ControlsMore(w1, t, 3, 2);
    }
  }

  // ---------- a worker's run ----------

  /** The worker of the running turn is at `p`, and the turn has these events. */
  ghost predicate WorkerAt(w: World, t: string, p: Worker, types: seq<EventType>) {
    && IsRunning(w, t) && t !in w.cancelled && t in w.workers && w.workers[t] == p && TypesOf(w, t) == types
  }

  /** The worker is gone, and the turn has this status and these events. */
  ghost predicate WorkerDone(w: World, t: string, status: TurnStatus, types: seq<EventType>) {
    && t in w.turns && w.turns[t].status == status && t !in w.workers && TypesOf(w, t) == types
    && (status != Running ==> t in w.finalizers && w.finalizers[t] == ByProvider)
  }

  function Models(kinds: seq<ModelEventType>): seq<EventType> {
    seq(|kinds|, i requires 0 <= i < |kinds| => Model(kinds[i]))
  }

  lemma ResumeAt(w: World, t: string, p: Worker, types: seq<EventType>)
    requires IsRunning(w, t) && t !in w.cancelled && TypesOf(w, t) == types
    ensures WorkerAt(Resume(w, t, p), t, p, types)
  {}

  lemma AppendResumeAt(w: World, t: string, e: EventType, p: Worker, types: seq<EventType>)
    requires IsRunning(w, t) && t !in w.cancelled && TypesOf(w, t) == types
    ensures WorkerAt(Resume(Append(w, t, e), t, p), t, p, types + [e])
  {
    AppendTypes(w, t, e, t);
    ResumeAt(Append(w, t, e), t, p, types + [e]);
  }

  function WorkerMoves(w: World, t: string, answer: Option<seq<ModelEventType>>, n: nat): World {
    Run(w, Repeat(WorkerStep(t, answer, true), n))
  }

  lemma MovesNext(w: World, t: string, answer: Option<seq<ModelEventType>>, n: nat)
    ensures WorkerMoves(w, t, answer, 0) == w
    ensures WorkerMoves(w, t, answer, n + 1) == Move(WorkerMoves(w, t, answer, n), WorkerStep(t, answer, true))
  {
    RepeatRuns(w, WorkerStep(t, answer, true), n);
  }

  lemma MovesMore(w: World, t: string, answer: Option<seq<ModelEventType>>, m: nat, n: nat)
    ensures WorkerMoves(w, t, answer, m + n) == WorkerMoves(WorkerMoves(w, t, answer, m), t, answer, n)
  {
    var l := WorkerStep(t, answer, true);
    assert Repeat(l, m + n) == Repeat(l, m) + Repeat(l, n);
    RunAppend(w, Repeat(l, m), Repeat(l, n));
  }

  /** Announcing, calling, checking and opening: four steps bring an answer to the storing loop. */
  lemma AnswerOpens(w: World, t: string, kinds: seq<ModelEventType>, types: seq<EventType>)
    requires WorkerAt(w, t, Announcing, types)
    ensures WorkerAt(WorkerMoves(w, t, Some(kinds), 4), t, Storing(kinds, 0, None, false), types + [ProviderRunning])
  {
    var a := Some(kinds);
    MovesNext(w, t, a, 0);
    MovesNext(w, t, a, 1);
    MovesNext(w, t, a, 2);
    MovesNext(w, t, a, 3);
    AppendResumeAt(w, t, ProviderRunning, Calling, types);
    ResumeAt(WorkerMoves(w, t, a, 1), t, Returned(kinds), types + [ProviderRunning]);
    ResumeAt(WorkerMoves(w, t, a, 2), t, Opening(kinds, false), types + [ProviderRunning]);
    ResumeAt(WorkerMoves(w, t, a, 3), t, Storing(kinds, 0, None, false), types + [ProviderRunning]);
  }

  /** The status of the first `n` events, if one of them is terminal. */
  function StatusAfter(kinds: seq<ModelEventType>, n: nat): Option<TurnStatus>
    requires n <= |kinds|
  {
    if n == 0 then None
    else if TerminalStatus(kinds[n - 1]).Some? then TerminalStatus(kinds[n - 1])
    else StatusAfter(kinds, n - 1)
  }

  lemma {:induction false} StatusIsTerminal(kinds: seq<ModelEventType>, n: nat)
    requires n <= |kinds|
    ensures StatusAfter(kinds, n).Some? <==> TerminalBefore(kinds, n)
  {
    if n > 0 {
      StatusIsTerminal(kinds, n - 1);
      TerminalStep(kinds, n - 1);
    }
  }

  lemma StoresOne(
    w: World, t: string, answer: Option<seq<ModelEventType>>, kinds: seq<ModelEventType>, retry: bool, n: nat,
    types: seq<EventType>)
    requires PromisedKinds(kinds) && n < |kinds|
    requires WorkerAt(w, t, Storing(kinds, n, StatusAfter(kinds, n), retry), types)
    ensures WorkerAt(WorkerMoves(w, t, answer, 1), t, Storing(kinds, n + 1, StatusAfter(kinds, n + 1), retry),
                     types + [Model(kinds[n])])
  {
    MovesTwo(w, t, answer);
    StatusIsTerminal(kinds, n);
    NothingFollows(kinds, n, StatusAfter(kinds, n));
    StoreMoves(w, t, answer, kinds, n, StatusAfter(kinds, n), retry);
    AppendResumeAt(w, t, Model(kinds[n]), Storing(kinds, n + 1, StatusAfter(kinds, n + 1), retry), types);
  }

  lemma StoreMoves(
    w: World, t: string, answer: Option<seq<ModelEventType>>, kinds: seq<ModelEventType>, n: nat,
    terminal: Option<TurnStatus>, retry: bool)
    requires t in w.turns && t in w.workers && w.workers[t] == Storing(kinds, n, terminal, retry) && n < |kinds|
    requires terminal.Some? ==> kinds[n] == UsageUpdated
    ensures var status := TerminalStatus(kinds[n]);
            Move(w, WorkerStep(t, answer, true)) ==
            Resume(Append(w, t, Model(kinds[n])), t,
                   Storing(kinds, n + 1, if status.Some? then status else terminal, retry))
  {}

  lemma ModelsNext(types: seq<EventType>, kinds: seq<ModelEventType>, n: nat)
    requires n < |kinds|
    ensures types + Models(kinds[..n]) + [Model(kinds[n])] == types + Models(kinds[..n + 1])
  {}

  /** `n` successful steps of the storing loop store the first `n` events, in order. */
  lemma {:induction false} StoresInOrder(
    w: World, t: string, answer: Option<seq<ModelEventType>>, kinds: seq<ModelEventType>, retry: bool, n: nat,
    types: seq<EventType>)
    requires WorkerAt(w, t, Storing(kinds, 0, None, retry), types) && PromisedKinds(kinds) && n <= |kinds|
    ensures WorkerAt(WorkerMoves(w, t, answer, n), t, Storing(kinds, n, StatusAfter(kinds, n), retry),
                     types + Models(kinds[..n]))
  {
    if n == 0 {
      MovesNext(w, t, answer, 0);
      assert types + Models(kinds[..0]) == types;
    } else {
      StoresInOrder(w, t, answer, kinds, retry, n - 1, types);
      StoresOne(WorkerMoves(w, t, answer, n - 1), t, answer, kinds, retry, n - 1, types + Models(kinds[..n - 1]));
      MovesMore(w, t, answer, n - 1, 1);
      ModelsNext(types, kinds, n - 1);
    }
  }

  /** The status the events give their turn; `Running` when none of them ends it. */
  function StatusGiven(kinds: seq<ModelEventType>): TurnStatus {
    var status := StatusAfter(kinds, |kinds|);
    if status.Some? then status.value else Running
  }

  lemma StatusMeans(kinds: seq<ModelEventType>, i: nat)
    requires PromisedKinds(kinds) && i < |kinds|
    ensures TerminalStatus(kinds[i]).Some? ==> StatusGiven(kinds) == TerminalStatus(kinds[i]).value
    ensures StatusGiven(kinds) == Running <==> !TerminalBefore(kinds, |kinds|)
  {
    if TerminalStatus(kinds[i]).Some? {
      UsageAfter(kinds, i, |kinds|);
    }
    StatusIsTerminal(kinds, |kinds|);
    StatusNotRunning(kinds, |kinds|);
  }

  lemma {:induction false} UsageAfter(kinds: seq<ModelEventType>, i: nat, n: nat)
    requires PromisedKinds(kinds) && i < n <= |kinds| && TerminalStatus(kinds[i]).Some?
    ensures StatusAfter(kinds, n) == TerminalStatus(kinds[i])
  {
    if i < n - 1 {
      UsageAfter(kinds, i, n - 1);
    }
  }

  lemma {:induction false} StatusNotRunning(kinds: seq<ModelEventType>, n: nat)
    requires n <= |kinds|
    ensures StatusAfter(kinds, n) != Some(Running)
  {
    if n > 0 {
      StatusNotRunning(kinds, n - 1);
    }
  }

  /** When all is stored: the turn is finalised if an event ended it, and the worker leaves. */
  lemma StoredLeaves(
    w: World, t: string, answer: Option<seq<ModelEventType>>, kinds: seq<ModelEventType>, retry: bool,
    types: seq<EventType>)
    requires WorkerAt(w, t, Storing(kinds, |kinds|, StatusAfter(kinds, |kinds|), retry), types)
    ensures var n := if StatusGiven(kinds) == Running then 2 else 3;
            WorkerDone(WorkerMoves(w, t, answer, n), t, StatusGiven(kinds), types)
  {
    StatusNotRunning(kinds, |kinds|);
    var l := WorkerStep(t, answer, true);
    MovesTwo(w, t, answer);
    if StatusAfter(kinds, |kinds|).None? {
      OpenThenGone(w, t, kinds, retry, answer, types);
    } else {
      var status := StatusAfter(kinds, |kinds|).value;
      ResumeAt(w, t, Settling(status, retry), types);
      assert Move(w, l) == Resume(w, t, Settling(status, retry));
      FinalizedThenGone(Move(w, l), t, status, retry, answer, types);
      MovesNext(w, t, answer, 2);
    }
  }

  lemma MovesTwo(w: World, t: string, answer: Option<seq<ModelEventType>>)
    ensures var l := WorkerStep(t, answer, true);
            WorkerMoves(w, t, answer, 1) == Move(w, l) && WorkerMoves(w, t, answer, 2) == Move(Move(w, l), l)
  {
    MovesNext(w, t, answer, 0);
    MovesNext(w, t, answer, 1);
  }

  lemma OpenThenGone(
    w: World, t: string, kinds: seq<ModelEventType>, retry: bool, answer: Option<seq<ModelEventType>>,
    types: seq<EventType>)
    requires WorkerAt(w, t, Storing(kinds, |kinds|, None, retry), types)
    ensures var l := WorkerStep(t, answer, true);
            WorkerDone(Move(Move(w, l), l), t, Running, types)
  {
    assert Move(w, WorkerStep(t, answer, true)) == Resume(w, t, Ending);
  }

  lemma FinalizedThenGone(
    w: World, t: string, status: TurnStatus, retry: bool, answer: Option<seq<ModelEventType>>, types: seq<EventType>)
    requires WorkerAt(w, t, Settling(status, retry), types)
    ensures var l := WorkerStep(t, answer, true);
            WorkerDone(Move(Move(w, l), l), t, status, types)
  {
    assert Move(w, WorkerStep(t, answer, true)) == Resume(Finalize(w, t, status, ByProvider), t, Ending);
  }

  /** From the storing loop on: everything is stored, the status is given, the worker leaves. */
  lemma StoredRuns(
    w: World, t: string, answer: Option<seq<ModelEventType>>, kinds: seq<ModelEventType>, retry: bool,
    types: seq<EventType>)
    requires WorkerAt(w, t, Storing(kinds, 0, None, retry), types) && PromisedKinds(kinds)
    ensures var n := |kinds| + if StatusGiven(kinds) == Running then 2 else 3;
            WorkerDone(WorkerMoves(w, t, answer, n), t, StatusGiven(kinds), types + Models(kinds))
  {
    StoresInOrder(w, t, answer, kinds, retry, |kinds|, types);
    assert kinds[..|kinds|] == kinds;
    StoredLeaves(WorkerMoves(w, t, answer, |kinds|), t, answer, kinds, retry, types + Models(kinds));
    MovesMore(w, t, answer, |kinds|, if StatusGiven(kinds) == Running then 2 else 3);
  }

  /** A promised answer, undisturbed: all its events are stored in order after
      `runtime.provider.running`, and the turn gets the status they give it. */
  lemma AnswerRuns(w: World, t: string, kinds: seq<ModelEventType>, types: seq<EventType>)
    requires WorkerAt(w, t, Announcing, types) && PromisedKinds(kinds)
    ensures var n := 4 + |kinds| + if StatusGiven(kinds) == Running then 2 else 3;
            WorkerDone(
              WorkerMoves(w, t, Some(kinds), n), t, StatusGiven(kinds), types + [ProviderRunning] + Models(kinds))
  {
    var a := Some(kinds);
    AnswerOpens(w, t, kinds, types);
    StoredRuns(WorkerMoves(w, t, a, 4), t, a, kinds, false, types + [ProviderRunning]);
    MovesMore(w, t, a, 4, |kinds| + if StatusGiven(kinds) == Running then 2 else 3);
  }

  lemma ErrorOpens(w: World, t: string, answer: Option<seq<ModelEventType>>, types: seq<EventType>)
    requires WorkerAt(w, t, Handling, types)
    ensures WorkerAt(WorkerMoves(w, t, answer, 2), t, Storing([ModelError], 0, None, true), types)
  {
    var l := WorkerStep(t, answer, true);
    MovesTwo(w, t, answer);
    ResumeAt(w, t, Opening([ModelError], true), types);
    ResumeAt(Move(w, l), t, Storing([ModelError], 0, None, true), types);
  }

  /** The substituted error: one more event, and the turn fails. */
  lemma ErrorRuns(w: World, t: string, answer: Option<seq<ModelEventType>>, types: seq<EventType>)
    requires WorkerAt(w, t, Handling, types)
    ensures WorkerDone(WorkerMoves(w, t, answer, 6), t, Failed, types + [Model(ModelError)])
  {
    ErrorGives();
    ErrorOpens(w, t, answer, types);
    StoredRuns(WorkerMoves(w, t, answer, 2), t, answer, [ModelError], true, types);
    MovesMore(w, t, answer, 2, 4);
  }

  lemma ErrorGives()
    ensures PromisedKinds([ModelError]) && StatusGiven([ModelError]) == Failed
    ensures Models([ModelError]) == [Model(ModelError)]
  {
    ErrorKinds();
  }

  lemma CallRaises(w: World, t: string, types: seq<EventType>)
    requires WorkerAt(w, t, Announcing, types)
    ensures WorkerAt(WorkerMoves(w, t, None, 2), t, Handling, types + [ProviderRunning])
  {
    MovesTwo(w, t, None);
    AppendResumeAt(w, t, ProviderRunning, Calling, types);
    ResumeAt(Move(w, WorkerStep(t, None, true)), t, Handling, types + [ProviderRunning]);
  }

  /** An adapter that raises leaves the turn failed, with one error event. */
  lemma RaisingAdapterRuns(w: World, t: string, types: seq<EventType>)
    requires WorkerAt(w, t, Announcing, types)
    ensures WorkerDone(WorkerMoves(w, t, None, 8), t, Failed, types + [ProviderRunning, Model(ModelError)])
  {
    CallRaises(w, t, types);
    ErrorRuns(WorkerMoves(w, t, None, 2), t, None, types + [ProviderRunning]);
    MovesMore(w, t, None, 2, 6);
    assert types + [ProviderRunning] + [Model(ModelError)] == types + [ProviderRunning, Model(ModelError)];
  }

  /** A projection that fails at the event after the first `n` leaves those stored, then the error,
      and the turn failed. */
  lemma FailedProjectionRuns(w: World, t: string, kinds: seq<ModelEventType>, n: nat, types: seq<EventType>)
    requires WorkerAt(w, t, Announcing, types) && PromisedKinds(kinds) && n < |kinds|
    ensures var a := Some(kinds);
            var w' := WorkerMoves(Move(WorkerMoves(w, t, a, 4 + n), WorkerStep(t, a, false)), t, a, 6);
            WorkerDone(w', t, Failed, types + [ProviderRunning] + Models(kinds[..n]) + [Model(ModelError)])
  {
    var a := Some(kinds);
    AnswerOpens(w, t, kinds, types);
    StoresInOrder(WorkerMoves(w, t, a, 4), t, a, kinds, false, n, types + [ProviderRunning]);
    MovesMore(w, t, a, 4, n);
    var w1 := WorkerMoves(w, t, a, 4 + n);
    ResumeAt(w1, t, Handling, types + [ProviderRunning] + Models(kinds[..n]));
    ErrorRuns(Move(w1, WorkerStep(t, a, false)), t, a, types + [ProviderRunning] + Models(kinds[..n]));
  }

  /** A whole run: a session with a runtime starts a turn, its provider answers, and the turn has the
      status and the events of that answer. */
  lemma WholeRun(s: string, t: string, cancellable: bool, kinds: seq<ModelEventType>)
    requires PromisedKinds(kinds)
    ensures var start := [Accept(StartTurn(s))] + Repeat(ControlStep(t, true), 4);
            var work := Repeat(WorkerStep(t, Some(kinds), true),
                               4 + |kinds| + if StatusGiven(kinds) == Running then 2 else 3);
            var w := Run(Initial({s}, true, cancellable), start + work);
            WorkerDone(w, t, StatusGiven(kinds), [UserMessage, ProviderQueued, ProviderRunning] + Models(kinds))
  {
    var w0 := Initial({s}, true, cancellable);
    var start := [Accept(StartTurn(s))] + Repeat(ControlStep(t, true), 4);
    var n := 4 + |kinds| + if StatusGiven(kinds) == Running then 2 else 3;
    RunKeeps({s}, true, cancellable, []);
    StartRuns(w0, s, t);
    RunAppend(w0, [Accept(StartTurn(s))], Repeat(ControlStep(t, true), 4));
    assert Run(w0, [Accept(StartTurn(s))]) == Move(w0, Accept(StartTurn(s))) by {
      RunOne(w0, [], Accept(StartTurn(s)));
      assert [] + [Accept(StartTurn(s))] == [Accept(StartTurn(s))];
    }
    var w1 := Run(w0, start);
    AnswerRuns(w1, t, kinds, [UserMessage, ProviderQueued]);
    RunAppend(w0, start, Repeat(WorkerStep(t, Some(kinds), true), n));
    assert [UserMessage, ProviderQueued] + [ProviderRunning] == [UserMessage, ProviderQueued, ProviderRunning];
  }
}
