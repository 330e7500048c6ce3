/** One control thread and any number of provider workers racing over the turn table and the
    event log. Every history call and every lock-protected access is one step. */
module TurnProtocol {
  import opened Sequences
  import opened OperationalHistory
  import opened ProviderAdapter

  // ---------- program counters ----------

  /** What the control thread does next. */
  datatype Control =
    | Idle
    | Inserting(sessionId: string)                     // no running turn seen: INSERT the new one
    | Greeting(sessionId: string, turnId: string)      // append user.message
    | Queueing(sessionId: string, turnId: string)      // append runtime.provider.queued
    | Spawning(turnId: string)                         // register and start the thread
    | Noting(sessionId: string, turnId: string, eventType: EventType)  // append a steering or interrupt note
    | Cancelling(sessionId: string, turnId: string)    // first is_running check
    | Rechecking(sessionId: string, turnId: string)    // second is_running check, inside cancel
    | Flagging(sessionId: string, turnId: string)      // add to the cancelled set, close the transport
    | Marking(sessionId: string, turnId: string)       // append turn.cancelled
    | Finalizing(turnId: string)                       // finalise as cancelled

  /** What a provider worker does next; `retry` marks the projection of the substituted error. */
  datatype Worker =
    | Announcing                                       // append runtime.provider.running
    | Calling                                          // the adapter
    | Returned(events: seq<ModelEventType>)            // first was_cancelled check
    | Opening(events: seq<ModelEventType>, retry: bool)  // projection reads the turn
    | Storing(events: seq<ModelEventType>, next: nat, terminal: Option<TurnStatus>, retry: bool)
    | Settling(status: TurnStatus, retry: bool)        // finalise the turn
    | Handling                                         // second was_cancelled check
    | Ending                                           // leave the thread table

  datatype Actor = ByControl | ByProvider

  datatype World = World(
    sessions: set<string>, hasRuntime: bool, cancellable: bool,
    turns: map<string, Turn>, log: Log, cancelled: set<string>,
    workers: map<string, Worker>, control: Control,
    finalizers: map<string, Actor>)                    // history variable: who finalised a turn

  datatype Request =
    | StartTurn(sessionId: string)
    | SteerTurn(sessionId: string, turnId: string)
    | InterruptTurn(sessionId: string, turnId: string)
    | CancelTurn(sessionId: string, turnId: string)

  /** One step: `ok` is false when the call the step makes raises. */
  datatype Label =
    | Accept(request: Request)
    | ControlStep(freshId: string, ok: bool)
    | WorkerStep(turnId: string, answer: Option<seq<ModelEventType>>, ok: bool)
    | ToolReceipt(turnId: string, eventType: EventType, ok: bool)

  function Initial(sessions: set<string>, hasRuntime: bool, cancellable: bool): World {
    World(sessions, hasRuntime, cancellable, map[], [], {}, map[], Idle, map[])
  }

  // ---------- steps ----------

  function Append(w: World, turnId: string, eventType: EventType): World
    requires turnId in w.turns
  {
    var event := Event(w.turns[turnId].sessionId, turnId, eventType, None, None);
    var t := ReadSequences(w.log, event);
    w.(log := w.log + [Row(event, t.sessionSequence, t.turnSequence)])
  }

  predicate IsRunning(w: World, turnId: string) {
    turnId in w.turns && w.turns[turnId].status == Running
  }

  predicate HasRunningTurn(w: World, sessionId: string) {
    exists t :: t in w.turns && w.turns[t] == Turn(sessionId, Running)
  }

  function Finalize(w: World, turnId: string, status: TurnStatus, actor: Actor): World
    requires turnId in w.turns
  {
    w.(turns := w.turns[turnId := w.turns[turnId].(status := status)], finalizers := w.finalizers[turnId := actor])
  }

  function AcceptRequest(w: World, r: Request): World {
    if w.control != Idle || r.sessionId !in w.sessions then w
    else match r
      case StartTurn(s) => if HasRunningTurn(w, s) then w else w.(control := Inserting(s))
      case SteerTurn(s, t) => if Active(w, s, t) then w.(control := Noting(s, t, SteeringReceived)) else w
      case InterruptTurn(s, t) => if Active(w, s, t) then w.(control := Noting(s, t, InterruptRequested)) else w
      case CancelTurn(s, t) => if Active(w, s, t) then w.(control := Cancelling(s, t)) else w
  }

  predicate Active(w: World, sessionId: string, turnId: string) {
    turnId in w.turns && w.turns[turnId] == Turn(sessionId, Running)
  }

  /** One append by the control thread, which then goes on at `c` unless the append raises. */
  function Note(w: World, t: string, e: EventType, ok: bool, c: Control): World {
    if !ok || t !in w.turns then w.(control := Idle) else Append(w, t, e).(control := c)
  }

  function OpenTurn(w: World, s: string, freshId: string, ok: bool): World {
    if freshId in w.turns then w  // identifiers are drawn fresh
    else if !ok then w.(control := Idle)
    else w.(turns := w.turns[freshId := Turn(s, Running)], control := Greeting(s, freshId))
  }

  function Close(w: World, t: string, ok: bool): World {
    if !ok || !IsRunning(w, t) then w.(control := Idle)
    else Finalize(w, t, Cancelled, ByControl).(control := Idle)
  }

  function MoveControl(w: World, freshId: string, ok: bool): World {
    match w.control
    case Idle => w
    case Inserting(s) => OpenTurn(w, s, freshId, ok)
    case Greeting(s, t) => Note(w, t, UserMessage, ok, if w.hasRuntime then Queueing(s, t) else Idle)
    case Queueing(s, t) => Note(w, t, ProviderQueued, ok && t !in w.workers, Spawning(t))
    case Spawning(t) => w.(workers := w.workers[t := Announcing], control := Idle)
    case Noting(s, t, e) => Note(w, t, e, ok, Idle)
    case Cancelling(s, t) =>
      if t !in w.workers then w.(control := Marking(s, t))
      else if w.cancellable then w.(control := Rechecking(s, t))
      else w.(control := Idle)
    case Rechecking(s, t) => w.(control := if t in w.workers then Flagging(s, t) else Marking(s, t))
    case Flagging(s, t) => w.(cancelled := w.cancelled + {t}, control := if ok then Marking(s, t) else Idle)
    case Marking(s, t) => Note(w, t, TurnCancelled, ok, Finalizing(t))
    case Finalizing(t) => Close(w, t, ok)
  }

  /** The exception path of `run`: checked for cancellation once, then given up. */
  function AfterFailure(retry: bool): Worker {
    if retry then Ending else Handling
  }

  /** Worker `t` goes on at `p`. */
  function Resume(w: World, t: string, p: Worker): World {
    w.(workers := w.workers[t := p])
  }

  function StoreNext(
    w: World, t: string, events: seq<ModelEventType>, next: nat, terminal: Option<TurnStatus>, retry: bool): World
    requires t in w.turns && next < |events|
  {
    var status := TerminalStatus(events[next]);
    Resume(Append(w, t, Model(events[next])), t,
           Storing(events, next + 1, if status.Some? then status else terminal, retry))
  }

  function Store(
    w: World, t: string, events: seq<ModelEventType>, next: nat, terminal: Option<TurnStatus>, retry: bool,
    ok: bool)
    : World
    requires t in w.turns
  {
    if next >= |events| then Resume(w, t, if terminal.Some? then Settling(terminal.value, retry) else Ending)
    else if !ok || (terminal.Some? && events[next] != UsageUpdated) then Resume(w, t, AfterFailure(retry))
    else StoreNext(w, t, events, next, terminal, retry)
  }

  function Settle(w: World, t: string, status: TurnStatus, retry: bool, ok: bool): World
    requires t in w.turns
  {
    if ok && IsRunning(w, t) then Resume(Finalize(w, t, status, ByProvider), t, Ending)
    else Resume(w, t, AfterFailure(retry))
  }

  function MoveWorker(w: World, t: string, answer: Option<seq<ModelEventType>>, ok: bool): World
    requires t in w.workers && t in w.turns
  {
    match w.workers[t]
    case Announcing => if ok then Resume(Append(w, t, ProviderRunning), t, Calling) else Resume(w, t, Ending)
    case Calling => Resume(w, t, if answer.Some? then Returned(answer.value) else Handling)
    case Returned(events) => Resume(w, t, if t in w.cancelled then Ending else Opening(events, false))
    case Opening(events, retry) =>
      Resume(w, t, if IsRunning(w, t) then Storing(events, 0, None, retry) else AfterFailure(retry))
    case Storing(events, next, terminal, retry) => Store(w, t, events, next, terminal, retry, ok)
    case Settling(status, retry) => Settle(w, t, status, retry, ok)
    case Handling => Resume(w, t, if t in w.cancelled || !ok then Ending else Opening([ModelError], true))
    case Ending => w.(workers := w.workers - {t})
  }

  /** The event types of a tool receipt. */
  predicate IsReceipt(e: EventType) {
    e == ToolCompleted || e == ToolDenied || e == ToolEscalated || e == ToolFailed
  }

  function Move(w: World, l: Label): World {
    match l
    case Accept(r) => AcceptRequest(w, r)
    case ControlStep(freshId, ok) => MoveControl(w, freshId, ok)
    case WorkerStep(t, answer, ok) => if t in w.workers && t in w.turns then MoveWorker(w, t, answer, ok) else w
    case ToolReceipt(t, e, ok) =>
      if ok && t in w.turns && IsReceipt(e) then Append(w, t, e) else w
  }

  function Run(w: World, labels: seq<Label>): World {
    if labels == [] then w else Move(Run(w, labels[..|labels| - 1]), labels[|labels| - 1])
  }

  // ---------- what every step keeps ----------

  /** The rows hold a provider event that ends the turn as `status`, and after it nothing
      that replay understands except tool escalations. */
  ghost predicate Settled(rows: Log, status: TurnStatus) {
    exists i :: 0 <= i < |rows| && SettledAt(rows, status, i)
  }

  ghost predicate SettledAt(rows: Log, status: TurnStatus, i: nat)
    requires i < |rows|
  {
    && rows[i].event.eventType.Model? && TerminalStatus(rows[i].event.eventType.kind) == Some(status)
    && forall j :: i < j < |rows| ==>
         rows[j].event.eventType == ToolEscalated || ReplayStatus(rows[j].event.eventType) == None
  }

  /** A worker that remembers a terminal status has its event in the log. */
  ghost predicate WorkerOk(rows: Log, p: Worker) {
    && (p.Storing? && p.terminal.Some? ==> Settled(rows, p.terminal.value) && p.terminal.value != Running)
    && (p.Settling? ==> Settled(rows, p.status) && p.status != Running)
  }

  ghost predicate ControlOk(
    turns: map<string, Turn>, workers: map<string, Worker>, finalizers: map<string, Actor>, cancelled: set<string>,
    c: Control)
  {
    match c
    case Inserting(s) => forall t :: t in turns ==> turns[t] != Turn(s, Running)
    case Marking(_, t) => t in workers ==> t in cancelled
    case Finalizing(t) => t in workers ==> t in cancelled
    case Greeting(_, t) => t in turns && t !in workers && t !in finalizers
    case Queueing(_, t) => t in turns && t !in workers && t !in finalizers
    case Spawning(t) => t in turns && t !in workers && t !in finalizers
    case Noting(_, _, e) => e == SteeringReceived || e == InterruptRequested
    case _ => true
  }

  ghost predicate LogOk(turns: map<string, Turn>, log: Log) {
    GapFree(log) && SessionsAgree(turns, log)
  }

  ghost predicate TurnsOk(turns: map<string, Turn>) {
    forall t, t' :: t in turns && t' in turns && turns[t].status == Running && turns[t'] == turns[t] ==> t == t'
  }

  /** Who finalised a turn, and what that says about its status and its log. */
  ghost predicate FinalOk(turns: map<string, Turn>, log: Log, finalizers: map<string, Actor>) {
    && finalizers.Keys <= turns.Keys
    && forall t :: t in turns ==>
         if t in finalizers then
           && turns[t].status != Running
           && (if finalizers[t] == ByProvider then Settled(InTurn(log, t), turns[t].status)
              else turns[t].status == Cancelled)
         else turns[t].status == Running
  }

  ghost predicate WorkersOk(log: Log, workers: map<string, Worker>) {
    forall t :: t in workers ==> WorkerOk(InTurn(log, t), workers[t])
  }

  /** A worker of a finalised turn is flagged or about to end. */
  ghost predicate FlagsOk(
    turns: map<string, Turn>, workers: map<string, Worker>, finalizers: map<string, Actor>, cancelled: set<string>)
  {
    && workers.Keys <= turns.Keys
    && forall t :: t in workers && t in finalizers ==>
         if finalizers[t] == ByControl then t in cancelled else workers[t] == Ending
  }

  ghost predicate Invariant(w: World) {
    && LogOk(w.turns, w.log) && TurnsOk(w.turns) && FinalOk(w.turns, w.log, w.finalizers)
    && ControlOk(w.turns, w.workers, w.finalizers, w.cancelled, w.control)
    && WorkersOk(w.log, w.workers) && FlagsOk(w.turns, w.workers, w.finalizers, w.cancelled)
  }

  ghost predicate ControlMayBe(w: World, c: Control) {
    ControlOk(w.turns, w.workers, w.finalizers, w.cancelled, c)
  }

  lemma AppendRows(w: World, turnId: string, eventType: EventType, t: string)
    requires turnId in w.turns
    ensures var w' := Append(w, turnId, eventType);
            InTurn(w'.log, t) == InTurn(w.log, t) + if t == turnId then [w'.log[|w.log|]] else []
    ensures Append(w, turnId, eventType).log[|w.log|].event.eventType == eventType
  {
    var w' := Append(w, turnId, eventType);
    assert w'.log[..|w'.log| - 1] == w.log;
  }

  lemma SettledSurvives(rows: Log, row: Row, status: TurnStatus)
    requires Settled(rows, status)
    requires row.event.eventType == ToolEscalated || ReplayStatus(row.event.eventType) == None
    ensures Settled(rows + [row], status)
  {
    var i :| 0 <= i < |rows| && SettledAt(rows, status, i);
    assert SettledAt(rows + [row], status, i);
  }

  lemma SettlesNow(rows: Log, row: Row, status: TurnStatus)
    requires row.event.eventType.Model? && TerminalStatus(row.event.eventType.kind) == Some(status)
    ensures Settled(rows + [row], status) && status != Running
  {
    assert SettledAt(rows + [row], status, |rows|);
  }

  lemma AppendNumbers(w: World, turnId: string, eventType: EventType)
    requires LogOk(w.turns, w.log) && turnId in w.turns
    ensures LogOk(w.turns, Append(w, turnId, eventType).log)
  {
    var event := Event(w.turns[turnId].sessionId, turnId, eventType, None, None);
    GapFreeMax(w.log, event.sessionId, turnId);
    var w' := Append(w, turnId, eventType);
    assert w'.log[..|w'.log| - 1] == w.log;
  }

  /** Appending an event that no turn ends with keeps everything that was settled. */
  lemma AppendSettled(w: World, turnId: string, eventType: EventType, t: string, status: TurnStatus)
    requires turnId in w.turns && Settled(InTurn(w.log, t), status)
    requires eventType == ToolEscalated || ReplayStatus(eventType) == None
    ensures Settled(InTurn(Append(w, turnId, eventType).log, t), status)
  {
    var w' := Append(w, turnId, eventType);
    AppendRows(w, turnId, eventType, t);
    if t == turnId {
      SettledSurvives(InTurn(w.log, t), w'.log[|w.log|], status);
    } else {
      assert InTurn(w'.log, t) == InTurn(w.log, t);
    }
  }

  lemma AppendKeeps(w: World, turnId: string, eventType: EventType)
    requires Invariant(w) && turnId in w.turns
    requires eventType == ToolEscalated || ReplayStatus(eventType) == None
    ensures Invariant(Append(w, turnId, eventType))
  {
    var log' := Append(w, turnId, eventType).log;
    AppendNumbers(w, turnId, eventType);
    forall t, status | Settled(InTurn(w.log, t), status) ensures Settled(InTurn(log', t), status) {
      AppendSettled(w, turnId, eventType, t, status);
    }
    SettledCarries(w.turns, w.finalizers, w.workers, w.log, log');
  }

  lemma SettledCarries(
    turns: map<string, Turn>, finalizers: map<string, Actor>, workers: map<string, Worker>, log: Log, log': Log)
    requires FinalOk(turns, log, finalizers) && WorkersOk(log, workers)
    requires forall t, status :: Settled(InTurn(log, t), status) ==> Settled(InTurn(log', t), status)
    ensures FinalOk(turns, log', finalizers) && WorkersOk(log', workers)
  {
    forall t | t in workers ensures WorkerOk(InTurn(log', t), workers[t]) {
      assert WorkerOk(InTurn(log, t), workers[t]);
    }
  }

  lemma ControlCounter(w: World, c: Control)
    requires Invariant(w) && ControlMayBe(w, c)
    ensures Invariant(w.(control := c))
  {}

  lemma NoteKeeps(w: World, t: string, e: EventType, ok: bool, c: Control)
    requires Invariant(w) && ReplayStatus(e) == None && (t in w.turns ==> ControlMayBe(w, c))
    ensures Invariant(Note(w, t, e, ok, c))
  {
    if !ok || t !in w.turns {
      ControlCounter(w, Idle);
    } else {
      AppendKeeps(w, t, e);
      ControlCounter(Append(w, t, e), c);
    }
  }

  /** A fresh turn has no rows, no worker and no finaliser, and its session had none running. */
  lemma InsertedTurn(w: World, s: string, t: string)
    requires LogOk(w.turns, w.log) && TurnsOk(w.turns) && FinalOk(w.turns, w.log, w.finalizers) && t !in w.turns
    requires forall x :: x in w.turns ==> w.turns[x] != Turn(s, Running)
    ensures var turns := w.turns[t := Turn(s, Running)];
            LogOk(turns, w.log) && TurnsOk(turns) && FinalOk(turns, w.log, w.finalizers)
  {}

  lemma InsertKeeps(w: World, s: string, freshId: string, ok: bool)
    requires Invariant(w) && w.control == Inserting(s)
    ensures Invariant(OpenTurn(w, s, freshId, ok))
  {
    if freshId !in w.turns {
      if ok {
        InsertedTurn(w, s, freshId);
      } else {
        ControlCounter(w, Idle);
      }
    }
  }

  lemma SpawnKeeps(w: World, t: string)
    requires Invariant(w) && w.control == Spawning(t)
    ensures Invariant(w.(workers := w.workers[t := Announcing], control := Idle))
  {
    var workers := w.workers[t := Announcing];
    assert WorkersOk(w.log, workers) && FlagsOk(w.turns, workers, w.finalizers, w.cancelled);
  }

  lemma FlagKeeps(w: World, s: string, t: string, ok: bool)
    requires Invariant(w) && w.control == Flagging(s, t)
    ensures Invariant(w.(cancelled := w.cancelled + {t}, control := if ok then Marking(s, t) else Idle))
  {
    assert FlagsOk(w.turns, w.workers, w.finalizers, w.cancelled + {t});
  }

  /** Finalising a running turn leaves every other turn, and the table's rules, alone. */
  lemma FinalizedTurn(
    turns: map<string, Turn>, log: Log, finalizers: map<string, Actor>, t: string, status: TurnStatus, actor: Actor)
    requires t in turns && turns[t].status == Running && status != Running
    requires LogOk(turns, log) && TurnsOk(turns) && FinalOk(turns, log, finalizers)
    requires if actor == ByProvider then Settled(InTurn(log, t), status) else status == Cancelled
    ensures var turns' := turns[t := turns[t].(status := status)];
            LogOk(turns', log) && TurnsOk(turns') && FinalOk(turns', log, finalizers[t := actor])
  {}

  lemma CloseKeeps(w: World, t: string, ok: bool)
    requires Invariant(w) && w.control == Finalizing(t)
    ensures Invariant(Close(w, t, ok))
  {
    if ok && IsRunning(w, t) {
      FinalizedTurn(w.turns, w.log, w.finalizers, t, Cancelled, ByControl);
      var w' := Finalize(w, t, Cancelled, ByControl);
      assert FlagsOk(w'.turns, w.workers, w'.finalizers, w.cancelled);
    } else {
      ControlCounter(w, Idle);
    }
  }

  lemma ControlKeeps(w: World, freshId: string, ok: bool)
    requires Invariant(w)
    ensures Invariant(MoveControl(w, freshId, ok))
  {
    match w.control
    case Idle =>
    case Inserting(s) => InsertKeeps(w, s, freshId, ok);
    case Greeting(s, t) => NoteKeeps(w, t, UserMessage, ok, if w.hasRuntime then Queueing(s, t) else Idle);
    case Queueing(_, t) => NoteKeeps(w, t, ProviderQueued, ok && t !in w.workers, Spawning(t));
    case Spawning(t) => SpawnKeeps(w, t);
    case Noting(_, t, e) => NoteKeeps(w, t, e, ok, Idle);
    case Cancelling(s, t) =>
      ControlCounter(w, if t !in w.workers then Marking(s, t) else if w.cancellable then Rechecking(s, t) else Idle);
    case Rechecking(s, t) => ControlCounter(w, if t in w.workers then Flagging(s, t) else Marking(s, t));
    case Flagging(s, t) => FlagKeeps(w, s, t, ok);
    case Marking(_, t) => NoteKeeps(w, t, TurnCancelled, ok, Finalizing(t));
    case Finalizing(t) => CloseKeeps(w, t, ok);
  }

  lemma AcceptKeeps(w: World, r: Request)
    requires Invariant(w)
    ensures Invariant(AcceptRequest(w, r))
  {
    ControlCounter(w, AcceptRequest(w, r).control);
  }

  /** Moving one worker on keeps the invariant when its new position is justified. */
  lemma ResumeKeeps(w: World, t: string, p: Worker)
    requires Invariant(w) && t in w.workers
    requires WorkerOk(InTurn(w.log, t), p)
    requires t in w.finalizers && w.finalizers[t] == ByProvider ==> p == Ending
    ensures Invariant(Resume(w, t, p))
  {
    MovedWorker(w.turns, w.log, w.workers, w.finalizers, w.cancelled, t, p);
    SameWorkerKeys(w, w.workers[t := p]);
  }

  lemma MovedWorker(
    turns: map<string, Turn>, log: Log, workers: map<string, Worker>, finalizers: map<string, Actor>,
    cancelled: set<string>, t: string, p: Worker)
    requires WorkersOk(log, workers) && FlagsOk(turns, workers, finalizers, cancelled) && t in workers
    requires WorkerOk(InTurn(log, t), p) && (t in finalizers && finalizers[t] == ByProvider ==> p == Ending)
    ensures WorkersOk(log, workers[t := p]) && FlagsOk(turns, workers[t := p], finalizers, cancelled)
  {}

  lemma SameWorkerKeys(w: World, workers: map<string, Worker>)
    requires ControlMayBe(w, w.control) && workers.Keys == w.workers.Keys
    ensures ControlOk(w.turns, workers, w.finalizers, w.cancelled, w.control)
  {}

  lemma AnnounceKeeps(w: World, t: string, answer: Option<seq<ModelEventType>>, ok: bool)
    requires Invariant(w) && t in w.workers && w.workers[t].Announcing?
    ensures Invariant(MoveWorker(w, t, answer, ok))
  {
    if ok {
      AppendKeeps(w, t, ProviderRunning);
      ResumeKeeps(Append(w, t, ProviderRunning), t, Calling);
    } else {
      ResumeKeeps(w, t, Ending);
    }
  }

  lemma LeaveKeeps(w: World, t: string)
    requires Invariant(w) && t in w.workers
    ensures Invariant(w.(workers := w.workers - {t}))
  {
    var workers := w.workers - {t};
    assert WorkersOk(w.log, workers) && FlagsOk(w.turns, workers, w.finalizers, w.cancelled);
  }

  lemma StoreKeeps(
    w: World, t: string, events: seq<ModelEventType>, next: nat, terminal: Option<TurnStatus>, retry: bool, ok: bool)
    requires Invariant(w) && t in w.workers && w.workers[t] == Storing(events, next, terminal, retry)
    ensures Invariant(Store(w, t, events, next, terminal, retry, ok))
  {
    if next >= |events| {
      StoredAll(w, t);
    } else if ok && !(terminal.Some? && events[next] != UsageUpdated) {
      StoreOneKeeps(w, t, events, next, terminal, retry);
    } else {
      ResumeKeeps(w, t, AfterFailure(retry));
    }
  }

  lemma StoredAll(w: World, t: string)
    requires Invariant(w) && t in w.workers && w.workers[t].Storing?
    ensures var Storing(events, next, terminal, retry) := w.workers[t];
            Invariant(Resume(w, t, if terminal.Some? then Settling(terminal.value, retry) else Ending))
  {
    var Storing(events, next, terminal, retry) := w.workers[t];
    assert WorkerOk(InTurn(w.log, t), w.workers[t]);
    ResumeKeeps(w, t, if terminal.Some? then Settling(terminal.value, retry) else Ending);
  }

  lemma StoreOneKeeps(
    w: World, t: string, events: seq<ModelEventType>, next: nat, terminal: Option<TurnStatus>, retry: bool)
    requires Invariant(w) && t in w.workers && w.workers[t] == Storing(events, next, terminal, retry) && next < |events|
    ensures Invariant(StoreNext(w, t, events, next, terminal, retry))
  {
    var status := TerminalStatus(events[next]);
    if status.None? {
      AppendKeeps(w, t, Model(events[next]));
      StoredCounter(Append(w, t, Model(events[next])), t, events, next, terminal, retry);
    } else {
      TerminalKeeps(w, t, events[next], Storing(events, next + 1, status, retry));
    }
  }

  lemma StoredCounter(
    w: World, t: string, events: seq<ModelEventType>, next: nat, terminal: Option<TurnStatus>, retry: bool)
    requires Invariant(w) && t in w.workers && w.workers[t] == Storing(events, next, terminal, retry)
    ensures Invariant(Resume(w, t, Storing(events, next + 1, terminal, retry)))
  {
    assert WorkerOk(InTurn(w.log, t), w.workers[t]);
    ResumeKeeps(w, t, Storing(events, next + 1, terminal, retry));
  }

  /** The provider's terminal event is the last row of its turn when it is stored. */
  lemma TerminalKeeps(w: World, t: string, kind: ModelEventType, p: Worker)
    requires Invariant(w) && t in w.workers && w.workers[t] != Ending
    requires p.Storing? && p.terminal.Some? && TerminalStatus(kind) == p.terminal
    ensures Invariant(Resume(Append(w, t, Model(kind)), t, p))
  {
    var log' := Append(w, t, Model(kind)).log;
    AppendNumbers(w, t, Model(kind));
    AppendRows(w, t, Model(kind), t);
    SettlesNow(InTurn(w.log, t), log'[|w.log|], p.terminal.value);
    forall t' | t' != t ensures InTurn(log', t') == InTurn(w.log, t') {
      AppendRows(w, t, Model(kind), t');
    }
    OtherTurnsKeep(w, log', t, p);
    SameWorkerKeys(w, w.workers[t := p]);
  }

  lemma OtherTurnsKeep(w: World, log': Log, t: string, p: Worker)
    requires Invariant(w) && t in w.workers && w.workers[t] != Ending && WorkerOk(InTurn(log', t), p)
    requires forall t' :: t' != t ==> InTurn(log', t') == InTurn(w.log, t')
    ensures FinalOk(w.turns, log', w.finalizers) && WorkersOk(log', w.workers[t := p])
    ensures FlagsOk(w.turns, w.workers[t := p], w.finalizers, w.cancelled)
  {
    OtherTurnsFinal(w.turns, w.log, log', w.finalizers, t);
    OtherWorkers(w.turns, w.log, log', w.workers, w.finalizers, w.cancelled, t, p);
  }

  lemma OtherTurnsFinal(turns: map<string, Turn>, log: Log, log': Log, finalizers: map<string, Actor>, t: string)
    requires FinalOk(turns, log, finalizers) && (t in finalizers ==> finalizers[t] == ByControl)
    requires forall t' :: t' != t ==> InTurn(log', t') == InTurn(log, t')
    ensures FinalOk(turns, log', finalizers)
  {}

  lemma OtherWorkers(
    turns: map<string, Turn>, log: Log, log': Log, workers: map<string, Worker>, finalizers: map<string, Actor>,
    cancelled: set<string>, t: string, p: Worker)
    requires WorkersOk(log, workers) && FlagsOk(turns, workers, finalizers, cancelled)
    requires t in workers && (t in finalizers ==> finalizers[t] == ByControl) && WorkerOk(InTurn(log', t), p)
    requires forall t' :: t' != t ==> InTurn(log', t') == InTurn(log, t')
    ensures WorkersOk(log', workers[t := p]) && FlagsOk(turns, workers[t := p], finalizers, cancelled)
  {}

  lemma SettleKeeps(w: World, t: string, status: TurnStatus, retry: bool, ok: bool)
    requires Invariant(w) && t in w.workers && w.workers[t] == Settling(status, retry)
    ensures Invariant(Settle(w, t, status, retry, ok))
  {
    if ok && IsRunning(w, t) {
      FinalizeKeeps(w, t, status);
    } else {
      ResumeKeeps(w, t, AfterFailure(retry));
    }
  }

  lemma FinalizeKeeps(w: World, t: string, status: TurnStatus)
    requires Invariant(w) && t in w.workers && IsRunning(w, t)
    requires w.workers[t].Settling? && w.workers[t].status == status
    ensures Invariant(Resume(Finalize(w, t, status, ByProvider), t, Ending))
  {
    assert WorkerOk(InTurn(w.log, t), w.workers[t]);
    FinalizedTurn(w.turns, w.log, w.finalizers, t, status, ByProvider);
    FinalizedWorker(w, t, status);
  }

  lemma FinalizedWorker(w: World, t: string, status: TurnStatus)
    requires Invariant(w) && t in w.workers && IsRunning(w, t) && status != Running
    ensures var w' := Finalize(w, t, status, ByProvider);
            && WorkersOk(w.log, w.workers[t := Ending])
            && FlagsOk(w'.turns, w.workers[t := Ending], w'.finalizers, w.cancelled)
            && ControlOk(w'.turns, w.workers[t := Ending], w'.finalizers, w.cancelled, w.control)
  {
    var w' := Finalize(w, t, status, ByProvider);
    assert FlagsOk(w'.turns, w.workers[t := Ending], w'.finalizers, w.cancelled);
    SettledControl(w.turns, w.workers, w.finalizers, w.cancelled, w.control, t, status);
  }

  lemma SettledControl(
    turns: map<string, Turn>, workers: map<string, Worker>, finalizers: map<string, Actor>, cancelled: set<string>,
    c: Control, t: string, status: TurnStatus)
    requires ControlOk(turns, workers, finalizers, cancelled, c)
    requires t in turns && t in workers && status != Running
    ensures ControlOk(turns[t := turns[t].(status := status)], workers[t := Ending], finalizers[t := ByProvider],
        cancelled, c)
  {}

  lemma CheckedKeeps(w: World, t: string, answer: Option<seq<ModelEventType>>, ok: bool)
    requires Invariant(w) && t in w.workers
    requires var p := w.workers[t]; p.Calling? || p.Returned? || p.Opening? || p.Handling?
    ensures Invariant(MoveWorker(w, t, answer, ok))
  {
    match w.workers[t]
    case Calling => ResumeKeeps(w, t, if answer.Some? then Returned(answer.value) else Handling);
    case Returned(events) => ResumeKeeps(w, t, if t in w.cancelled then Ending else Opening(events, false));
    case Opening(events, retry) =>
      ResumeKeeps(w, t, if IsRunning(w, t) then Storing(events, 0, None, retry) else AfterFailure(retry));
    case Handling => ResumeKeeps(w, t, if t in w.cancelled || !ok then Ending else Opening([ModelError], true));
  }

  lemma WorkerKeeps(w: World, t: string, answer: Option<seq<ModelEventType>>, ok: bool)
    requires Invariant(w) && t in w.workers
    ensures Invariant(MoveWorker(w, t, answer, ok))
  {
    match w.workers[t]
    case Announcing => AnnounceKeeps(w, t, answer, ok);
    case Storing(events, next, terminal, retry) => StoreKeeps(w, t, events, next, terminal, retry, ok);
    case Settling(status, retry) => SettleKeeps(w, t, status, retry, ok);
    case Ending => LeaveKeeps(w, t);
    case _ => CheckedKeeps(w, t, answer, ok);
  }

  lemma MoveKeeps(w: World, l: Label)
    requires Invariant(w)
    ensures Invariant(Move(w, l))
  {
    match l
    case Accept(r) => AcceptKeeps(w, r);
    case ControlStep(freshId, ok) => ControlKeeps(w, freshId, ok);
    case WorkerStep(t, answer, ok) =>
      if t in w.workers && t in w.turns {
        WorkerKeeps(w, t, answer, ok);
      }
    case ToolReceipt(t, e, ok) =>
      if ok && t in w.turns && IsReceipt(e) {
        AppendKeeps(w, t, e);
      }
  }

  /** Every interleaving: at most one running turn per session, gap-free logs, and a settled log
      behind every status the provider gave. */
  lemma {:induction false} RunKeeps(sessions: set<string>, hasRuntime: bool, cancellable: bool, labels: seq<Label>)
    ensures Invariant(Run(Initial(sessions, hasRuntime, cancellable), labels))
  {
    if labels != [] {
      RunKeeps(sessions, hasRuntime, cancellable, labels[..|labels| - 1]);
      MoveKeeps(Run(Initial(sessions, hasRuntime, cancellable), labels[..|labels| - 1]), labels[|labels| - 1]);
    }
  }

  /** While one control handles requests in sequence, a session never has two running turns. */
  lemma OneRunningTurnPerSession(
    sessions: set<string>, hasRuntime: bool, cancellable: bool, labels: seq<Label>, t: string, t': string)
    requires var w := Run(Initial(sessions, hasRuntime, cancellable), labels);
             IsRunning(w, t) && IsRunning(w, t') && w.turns[t].sessionId == w.turns[t'].sessionId
    ensures t == t'
  {
    RunKeeps(sessions, hasRuntime, cancellable, labels);
  }

  /** A turn cancelled by the control thread is stored as cancelled, and a worker that still runs
      for it has been flagged, so its next check makes it stop. */
  lemma ControlCancelReachesWorker(
    sessions: set<string>, hasRuntime: bool, cancellable: bool, labels: seq<Label>, t: string)
    requires var w := Run(Initial(sessions, hasRuntime, cancellable), labels);
             t in w.turns && t in w.finalizers && w.finalizers[t] == ByControl
    ensures var w := Run(Initial(sessions, hasRuntime, cancellable), labels);
            && w.turns[t].status == Cancelled
            && (t in w.workers ==> t in w.cancelled)
            && (t in w.workers && (w.workers[t].Returned? || w.workers[t].Handling?) ==>
                  Move(w, WorkerStep(t, None, true)).workers[t] == Ending)
  {
    RunKeeps(sessions, hasRuntime, cancellable, labels);
  }

  // ---------- a status is given once ----------

  ghost predicate KeepsTurn(w: World, w': World, t: string)
    requires t in w.turns
  {
    && t in w'.turns && w'.turns[t].sessionId == w.turns[t].sessionId
    && (w.turns[t].status != Running ==> w'.turns[t] == w.turns[t])
  }

  lemma InsertKeepsTurn(w: World, s: string, freshId: string, ok: bool, t: string)
    requires t in w.turns
    ensures KeepsTurn(w, OpenTurn(w, s, freshId, ok), t)
  {}

  lemma CloseKeepsTurn(w: World, t': string, ok: bool, t: string)
    requires t in w.turns
    ensures KeepsTurn(w, Close(w, t', ok), t)
  {}

  lemma ControlKeepsTurn(w: World, freshId: string, ok: bool, t: string)
    requires t in w.turns
    ensures KeepsTurn(w, MoveControl(w, freshId, ok), t)
  {
    match w.control
    case Inserting(s) => InsertKeepsTurn(w, s, freshId, ok, t);
    case Finalizing(t') => CloseKeepsTurn(w, t', ok, t);
    case Greeting(s, t') => NoteTurns(w, t', UserMessage, ok, if w.hasRuntime then Queueing(s, t') else Idle);
    case Queueing(_, t') => NoteTurns(w, t', ProviderQueued, ok && t' !in w.workers, Spawning(t'));
    case Noting(_, t', e) => NoteTurns(w, t', e, ok, Idle);
    case Marking(_, t') => NoteTurns(w, t', TurnCancelled, ok, Finalizing(t'));
    case _ =>
  }

  lemma NoteTurns(w: World, t: string, e: EventType, ok: bool, c: Control)
    ensures Note(w, t, e, ok, c).turns == w.turns
  {}

  lemma WorkerKeepsTurn(w: World, t': string, answer: Option<seq<ModelEventType>>, ok: bool, t: string)
    requires t in w.turns && t' in w.workers && t' in w.turns
    ensures KeepsTurn(w, MoveWorker(w, t', answer, ok), t)
  {}

  lemma FinalStatusStep(w: World, l: Label, t: string)
    requires t in w.turns
    ensures KeepsTurn(w, Move(w, l), t)
  {
    match l
    case Accept(_) =>
    case ControlStep(freshId, ok) => ControlKeepsTurn(w, freshId, ok, t);
    case WorkerStep(t', answer, ok) =>
      if t' in w.workers && t' in w.turns {
        WorkerKeepsTurn(w, t', answer, ok, t);
      }
    case ToolReceipt(_, _, _) =>
  }

  /** Once a turn has left `running`, no continuation of the run changes its status. */
  lemma {:induction false} FinalStatusStays(
    sessions: set<string>, hasRuntime: bool, cancellable: bool, labels: seq<Label>, more: seq<Label>, t: string)
    requires var w := Run(Initial(sessions, hasRuntime, cancellable), labels);
             t in w.turns && w.turns[t].status != Running
    ensures var w, w' := Run(Initial(sessions, hasRuntime, cancellable), labels),
                         Run(Initial(sessions, hasRuntime, cancellable), labels + more);
            t in w'.turns && w'.turns[t] == w.turns[t]
    decreases |more|
  {
    if more == [] {
      assert labels + more == labels;
    } else {
      var init := more[..|more| - 1];
      assert (labels + more)[..|labels + more| - 1] == labels + init;
      FinalStatusStays(sessions, hasRuntime, cancellable, labels, init, t);
      FinalStatusStep(Run(Initial(sessions, hasRuntime, cancellable), labels + init), more[|more| - 1], t);
    }
  }

  // ---------- stored status and replayed status ----------

  /** Some tool escalation was stored after every terminal provider event. */
  ghost predicate EscalatedLast(rows: Log) {
    exists j :: 0 <= j < |rows| && rows[j].event.eventType == ToolEscalated
      && forall i :: j < i < |rows| && rows[i].event.eventType.Model? ==>
         TerminalStatus(rows[i].event.eventType.kind) == None
  }

  lemma EscalationFollows(rows: Log, status: TurnStatus, i: nat, j: nat)
    requires i < j < |rows| && SettledAt(rows, status, i) && rows[j].event.eventType == ToolEscalated
    ensures EscalatedLast(rows)
  {
    forall k | j < k < |rows| && rows[k].event.eventType.Model?
      ensures TerminalStatus(rows[k].event.eventType.kind) == None
    {
      assert ReplayStatus(rows[k].event.eventType) == None;
    }
  }

  lemma SettledReplay(rows: Log, status: TurnStatus)
    requires Settled(rows, status)
    ensures ReplaysTo(rows, status) <==> !EscalatedLast(rows)
  {
    var i :| 0 <= i < |rows| && SettledAt(rows, status, i);
    if EscalatedLast(rows) {
      var j :| 0 <= j < |rows| && rows[j].event.eventType == ToolEscalated
        && forall k :: j < k < |rows| && rows[k].event.eventType.Model? ==>
           TerminalStatus(rows[k].event.eventType.kind) == None;
      assert ReplayStatus(rows[j].event.eventType) == Some(Escalated);
    } else {
      forall j | i < j < |rows| ensures ReplayStatus(rows[j].event.eventType) == None {
        if rows[j].event.eventType == ToolEscalated {
          EscalationFollows(rows, status, i, j);
          assert false;
        }
      }
      assert ReplayStatus(rows[i].event.eventType) == Some(status);
    }
  }

  /** A turn finalised by projection replays to its stored status exactly when no tool escalation
      follows its terminal event, whatever else was stored, failed or raced before. */
  lemma ProviderStatusReplays(sessions: set<string>, hasRuntime: bool, cancellable: bool, labels: seq<Label>, t: string)
    requires var w := Run(Initial(sessions, hasRuntime, cancellable), labels);
             t in w.turns && t in w.finalizers && w.finalizers[t] == ByProvider
    ensures var w := Run(Initial(sessions, hasRuntime, cancellable), labels);
            var rows := InTurn(w.log, t);
            && w.turns[t].status != Running
            && (ReplaysTo(rows, w.turns[t].status) <==> !EscalatedLast(rows))
  {
    RunKeeps(sessions, hasRuntime, cancellable, labels);
    var w := Run(Initial(sessions, hasRuntime, cancellable), labels);
    SettledReplay(InTurn(w.log, t), w.turns[t].status);
  }

  // ---------- a control cancellation is not replayable ----------

  ghost predicate NoProviderCancel(events: seq<ModelEventType>) {
    forall i :: 0 <= i < |events| ==> events[i] != ModelCancelled
  }

  /** The adapter's answers never contain `model.cancelled`. */
  ghost predicate AdapterLabels(labels: seq<Label>) {
    forall l :: l in labels && l.WorkerStep? && l.answer.Some? ==> NoProviderCancel(l.answer.value)
  }

  ghost predicate CleanLog(log: Log) {
    forall r :: r in log ==> r.event.eventType != Model(ModelCancelled)
  }

  ghost predicate CleanWorker(p: Worker) {
    match p
    case Returned(events) => NoProviderCancel(events)
    case Opening(events, _) => NoProviderCancel(events)
    case Storing(events, _, _, _) => NoProviderCancel(events)
    case _ => true
  }

  ghost predicate Clean(w: World) {
    CleanLog(w.log) && forall t :: t in w.workers ==> CleanWorker(w.workers[t])
  }

  lemma AppendCleanly(w: World, turnId: string, eventType: EventType)
    requires turnId in w.turns && CleanLog(w.log) && eventType != Model(ModelCancelled)
    ensures CleanLog(Append(w, turnId, eventType).log)
  {}

  lemma ResumeCleanly(w: World, t: string, p: Worker)
    requires Clean(w) && CleanWorker(p)
    ensures Clean(Resume(w, t, p))
  {}

  lemma StoreCleanly(
    w: World, t: string, events: seq<ModelEventType>, next: nat, terminal: Option<TurnStatus>, retry: bool, ok: bool)
    requires Clean(w) && t in w.turns && NoProviderCancel(events)
    ensures Clean(Store(w, t, events, next, terminal, retry, ok))
  {
    if next >= |events| {
      ResumeCleanly(w, t, if terminal.Some? then Settling(terminal.value, retry) else Ending);
    } else if !ok || (terminal.Some? && events[next] != UsageUpdated) {
      ResumeCleanly(w, t, AfterFailure(retry));
    } else {
      var status := TerminalStatus(events[next]);
      AppendCleanly(w, t, Model(events[next]));
      ResumeCleanly(Append(w, t, Model(events[next])), t,
                    Storing(events, next + 1, if status.Some? then status else terminal, retry));
    }
  }

  lemma SettleCleanly(w: World, t: string, status: TurnStatus, retry: bool, ok: bool)
    requires Clean(w) && t in w.turns
    ensures Clean(Settle(w, t, status, retry, ok))
  {}

  lemma WorkerCleanly(w: World, t: string, answer: Option<seq<ModelEventType>>, ok: bool)
    requires Clean(w) && t in w.workers && t in w.turns
    requires answer.Some? ==> NoProviderCancel(answer.value)
    ensures Clean(MoveWorker(w, t, answer, ok))
  {
    assert CleanWorker(w.workers[t]);
    match w.workers[t]
    case Announcing =>
      AppendCleanly(w, t, ProviderRunning);
      ResumeCleanly(w, t, Ending);
      ResumeCleanly(Append(w, t, ProviderRunning), t, Calling);
    case Calling => ResumeCleanly(w, t, if answer.Some? then Returned(answer.value) else Handling);
    case Returned(events) => ResumeCleanly(w, t, if t in w.cancelled then Ending else Opening(events, false));
    case Opening(events, retry) =>
      ResumeCleanly(w, t, if IsRunning(w, t) then Storing(events, 0, None, retry) else AfterFailure(retry));
    case Storing(events, next, terminal, retry) => StoreCleanly(w, t, events, next, terminal, retry, ok);
    case Settling(status, retry) => SettleCleanly(w, t, status, retry, ok);
    case Handling => ResumeCleanly(w, t, if t in w.cancelled || !ok then Ending else Opening([ModelError], true));
    case Ending =>
  }

  lemma NoteCleanly(w: World, t: string, e: EventType, ok: bool, c: Control)
    requires Clean(w) && e != Model(ModelCancelled)
    ensures Clean(Note(w, t, e, ok, c))
  {
    if t in w.turns {
      AppendCleanly(w, t, e);
    }
  }

  lemma SpawnCleanly(w: World, t: string)
    requires Clean(w)
    ensures Clean(w.(workers := w.workers[t := Announcing], control := Idle))
  {}

  lemma SameCleanly(w: World, w': World)
    requires Clean(w) && w'.log == w.log && w'.workers == w.workers
    ensures Clean(w')
  {}

  lemma ControlCleanly(w: World, freshId: string, ok: bool)
    requires Clean(w) && ControlMayBe(w, w.control)
    ensures Clean(MoveControl(w, freshId, ok))
  {
    match w.control
    case Greeting(s, t) => NoteCleanly(w, t, UserMessage, ok, if w.hasRuntime then Queueing(s, t) else Idle);
    case Queueing(_, t) => NoteCleanly(w, t, ProviderQueued, ok && t !in w.workers, Spawning(t));
    case Noting(_, t, e) => NoteCleanly(w, t, e, ok, Idle);
    case Marking(_, t) => NoteCleanly(w, t, TurnCancelled, ok, Finalizing(t));
    case Spawning(t) => SpawnCleanly(w, t);
    case Inserting(s) => SameCleanly(w, OpenTurn(w, s, freshId, ok));
    case Finalizing(t) => SameCleanly(w, Close(w, t, ok));
    case _ => SameCleanly(w, MoveControl(w, freshId, ok));
  }

  lemma MoveCleanly(w: World, l: Label)
    requires Clean(w) && ControlMayBe(w, w.control) && AdapterLabels([l])
    ensures Clean(Move(w, l))
  {
    match l
    case Accept(r) => SameCleanly(w, AcceptRequest(w, r));
    case WorkerStep(t, answer, ok) =>
      if t in w.workers && t in w.turns {
        assert l in [l];
        WorkerCleanly(w, t, answer, ok);
      }
    case ControlStep(freshId, ok) => ControlCleanly(w, freshId, ok);
    case ToolReceipt(t, e, ok) =>
      if ok && t in w.turns && IsReceipt(e) {
        AppendCleanly(w, t, e);
      }
  }

  lemma {:induction false} RunCleanly(sessions: set<string>, hasRuntime: bool, cancellable: bool, labels: seq<Label>)
    requires AdapterLabels(labels)
    ensures Clean(Run(Initial(sessions, hasRuntime, cancellable), labels))
  {
    if labels != [] {
      var init, l := labels[..|labels| - 1], labels[|labels| - 1];
      assert l in labels && forall x :: x in init ==> x in labels;
      RunCleanly(sessions, hasRuntime, cancellable, init);
      RunKeeps(sessions, hasRuntime, cancellable, init);
      MoveCleanly(Run(Initial(sessions, hasRuntime, cancellable), init), l);
    }
  }

  lemma CleanRow(log: Log, t: string, row: Row)
    requires CleanLog(log) && row in InTurn(log, t)
    ensures ReplayStatus(row.event.eventType) != Some(Cancelled)
  {
    TurnMembers(log, t, row);
  }

  /** A turn cancelled by the control thread is stored as cancelled but never replays to that
      status: `turn.cancelled` is not among the replayable events. */
  lemma ControlCancelDoesNotReplay(
    sessions: set<string>, hasRuntime: bool, cancellable: bool, labels: seq<Label>, t: string)
    requires AdapterLabels(labels)
    requires var w := Run(Initial(sessions, hasRuntime, cancellable), labels);
             t in w.turns && t in w.finalizers && w.finalizers[t] == ByControl
    ensures var w := Run(Initial(sessions, hasRuntime, cancellable), labels);
            w.turns[t].status == Cancelled && !ReplaysTo(InTurn(w.log, t), Cancelled)
  {
    RunKeeps(sessions, hasRuntime, cancellable, labels);
    RunCleanly(sessions, hasRuntime, cancellable, labels);
    var w := Run(Initial(sessions, hasRuntime, cancellable), labels);
    var rows := InTurn(w.log, t);
    forall i | 0 <= i < |rows| ensures ReplayStatus(rows[i].event.eventType) != Some(Cancelled) {
      CleanRow(w.log, t, rows[i]);
    }
  }

  lemma RunOne(w: World, labels: seq<Label>, l: Label)
    ensures Run(w, labels + [l]) == Move(Run(w, labels), l)
  {
    assert (labels + [l])[..|labels|] == labels;
  }

  function OpeningRun(s: string, t: string): seq<Label> {
    [] + [Accept(StartTurn(s))] + [ControlStep(t, true)] + [ControlStep(t, true)]
  }

  function CancelledRun(s: string, t: string): seq<Label> {
    OpeningRun(s, t) + [Accept(CancelTurn(s, t))] + [ControlStep(t, true)] + [ControlStep(t, true)]
      + [ControlStep(t, true)]
  }

  lemma FirstSteps(s: string, t: string)
    ensures var step := ControlStep(t, true);
            var w := Move(Move(Move(Initial({s}, false, true), Accept(StartTurn(s))), step), step);
            w.control == Idle && w.sessions == {s} && w.turns == map[t := Turn(s, Running)] && w.workers == map[]
  {
    var w0 := Initial({s}, false, true);
    var w1 := Move(w0, Accept(StartTurn(s)));
    assert w1 == w0.(control := Inserting(s));
    var w2 := Move(w1, ControlStep(t, true));
    assert w2 == w0.(turns := map[t := Turn(s, Running)], control := Greeting(s, t));
  }

  lemma TurnOpens(s: string, t: string)
    ensures var w := Run(Initial({s}, false, true), OpeningRun(s, t));
            w.control == Idle && w.sessions == {s} && w.turns == map[t := Turn(s, Running)] && w.workers == map[]
  {
    var w0, begin, step := Initial({s}, false, true), Accept(StartTurn(s)), ControlStep(t, true);
    FirstSteps(s, t);
    RunOne(w0, [], begin);
    RunOne(w0, [] + [begin], step);
    RunOne(w0, [] + [begin] + [step], step);
  }

  lemma TurnCancels(w: World, s: string, t: string)
    requires w.control == Idle && s in w.sessions && w.turns == map[t := Turn(s, Running)] && w.workers == map[]
    ensures var step := ControlStep(t, true);
            var w' := Move(Move(Move(Move(w, Accept(CancelTurn(s, t))), step), step), step);
            && t in w'.turns && w'.turns[t] == Turn(s, Cancelled)
            && t in w'.finalizers && w'.finalizers[t] == ByControl
  {
    var w1 := Move(w, Accept(CancelTurn(s, t)));
    assert w1 == w.(control := Cancelling(s, t));
    var w2 := Move(w1, ControlStep(t, true));
    assert w2 == w.(control := Marking(s, t));
    var w3 := Move(w2, ControlStep(t, true));
    assert w3.control == Finalizing(t) && w3.turns == w.turns;
  }

  /** Such runs exist: a turn is opened, greeted, cancelled, marked and finalised. */
  lemma ControlCancelHappens(s: string, t: string)
    ensures var w := Run(Initial({s}, false, true), CancelledRun(s, t));
            && t in w.turns && w.turns[t] == Turn(s, Cancelled) && t in w.finalizers && w.finalizers[t] == ByControl
            && !ReplaysTo(InTurn(w.log, t), Cancelled)
  {
    var w0, opening, step := Initial({s}, false, true), OpeningRun(s, t), ControlStep(t, true);
    var cancel := opening + [Accept(CancelTurn(s, t))];
    TurnOpens(s, t);
    RunOne(w0, opening, Accept(CancelTurn(s, t)));
    RunOne(w0, cancel, step);
    RunOne(w0, cancel + [step], step);
    RunOne(w0, cancel + [step] + [step], step);
    TurnCancels(Run(w0, opening), s, t);
    ControlCancelDoesNotReplay({s}, false, true, CancelledRun(s, t), t);
  }
}
