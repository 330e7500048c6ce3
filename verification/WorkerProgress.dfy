/** Progress: a provider worker that nothing disturbs finishes its turn, whatever the others do. */
module WorkerProgress {
  import opened Sequences
  import opened OperationalHistory
  import opened ProviderAdapter
  import opened TurnProtocol

  // ---------- undisturbed workers ----------

  function KindsOf(events: seq<EventFields>): seq<ModelEventType> {
    seq(|events|, i requires 0 <= i < |events| => events[i].eventType)
  }

  ghost predicate TerminalBefore(kinds: seq<ModelEventType>, n: nat) {
    exists i :: 0 <= i < n && i < |kinds| && TerminalStatus(kinds[i]).Some?
  }

  /** The adapter's promise, on event types alone. */
  ghost predicate PromisedKinds(kinds: seq<ModelEventType>) {
    && (forall i, j :: 0 <= i < j < |kinds| && TerminalStatus(kinds[i]).Some? ==> kinds[j] == UsageUpdated)
    && (TerminalBefore(kinds, |kinds|) || (kinds != [] && kinds[|kinds| - 1] == TurnRequiresTool))
    && NoProviderCancel(kinds)
  }

  lemma AdapterPromises(events: seq<EventFields>)
    requires Promised(events)
    ensures PromisedKinds(KindsOf(events))
  {
    var kinds := KindsOf(events);
    if i :| 0 <= i < |events| && TerminalStatus(events[i].eventType).Some? {
      assert TerminalStatus(kinds[i]).Some?;
    }
  }

  /** A worker here has no second chance: its announcement, and everything about the substituted error. */
  predicate Vital(p: Worker) {
    match p
    case Announcing => true
    case Handling => true
    case Opening(_, retry) => retry
    case Storing(_, _, _, retry) => retry
    case Settling(_, retry) => retry
    case _ => false
  }

  ghost predicate UndisturbedStep(w: World, l: Label, t: string) {
    l.WorkerStep? && l.turnId == t && t in w.workers ==>
      && (l.answer.Some? ==> PromisedKinds(l.answer.value))
      && (Vital(w.workers[t]) ==> l.ok)
  }

  /** The adapter of worker `t` raises or keeps its promise. The first projection may fail at any
      point; only the announcement and the storing of the substituted error do not raise. */
  ghost predicate Undisturbed(w: World, labels: seq<Label>, t: string) {
    labels == []
    || (Undisturbed(w, labels[..|labels| - 1], t)
        && UndisturbedStep(Run(w, labels[..|labels| - 1]), labels[|labels| - 1], t))
  }

  // ---------- what concerns one turn ----------

  /** All of a world that matters for turn `t`. */
  datatype View = View(rows: Log, worker: Option<Worker>, cancelled: bool, finalizer: Option<Actor>)

  function ViewOf(w: World, t: string): View {
    View(InTurn(w.log, t), if t in w.workers then Some(w.workers[t]) else None, t in w.cancelled,
         if t in w.finalizers then Some(w.finalizers[t]) else None)
  }

  ghost predicate Logged(rows: Log, e: EventType) {
    exists i :: 0 <= i < |rows| && rows[i].event.eventType == e
  }

  /** The control thread flagged or finalised the turn. */
  ghost predicate Stopped(v: View) {
    v.cancelled || v.finalizer == Some(ByControl)
  }

  /** The provider finalised the turn or asked for a tool. */
  ghost predicate Finished(v: View) {
    v.finalizer == Some(ByProvider) || Logged(v.rows, Model(TurnRequiresTool))
  }

  ghost predicate OnCourse(rows: Log, p: Worker) {
    match p
    case Announcing => true
    case Calling => true
    case Returned(events) => PromisedKinds(events)
    case Opening(events, _) => PromisedKinds(events)
    case Storing(events, next, terminal, _) =>
      && PromisedKinds(events) && next <= |events|
      && (terminal.Some? <==> TerminalBefore(events, next))
      && (next > 0 && events[next - 1] == TurnRequiresTool ==> Logged(rows, Model(TurnRequiresTool)))
    case Settling(_, _) => true
    case Handling => true
    case Ending => false
  }

  ghost predicate Serving(v: View) {
    || Stopped(v)
    || match v.worker
       case None => Logged(v.rows, ProviderRunning) ==> Finished(v)
       case Some(p) => if p == Ending then Finished(v) else OnCourse(v.rows, p)
  }

  // ---------- steps of the others ----------

  /** What a step of others does to the view: rows are added, the turn may be cancelled or get a worker. */
  ghost predicate Leaves(v: View, v': View) {
    && v.rows <= v'.rows && (Logged(v'.rows, ProviderRunning) ==> Logged(v.rows, ProviderRunning))
    && (v'.worker == v.worker || (v.worker == None && v'.worker == Some(Announcing)))
    && (v.cancelled ==> v'.cancelled)
    && (v'.finalizer == v.finalizer || v'.finalizer == Some(ByControl))
       && (v.finalizer.Some? ==> v'.finalizer == v.finalizer)
  }

  lemma LeftServes(v: View, v': View)
    requires Serving(v) && Leaves(v, v')
    ensures Serving(v')
  {
    forall e | Logged(v.rows, e) ensures Logged(v'.rows, e) {
      var i :| 0 <= i < |v.rows| && v.rows[i].event.eventType == e;
      assert v'.rows[i] == v.rows[i];
    }
  }

  lemma LoggedOne(rows: Log, row: Row, e: EventType)
    ensures Logged(rows + [row], e) ==> Logged(rows, e) || row.event.eventType == e
  {
    if i :| 0 <= i < |rows + [row]| && (rows + [row])[i].event.eventType == e {
      assert i < |rows| ==> rows[i] == (rows + [row])[i];
    }
  }

  lemma AppendLeaves(w: World, turnId: string, e: EventType, t: string)
    requires turnId in w.turns && (turnId == t ==> e != ProviderRunning)
    ensures Leaves(ViewOf(w, t), ViewOf(Append(w, turnId, e), t))
  {
    var w' := Append(w, turnId, e);
    AppendRows(w, turnId, e, t);
    LoggedOne(InTurn(w.log, t), w'.log[|w.log|], ProviderRunning);
    assert ViewOf(w', t) == ViewOf(w, t).(rows := InTurn(w'.log, t));
  }

  lemma NoteLeaves(w: World, turnId: string, e: EventType, ok: bool, c: Control, t: string)
    requires e != ProviderRunning
    ensures Leaves(ViewOf(w, t), ViewOf(Note(w, turnId, e, ok, c), t))
  {
    if ok && turnId in w.turns {
      AppendLeaves(w, turnId, e, t);
      assert ViewOf(Append(w, turnId, e).(control := c), t) == ViewOf(Append(w, turnId, e), t);
    }
  }

  lemma CloseLeaves(w: World, t': string, ok: bool, t: string)
    requires Invariant(w)
    ensures Leaves(ViewOf(w, t), ViewOf(Close(w, t', ok), t))
  {
    assert IsRunning(w, t') ==> t' !in w.finalizers;
  }

  lemma SpawnLeaves(w: World, t': string, t: string)
    requires t' !in w.workers
    ensures Leaves(ViewOf(w, t), ViewOf(w.(workers := w.workers[t' := Announcing], control := Idle), t))
  {}

  lemma OpenLeaves(w: World, s: string, freshId: string, ok: bool, t: string)
    ensures ViewOf(OpenTurn(w, s, freshId, ok), t) == ViewOf(w, t)
  {}

  lemma CheckLeaves(w: World, freshId: string, ok: bool, t: string)
    requires w.control.Idle? || w.control.Cancelling? || w.control.Rechecking? || w.control.Flagging?
    ensures Leaves(ViewOf(w, t), ViewOf(MoveControl(w, freshId, ok), t))
  {}

  lemma ControlLeaves(w: World, freshId: string, ok: bool, t: string)
    requires Invariant(w)
    ensures Leaves(ViewOf(w, t), ViewOf(MoveControl(w, freshId, ok), t))
  {
    match w.control
    case Inserting(s) => OpenLeaves(w, s, freshId, ok, t);
    case Greeting(s, t') => NoteLeaves(w, t', UserMessage, ok, if w.hasRuntime then Queueing(s, t') else Idle, t);
    case Queueing(_, t') => NoteLeaves(w, t', ProviderQueued, ok && t' !in w.workers, Spawning(t'), t);
    case Noting(_, t', e) => NoteLeaves(w, t', e, ok, Idle, t);
    case Marking(_, t') => NoteLeaves(w, t', TurnCancelled, ok, Finalizing(t'), t);
    case Finalizing(t') => CloseLeaves(w, t', ok, t);
    case Spawning(t') => SpawnLeaves(w, t', t);
    case _ => CheckLeaves(w, freshId, ok, t);
  }

  lemma ResumeView(w: World, t': string, p: Worker, t: string)
    requires t' != t
    ensures ViewOf(Resume(w, t', p), t) == ViewOf(w, t)
  {}

  lemma StoreLeaves(
    w: World, t': string, events: seq<ModelEventType>, next: nat, terminal: Option<TurnStatus>, retry: bool, ok: bool,
    t: string)
    requires t' in w.turns && t' != t
    ensures Leaves(ViewOf(w, t), ViewOf(Store(w, t', events, next, terminal, retry, ok), t))
  {
    if next < |events| && ok && !(terminal.Some? && events[next] != UsageUpdated) {
      var status := TerminalStatus(events[next]);
      AppendLeaves(w, t', Model(events[next]), t);
      ResumeView(Append(w, t', Model(events[next])), t',
                 Storing(events, next + 1, if status.Some? then status else terminal, retry), t);
    } else {
      ResumeView(w, t', Store(w, t', events, next, terminal, retry, ok).workers[t'], t);
    }
  }

  lemma SettleLeaves(w: World, t': string, status: TurnStatus, retry: bool, ok: bool, t: string)
    requires t' in w.turns && t' != t
    ensures ViewOf(Settle(w, t', status, retry, ok), t) == ViewOf(w, t)
  {}

  lemma QuietWorkerLeaves(w: World, t': string, answer: Option<seq<ModelEventType>>, ok: bool, t: string)
    requires t' in w.workers && t' in w.turns && t' != t
    requires var p := w.workers[t']; !p.Announcing? && !p.Storing? && !p.Settling?
    ensures ViewOf(MoveWorker(w, t', answer, ok), t) == ViewOf(w, t)
  {
    match w.workers[t']
    case Calling => ResumeView(w, t', if answer.Some? then Returned(answer.value) else Handling, t);
    case Returned(events) => ResumeView(w, t', if t' in w.cancelled then Ending else Opening(events, false), t);
    case Opening(events, retry) =>
      ResumeView(w, t', if IsRunning(w, t') then Storing(events, 0, None, retry) else AfterFailure(retry), t);
    case Handling => ResumeView(w, t', if t' in w.cancelled || !ok then Ending else Opening([ModelError], true), t);
    case Ending =>
  }

  lemma AnnounceLeaves(w: World, t': string, answer: Option<seq<ModelEventType>>, ok: bool, t: string)
    requires t' in w.workers && t' in w.turns && t' != t && w.workers[t'].Announcing?
    ensures Leaves(ViewOf(w, t), ViewOf(MoveWorker(w, t', answer, ok), t))
  {
    AppendLeaves(w, t', ProviderRunning, t);
    ResumeView(Append(w, t', ProviderRunning), t', Calling, t);
    ResumeView(w, t', Ending, t);
  }

  lemma OtherWorkerLeaves(w: World, t': string, answer: Option<seq<ModelEventType>>, ok: bool, t: string)
    requires t' in w.workers && t' in w.turns && t' != t
    ensures Leaves(ViewOf(w, t), ViewOf(MoveWorker(w, t', answer, ok), t))
  {
    match w.workers[t']
    case Announcing => AnnounceLeaves(w, t', answer, ok, t);
    case Storing(events, next, terminal, retry) => StoreLeaves(w, t', events, next, terminal, retry, ok, t);
    case Settling(status, retry) => SettleLeaves(w, t', status, retry, ok, t);
    case _ => QuietWorkerLeaves(w, t', answer, ok, t);
  }

  lemma AcceptLeaves(w: World, r: Request, t: string)
    ensures ViewOf(AcceptRequest(w, r), t) == ViewOf(w, t)
  {}

  lemma OthersLeave(w: World, l: Label, t: string)
    requires Invariant(w) && !(l.WorkerStep? && l.turnId == t)
    ensures Leaves(ViewOf(w, t), ViewOf(Move(w, l), t))
  {
    match l
    case Accept(r) => AcceptLeaves(w, r, t);
    case ControlStep(freshId, ok) => ControlLeaves(w, freshId, ok, t);
    case WorkerStep(t', answer, ok) =>
      if t' in w.workers && t' in w.turns {
        OtherWorkerLeaves(w, t', answer, ok, t);
      }
    case ToolReceipt(t', e, ok) =>
      if ok && t' in w.turns && IsReceipt(e) {
        AppendLeaves(w, t', e, t);
      }
  }

  // ---------- its own steps ----------

  /** A worker on its course that nothing stopped finds its turn running. */
  lemma StillRunning(w: World, t: string)
    requires Invariant(w) && t in w.workers && w.workers[t] != Ending && !Stopped(ViewOf(w, t))
    ensures IsRunning(w, t) && t !in w.finalizers
  {}

  lemma NothingFollows(events: seq<ModelEventType>, next: nat, terminal: Option<TurnStatus>)
    requires PromisedKinds(events) && next < |events| && (terminal.Some? ==> TerminalBefore(events, next))
    ensures terminal.Some? ==> events[next] == UsageUpdated
  {
    if terminal.Some? {
      var i :| 0 <= i < next && i < |events| && TerminalStatus(events[i]).Some?;
    }
  }

  lemma TerminalStep(events: seq<ModelEventType>, next: nat)
    requires next < |events|
    ensures TerminalBefore(events, next + 1) <==> TerminalBefore(events, next) || TerminalStatus(events[next]).Some?
  {
    if i :| 0 <= i < next && TerminalStatus(events[i]).Some? {
      assert TerminalBefore(events, next + 1);
    }
    if TerminalStatus(events[next]).Some? {
      assert TerminalBefore(events, next + 1);
    }
  }

  lemma StoredOnCourse(
    rows: Log, row: Row, events: seq<ModelEventType>, next: nat, terminal: Option<TurnStatus>, retry: bool)
    requires next < |events| && OnCourse(rows, Storing(events, next, terminal, retry))
    requires row.event.eventType == Model(events[next])
    ensures var status := TerminalStatus(events[next]);
            OnCourse(rows + [row], Storing(events, next + 1, if status.Some? then status else terminal, retry))
  {
    TerminalStep(events, next);
    assert (rows + [row])[|rows|] == row;
  }

  lemma ResumedServes(w: World, t: string, p: Worker)
    requires if p == Ending then Finished(ViewOf(w, t)) else OnCourse(InTurn(w.log, t), p)
    ensures Serving(ViewOf(Resume(w, t, p), t))
  {}

  lemma OwnStoreServes(
    w: World, t: string, events: seq<ModelEventType>, next: nat, terminal: Option<TurnStatus>, retry: bool, ok: bool)
    requires t in w.turns && OnCourse(InTurn(w.log, t), Storing(events, next, terminal, retry)) && (retry ==> ok)
    ensures Serving(ViewOf(Store(w, t, events, next, terminal, retry, ok), t))
  {
    if next >= |events| {
      assert terminal.None? ==> events[|events| - 1] == TurnRequiresTool;
      ResumedServes(w, t, if terminal.Some? then Settling(terminal.value, retry) else Ending);
    } else {
      NothingFollows(events, next, terminal);
      if ok {
        OwnRowServes(w, t, events, next, terminal, retry);
      } else {
        ResumedServes(w, t, Handling);
      }
    }
  }

  lemma OwnRowServes(
    w: World, t: string, events: seq<ModelEventType>, next: nat, terminal: Option<TurnStatus>, retry: bool)
    requires t in w.turns && next < |events| && OnCourse(InTurn(w.log, t), Storing(events, next, terminal, retry))
    ensures Serving(ViewOf(StoreNext(w, t, events, next, terminal, retry), t))
  {
    var w', status := Append(w, t, Model(events[next])), TerminalStatus(events[next]);
    AppendRows(w, t, Model(events[next]), t);
    StoredOnCourse(InTurn(w.log, t), w'.log[|w.log|], events, next, terminal, retry);
    ResumedServes(w', t, Storing(events, next + 1, if status.Some? then status else terminal, retry));
  }

  lemma OwnSettleServes(w: World, t: string, status: TurnStatus, retry: bool, ok: bool)
    requires IsRunning(w, t) && (retry ==> ok)
    ensures Serving(ViewOf(Settle(w, t, status, retry, ok), t))
  {
    ResumedServes(Finalize(w, t, status, ByProvider), t, Ending);
    ResumedServes(w, t, Handling);
  }

  /** The substituted error is itself an answer that keeps the promise. */
  lemma ErrorKinds()
    ensures PromisedKinds([ModelError])
  {
    assert TerminalStatus([ModelError][0]).Some?;
  }

  lemma OwnStepServes(w: World, t: string, answer: Option<seq<ModelEventType>>, ok: bool)
    requires Invariant(w) && t in w.workers && w.workers[t] != Ending && !Stopped(ViewOf(w, t))
    requires OnCourse(InTurn(w.log, t), w.workers[t])
    requires (answer.Some? ==> PromisedKinds(answer.value)) && (Vital(w.workers[t]) ==> ok)
    ensures Serving(ViewOf(MoveWorker(w, t, answer, ok), t))
  {
    StillRunning(w, t);
    match w.workers[t]
    case Announcing => ResumedServes(Append(w, t, ProviderRunning), t, Calling);
    case Calling => ResumedServes(w, t, if answer.Some? then Returned(answer.value) else Handling);
    case Returned(events) => ResumedServes(w, t, Opening(events, false));
    case Opening(events, retry) => ResumedServes(w, t, Storing(events, 0, None, retry));
    case Storing(events, next, terminal, retry) => OwnStoreServes(w, t, events, next, terminal, retry, ok);
    case Settling(status, retry) => OwnSettleServes(w, t, status, retry, ok);
    case Handling =>
      ErrorKinds();
      ResumedServes(w, t, Opening([ModelError], true));
  }

  lemma StoreMarks(
    w: World, t: string, events: seq<ModelEventType>, next: nat, terminal: Option<TurnStatus>, retry: bool, ok: bool)
    requires t in w.turns
    ensures var w' := Store(w, t, events, next, terminal, retry, ok);
            w'.finalizers == w.finalizers && w'.cancelled == w.cancelled
  {}

  lemma MarksStay(w: World, t: string, answer: Option<seq<ModelEventType>>, ok: bool)
    requires FinalOk(w.turns, w.log, w.finalizers) && t in w.workers && t in w.turns
    ensures MoveWorker(w, t, answer, ok).cancelled == w.cancelled
    ensures t in w.finalizers ==> MoveWorker(w, t, answer, ok).finalizers == w.finalizers
  {
    assert IsRunning(w, t) ==> t !in w.finalizers;
    match w.workers[t]
    case Storing(events, next, terminal, retry) => StoreMarks(w, t, events, next, terminal, retry, ok);
    case Announcing => assert Append(w, t, ProviderRunning).finalizers == w.finalizers;
    case _ =>
  }

  lemma StoppedStays(w: World, t: string, answer: Option<seq<ModelEventType>>, ok: bool)
    requires Invariant(w) && t in w.workers && Stopped(ViewOf(w, t))
    ensures Stopped(ViewOf(MoveWorker(w, t, answer, ok), t))
  {
    MarksStay(w, t, answer, ok);
  }

  lemma StepServes(w: World, l: Label, t: string)
    requires Invariant(w) && Serving(ViewOf(w, t)) && UndisturbedStep(w, l, t)
    ensures Serving(ViewOf(Move(w, l), t))
  {
    if l.WorkerStep? && l.turnId == t {
      if t in w.workers && w.workers[t] != Ending && !Stopped(ViewOf(w, t)) {
        OwnStepServes(w, t, l.answer, l.ok);
      } else if t in w.workers && Stopped(ViewOf(w, t)) {
        StoppedStays(w, t, l.answer, l.ok);
      }
    } else {
      OthersLeave(w, l, t);
      LeftServes(ViewOf(w, t), ViewOf(Move(w, l), t));
    }
  }

  lemma {:induction false} RunServes(
    sessions: set<string>, hasRuntime: bool, cancellable: bool, labels: seq<Label>, t: string)
    requires Undisturbed(Initial(sessions, hasRuntime, cancellable), labels, t)
    ensures Serving(ViewOf(Run(Initial(sessions, hasRuntime, cancellable), labels), t))
  {
    if labels != [] {
      var init, l := labels[..|labels| - 1], labels[|labels| - 1];
      RunServes(sessions, hasRuntime, cancellable, init, t);
      RunKeeps(sessions, hasRuntime, cancellable, init);
      StepServes(Run(Initial(sessions, hasRuntime, cancellable), init), l, t);
    }
  }

  /** In every interleaving, adapters that raise and first projections that fail included: a worker
      that ran, that control did not cancel and that left the thread table has finalised its turn,
      unless the provider asked for a tool. */
  lemma UndisturbedWorkerFinishes(
    sessions: set<string>, hasRuntime: bool, cancellable: bool, labels: seq<Label>, t: string)
    requires Undisturbed(Initial(sessions, hasRuntime, cancellable), labels, t)
    requires var w := Run(Initial(sessions, hasRuntime, cancellable), labels);
             t !in w.workers && !Stopped(ViewOf(w, t)) && Logged(InTurn(w.log, t), ProviderRunning)
    ensures var w := Run(Initial(sessions, hasRuntime, cancellable), labels);
            || (t in w.turns && w.turns[t].status != Running && t in w.finalizers && w.finalizers[t] == ByProvider)
            || Logged(InTurn(w.log, t), Model(TurnRequiresTool))
  {
    RunServes(sessions, hasRuntime, cancellable, labels, t);
    RunKeeps(sessions, hasRuntime, cancellable, labels);
  }

  // ---------- a worker leaves after boundedly many of its own steps ----------

  /** An upper bound on the worker's remaining steps when its adapter answers at most `k` events; the
      six steps from `Handling` store the substituted error, finalise and leave. */
  function StepsLeft(p: Worker, k: nat): nat {
    match p
    case Announcing => k + 12
    case Calling => k + 11
    case Returned(events) => |events| + 10
    case Opening(events, retry) => |events| + if retry then 4 else 9
    case Storing(events, next, _, retry) =>
      (if next < |events| then |events| - next else 0) + if retry then 3 else 8
    case Settling(_, retry) => if retry then 2 else 7
    case Handling => 6
    case Ending => 1
  }

  lemma OwnStepDescends(w: World, t: string, answer: Option<seq<ModelEventType>>, ok: bool, k: nat)
    requires t in w.workers && t in w.turns && (answer.Some? ==> |answer.value| <= k)
    ensures var w' := MoveWorker(w, t, answer, ok);
            if w.workers[t] == Ending then t !in w'.workers
            else t in w'.workers && StepsLeft(w'.workers[t], k) < StepsLeft(w.workers[t], k)
  {
    match w.workers[t]
    case Storing(events, next, terminal, retry) => StoreDescends(w, t, events, next, terminal, retry, ok, k);
    case Settling(status, retry) => assert Settle(w, t, status, retry, ok).workers[t] in {Ending, AfterFailure(retry)};
    case _ =>
  }

  lemma StoreDescends(
    w: World, t: string, events: seq<ModelEventType>, next: nat, terminal: Option<TurnStatus>, retry: bool, ok: bool,
    k: nat)
    requires t in w.turns
    ensures var w' := Store(w, t, events, next, terminal, retry, ok);
            t in w'.workers && StepsLeft(w'.workers[t], k) < StepsLeft(Storing(events, next, terminal, retry), k)
  {}

  predicate IsOwn(l: Label, t: string) {
    l.WorkerStep? && l.turnId == t
  }

  function OwnSteps(labels: seq<Label>, t: string): nat {
    if labels == [] then 0
    else OwnSteps(labels[..|labels| - 1], t) + if IsOwn(labels[|labels| - 1], t) then 1 else 0
  }

  ghost predicate AnswersWithin(labels: seq<Label>, t: string, k: nat) {
    forall l :: l in labels && IsOwn(l, t) && l.answer.Some? ==> |l.answer.value| <= k
  }

  /** After the first `n` labels the worker is gone, and what it was for is done. */
  ghost predicate DoneAt(w: World, labels: seq<Label>, n: nat, t: string) {
    n <= |labels| &&
    var v := ViewOf(Run(w, labels[..n]), t);
    v.worker == None && (Stopped(v) || Finished(v))
  }

  /** Each of its own steps brings the worker closer to leaving; no step of others moves it. */
  lemma StepCounts(w: World, l: Label, t: string, k: nat)
    requires Invariant(w) && t in w.workers && (IsOwn(l, t) && l.answer.Some? ==> |l.answer.value| <= k)
    ensures var w' := Move(w, l);
            if !IsOwn(l, t) then t in w'.workers && w'.workers[t] == w.workers[t]
            else if w.workers[t] == Ending then t !in w'.workers
            else t in w'.workers && StepsLeft(w'.workers[t], k) < StepsLeft(w.workers[t], k)
  {
    if IsOwn(l, t) {
      OwnStepDescends(w, t, l.answer, l.ok, k);
    } else {
      OthersLeave(w, l, t);
      assert ViewOf(Move(w, l), t).worker == Some(w.workers[t]);
    }
  }

  lemma {:induction false} StepsRunOut(
    sessions: set<string>, hasRuntime: bool, cancellable: bool, labels: seq<Label>, more: seq<Label>, t: string, k: nat)
    requires var w0 := Initial(sessions, hasRuntime, cancellable);
             t in Run(w0, labels).workers && Undisturbed(w0, labels + more, t) && AnswersWithin(more, t, k)
    ensures var w0 := Initial(sessions, hasRuntime, cancellable);
            var w, w' := Run(w0, labels), Run(w0, labels + more);
            || (t in w'.workers && OwnSteps(more, t) + StepsLeft(w'.workers[t], k) <= StepsLeft(w.workers[t], k))
            || exists n :: |labels| <= n <= |labels + more| && DoneAt(w0, labels + more, n, t)
    decreases |more|
  {
    var w0 := Initial(sessions, hasRuntime, cancellable);
    if more == [] {
      assert labels + more == labels;
    } else {
      var init, l := more[..|more| - 1], more[|more| - 1];
      var before, all := labels + init, labels + more;
      assert all[..|all| - 1] == before && all[|all| - 1] == l && l in more;
      assert forall x :: x in init ==> x in more;
      StepsRunOut(sessions, hasRuntime, cancellable, labels, init, t, k);
      if n :| |labels| <= n <= |before| && DoneAt(w0, before, n, t) {
        assert all[..n] == before[..n];
        assert DoneAt(w0, all, n, t);
      } else {
        LastStep(sessions, hasRuntime, cancellable, before, l, t, k);
        assert before + [l] == all;
      }
    }
  }

  lemma LastStep(
    sessions: set<string>, hasRuntime: bool, cancellable: bool, before: seq<Label>, l: Label, t: string, k: nat)
    requires var w0 := Initial(sessions, hasRuntime, cancellable);
             t in Run(w0, before).workers && Undisturbed(w0, before + [l], t)
    requires IsOwn(l, t) && l.answer.Some? ==> |l.answer.value| <= k
    ensures var w0 := Initial(sessions, hasRuntime, cancellable);
            var w, w' := Run(w0, before), Run(w0, before + [l]);
            if t in w'.workers
            then StepsLeft(w'.workers[t], k) + (if IsOwn(l, t) then 1 else 0) <= StepsLeft(w.workers[t], k)
            else DoneAt(w0, before + [l], |before| + 1, t)
  {
    var w0, all := Initial(sessions, hasRuntime, cancellable), before + [l];
    assert all[..|all| - 1] == before && all[..|before| + 1] == all;
    RunKeeps(sessions, hasRuntime, cancellable, before);
    RunServes(sessions, hasRuntime, cancellable, before, t);
    StepCounts(Run(w0, before), l, t, k);
    if t !in Run(w0, all).workers {
      LeavingIsDone(Run(w0, before), l, t);
    }
  }

  lemma LeavingIsDone(w: World, l: Label, t: string)
    requires Invariant(w) && t in w.workers && w.workers[t] == Ending && IsOwn(l, t) && Serving(ViewOf(w, t))
    ensures Stopped(ViewOf(Move(w, l), t)) || Finished(ViewOf(Move(w, l), t))
  {
    assert ViewOf(Move(w, l), t) == ViewOf(w, t).(worker := None);
  }

  /** In every interleaving: given enough steps of its own, a worker whose adapter answers at most `k`
      events leaves the thread table, and by then its turn was cancelled by control, finalised by the
      provider, or the provider asked for a tool. From its start, k + 12 steps are enough. */
  lemma WorkerFinishesInTime(
    sessions: set<string>, hasRuntime: bool, cancellable: bool, labels: seq<Label>, more: seq<Label>, t: string, k: nat)
    requires var w0 := Initial(sessions, hasRuntime, cancellable);
             && t in Run(w0, labels).workers && Undisturbed(w0, labels + more, t) && AnswersWithin(more, t, k)
             && OwnSteps(more, t) >= StepsLeft(Run(w0, labels).workers[t], k)
    ensures var w0 := Initial(sessions, hasRuntime, cancellable);
            exists n :: |labels| <= n <= |labels + more| && DoneAt(w0, labels + more, n, t)
  {
    StepsRunOut(sessions, hasRuntime, cancellable, labels, more, t, k);
  }
}
