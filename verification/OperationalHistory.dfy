/** The ordered session, turn and event history kept in one SQLite database. */
module OperationalHistory {
  import opened Sequences
  import Text

  datatype TurnStatus = Running | Completed | Failed | Cancelled | Incomplete | Refused | Escalated

  datatype ModelEventType =
    | TurnStarted | MessageDelta | MessageCompleted | ReasoningSummaryDelta | ReasoningSummaryCompleted
    | ToolCallStarted | ToolCallArgumentsDelta | ToolCallCompleted | UsageUpdated
    | TurnRequiresTool | TurnRequiresContinuation
    | TurnCompleted | TurnIncomplete | TurnRefused | ModelCancelled | ModelError

  predicate BlankType(t: EventType) {
    t.Other? && Text.Blank(t.name)
  }

  /** The stored event type; `Other` stands for every string not named here. */
  datatype EventType =
    | Model(kind: ModelEventType)
    | UserMessage | SteeringReceived | InterruptRequested | TurnCancelled
    | ProviderQueued | ProviderRunning
    | ToolCompleted | ToolDenied | ToolEscalated | ToolFailed
    | Other(name: string)

  datatype Turn = Turn(sessionId: string, status: TurnStatus)

  datatype Event = Event(
    sessionId: string, turnId: string, eventType: EventType,
    providerToolCallId: Option<string>, lbeCallId: Option<string>)

  datatype Row = Row(event: Event, sessionSequence: nat, turnSequence: nat)

  type Log = seq<Row>

  datatype HistoryError = SessionNotFound | TurnNotFound | AlreadyFinalized | IntegrityError | NotReplayable
    | InvalidEvent | EventAfterTerminal

  // ---------- sequence numbers ----------

  function InSession(log: Log, sessionId: string): Log {
    if log == [] then []
    else InSession(log[..|log| - 1], sessionId)
         + if log[|log| - 1].event.sessionId == sessionId then [log[|log| - 1]] else []
  }

  function InTurn(log: Log, turnId: string): Log {
    if log == [] then []
    else InTurn(log[..|log| - 1], turnId)
         + if log[|log| - 1].event.turnId == turnId then [log[|log| - 1]] else []
  }

  /** SELECT COALESCE(MAX(session_sequence), 0) ... WHERE session_id = ? */
  function MaxSession(log: Log, sessionId: string): nat {
    if log == [] then 0
    else
      var m := MaxSession(log[..|log| - 1], sessionId);
      var last := log[|log| - 1];
      if last.event.sessionId == sessionId && last.sessionSequence > m then last.sessionSequence else m
  }

  /** SELECT COALESCE(MAX(turn_sequence), 0) ... WHERE turn_id = ? */
  function MaxTurn(log: Log, turnId: string): nat {
    if log == [] then 0
    else
      var m := MaxTurn(log[..|log| - 1], turnId);
      var last := log[|log| - 1];
      if last.event.turnId == turnId && last.turnSequence > m then last.turnSequence else m
  }

  /** Every row carries the next number of its session and the next number of its turn. */
  ghost predicate GapFree(log: Log) {
    log == [] ||
    (var init, last := log[..|log| - 1], log[|log| - 1];
     && GapFree(init)
     && last.sessionSequence == |InSession(init, last.event.sessionId)| + 1
     && last.turnSequence == |InTurn(init, last.event.turnId)| + 1)
  }

  lemma {:induction false} GapFreeMax(log: Log, sessionId: string, turnId: string)
    requires GapFree(log)
    ensures MaxSession(log, sessionId) == |InSession(log, sessionId)|
    ensures MaxTurn(log, turnId) == |InTurn(log, turnId)|
  {
    if log != [] {
      GapFreeMax(log[..|log| - 1], sessionId, turnId);
    }
  }

  /** Gap-free from 1: the k-th event of a session, or of a turn, has number k. */
  lemma {:induction false} GapFreeNumbers(log: Log, sessionId: string, turnId: string)
    requires GapFree(log)
    ensures forall k :: 0 <= k < |InSession(log, sessionId)| ==> InSession(log, sessionId)[k].sessionSequence == k + 1
    ensures forall k :: 0 <= k < |InTurn(log, turnId)| ==> InTurn(log, turnId)[k].turnSequence == k + 1
  {
    if log != [] {
      GapFreeNumbers(log[..|log| - 1], sessionId, turnId);
    }
  }

  lemma {:induction false} TurnMembers(log: Log, turnId: string, row: Row)
    ensures row in InTurn(log, turnId) <==> row in log && row.event.turnId == turnId
  {
    if log != [] {
      TurnMembers(log[..|log| - 1], turnId, row);
      assert log == log[..|log| - 1] + [log[|log| - 1]];
    }
  }

  lemma {:induction false} SessionMembers(log: Log, sessionId: string, row: Row)
    ensures row in InSession(log, sessionId) <==> row in log && row.event.sessionId == sessionId
  {
    if log != [] {
      SessionMembers(log[..|log| - 1], sessionId, row);
      assert log == log[..|log| - 1] + [log[|log| - 1]];
    }
  }

  // ---------- concurrent appends ----------

  /** What `append_event` holds between its SELECTs and its INSERT. */
  datatype Ticket = Ticket(event: Event, sessionSequence: nat, turnSequence: nat)

  /** The two SELECTs, one on each log. */
  function ReadAcross(first: Log, second: Log, event: Event): Ticket {
    Ticket(event, MaxSession(first, event.sessionId) + 1, MaxTurn(second, event.turnId) + 1)
  }

  function ReadSequences(log: Log, event: Event): Ticket {
    ReadAcross(log, log, event)
  }

  /** UNIQUE(session_id, session_sequence) and UNIQUE(turn_id, turn_sequence). */
  predicate Unused(log: Log, t: Ticket) {
    forall r :: r in log ==>
      && !(r.event.sessionId == t.event.sessionId && r.sessionSequence == t.sessionSequence)
      && !(r.event.turnId == t.event.turnId && r.turnSequence == t.turnSequence)
  }

  /** The INSERT: it fails, leaving the table alone, when a UNIQUE constraint would break. */
  function Insert(log: Log, t: Ticket): Result<Log, HistoryError> {
    if Unused(log, t) then Success(log + [Row(t.event, t.sessionSequence, t.turnSequence)])
    else Failure(IntegrityError)
  }

  /** What a thread holds after its first SELECT, and after its second. */
  datatype Reading = SessionRead(event: Event, sessionSequence: nat) | BothRead(ticket: Ticket)

  datatype Race = Race(log: Log, readings: map<nat, Reading>)

  /** One database statement of one thread. */
  datatype Statement = SelectSession(thread: nat, event: Event) | SelectTurn(thread: nat) | Write(thread: nat)

  function Execute(s: Race, a: Statement): Race {
    match a
    case SelectSession(thread, event) =>
      s.(readings := s.readings[thread := SessionRead(event, MaxSession(s.log, event.sessionId) + 1)])
    case SelectTurn(thread) =>
      if thread !in s.readings || s.readings[thread].BothRead? then s
      else
        var SessionRead(event, sessionSequence) := s.readings[thread];
        var t := Ticket(event, sessionSequence, MaxTurn(s.log, event.turnId) + 1);
        s.(readings := s.readings[thread := BothRead(t)])
    case Write(thread) =>
      if thread !in s.readings || s.readings[thread].SessionRead? then s
      else
        var rest := s.readings - {thread};
        match Insert(s.log, s.readings[thread].ticket)
        case Success(log) => Race(log, rest)
        case Failure(_) => Race(s.log, rest)
  }

  function ExecuteAll(s: Race, statements: seq<Statement>): Race {
    if statements == [] then s
    else Execute(ExecuteAll(s, statements[..|statements| - 1]), statements[|statements| - 1])
  }

  /** A number is at most one more than the events counted when it was read. */
  ghost predicate ReadingOk(log: Log, r: Reading) {
    match r
    case SessionRead(event, n) => 1 <= n <= |InSession(log, event.sessionId)| + 1
    case BothRead(t) =>
      && 1 <= t.sessionSequence <= |InSession(log, t.event.sessionId)| + 1
      && 1 <= t.turnSequence <= |InTurn(log, t.event.turnId)| + 1
  }

  ghost predicate RaceInvariant(s: Race) {
    GapFree(s.log) && forall thread :: thread in s.readings ==> ReadingOk(s.log, s.readings[thread])
  }

  /** No constraint is broken exactly when both numbers are the next ones. */
  lemma UnusedIffNext(log: Log, t: Ticket)
    requires GapFree(log)
    requires 1 <= t.sessionSequence <= |InSession(log, t.event.sessionId)| + 1
    requires 1 <= t.turnSequence <= |InTurn(log, t.event.turnId)| + 1
    ensures Unused(log, t) <==>
              && t.sessionSequence == |InSession(log, t.event.sessionId)| + 1
              && t.turnSequence == |InTurn(log, t.event.turnId)| + 1
  {
    var ofSession, ofTurn := InSession(log, t.event.sessionId), InTurn(log, t.event.turnId);
    GapFreeNumbers(log, t.event.sessionId, t.event.turnId);
    if t.sessionSequence <= |ofSession| {
      SessionMembers(log, t.event.sessionId, ofSession[t.sessionSequence - 1]);
    } else if t.turnSequence <= |ofTurn| {
      TurnMembers(log, t.event.turnId, ofTurn[t.turnSequence - 1]);
    } else {
      NextIsUnused(log, t);
    }
  }

  lemma UnusedIsNext(log: Log, t: Ticket)
    requires GapFree(log) && Unused(log, t)
    requires 1 <= t.sessionSequence <= |InSession(log, t.event.sessionId)| + 1
    requires 1 <= t.turnSequence <= |InTurn(log, t.event.turnId)| + 1
    ensures GapFree(log + [Row(t.event, t.sessionSequence, t.turnSequence)])
  {
    UnusedIffNext(log, t);
    var log' := log + [Row(t.event, t.sessionSequence, t.turnSequence)];
    assert log'[..|log'| - 1] == log;
  }

  lemma ReadingsStay(log: Log, later: Log, r: Reading)
    requires log <= later && ReadingOk(log, r)
    ensures ReadingOk(later, r)
  {
    var event := if r.SessionRead? then r.event else r.ticket.event;
    FiltersGrow(log, later, event.sessionId, event.turnId);
  }

  lemma RaceStep(s: Race, a: Statement)
    requires RaceInvariant(s)
    ensures RaceInvariant(Execute(s, a))
  {
    match a
    case SelectSession(thread, event) => GapFreeMax(s.log, event.sessionId, event.turnId);
    case SelectTurn(thread) =>
      if thread in s.readings && s.readings[thread].SessionRead? {
        assert ReadingOk(s.log, s.readings[thread]);
        GapFreeMax(s.log, s.readings[thread].event.sessionId, s.readings[thread].event.turnId);
      }
    case Write(thread) => WriteStep(s, thread);
  }

  lemma WriteStep(s: Race, thread: nat)
    requires RaceInvariant(s)
    ensures RaceInvariant(Execute(s, Write(thread)))
  {
    if thread in s.readings && s.readings[thread].BothRead? && Unused(s.log, s.readings[thread].ticket) {
      var s' := Execute(s, Write(thread));
      assert ReadingOk(s.log, s.readings[thread]);
      UnusedIsNext(s.log, s.readings[thread].ticket);
      forall other | other in s'.readings ensures ReadingOk(s'.log, s'.readings[other]) {
        ReadingsStay(s.log, s'.log, s.readings[other]);
      }
    }
  }

  /** The SELECTs and INSERTs of any number of threads may interleave freely: the UNIQUE
      constraints turn every lost race into a failed append, never into a gap. */
  lemma {:induction false} AppendsStayGapFree(statements: seq<Statement>)
    ensures RaceInvariant(ExecuteAll(Race([], map[]), statements))
  {
    if statements != [] {
      AppendsStayGapFree(statements[..|statements| - 1]);
      RaceStep(ExecuteAll(Race([], map[]), statements[..|statements| - 1]), statements[|statements| - 1]);
    }
  }

  /** Which append of a race is lost: exactly one whose session grew since its first SELECT, or
      whose turn grew since its second. */
  lemma LostRace(first: Log, second: Log, later: Log, event: Event)
    requires GapFree(first) && GapFree(second) && GapFree(later) && first <= second <= later
    ensures Insert(later, ReadAcross(first, second, event)).Success? <==>
              && InSession(later, event.sessionId) == InSession(first, event.sessionId)
              && InTurn(later, event.turnId) == InTurn(second, event.turnId)
  {
    GapFreeMax(first, event.sessionId, event.turnId);
    GapFreeMax(second, event.sessionId, event.turnId);
    FiltersGrow(first, later, event.sessionId, event.turnId);
    FiltersGrow(second, later, event.sessionId, event.turnId);
    UnusedIffNext(later, ReadAcross(first, second, event));
  }

  lemma NextIsUnused(log: Log, t: Ticket)
    requires GapFree(log)
    requires t.sessionSequence == |InSession(log, t.event.sessionId)| + 1
    requires t.turnSequence == |InTurn(log, t.event.turnId)| + 1
    ensures Unused(log, t)
  {
    GapFreeNumbers(log, t.event.sessionId, t.event.turnId);
    forall r | r in log
      ensures !(r.event.sessionId == t.event.sessionId && r.sessionSequence == t.sessionSequence)
      ensures !(r.event.turnId == t.event.turnId && r.turnSequence == t.turnSequence)
    {
      SessionMembers(log, t.event.sessionId, r);
      TurnMembers(log, t.event.turnId, r);
    }
  }

  lemma {:induction false} FiltersGrow(log: Log, later: Log, sessionId: string, turnId: string)
    requires log <= later
    ensures InSession(log, sessionId) <= InSession(later, sessionId)
    ensures InTurn(log, turnId) <= InTurn(later, turnId)
    decreases |later|
  {
    if log == later {
    } else {
      FiltersGrow(log, later[..|later| - 1], sessionId, turnId);
    }
  }

  // ---------- reading the log back ----------

  predicate SessionSequenceLe(a: Row, b: Row) {
    a.sessionSequence <= b.sessionSequence
  }

  /** ORDER BY session_sequence returns a session's events in the order they were appended. */
  lemma EventsForSessionInOrder(log: Log, sessionId: string, rows: Log)
    requires GapFree(log)
    requires multiset(rows) == multiset(InSession(log, sessionId)) && Sorted(rows, SessionSequenceLe)
    ensures rows == InSession(log, sessionId)
  {
    GapFreeNumbers(log, sessionId, "");
    SortedUnique(InSession(log, sessionId), rows, SessionSequenceLe);
  }

  predicate TurnSequenceLe(a: Row, b: Row) {
    a.turnSequence <= b.turnSequence
  }

  lemma RowsAreOrdered(log: Log, turnId: string)
    requires GapFree(log)
    ensures Sorted(InTurn(log, turnId), TurnSequenceLe)
    ensures forall x, y | x in InTurn(log, turnId) && y in InTurn(log, turnId) ::
              TurnSequenceLe(x, y) && TurnSequenceLe(y, x) ==> x == y
  {
    GapFreeNumbers(log, "", turnId);
  }

  /** ORDER BY turn_sequence returns a turn's events in the order they were appended. */
  lemma EventsForTurnInOrder(log: Log, turnId: string, rows: Log)
    requires GapFree(log)
    requires multiset(rows) == multiset(InTurn(log, turnId)) && Sorted(rows, TurnSequenceLe)
    ensures rows == InTurn(log, turnId)
  {
    RowsAreOrdered(log, turnId);
    SortedUnique(InTurn(log, turnId), rows, TurnSequenceLe);
  }

  ghost predicate SessionsAgree(turns: map<string, Turn>, log: Log) {
    forall r :: r in log ==> r.event.turnId in turns && r.event.sessionId == turns[r.event.turnId].sessionId
  }

  /** A session's log, filtered by one of its turns, is that turn's log in the same order. */
  lemma {:induction false} SessionLogRefines(turns: map<string, Turn>, log: Log, turnId: string)
    requires SessionsAgree(turns, log) && turnId in turns
    ensures InTurn(InSession(log, turns[turnId].sessionId), turnId) == InTurn(log, turnId)
  {
    if log != [] {
      var init, last := log[..|log| - 1], log[|log| - 1];
      assert forall r :: r in init ==> r in log;
      SessionLogRefines(turns, init, turnId);
      var ofSession := InSession(init, turns[turnId].sessionId);
      if last.event.sessionId == turns[turnId].sessionId {
        assert (ofSession + [last])[..|ofSession|] == ofSession;
      } else {
        assert last in log && last.event.turnId != turnId;
        assert InSession(log, turns[turnId].sessionId) == ofSession;
        assert InTurn(log, turnId) == InTurn(init, turnId);
      }
    }
  }

  // ---------- replay ----------

  function ReplayStatus(t: EventType): Option<TurnStatus> {
    match t
    case Model(TurnCompleted) => Some(Completed)
    case Model(TurnIncomplete) => Some(Incomplete)
    case Model(TurnRefused) => Some(Refused)
    case Model(ModelCancelled) => Some(Cancelled)
    case Model(ModelError) => Some(Failed)
    case ToolEscalated => Some(Escalated)
    case _ => None
  }

  /** The meaning of the last replayable event, if there is one. */
  ghost predicate ReplaysTo(rows: Log, status: TurnStatus) {
    exists i :: 0 <= i < |rows| && ReplayStatus(rows[i].event.eventType) == Some(status)
                && forall j :: i < j < |rows| ==> ReplayStatus(rows[j].event.eventType) == None
  }

  ghost predicate Unreplayable(rows: Log) {
    forall i :: 0 <= i < |rows| ==> ReplayStatus(rows[i].event.eventType) == None
  }

  // ---------- the history object ----------

  class SessionOperationalHistory {
    var sessions: set<string>
    var turns: map<string, Turn>
    var created: seq<string>  // turn identifiers in order of creation
    var log: Log

    /** The schema's constraints, and the numbering kept by `AppendEvent`. */
    ghost predicate Valid()
      reads this
    {
      && GapFree(log)
      && (forall t :: t in created <==> t in turns)
      && Distinct(created)
      && (forall t :: t in turns ==> turns[t].sessionId in sessions)
      && (forall r :: r in log ==> r.event.turnId in turns)
    }

    constructor (sessions: set<string>)
      ensures Valid() && this.sessions == sessions && turns == map[] && created == [] && log == []
    {
      this.sessions, turns, created, log := sessions, map[], [], [];
    }

    /** `turnId` is the fresh identifier drawn by the caller. */
    method StartTurn(sessionId: string, turnId: string) returns (r: Result<Turn, HistoryError>)
      requires Valid() && turnId !in turns
      modifies this`turns, this`created
      ensures Valid()
      ensures r == if sessionId in sessions then Success(Turn(sessionId, Running)) else Failure(SessionNotFound)
      ensures turns == if r.Success? then old(turns)[turnId := r.value] else old(turns)
      ensures created == if r.Success? then old(created) + [turnId] else old(created)
    {
      if sessionId !in sessions {
        return Failure(SessionNotFound);
      }
      var turn := Turn(sessionId, Running);
      turns := turns[turnId := turn];
      DistinctConcat(created, [turnId]);
      created := created + [turnId];
      return Success(turn);
    }

    /** Without a concurrent writer an append can only fail on a missing turn. */
    method AppendEvent(event: Event) returns (r: Result<Row, HistoryError>)
      requires Valid()
      modifies this`log
      ensures Valid()
      ensures r.Success? <==> event.turnId in turns && !BlankType(event.eventType)
      ensures r.Success? ==> log == old(log) + [r.value] && r.value.event == event
      ensures r.Failure? ==> log == old(log)
      ensures r.Failure? ==> r.error == if BlankType(event.eventType) then InvalidEvent else IntegrityError
    {
      if BlankType(event.eventType) {
        return Failure(InvalidEvent);
      }
      var ticket := ReadSequences(log, event);
      if event.turnId !in turns {
        return Failure(IntegrityError);
      }
      GapFreeMax(log, event.sessionId, event.turnId);
      LostRace(log, log, log, event);
      UnusedIsNext(log, ticket);
      log := log + [Row(event, ticket.sessionSequence, ticket.turnSequence)];
      return Success(Row(event, ticket.sessionSequence, ticket.turnSequence));
    }

    /** UPDATE ... WHERE turn_id = ? AND status = 'running' */
    method FinalizeTurn(turnId: string, status: TurnStatus) returns (r: Result<Turn, HistoryError>)
      requires Valid()
      modifies this`turns
      ensures Valid()
      ensures r.Success? <==> turnId in old(turns) && old(turns)[turnId].status == Running
      ensures r.Success? ==> turns == old(turns)[turnId := r.value]
                             && r.value == old(turns)[turnId].(status := status)
      ensures r.Failure? ==> turns == old(turns) && r.error == AlreadyFinalized
    {
      if turnId !in turns || turns[turnId].status != Running {
        return Failure(AlreadyFinalized);
      }
      turns := turns[turnId := turns[turnId].(status := status)];
      return Success(turns[turnId]);
    }

    /** ORDER BY created_at DESC LIMIT 1: the running turn of the session that was created last. */
    method LatestRunningTurn(sessionId: string) returns (r: Option<string>)
      requires Valid()
      ensures r.Some? ==> exists i :: 0 <= i < |created| && LatestAt(sessionId, i) && created[i] == r.value
      ensures r.None? ==> forall t :: t in turns ==> turns[t] != Turn(sessionId, Running)
    {
      var i := |created|;
      while i > 0
        invariant 0 <= i <= |created|
        invariant forall j :: i <= j < |created| ==> turns[created[j]] != Turn(sessionId, Running)
      {
        i := i - 1;
        if turns[created[i]] == Turn(sessionId, Running) {
          assert LatestAt(sessionId, i);
          return Some(created[i]);
        }
      }
      return None;
    }

    ghost predicate LatestAt(sessionId: string, i: nat)
      requires Valid() && i < |created|
      reads this
    {
      && turns[created[i]] == Turn(sessionId, Running)
      && forall j :: i < j < |created| ==> turns[created[j]] != Turn(sessionId, Running)
    }

    method EventsForTurn(turnId: string) returns (rows: Log)
      requires Valid()
      ensures rows == InTurn(log, turnId)
    {
      rows := Sort(InTurn(log, turnId), TurnSequenceLe);
      SortIsSorted(InTurn(log, turnId), TurnSequenceLe);
      EventsForTurnInOrder(log, turnId, rows);
    }

    method EventsForSession(sessionId: string) returns (rows: Log)
      requires Valid()
      ensures rows == InSession(log, sessionId)
    {
      rows := Sort(InSession(log, sessionId), SessionSequenceLe);
      SortIsSorted(InSession(log, sessionId), SessionSequenceLe);
      EventsForSessionInOrder(log, sessionId, rows);
    }

    method ReplayTurnStatus(turnId: string) returns (r: Result<TurnStatus, HistoryError>)
      requires Valid()
      ensures r.Success? ==> ReplaysTo(InTurn(log, turnId), r.value)
      ensures r.Failure? <==> Unreplayable(InTurn(log, turnId))
      ensures r.Failure? ==> r.error == NotReplayable
    {
      var rows := EventsForTurn(turnId);
      var i := |rows|;
      while i > 0
        invariant 0 <= i <= |rows|
        invariant forall j :: i <= j < |rows| ==> ReplayStatus(rows[j].event.eventType) == None
      {
        i := i - 1;
        var s := ReplayStatus(rows[i].event.eventType);
        if s.Some? {
          return Success(s.value);
        }
      }
      return Failure(NotReplayable);
    }
  }
}
