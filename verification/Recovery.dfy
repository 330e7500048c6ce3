/** Bounded recovery: attempts are counted in a persisted record that outlives the calls. */
module Recovery {
  import opened Sequences
  import Text

  datatype FailureClass =
    | ProviderFailure | Timeout | TemporaryToolFailure | ValidationFailure | PermissionDenial
    | StaleWorkspace | ScopeConflict | MissingDependency | Cancellation | Unknown

  /** Classes that a policy may not declare retryable. */
  predicate Forbidden(f: FailureClass) {
    f == PermissionDenial || f == ScopeConflict || f == ValidationFailure || f == Cancellation
  }

  datatype PolicyFields = PolicyFields(
    maxAttempts: int, retryable: set<FailureClass>, requireIdempotent: bool, requireEvidence: bool)

  /** The checks of `RetryPolicy.__post_init__` that concern attempts. */
  predicate ValidPolicy(p: PolicyFields) {
    p.maxAttempts >= 1 && forall f :: f in p.retryable ==> !Forbidden(f)
  }

  type RetryPolicy = p: PolicyFields | ValidPolicy(p) witness PolicyFields(1, {}, true, false)

  datatype State = State(attemptCount: nat, lastFailure: Option<FailureClass>, terminal: bool, succeeded: bool)

  /** What one attempt meets. `Lost`: the process dies, or classifying or persisting raises,
      after the operation ran and before its attempt is recorded. */
  datatype Execution = Returns | Raises(failure: FailureClass) | Lost

  datatype Evidence = Supplied | Refused | EvidenceRaises

  /** `stopLost`: recording a stop, for a cancellation or for missing evidence, raises. */
  datatype Attempt = Attempt(
    cancelled: bool, execution: Execution, evidence: Evidence, sleepInterrupted: bool, stopLost: bool)

  /** A verified validation result under one task identifier; `isRecovery` is predicate == "recovery_state". */
  datatype MemoryRecord = MemoryRecord(subject: string, isRecovery: bool, value: State)

  /** The store keys a recovery record by workspace, task and operation. */
  datatype Key = Key(workspaceId: string, taskId: string, operationId: string)

  /** One call of `run_with_recovery`. `ahead` and `behind` are the task's other verified results, as
      the store ranks them around the operation's own record; `world(n)` is what the attempt after n
      attempts meets. */
  datatype CallFields = CallFields(
    policy: RetryPolicy, workspaceId: string, taskId: string, operationId: string, idempotent: bool,
    ahead: seq<MemoryRecord>, behind: seq<MemoryRecord>, world: nat -> Attempt)

  /** `ahead` and `behind` hold no record of the operation: the store updates a record in place. */
  predicate OthersOnly(c: CallFields) {
    && (forall r :: r in c.ahead ==> !Wanted(r, Text.Strip(c.operationId)))
    && (forall r :: r in c.behind ==> !Wanted(r, Text.Strip(c.operationId)))
  }

  type Call = c: CallFields | OthersOnly(c)
    witness CallFields(PolicyFields(1, {}, true, false), "", "", "", true, [], [],
      _ => Attempt(true, Lost, Refused, true, true))

  function KeyOf(c: Call): Key {
    Key(c.workspaceId, Text.Strip(c.taskId), Text.Strip(c.operationId))
  }

  datatype Outcome =
    | Returned | InvalidRequest | AlreadyCompleted | AlreadyStopped | CancelledBefore
    | OperationRaised(failure: FailureClass) | EvidenceMissing | EvidenceFailed | Interrupted | Exhausted
    | Died | StopLost

  /** One operation: the persisted record, and what happened in the world: how its executions went,
      in order. */
  datatype Ledger = Ledger(persisted: Option<State>, history: seq<Execution>)

  function Count(history: seq<Execution>, e: Execution): nat {
    if history == [] then 0
    else Count(history[..|history| - 1], e) + if history[|history| - 1] == e then 1 else 0
  }

  /** Executions whose attempt was never recorded. */
  function LostOf(l: Ledger): nat {
    Count(l.history, Lost)
  }

  /** Calls that returned normally. */
  function Completions(l: Ledger): nat {
    Count(l.history, Returns)
  }

  type Ledgers = map<Key, Ledger>

  const FRESH := Ledger(None, [])

  function At(ledgers: Ledgers, key: Key): Ledger {
    if key in ledgers then ledgers[key] else FRESH
  }

  const PAGE: nat := 500

  // ---------- loading ----------

  predicate Wanted(r: MemoryRecord, operationId: string) {
    r.subject == "recovery:" + operationId && r.isRecovery
  }

  function FirstWanted(records: seq<MemoryRecord>, operationId: string): Option<State> {
    if records == [] then None
    else if Wanted(records[0], operationId) then Some(records[0].value)
    else FirstWanted(records[1..], operationId)
  }

  /** The first page of a ranking. */
  function Page(ranking: seq<MemoryRecord>): seq<MemoryRecord> {
    if |ranking| <= PAGE then ranking else ranking[..PAGE]
  }

  /** The task's verified results as the store ranks them when the call is made. */
  function RankingFor(l: Ledger, c: Call): seq<MemoryRecord> {
    var operationId := Text.Strip(c.operationId);
    c.ahead
    + (if l.persisted.Some? then [MemoryRecord("recovery:" + operationId, true, l.persisted.value)] else [])
    + c.behind
  }

  ghost predicate OnlyRecordAt(ranking: seq<MemoryRecord>, operationId: string, rank: nat) {
    && rank < |ranking|
    && forall i :: 0 <= i < |ranking| ==> (Wanted(ranking[i], operationId) <==> i == rank)
  }

  method LoadRecoveryState(ranking: seq<MemoryRecord>, operationId: string) returns (r: Option<State>)
    ensures r == FirstWanted(Page(ranking), operationId)
  {
    var records := Page(ranking);
    for i := 0 to |records|
      invariant FirstWanted(records, operationId) == FirstWanted(records[i..], operationId)
    {
      assert records[i..][1..] == records[i + 1..];
      if Wanted(records[i], operationId) {
        return Some(records[i].value);
      }
    }
    return None;
  }

  lemma {:induction false} NoneWanted(records: seq<MemoryRecord>, operationId: string)
    requires forall i :: 0 <= i < |records| ==> !Wanted(records[i], operationId)
    ensures FirstWanted(records, operationId) == None
  {
    if records != [] {
      NoneWanted(records[1..], operationId);
    }
  }

  lemma {:induction false} OneWanted(records: seq<MemoryRecord>, operationId: string, rank: nat)
    requires OnlyRecordAt(records, operationId, rank)
    ensures FirstWanted(records, operationId) == Some(records[rank].value)
  {
    if rank > 0 {
      assert !Wanted(records[0], operationId);
      assert forall i :: 0 <= i < |records| - 1 ==> records[1..][i] == records[i + 1];
      OneWanted(records[1..], operationId, rank - 1);
    }
  }

  /** An operation's only record is found exactly when it is on the first page. */
  lemma RecordFoundIff(ranking: seq<MemoryRecord>, operationId: string, rank: nat)
    requires OnlyRecordAt(ranking, operationId, rank)
    ensures FirstWanted(Page(ranking), operationId) == if rank < PAGE then Some(ranking[rank].value) else None
  {
    assert forall i :: 0 <= i < |Page(ranking)| ==> Page(ranking)[i] == ranking[i];
    if rank < PAGE {
      OneWanted(Page(ranking), operationId, rank);
    } else {
      NoneWanted(Page(ranking), operationId);
    }
  }

  /** What a call loads: its record, unless a page of other results is ranked ahead of it. */
  lemma LoadedIff(l: Ledger, c: Call)
    ensures Loaded(l, c) == if |c.ahead| < PAGE then l.persisted else None
    ensures l.persisted.Some? ==> OnlyRecordAt(RankingFor(l, c), Text.Strip(c.operationId), |c.ahead|)
  {
    var ranking, operationId := RankingFor(l, c), Text.Strip(c.operationId);
    var own := if l.persisted.Some? then 1 else 0;
    forall i | 0 <= i < |ranking| ensures Wanted(ranking[i], operationId) <==> own == 1 && i == |c.ahead| {
      if i < |c.ahead| {
        assert ranking[i] == c.ahead[i] && c.ahead[i] in c.ahead;
      } else if i >= |c.ahead| + own {
        assert ranking[i] == c.behind[i - |c.ahead| - own] && ranking[i] in c.behind;
      }
    }
    if l.persisted.Some? {
      RecordFoundIff(ranking, operationId, |c.ahead|);
    } else {
      assert forall i :: 0 <= i < |Page(ranking)| ==> Page(ranking)[i] == ranking[i];
      NoneWanted(Page(ranking), operationId);
    }
  }

  // ---------- one call as a function ----------

  predicate Accepted(c: Call) {
    && !Text.Blank(c.taskId) && !Text.Blank(c.operationId)
    && !(c.policy.maxAttempts > 1 && c.policy.requireIdempotent && !c.idempotent)
  }

  function Loaded(l: Ledger, c: Call): Option<State> {
    FirstWanted(Page(RankingFor(l, c)), Text.Strip(c.operationId))
  }

  function Persist(l: Ledger, s: State): Ledger {
    l.(persisted := Some(s))
  }

  function RunAttempts(l: Ledger, attempts: nat, c: Call): (Ledger, Outcome)
    decreases c.policy.maxAttempts - attempts
  {
    if attempts >= c.policy.maxAttempts then (l, Exhausted)
    else
      var a := c.world(attempts);
      if a.cancelled && a.stopLost then (l, StopLost)
      else if a.cancelled then (Persist(l, State(attempts, Some(Cancellation), true, false)), CancelledBefore)
      else
        var n := attempts + 1;
        var ran := l.(history := l.history + [a.execution]);
        match a.execution
        case Lost => (ran, Died)
        case Returns => (Persist(ran, State(n, None, true, true)), Returned)
        case Raises(f) =>
          var terminal := f !in c.policy.retryable || n >= c.policy.maxAttempts;
          var failed := Persist(ran, State(n, Some(f), terminal, false));
          if terminal then (failed, OperationRaised(f))
          else if c.policy.requireEvidence && a.evidence == EvidenceRaises then (failed, EvidenceFailed)
          else if c.policy.requireEvidence && a.evidence == Refused && a.stopLost then (failed, StopLost)
          else if c.policy.requireEvidence && a.evidence == Refused then
            (Persist(failed, State(n, Some(f), true, false)), EvidenceMissing)
          else if a.sleepInterrupted then (failed, Interrupted)
          else RunAttempts(failed, n, c)
  }

  function RunCall(l: Ledger, c: Call): (Ledger, Outcome) {
    if !Accepted(c) then (l, InvalidRequest)
    else
      var previous := Loaded(l, c);
      if previous.Some? && previous.value.terminal then
        (l, if previous.value.succeeded then AlreadyCompleted else AlreadyStopped)
      else RunAttempts(l, if previous.Some? then previous.value.attemptCount else 0, c)
  }

  /** The call acts on the ledger of its own operation. */
  function Serve(ledgers: Ledgers, c: Call): (Ledgers, Outcome) {
    var (l, outcome) := RunCall(At(ledgers, KeyOf(c)), c);
    (ledgers[KeyOf(c) := l], outcome)
  }

  function ServeAll(ledgers: Ledgers, calls: seq<Call>): Ledgers {
    if calls == [] then ledgers else Serve(ServeAll(ledgers, calls[..|calls| - 1]), calls[|calls| - 1]).0
  }

  // ---------- the runtime object ----------

  class RecoveryRuntime {
    var ledgers: Ledgers

    constructor ()
      ensures ledgers == map[]
    {
      ledgers := map[];
    }

    /** `persist_recovery_state`: the operation's record is replaced. */
    method Record(key: Key, s: State)
      modifies this
      ensures ledgers == old(ledgers)[key := Persist(At(old(ledgers), key), s)]
    {
      ledgers := ledgers[key := Persist(At(ledgers, key), s)];
    }

    method RunWithRecovery(c: Call) returns (outcome: Outcome)
      modifies this
      ensures At(ledgers, KeyOf(c)) == RunCall(At(old(ledgers), KeyOf(c)), c).0
      ensures outcome == RunCall(At(old(ledgers), KeyOf(c)), c).1
      ensures forall k :: k != KeyOf(c) ==> At(ledgers, k) == At(old(ledgers), k)
    {
      if Text.Blank(c.taskId) || Text.Blank(c.operationId) {
        return InvalidRequest;
      }
      if c.policy.maxAttempts > 1 && c.policy.requireIdempotent && !c.idempotent {
        return InvalidRequest;
      }
      var key := KeyOf(c);
      var previous := LoadRecoveryState(RankingFor(At(ledgers, key), c), key.operationId);
      if previous.Some? && previous.value.terminal {
        return if previous.value.succeeded then AlreadyCompleted else AlreadyStopped;
      }
      outcome := Attempts(c, key, if previous.Some? then previous.value.attemptCount else 0);
    }

    /** The retry loop. */
    method Attempts(c: Call, key: Key, start: nat) returns (outcome: Outcome)
      modifies this
      ensures At(ledgers, key) == RunAttempts(At(old(ledgers), key), start, c).0
      ensures outcome == RunAttempts(At(old(ledgers), key), start, c).1
      ensures forall k :: k != key ==> At(ledgers, k) == At(old(ledgers), k)
    {
      var attempts := start;
      while attempts < c.policy.maxAttempts
        invariant RunAttempts(At(ledgers, key), attempts, c) == RunAttempts(At(old(ledgers), key), start, c)
        invariant forall k :: k != key ==> At(ledgers, k) == At(old(ledgers), k)
        decreases c.policy.maxAttempts - attempts
      {
        var stop := Attempt(c, key, attempts);
        if stop.Some? {
          return stop.value;
        }
        attempts := attempts + 1;
      }
      return Exhausted;
    }

    /** One pass of the loop; `None` goes on with the next attempt. */
    method Attempt(c: Call, key: Key, done: nat) returns (stop: Option<Outcome>)
      requires done < c.policy.maxAttempts
      modifies this
      ensures var l, l' := At(old(ledgers), key), At(ledgers, key);
              if stop.Some? then RunAttempts(l, done, c) == (l', stop.value)
              else RunAttempts(l, done, c) == RunAttempts(l', done + 1, c)
      ensures forall k :: k != key ==> At(ledgers, k) == At(old(ledgers), k)
    {
      var a := c.world(done);
      if a.cancelled && a.stopLost {
        return Some(StopLost);
      }
      if a.cancelled {
        Record(key, State(done, Some(Cancellation), true, false));
        return Some(CancelledBefore);
      }
      var n := done + 1;
      var l := At(ledgers, key);
      ledgers := ledgers[key := l.(history := l.history + [a.execution])];
      match a.execution {
        case Lost =>
          return Some(Died);
        case Returns =>
          Record(key, State(n, None, true, true));
          return Some(Returned);
        case Raises(f) =>
          var terminal := f !in c.policy.retryable || n >= c.policy.maxAttempts;
          Record(key, State(n, Some(f), terminal, false));
          if terminal {
            return Some(OperationRaised(f));
          }
          if c.policy.requireEvidence {
            if a.evidence == EvidenceRaises {
              return Some(EvidenceFailed);
            }
            if a.evidence == Refused && a.stopLost {
              return Some(StopLost);
            }
            if a.evidence == Refused {
              Record(key, State(n, Some(f), true, false));
              return Some(EvidenceMissing);
            }
          }
          return if a.sleepInterrupted then Some(Interrupted) else None;
      }
    }
  }

  // ---------- what every history of calls keeps ----------

  function RecordedAttempts(l: Ledger): nat {
    if l.persisted.Some? then l.persisted.value.attemptCount else 0
  }

  predicate Stopped(l: Ledger) {
    l.persisted.Some? && l.persisted.value.terminal
  }

  /** Every execution is recorded or lost, and a normal return is recorded as final success. */
  ghost predicate Consistent(l: Ledger) {
    && |l.history| == RecordedAttempts(l) + LostOf(l)
    && Completions(l) == if Stopped(l) && l.persisted.value.succeeded then 1 else 0
  }

  /** No call on the operation has a page of other results ranked ahead of its record. */
  ghost predicate Visible(calls: seq<Call>, key: Key) {
    forall c :: c in calls && KeyOf(c) == key ==> |c.ahead| < PAGE
  }

  /** The largest max_attempts among the calls on the operation. */
  function LargestMax(calls: seq<Call>, key: Key): nat {
    if calls == [] then 0
    else
      var m, c := LargestMax(calls[..|calls| - 1], key), calls[|calls| - 1];
      if KeyOf(c) == key then Raised(m, c) else m
  }

  /** After an attempt that raised and did not end the operation. */
  function Failed(l: Ledger, f: FailureClass, n: nat): Ledger {
    Persist(l.(history := l.history + [Raises(f)]), State(n, Some(f), false, false))
  }

  lemma CountOne(history: seq<Execution>, last: Execution, e: Execution)
    ensures Count(history + [last], e) == Count(history, e) + if last == e then 1 else 0
  {
    assert (history + [last])[..|history|] == history;
  }

  lemma KeepsLost(l: Ledger)
    requires Consistent(l)
    ensures Consistent(l.(history := l.history + [Lost]))
    ensures Completions(l.(history := l.history + [Lost])) == Completions(l)
  {
    CountOne(l.history, Lost, Lost);
    CountOne(l.history, Lost, Returns);
  }

  lemma KeepsRecorded(l: Ledger, e: Execution, s: State)
    requires Consistent(l) && !Stopped(l) && e != Lost
    requires s.attemptCount == RecordedAttempts(l) + 1 && (e == Returns <==> s.terminal && s.succeeded)
    ensures Consistent(Persist(l.(history := l.history + [e]), s))
    ensures Completions(Persist(l.(history := l.history + [e]), s)) == if e == Returns then 1 else 0
  {
    CountOne(l.history, e, Lost);
    CountOne(l.history, e, Returns);
  }

  /** What a call that starts after `attempts` attempts leaves consistent. */
  ghost predicate Kept(attempts: nat, c: Call, l: Ledger, l': Ledger, outcome: Outcome) {
    && Consistent(l') && (outcome == Returned <==> Completions(l') == 1)
    && attempts <= RecordedAttempts(l') && (RecordedAttempts(l') <= c.policy.maxAttempts || l' == l)
  }

  lemma {:induction false} AttemptsKeep(l: Ledger, attempts: nat, c: Call)
    requires Consistent(l) && !Stopped(l) && attempts == RecordedAttempts(l)
    ensures var (l', outcome) := RunAttempts(l, attempts, c);
            Kept(attempts, c, l, l', outcome)
    decreases c.policy.maxAttempts - attempts, 1
  {
    if attempts < c.policy.maxAttempts && !c.world(attempts).cancelled {
      match c.world(attempts).execution
      case Lost => KeepsLost(l);
      case Returns => KeepsRecorded(l, Returns, State(attempts + 1, None, true, true));
      case Raises(f) => RaiseKeeps(l, attempts, c, f);
    }
  }

  lemma {:induction false} RaiseKeeps(l: Ledger, attempts: nat, c: Call, f: FailureClass)
    requires Consistent(l) && !Stopped(l) && attempts == RecordedAttempts(l) < c.policy.maxAttempts
    requires !c.world(attempts).cancelled && c.world(attempts).execution == Raises(f)
    ensures var (l', outcome) := RunAttempts(l, attempts, c);
            Kept(attempts, c, l, l', outcome)
    decreases c.policy.maxAttempts - attempts, 0
  {
    var n := attempts + 1;
    KeepsRecorded(l, Raises(f), State(n, Some(f), true, false));
    KeepsRecorded(l, Raises(f), State(n, Some(f), false, false));
    if f in c.policy.retryable && n < c.policy.maxAttempts {
      AttemptsKeep(Failed(l, f, n), n, c);
    }
  }

  ghost predicate Within(l: Ledger, bound: nat) {
    Consistent(l) && RecordedAttempts(l) <= bound
  }

  function Raised(bound: nat, c: Call): nat {
    if c.policy.maxAttempts > bound then c.policy.maxAttempts else bound
  }

  lemma CallKeeps(l: Ledger, c: Call, bound: nat)
    requires Within(l, bound) && |c.ahead| < PAGE
    ensures Within(RunCall(l, c).0, Raised(bound, c))
  {
    LoadedIff(l, c);
    if Accepted(c) && !Stopped(l) {
      AttemptsKeep(l, RecordedAttempts(l), c);
    }
  }

  /** Calls on one operation leave every other operation's record and history alone. */
  lemma {:induction false} OtherOperationsUntouched(ledgers: Ledgers, calls: seq<Call>, key: Key)
    requires forall c :: c in calls ==> KeyOf(c) != key
    ensures At(ServeAll(ledgers, calls), key) == At(ledgers, key)
  {
    if calls != [] {
      var init, c := calls[..|calls| - 1], calls[|calls| - 1];
      assert c in calls && forall x :: x in init ==> x in calls;
      OtherOperationsUntouched(ledgers, init, key);
    }
  }

  /** Over any calls on any operations, for each operation: the recorded attempts are the executions
      that were not lost, they never exceed the largest limit used, and at most one call returned
      normally. */
  lemma CallsKeep(calls: seq<Call>, key: Key)
    requires Visible(calls, key)
    ensures var l := At(ServeAll(map[], calls), key);
            && Consistent(l) && RecordedAttempts(l) <= LargestMax(calls, key)
            && |l.history| <= LargestMax(calls, key) + LostOf(l) && Completions(l) <= 1
  {
    ServedWithin(calls, key);
  }

  lemma Served(ledgers: Ledgers, c: Call, key: Key)
    ensures At(Serve(ledgers, c).0, key) ==
            if KeyOf(c) == key then RunCall(At(ledgers, key), c).0 else At(ledgers, key)
  {}

  lemma ServeKeeps(ledgers: Ledgers, c: Call, key: Key, bound: nat)
    requires Within(At(ledgers, key), bound) && (KeyOf(c) == key ==> |c.ahead| < PAGE)
    ensures Within(At(Serve(ledgers, c).0, key), if KeyOf(c) == key then Raised(bound, c) else bound)
  {
    Served(ledgers, c, key);
    if KeyOf(c) == key {
      CallKeeps(At(ledgers, key), c, bound);
    }
  }

  lemma {:induction false} ServedWithin(calls: seq<Call>, key: Key)
    requires Visible(calls, key)
    ensures Within(At(ServeAll(map[], calls), key), LargestMax(calls, key))
  {
    if calls != [] {
      var init, c := calls[..|calls| - 1], calls[|calls| - 1];
      assert c in calls && forall x :: x in init ==> x in calls;
      ServedWithin(init, key);
      ServeKeeps(ServeAll(map[], init), c, key, LargestMax(init, key));
    }
  }

  /** Once an operation has stopped, no call on it runs anything or changes its record, whatever
      policies later calls bring and whatever other operations do meanwhile. */
  lemma {:induction false} NothingRunsAfterStop(ledgers: Ledgers, calls: seq<Call>, key: Key)
    requires Stopped(At(ledgers, key)) && Visible(calls, key)
    ensures At(ServeAll(ledgers, calls), key) == At(ledgers, key)
    ensures forall c :: c in calls && KeyOf(c) == key ==>
              RunCall(At(ledgers, key), c).1 in {InvalidRequest, AlreadyCompleted, AlreadyStopped}
  {
    if calls != [] {
      var init, c := calls[..|calls| - 1], calls[|calls| - 1];
      assert c in calls && forall x :: x in calls ==> x in init || x == c;
      NothingRunsAfterStop(ledgers, init, key);
      LoadedIff(At(ledgers, key), c);
    }
  }

  /** A call leaves the operation undecided only by dying, by a store that raises on recording a stop,
      by an interrupted wait or evidence callback, or because it was refused any attempt. */
  lemma {:induction false} UndecidedCalls(l: Ledger, attempts: nat, c: Call)
    requires attempts == RecordedAttempts(l) && !Stopped(l)
    ensures var (l', outcome) := RunAttempts(l, attempts, c);
            && (Stopped(l') <==> outcome !in {Died, StopLost, EvidenceFailed, Interrupted, Exhausted})
            && (outcome == Exhausted ==> l' == l && attempts >= c.policy.maxAttempts)
    decreases c.policy.maxAttempts - attempts
  {
    if attempts < c.policy.maxAttempts {
      var a := c.world(attempts);
      if !a.cancelled && a.execution.Raises? {
        var f, n := a.execution.failure, attempts + 1;
        var next := Failed(l, f, n);
        if f in c.policy.retryable && n < c.policy.maxAttempts {
          UndecidedCalls(next, n, c);
        }
      }
    }
  }

  /** The guard on repetition is as wide as one page of the store: a stopped operation runs again
      exactly when its record is ranked beyond it, if the new call is acceptable and not cancelled. */
  lemma StoppedRunsAgainIff(l: Ledger, c: Call, rank: nat)
    requires Stopped(l) && Accepted(c) && !c.world(0).cancelled
    requires OnlyRecordAt(RankingFor(l, c), Text.Strip(c.operationId), rank)
    ensures |RunCall(l, c).0.history| > |l.history| <==> rank >= PAGE
  {
    LoadedIff(l, c);
    assert Wanted(RankingFor(l, c)[|c.ahead|], Text.Strip(c.operationId));
    ExecutionsGrow(l, 0, c);
  }

  /** 500 other results ranked ahead make a completed operation complete a second time. */
  lemma CompletesTwice(l: Ledger, c: Call, other: MemoryRecord)
    requires Stopped(l) && l.persisted.value.succeeded && Accepted(c)
    requires c.ahead == seq(PAGE, _ => other)
    requires !c.world(0).cancelled && c.world(0).execution == Returns
    ensures RunCall(l, c) ==
        (Ledger(Some(State(1, None, true, true)), l.history + [Returns]), Returned)
    ensures Completions(RunCall(l, c).0) == Completions(l) + 1
  {
    LoadedIff(l, c);
    CountOne(l.history, Returns, Returns);
  }

  lemma {:induction false} ExecutionsGrow(l: Ledger, attempts: nat, c: Call)
    ensures var l' := RunAttempts(l, attempts, c).0;
            |l'.history| >= |l.history|
    ensures attempts < c.policy.maxAttempts && !c.world(attempts).cancelled ==>
              |RunAttempts(l, attempts, c).0.history| > |l.history|
    decreases c.policy.maxAttempts - attempts
  {
    if attempts < c.policy.maxAttempts {
      var a := c.world(attempts);
      if !a.cancelled && a.execution.Raises? {
        var f, n := a.execution.failure, attempts + 1;
        ExecutionsGrow(Failed(l, f, n), n, c);
      }
    }
  }

  // ---------- which attempts are made, and how a call ends ----------

  /** The attempt after `k` attempts raises a retryable failure, and nothing stops the call after it. */
  ghost predicate GoesOn(c: Call, k: nat) {
    var a := c.world(k);
    && !a.cancelled && a.execution.Raises? && a.execution.failure in c.policy.retryable
    && (c.policy.requireEvidence ==> a.evidence == Supplied) && !a.sleepInterrupted
  }

  /** Attempt k + 1 is made by a call that found `start` attempts recorded. */
  ghost predicate Made(c: Call, start: nat, k: nat) {
    && start <= k < c.policy.maxAttempts && !c.world(k).cancelled
    && forall j: nat :: start <= j < k ==> GoesOn(c, j)
  }

  /** An attempt is executed exactly when it is within the limit and not cancelled, and every earlier
      one of the call went on; the executions are those attempts, in order. */
  lemma {:induction false} AttemptsMade(l: Ledger, start: nat, c: Call)
    ensures var h, h' := l.history, RunAttempts(l, start, c).0.history;
            && h <= h'
            && (forall k: nat :: start <= k ==> (Made(c, start, k) <==> k - start < |h'| - |h|))
            && forall k: nat :: Made(c, start, k) ==>
                 k - start < |h'| - |h| && h'[|h| + k - start] == c.world(k).execution
    decreases c.policy.maxAttempts - start
  {
    if start < c.policy.maxAttempts {
      var a, n := c.world(start), start + 1;
      if GoesOn(c, start) && n < c.policy.maxAttempts {
        var l1 := Failed(l, a.execution.failure, n);
        AttemptsMade(l1, n, c);
        MadeOnwards(c, start);
      } else {
        MadeAtMostOnce(c, start);
      }
    }
  }

  lemma MadeOnwards(c: Call, start: nat)
    requires GoesOn(c, start) && start < c.policy.maxAttempts
    ensures forall k: nat :: start <= k ==> (Made(c, start, k) <==> k == start || Made(c, start + 1, k))
  {}

  lemma MadeAtMostOnce(c: Call, start: nat)
    requires start < c.policy.maxAttempts && (GoesOn(c, start) ==> start + 1 == c.policy.maxAttempts)
    ensures forall k: nat :: start <= k ==> (Made(c, start, k) <==> k == start && !c.world(start).cancelled)
  {
    forall k: nat | start <= k ensures Made(c, start, k) <==> k == start && !c.world(start).cancelled {
      assert Made(c, start, k) && k > start ==> GoesOn(c, start);
    }
  }

  /** The last attempt a call looks at: all before it went on, and it does not, or it is the limit's. */
  ghost predicate LastAttempt(c: Call, start: nat, n: nat) {
    && start <= n < c.policy.maxAttempts && (forall j: nat :: start <= j < n ==> GoesOn(c, j))
    && (!GoesOn(c, n) || n + 1 == c.policy.maxAttempts)
  }

  /** How the last attempt ends the call, and what is recorded of the operation then. `before` is the
      record when that attempt began. */
  ghost predicate EndsCall(c: Call, n: nat, before: Option<State>, after: Option<State>, outcome: Outcome) {
    var a := c.world(n);
    if a.cancelled then
      if a.stopLost then outcome == StopLost && after == before
      else outcome == CancelledBefore && after == Some(State(n, Some(Cancellation), true, false))
    else match a.execution
      case Lost => outcome == Died && after == before
      case Returns => outcome == Returned && after == Some(State(n + 1, None, true, true))
      case Raises(f) =>
        if f !in c.policy.retryable || n + 1 == c.policy.maxAttempts then
          outcome == OperationRaised(f) && after == Some(State(n + 1, Some(f), true, false))
        else if c.policy.requireEvidence && a.evidence == Refused && !a.stopLost then
          outcome == EvidenceMissing && after == Some(State(n + 1, Some(f), true, false))
        else
          && after == Some(State(n + 1, Some(f), false, false))
          && outcome == if c.policy.requireEvidence && a.evidence == EvidenceRaises then EvidenceFailed
                        else if c.policy.requireEvidence && a.evidence == Refused then StopLost
                        else Interrupted
  }

  /** The record of an attempt that went on. */
  ghost function RecordBefore(l: Ledger, c: Call, start: nat, n: nat): Option<State>
    requires forall j: nat :: start <= j < n ==> GoesOn(c, j)
  {
    if n <= start then l.persisted
    else
      assert GoesOn(c, n - 1);
      Some(State(n, Some(c.world(n - 1).execution.failure), false, false))
  }

  lemma {:induction false} CallEnds(l: Ledger, start: nat, c: Call, n: nat)
    requires LastAttempt(c, start, n)
    ensures var (l', outcome) := RunAttempts(l, start, c);
            EndsCall(c, n, RecordBefore(l, c, start, n), l'.persisted, outcome)
    decreases n - start
  {
    if start < n {
      assert GoesOn(c, start);
      CallEnds(Failed(l, c.world(start).execution.failure, start + 1), start + 1, c, n);
    }
  }

  /** Attempts that all raise retryable failures, undisturbed, use the whole limit. */
  lemma RetryableRunsOut(l: Ledger, start: nat, c: Call)
    requires start < c.policy.maxAttempts
    requires forall k: nat :: start <= k < c.policy.maxAttempts ==> GoesOn(c, k)
    ensures var (l', outcome) := RunAttempts(l, start, c);
            && |l'.history| == |l.history| + c.policy.maxAttempts - start
            && GoesOn(c, c.policy.maxAttempts - 1) && Stopped(l')
            && outcome == OperationRaised(c.world(c.policy.maxAttempts - 1).execution.failure)
  {
    var n := c.policy.maxAttempts - 1;
    assert GoesOn(c, n);
    AttemptsMade(l, start, c);
    CallEnds(l, start, c, n);
    assert Made(c, start, n) && !Made(c, start, n + 1);
  }

  // ---------- forbidden failures are final ----------

  /** A recorded failure of a forbidden class is the operation's last execution, and has stopped it. */
  ghost predicate ForbiddenIsLast(l: Ledger) {
    forall i ::
      && 0 <= i < |l.history| && l.history[i].Raises?
      && l.history[i].failure in {PermissionDenial, ScopeConflict, ValidationFailure, Cancellation} ==>
      i == |l.history| - 1 && Stopped(l)
  }

  lemma {:induction false} AttemptsEndForbidden(l: Ledger, start: nat, c: Call)
    requires ForbiddenIsLast(l) && !Stopped(l)
    ensures ForbiddenIsLast(RunAttempts(l, start, c).0)
    decreases c.policy.maxAttempts - start
  {
    if start < c.policy.maxAttempts {
      var a := c.world(start);
      if !a.cancelled && a.execution.Raises? && !Forbidden(a.execution.failure) {
        AttemptsEndForbidden(Failed(l, a.execution.failure, start + 1), start + 1, c);
      }
    }
  }

  /** Over any history of calls, whatever their policies. */
  lemma {:induction false} ForbiddenEndsOperation(calls: seq<Call>, key: Key)
    requires Visible(calls, key)
    ensures ForbiddenIsLast(At(ServeAll(map[], calls), key))
  {
    if calls != [] {
      var init, c := calls[..|calls| - 1], calls[|calls| - 1];
      assert c in calls && forall x :: x in init ==> x in calls;
      ForbiddenEndsOperation(init, key);
      Served(ServeAll(map[], init), c, key);
      if KeyOf(c) == key {
        CallEndsForbidden(At(ServeAll(map[], init), key), c);
      }
    }
  }

  lemma CallEndsForbidden(l: Ledger, c: Call)
    requires ForbiddenIsLast(l) && |c.ahead| < PAGE
    ensures ForbiddenIsLast(RunCall(l, c).0)
  {
    LoadedIff(l, c);
    if Accepted(c) && !Stopped(l) {
      AttemptsEndForbidden(l, RecordedAttempts(l), c);
    }
  }

  /** One call: what it makes of an undecided operation, from the recorded count on. */
  lemma CallMakes(l: Ledger, c: Call)
    requires Accepted(c) && !Stopped(l) && |c.ahead| < PAGE
    ensures RunCall(l, c) == RunAttempts(l, RecordedAttempts(l), c)
    ensures var h, h', start := l.history, RunCall(l, c).0.history, RecordedAttempts(l);
            && h <= h'
            && forall k: nat :: start <= k ==> (Made(c, start, k) <==> k - start < |h'| - |h|)
  {
    LoadedIff(l, c);
    AttemptsMade(l, RecordedAttempts(l), c);
  }
}
