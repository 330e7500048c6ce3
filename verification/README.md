# Verified model of the LBE Guard Inspector core

This project models the parts of the LBE Guard Inspector whose correctness depends on invariants,
and proves what those parts are for. `dafny verify dfyconfig.toml` checks everything.

Each module follows one component of the program. Components that change state step by step are
classes and methods with loops, proved against a specification; the specification's own properties
are lemmas beside them. Components that race are state machines, and their theorems hold in every
interleaving.

| module | component |
|---|---|
| `CallerPaths`, `CallEdges` | call graph and the explicit-stack search for every call chain from an entrypoint to a mutation site |
| `CandidateHeap`, `BoundedSearch` | the size-capped heap, sort, de-duplication and truncation behind both workspace searches, compared with "rank every match" |
| `OperationalHistory` | turn table and event log: numbering under racing appends, reading back, replay |
| `ProviderAdapter`, `ResponseContents`, `ProviderTurnRuntime` | normalisation of one provider response, what its events say in terms of the raw response, its projection into the history, one whole provider turn |
| `TurnProtocol`, `TurnRuns`, `WorkerProgress` | the control thread and the provider workers as a state machine of atomic steps: what every run keeps, what each request and each worker does when nothing disturbs it, and that an undisturbed worker finishes its turn |
| `Recovery` | retries whose attempt count is persisted across calls |
| `EvalScript` | the parenthesis scanner and the argument splitter, and their round trip |
| `TraceIndex` | the incremental hash index over any history of traces |
| `EvidenceRefs`, `RuleGatekeeper` | the evidence-reference codec and the hash-bound propose, decide, apply cycle |
| `SymlinkScan` | the work-list search of the symlink rule |
| `AuditController` | foundation gate, fail-fast pack loop, counters |
| `Contradictions` | grouped stale-index search against the naive double loop |
| `WorkspaceRoots` | non-nested roots, unique resolution, virtual paths |
| `Sequences`, `Text`, `JsonModel` | shared vocabulary: repetition-free lists, Python's string order and `sorted`, `str.strip` and `str.split`, JSON values |

## Where the code does something a reader may not expect

Each point is a lemma with the exact condition.

- A bounded search keeps `4 * max_results` candidates before it removes repeated hashes. Enough
  copies of one file therefore push out files the unbounded search would return
  (`BoundedSearchCanFallShort`). The scores returned are always a prefix of the unbounded ones. They
  are all of them exactly when what the heap keeps yields enough results or every other match repeats
  a hash it holds, and so whenever no content occurs more than four times among the matches
  (`BoundedSearch`, `FewCopiesSuffice`).
- `append_event` reads the next session number, then the next turn number, and then inserts. Two racing
  appends can draw the same number; the UNIQUE constraints make the later one fail instead of leaving
  a gap (`AppendsStayGapFree`), and it fails exactly when its session grew since the first read or its
  turn since the second (`LostRace`).
- A turn cancelled by the control thread is stored as cancelled, but `turn.cancelled` is not a
  replayable event type, so its log never replays to that status (`ControlCancelDoesNotReplay`; such runs
  exist, `ControlCancelHappens`).
- A turn finalised from provider events replays to its stored status exactly when no `tool.escalated`
  event follows its terminal event (`ProviderStatusReplays`).
- `load_recovery_state` reads one page of 500 records. A stopped operation is run again exactly when
  500 or more verified results under its task identifier are ranked ahead of its own record
  (`StoppedRunsAgainIff`), so that a completed operation can complete twice (`CompletesTwice`).
- A provider run supplies no identifiers for tool calls, so any "tool_calls" value in a response, even
  an empty list, makes the turn fail (`RunEventsStatus`).
- An empty argument list reads back as one empty argument (`EmptyCallReadsOneArgument`).
- A completed trace may keep the (correct) hash of a file that has become unreadable, where a trace
  into an empty index would store none; that is the only difference (`CompletedTraceAgreesWithFresh`).
- The virtual path of a root itself is a bare name, which `split_virtual_path` refuses
  (`RootPathDoesNotSplit`). A doubled slash after the root name makes the rest an absolute path
  (`DoubledSlashIsAbsolute`).

## Reading the model

- SHA-256, `str.lower`, `casefold`, `str` of a record, JSON reading and printing, the word characters
  of a regular expression and the run-time answers of tools and providers are parameters. Nothing is
  assumed about them except what a `requires` says: that digests have 64 characters and no `#`, that
  the printed form of two different records differs, that two given file versions do not collide.
- Fresh identifiers (turns, runs) are parameters of the step that draws them; a step that draws a used
  one does nothing.
- In `TurnProtocol` every history call and every lock-protected access is one step. `ok = false` is a
  call that raises, the race of two appends included.
- `DistinctCallsites` and `DistinctSites` hold of what the extractor produces: a callsite reference
  carries file, line and column of a resolved call, and `CallEdges` proves the edge list distinct from
  that.
- In `TraceIndex` equal size and modification time of one path mean equal content; that is the content
  assumption of the cache itself.

## Model

| member | source | states |
|---|---|---|
| `CallEdges.CallEdges` | lbe_guard_inspector/authority_ownership_evidence_extractor.py:233-239 | the edges are exactly the (call, known symbol) pairs in which the symbol is the call name, or has at least two dot-separated components and the same last one; each once, in callsite order, so the path search may rely on their distinctness |
| `CallEdges.Candidates` | lbe_guard_inspector/authority_ownership_evidence_extractor.py:237-238 | the symbols called in that sense, each once and in string order |
| `CallEdges.LastPartJoined` | lbe_guard_inspector/authority_ownership_evidence_extractor.py:237 | what follows the last dot: of any prefix, a dot and a dotless rest it is the rest, and of a dotless name the name |
| `CallEdges.MayCallIff` | lbe_guard_inspector/authority_ownership_evidence_extractor.py:237-238 | comparing the text after a dot is comparing the last of at least two components |
| `CallerPaths.GroupByCaller` | lbe_guard_inspector/authority_ownership_evidence_extractor.py:242-248 | the table lists each caller's edges in order of appearance, with the caller and callee sets |
| `CallerPaths.SortGroups` | lbe_guard_inspector/authority_ownership_evidence_extractor.py:249-250 | every group is sorted by callee and callsite, none is lost |
| `CallerPaths.AdjacencyRepresents` | lbe_guard_inspector/authority_ownership_evidence_extractor.py:242-250 | the sorted table holds exactly the edges, and without repetition when the edges have none |
| `CallerPaths.SortedEntrypoints` | lbe_guard_inspector/authority_ownership_evidence_extractor.py:252 | the entrypoints are the allowed symbols, else the callers nobody calls, else all callers; each once, sorted |
| `CallerPaths.EntrypointsIff` | lbe_guard_inspector/authority_ownership_evidence_extractor.py:252 | in terms of the edges: with allowed symbols an entrypoint is one of them; without, a caller that nobody calls, or any caller when every caller is called |
| `CallerPaths.PushChildren` | lbe_guard_inspector/authority_ownership_evidence_extractor.py:269-278 | pushing the unvisited callees in reverse leaves exactly their subtrees to search, first callee on top |
| `CallerPaths.SearchFrom` | lbe_guard_inspector/authority_ownership_evidence_extractor.py:257-278 | the stack loop emits the records of the recursive search tree in order and pops exactly that tree's frames, so it halts |
| `CallerPaths.PopsBound` | lbe_guard_inspector/authority_ownership_evidence_extractor.py:257-278 | cycles or not, a search pops at most (D+1)^(unvisited callees) frames for out-degree D |
| `CallerPaths.EmitExact` | lbe_guard_inspector/authority_ownership_evidence_extractor.py:257-278 | soundness and completeness: the search emits a record if and only if it is that of a simple path of at least one edge to the site's symbol |
| `CallerPaths.EmitDistinct` | lbe_guard_inspector/authority_ownership_evidence_extractor.py:257-278 | no record is emitted twice when callsite references tell parallel edges apart |
| `CallerPaths.SearchSite` | lbe_guard_inspector/authority_ownership_evidence_extractor.py:256-278 | all entrypoints of one site together give exactly its caller paths, without repetition |
| `CallerPaths.CallerPaths` | lbe_guard_inspector/authority_ownership_evidence_extractor.py:241-279 | the report holds exactly the caller paths of all sites with their callsite references, each once, sorted |
| `CallerPaths.ReportIgnoresOrder` | lbe_guard_inspector/authority_ownership_evidence_extractor.py:279-324 | two runs over the same edges and sites in any order give the same report |
| `CandidateHeap.CandidateHeap.Push` | agent.py:866-867 | the heap stays ordered and gains exactly the new entry |
| `CandidateHeap.CandidateHeap.Replace` | agent.py:868-869 | the least entry leaves, the new one enters, the heap stays ordered |
| `CandidateHeap.RootIsLeast` | agent.py:868 | the entry compared against is the least of the heap |
| `CandidateHeap.KeepTop` | agent.py:863-869 | the heap keeps exactly the entries of a sorted list under the same cap: an entry enters while there is room, later only by outscoring the entry of least score and serial, which leaves |
| `CandidateHeap.KeptIsTop` | agent.py:865-869 | no dropped match outscores a kept one, and min(limit, all) are kept |
| `CandidateHeap.FullHeapStep` | agent.py:866-869 | one more match of a full heap leaves it alone unless it outscores a kept one; then the lowest-scoring kept match, the earliest of equals, makes room |
| `BoundedSearch.Deduplicate` | agent.py:876-886 | the loop returns the first of each hash, every unhashed item, cut off at the requested number |
| `BoundedSearch.KeptUnlessRepeated` | agent.py:877-884 | one more item survives unless it has a hash that an earlier item, or the given set, holds already |
| `Sequences.StrLeIff` | agent.py:871-875 | the order of equal scores: a prefix comes first, otherwise the first differing character decides |
| `BoundedSearch.BoundedSearch` | agent.py:745-886 | the whole tail against the unbounded search: a prefix of its scores, all of them if and only if the kept matches suffice, in particular when no content occurs more than four times; with distinct lowered paths also the items are fixed, and equal when at most 4 * max_results files matched; higher scores first, equal scores by lowered path, at most the requested number clamped to 1..200 |
| `BoundedSearch.SurvivorsAtLeast` | agent.py:876-886 | de-duplication of a ranked list keeps, above any score, one item per unseen hash and all unhashed items |
| `BoundedSearch.SplitExact` | lbe_guard_inspector/evidence_service.py:439-465 | for any part of the matches that nothing left out outscores: its search scores like the whole if and only if it yields enough results or every other match repeats one of its hashes |
| `BoundedSearch.OrderLost` | agent.py:871-875 | the order in which the heap hands over its entries changes no score, and no item when lowered paths differ |
| `BoundedSearch.FewCopiesSuffice` | agent.py:865-886 | if no content occurs more than four times among the matches, the kept matches suffice |
| `BoundedSearch.BoundedSearchCanFallShort` | agent.py:865-886 | the failing family: 4 * max_results copies of one file hide any lower-scoring file listed after them |
| `OperationalHistory.AppendsStayGapFree` | lbe_guard_inspector/memory/operational_history.py:56-62 | in every interleaving of the two SELECTs and the INSERT of any appends both numberings stay gap-free |
| `OperationalHistory.LostRace` | lbe_guard_inspector/memory/memory_schema.sql:160-161 | an append is refused if and only if its session grew since its first SELECT or its turn since its second |
| `OperationalHistory.GapFreeNumbers` | lbe_guard_inspector/memory/operational_history.py:59-60 | the k-th event of a session, and of a turn, has number k |
| `OperationalHistory.EventsForTurnInOrder` | lbe_guard_inspector/memory/operational_history.py:91-92 | any result ordered by turn_sequence is the turn's events in the order they were appended |
| `OperationalHistory.EventsForSessionInOrder` | lbe_guard_inspector/memory/operational_history.py:94-95 | any result ordered by session_sequence is the session's events in the order they were appended |
| `OperationalHistory.SessionLogRefines` | lbe_guard_inspector/memory/operational_history.py:91-96 | the session log filtered by one of its turns is that turn's log, in the same order |
| `OperationalHistory.SessionOperationalHistory.StartTurn` | lbe_guard_inspector/memory/operational_history.py:46-50 | a running turn is added, or an unknown session refused, and nothing else changes |
| `OperationalHistory.SessionOperationalHistory.AppendEvent` | lbe_guard_inspector/memory/operational_history.py:56-62 | without a concurrent writer the event is appended with the next numbers unless its type is blank or its turn is missing |
| `OperationalHistory.SessionOperationalHistory.FinalizeTurn` | lbe_guard_inspector/memory/operational_history.py:63-68 | the status is set once, only on a running turn; every other turn is untouched |
| `OperationalHistory.SessionOperationalHistory.LatestRunningTurn` | lbe_guard_inspector/memory/operational_history.py:78-80 | finds the running turn of the session that was created last, or there is none |
| `OperationalHistory.SessionOperationalHistory.EventsForTurn` | lbe_guard_inspector/memory/operational_history.py:91-93 | returns the turn's events in append order |
| `OperationalHistory.SessionOperationalHistory.EventsForSession` | lbe_guard_inspector/memory/operational_history.py:94-96 | returns the session's events in append order |
| `OperationalHistory.SessionOperationalHistory.ReplayTurnStatus` | lbe_guard_inspector/memory/operational_history.py:81-86 | returns the meaning of the last replayable event, and fails exactly when there is none |
| `ProviderAdapter.ToolCallEvents` | lbe_guard_inspector/openai_compatible_event_adapter.py:158-197 | one requested call gives the specified started/completed pair with its ids, name and arguments, is malformed, or raises, each exactly as specified |
| `ProviderAdapter.ToolEvents` | lbe_guard_inspector/openai_compatible_event_adapter.py:130-198 | the pairs of all calls in order; if the first call that is no pair is malformed, one error instead, and if it raises, an exception; without identifiers the error is LBE_CALL_ID_REQUIRED |
| `ProviderAdapter.Normalize` | lbe_guard_inspector/openai_compatible_event_adapter.py:58-128 | returns exactly the specified events, and raises exactly when the specification has none |
| `ProviderAdapter.AnswerIsPromised` | lbe_guard_inspector/openai_compatible_event_adapter.py:58-128 | whatever the response: terminal events are followed by usage updates only, tool events come in adjacent pairs with equal ids, and there is a terminal event unless the last event asks for a tool |
| `ProviderAdapter.CompletesIff` | lbe_guard_inspector/openai_compatible_event_adapter.py:27-128 | the adapter returns events if and only if provider and model are named and the transport gave a named error, or a body whose optional texts and usage keys are well formed and whose first call that is no pair does not raise |
| `ProviderAdapter.RaisesIff` | lbe_guard_inspector/openai_compatible_event_adapter.py:157-198 | reading the calls raises if and only if the first one that is no pair does, and gives pairs if and only if all are |
| `ProviderAdapter.Complete` | lbe_guard_inspector/openai_compatible_event_adapter.py:27-128 | whatever the transport does: exactly the specified events or an exception, and the events keep the promise to projection |
| `ProviderAdapter.PairsArePaired` | lbe_guard_inspector/openai_compatible_event_adapter.py:180-197 | events built call by call are one adjacent pair per call, in order, with equal identifiers |
| `ResponseContents.CompletionSays` | lbe_guard_inspector/openai_compatible_event_adapter.py:58-198 | what the returned events carry, read off the raw response: one start, then text, tools or an error, usage and the finish; exactly one completed message with the content if that is non-blank text; the k-th pair carries the k-th call's trimmed id, the supplied identifier, its name and decoded arguments; one usage event maps exactly the non-negative integer entries; each error has its code; requested tools, else the trimmed finish reason, decide the last event; all events name provider, model and response |
| `ResponseContents.RespondsIff` | lbe_guard_inspector/openai_compatible_event_adapter.py:58-198 | in terms of the raw response, a body is answered if and only if provider and model are named, its id is absent or named, and its one message, if there is one, has an absent or named finish reason, named usage counts, and no call that raises before one that is malformed |
| `ResponseContents.ProviderErrorSays` | lbe_guard_inspector/openai_compatible_event_adapter.py:42-56 | a provider error is one error event with the transport's code |
| `ProviderTurnRuntime.StoreEvents` | lbe_guard_inspector/provider_event_history.py:24-38 | events are stored in order, each with its session, turn, kind and identifiers; the loop fails only on events that break the terminal rule, and tracks the terminal status otherwise |
| `ProviderTurnRuntime.ProjectProviderEvents` | lbe_guard_inspector/provider_event_history.py:19-41 | succeeds exactly on a running turn and well-ordered events; then all are stored and the turn is finalised with a terminal event's status if there is one |
| `ProviderTurnRuntime.ProjectionReplays` | lbe_guard_inspector/provider_event_history.py:24-41 | a projected terminal status is what replay returns, whatever was stored before |
| `ProviderTurnRuntime.NonStreamingProviderTurnRuntime.Cancel` | lbe_guard_inspector/provider_turn_runtime.py:25-27 | exactly the turn is flagged |
| `ProviderTurnRuntime.NonStreamingProviderTurnRuntime.ProjectionError` | lbe_guard_inspector/provider_turn_runtime.py:45-48 | the substituted error, with its code, provider and model, is built if and only if both are named, and keeps the promise |
| `ProviderTurnRuntime.NonStreamingProviderTurnRuntime.ProjectPromised` | lbe_guard_inspector/provider_turn_runtime.py:41-48 | projection of promised events succeeds exactly on a live turn, stores them all, and gives that turn alone their status, to which it replays |
| `ProviderTurnRuntime.NonStreamingProviderTurnRuntime.Run` | lbe_guard_inspector/provider_turn_runtime.py:36-48 | an uncancelled run raises if and only if the turn is not live or a name is blank; else it stores exactly the adapter's events, or the substituted error when the adapter raised, and its turn gets the status the answer stands for and replays to it |
| `ProviderTurnRuntime.RunEventsStatus` | lbe_guard_inspector/provider_turn_runtime.py:38-48 | those events end the turn as the answer says: a well-formed message without tool calls by its finish reason (tool_calls leaves it running), anything else as failed |
| `TurnProtocol.RunKeeps` | lbe_guard_inspector/persistent_turn_control.py:24-60 | in every interleaving with any failures: gap-free logs, at most one running turn per session, a settled log behind every provider status, flagged workers behind every control cancel |
| `TurnProtocol.ControlKeeps` | lbe_guard_inspector/persistent_turn_control.py:30-60 | every step of the control thread keeps that invariant |
| `TurnProtocol.WorkerKeeps` | lbe_guard_inspector/provider_turn_runtime.py:67-96 | every step of a worker, its retry included, keeps that invariant |
| `TurnProtocol.OneRunningTurnPerSession` | lbe_guard_inspector/persistent_turn_control.py:53-60 | a session never has two running turns while one control handles requests in sequence |
| `TurnProtocol.FinalStatusStays` | lbe_guard_inspector/memory/operational_history.py:63-68 | once a turn has left running, no continuation of any run changes its status, cancel races included |
| `TurnProtocol.ControlCancelReachesWorker` | lbe_guard_inspector/provider_turn_runtime.py:25-48 | a turn cancelled by control is stored as cancelled and its worker is flagged, so its next check stops it |
| `TurnProtocol.SettledReplay` | lbe_guard_inspector/memory/operational_history.py:81-86 | a settled log replays to its status if and only if no tool escalation comes last |
| `TurnProtocol.ProviderStatusReplays` | lbe_guard_inspector/provider_event_history.py:24-41 | in every run, a turn finalised by projection replays to its stored status if and only if no tool.escalated follows its terminal event, a failed first projection included |
| `TurnProtocol.ControlCancelDoesNotReplay` | lbe_guard_inspector/persistent_turn_control.py:42-51 | in every run, a turn cancelled by control is stored as cancelled and never replays to it |
| `TurnProtocol.ControlCancelHappens` | lbe_guard_inspector/persistent_turn_control.py:49-60 | a run that ends this way: open, greet, cancel, mark, finalise |
| `TurnRuns.StartRuns` | lbe_guard_inspector/persistent_turn_control.py:53-60 | from any state with an idle control: an accepted start ends with the turn running, greeted and, with a runtime, queued with its worker started; without one only greeted and no worker; no other turn, log or worker changes |
| `TurnRuns.StartRefused` | lbe_guard_inspector/persistent_turn_control.py:28-55 | a start changes nothing if and only if the session is unknown or has a running turn |
| `TurnRuns.NotesOfRequests` | lbe_guard_inspector/persistent_turn_control.py:36-41 | steering appends one steering event and an interrupt one interrupt event to the active turn, and nothing else changes |
| `TurnRuns.InactiveRefused` | lbe_guard_inspector/persistent_turn_control.py:32-35 | steering, interrupting or cancelling a turn that is not active in its session changes nothing |
| `TurnRuns.CancelRuns` | lbe_guard_inspector/persistent_turn_control.py:42-51 | a cancel appends turn.cancelled and stores the status; a worker that can be cancelled is flagged first, and one that cannot leaves everything as it was |
| `TurnRuns.AnswerRuns` | lbe_guard_inspector/provider_turn_runtime.py:36-41 | an undisturbed worker whose provider answers stores the running event and the answer's events in order, gives the turn the answer's status and leaves |
| `TurnRuns.RaisingAdapterRuns` | lbe_guard_inspector/provider_turn_runtime.py:42-48 | an adapter that raises leaves the turn failed with the running event and one error event |
| `TurnRuns.FailedProjectionRuns` | lbe_guard_inspector/provider_turn_runtime.py:41-48 | a projection that fails after n events leaves those n, then one error event, and the turn failed |
| `TurnRuns.StatusMeans` | lbe_guard_inspector/provider_event_history.py:24-41 | the status of an answer is that of its terminal event, and running if it has none |
| `TurnRuns.WholeRun` | lbe_guard_inspector/persistent_turn_control.py:53-60 | such runs exist from the initial state for every promised answer: session, start, greeting, queueing, worker, finalised with the answer's status and exactly those event types |
| `WorkerProgress.UndisturbedWorkerFinishes` | lbe_guard_inspector/provider_turn_runtime.py:36-48 | in every interleaving, adapters that raise and first projections that fail at any point included: a worker that ran, that control did not cancel and that left the thread table has finalised its turn, unless the provider asked for a tool; only its announcement and the storing of the substituted error must not raise |
| `WorkerProgress.WorkerFinishesInTime` | lbe_guard_inspector/provider_turn_runtime.py:88-96 | such a worker does leave: given k + 12 steps of its own, for answers of at most k events and whatever the others do, it is gone and its turn is cancelled, finalised, or asked for a tool |
| `WorkerProgress.OwnStepDescends` | lbe_guard_inspector/provider_turn_runtime.py:36-48 | every step a worker takes, its retry included and whatever raises, brings it closer to leaving |
| `WorkerProgress.AdapterPromises` | lbe_guard_inspector/openai_compatible_event_adapter.py:58-128 | the adapter's events keep the promise that theorem relies on |
| `Recovery.LoadRecoveryState` | lbe_guard_inspector/recovery.py:116-146 | the first matching record among the first 500 of the store's ranking |
| `Recovery.RecordFoundIff` | lbe_guard_inspector/recovery.py:123-146 | an operation's only record is found if and only if it is ranked among the first 500 |
| `Recovery.RecoveryRuntime.RunWithRecovery` | lbe_guard_inspector/recovery.py:184-311 | loads from the ranking and leaves its own operation's ledger and the outcome as the recursive specification says, and every other operation's ledger alone |
| `Recovery.CallsKeep` | lbe_guard_inspector/recovery.py:208-311 | over any calls on any operations, for each operation: recorded attempts equal executions that were not lost, never exceed the largest max_attempts used on it, and at most one call returns normally |
| `Recovery.OtherOperationsUntouched` | lbe_guard_inspector/recovery.py:112-147 | records are kept per workspace, task and operation: calls on other operations change nothing |
| `Recovery.NothingRunsAfterStop` | lbe_guard_inspector/recovery.py:208-221 | after an operation's terminal state no later call on it, under any policy, runs or changes anything |
| `Recovery.UndecidedCalls` | lbe_guard_inspector/recovery.py:222-311 | a call leaves the operation undecided exactly when it died, its stop could not be recorded, it was interrupted, its evidence callback raised, or no attempt was left |
| `Recovery.AttemptsMade` | lbe_guard_inspector/recovery.py:225-311 | attempt k+1 is executed if and only if it is within the limit and not cancelled and every earlier attempt of the call raised a retryable failure, supplied evidence where required and was not interrupted; the executions are those, in order |
| `Recovery.CallMakes` | lbe_guard_inspector/recovery.py:208-311 | so it is for any accepted call on an undecided operation, from the recorded count on |
| `Recovery.CallEnds` | lbe_guard_inspector/recovery.py:225-311 | how the last attempt ends the call: its outcome and the stored record, case by case |
| `Recovery.RetryableRunsOut` | lbe_guard_inspector/recovery.py:242-311 | attempts that all raise retryable failures use the whole limit, and the last failure is raised |
| `Recovery.ForbiddenEndsOperation` | lbe_guard_inspector/recovery.py:246-262 | over any history of calls a recorded permission denial, scope conflict, validation failure or cancellation is the operation's last execution, and has stopped it |
| `Recovery.StoppedRunsAgainIff` | lbe_guard_inspector/recovery.py:123-129 | a stopped operation is executed again if and only if the store ranks its record beyond the first page |
| `Recovery.CompletesTwice` | lbe_guard_inspector/recovery.py:123-129 | 500 other results ranked ahead make a completed operation complete a second time |
| `EvalScript.FindClose` | rules/cep_callback.py:73-100 | returns the least position where the quote-aware depth returns to zero, or there is none |
| `EvalScript.SplitTopLevelArguments` | rules/cep_callback.py:31-63 | returns the trimmed pieces between top-level commas |
| `EvalScript.SplitIsLossless` | rules/cep_callback.py:31-63 | the untrimmed pieces joined by commas are the source text |
| `EvalScript.ReadCall` | rules/cep_callback.py:72-115 | a call is read exactly where the pattern matches and a closing parenthesis exists |
| `EvalScript.MatchesIff` | rules/cep_callback.py:69-72 | the pattern matches exactly where the keyword stands outside a word with only white space before its parenthesis |
| `EvalScript.ExtractCalls` | rules/cep_callback.py:66-118 | the first fifty calls in order of position |
| `EvalScript.PiecesKeep` | rules/cep_callback.py:78-97 | text closed for quotes and brackets, stray `]` and `}` included, leaves the parenthesis scanner where it was and never below its depth |
| `EvalScript.PiecesAbsorbed` | rules/cep_callback.py:39-60 | the same text is taken by the splitter into the current argument, whole |
| `EvalScript.CallRoundTrip` | rules/cep_callback.py:31-115 | any closed and trimmed arguments, written as a call anywhere in any text, are read back exactly |
| `EvalScript.EmbeddedCallIsReported` | rules/cep_callback.py:66-118 | below the cap the extractor's result holds that call |
| `EvalScript.EmptyCallReadsOneArgument` | rules/cep_callback.py:62-63 | the empty argument list is the exception: it reads as one empty argument |
| `TraceIndex.Index.StoreOne` | agent.py:501-567 | one file: without a stat only the error counter moves; beyond the limit no hash; else the stored hash for the same size and time, or a new one if the bytes can be read; the row's status says which, exactly that counter moves, and other rows stay |
| `TraceIndex.Index.TraceRoot` | agent.py:499-567 | after any number of files of a root the table is that of the listed prefix |
| `TraceIndex.Index.TraceRoots` | agent.py:498-581 | the loop over all roots leaves the table of the whole listing, or of the prefix before an interruption |
| `TraceIndex.Index.TraceWorkspace` | agent.py:478-602 | a trace leaves the specified table; the counters are the failed stats, the files beyond the limit, and every other listed file once as hashed, cached or unreadable, so the reconciliation check succeeds |
| `TraceIndex.HistoryKeepsHashes` | agent.py:498-590 | after any history of completed, interrupted and failed traces every stored hash is that of the content |
| `TraceIndex.CompletedTraceKeys` | agent.py:583-590 | a completed trace leaves in its roots exactly the files whose stat succeeded, and other roots as they were |
| `TraceIndex.StoredHash` | agent.py:514-567 | the hash stored for a listed file is its digest when small enough and readable or cached, else none |
| `TraceIndex.CompletedTraceAgreesWithFresh` | agent.py:498-590 | after any history a completed trace agrees with one into an empty index, except exactly for cached hashes of files that became unreadable |
| `EvidenceRefs.RefRoundTrip` | lbe_guard_inspector/rule_gatekeeper.py:486-508 | a reference built from any path and digest, which is workspace:id:path#sha256:digest, parses to that path and digest, even if the path contains the marker |
| `EvidenceRefs.ParsedRefWasBuilt` | lbe_guard_inspector/rule_gatekeeper.py:489-494 | only built references parse |
| `EvidenceRefs.BuiltRefAccepted` | lbe_guard_inspector/rule_gatekeeper.py:486-504 | a built reference is accepted if and only if the file is there with that hash |
| `RuleGatekeeper.RebuiltRule` | lbe_guard_inspector/rule_gatekeeper.py:118-173 | the rule rebuilt from the stored proposal is the one that was proposed, although its texts were trimmed in between |
| `RuleGatekeeper.ProposedIff` | lbe_guard_inspector/rule_gatekeeper.py:89-178 | a request becomes a proposal if and only if its inputs are valid, bound to the workspace, read-only and registered, results, provenance, rationale and plans are given, its rule can be built, the target profile can take it, some evidence names a current file, and the proposal keeps its schema |
| `RuleGatekeeper.RequestedIff` | lbe_guard_inspector/rule_gatekeeper.py:408-417 | a rule can be built if and only if id, trigger, action and severity are not blank, there is a scope, every scope is a named relative path and no exception is blank |
| `RuleGatekeeper.RequestedFields` | lbe_guard_inspector/rule_gatekeeper.py:408-417 | the written rule by key, in the request's texts: each text trimmed, scope paths and exceptions each once and in order, no other key |
| `RuleGatekeeper.ProposalSays` | lbe_guard_inspector/rule_gatekeeper.py:115-178 | a proposal holds the request's trimmed texts, the target's hash, and the change that places exactly that rule, or none when the profile has it already |
| `RuleGatekeeper.ProposalBindsFiles` | lbe_guard_inspector/rule_gatekeeper.py:180-218 | a proposal revalidates if and only if the guard is registered and the target and every cited file have the hashes of proposal time |
| `RuleGatekeeper.UpdateReplacesOnlyRule` | lbe_guard_inspector/rule_gatekeeper.py:450-456 | the update replaces only rules[rule_id], and repeating it changes nothing |
| `RuleGatekeeper.Workspace.ApplyApprovedProposal` | lbe_guard_inspector/rule_gatekeeper.py:274-344 | writes the specified text to the target and nothing else, or leaves every file alone with the specified error; a failed activation keeps the write |
| `RuleGatekeeper.AppliedAsProposed` | lbe_guard_inspector/rule_gatekeeper.py:287-329 | the write happens if and only if decision, authorization, guard and all hashes match, and it is the proposal-time profile with that one rule replaced by what the request says, field by field |
| `RuleGatekeeper.RefusedUntilBytesReturn` | lbe_guard_inspector/rule_gatekeeper.py:302-306 | while the target's hash differs, the same proposal is refused as stale in every later state |
| `SymlinkScan.ScanEntry` | rules/cep.py:394-431 | one entry adds exactly its own links and unreadable paths, found or pending |
| `SymlinkScan.ScanEntries` | rules/cep.py:394-434 | below the cap a directory's links and unreadable paths are all found or pending; at the cap every listed link is real |
| `SymlinkScan.ScanPending` | rules/cep.py:383-434 | the work-list empties or the cap is reached, and nothing is invented or lost on the way |
| `SymlinkScan.LinksAreReached` | rules/cep.py:383-426 | the counted links are exactly those reached by a walk through readable, non-skipped directories |
| `SymlinkScan.BlockedAreReached` | rules/cep.py:383-426 | the unreadable paths are exactly those that such a walk ends at |
| `SymlinkScan.SymlinkFree` | rules/cep.py:377-484 | failed iff a walk through readable, non-skipped directories leads from a root to a link, blocked iff none does but one leads to something unreadable, else passed; at most fifty links listed, all real; below that number exactly those and exactly the unreadable paths |
| `AuditController.ValidateOverrides` | audit_controller.py:398-430 | accepts exactly well-formed, pairwise different acknowledgments of the overridable guard |
| `AuditController.AuditReport.RecordResult` | audit_controller.py:353-360 | an invalid status is refused; otherwise the result is appended and every counter still equals its number of results |
| `AuditController.AuditReport.RunFoundationGate` | audit_controller.py:433-515 | the gate opens if and only if the acknowledgments are accepted and every guard without one returned a valid result that passed, with no execution error; an unavailable or raising guard blocks it. It stops at the first guard that is not cleared, and in every case the results it recorded are given exactly |
| `AuditController.AuditReport.RunPack` | audit_controller.py:631-691 | the pack's rules split in order into an executed prefix and a skipped suffix that starts right after the first rule that raised or whose required fast-fail result failed or was blocked; each executed rule adds its own result, a raising one one failed result; it raises if and only if a rule reached before that breaks its contract, having recorded exactly the rules before it |
| `AuditController.AuditReport.RunOrSkipPack` | audit_controller.py:611-691 | a pack that does not load leaves one failed result, runs nothing and raises nothing; one that loads ends as its rules say |
| `AuditController.AuditReport.RunPacks` | audit_controller.py:611-691 | results, executions, skips, loaded and unloaded packs are, pack by pack, those of the packs, up to the first that breaks off; raises if and only if one does |
| `AuditController.AuditReport.RunAudit` | audit_controller.py:565-691 | no optional rule runs or is skipped unless every foundation guard is cleared: a gate that stays closed leaves exactly its own results; then it raises if and only if no pack is requested or a reached rule breaks its contract, and all lists of the report, loaded and unloaded packs included, are the guards' followed by the packs' |
| `AuditController.AlongStep` | audit_controller.py:634-691 | visiting one rule extends the executed prefix or the skipped suffix, or breaks the pack off right there |
| `AuditController.StopEndsPack` | audit_controller.py:650-691 | after a reached rule that raised, or failed or was blocked under required fast-fail, every later optional rule is skipped; the exception is recorded as one failed required fast-fail result named by pack and rule |
| `Contradictions.Group` | lbe_guard_inspector/evidence_service.py:265-273 | the groups hold exactly the comparable items under their workspace and path |
| `Contradictions.CompareItem` | lbe_guard_inspector/evidence_service.py:278-319 | comparing with the groups finds exactly the pairs that comparing with every item finds |
| `Contradictions.DetectContradictions` | lbe_guard_inspector/evidence_service.py:239-322 | each pair the naive double loop finds is reported exactly once, nothing else is, each record spells out an actual contradiction, in message order; paths agree when, name by name, the workspace path ends the indexed one |
| `Contradictions.SamePathIff` | lbe_guard_inspector/evidence_service.py:292 | the text comparison of two paths holds exactly when the last names of one are the names of the other |
| `Contradictions.NormReads` | lbe_guard_inspector/evidence_service.py:260-263 | a path is compared without its outer slashes, whichever way they lean, and in lower case |
| `WorkspaceRoots.LoadRoots` | agent.py:192-230 | loading succeeds if and only if there are entries, nothing is wrong with any and no root lies inside another; otherwise the first wrong entry decides the error, by its first defect (shape, name, path, repeated name, repeated path, missing directory), and nesting comes last |
| `WorkspaceRoots.OneRootPerTarget` | lbe_guard_inspector/workspace_identity.py:25-37 | a target lies under at most one of pairwise non-nested roots |
| `WorkspaceRoots.ResolveWorkspaceIdentity` | lbe_guard_inspector/workspace_identity.py:20-45 | returns the root above the target exactly when there is one and no other, refuses it as outside when there is none and as ambiguous when there are two, which loaded roots exclude |
| `WorkspaceRoots.VirtualPathRoundTrip` | agent.py:249-271 | a resolved path strictly inside a root, with no backslash in its names, comes back from its virtual path with its root |
| `WorkspaceRoots.RootPathDoesNotSplit` | agent.py:254-261 | the root's own virtual path does not split |
| `WorkspaceRoots.DoubledSlashIsAbsolute` | agent.py:258-271 | a remainder that starts with a slash is read from the top of the file system and refused unless it lies inside the root |
| `WorkspaceRoots.ClimbingStaysInside` | agent.py:257-271 | going down by some names and up by k levels is accepted, with the path it leads to, exactly while it does not climb out of the root |
| `WorkspaceRoots.DotsCancel` | agent.py:266 | an empty or dot component changes nothing, and a name followed by two dots cancels |
| `WorkspaceRoots.DecorationIgnored` | agent.py:257-259 | leading and trailing slashes and the direction of slashes do not matter |

## Left out

- Scoring, snippets, query terms, extensions and exclusions of the searches: each match arrives with its score.
- Heap internals beyond the standard sift loops: `heapq` sifts a replaced entry down to a leaf and back up; the model stops at its place. Contents and order of the heap are what is proved.
- Timestamps, progress output, byte counters, physical paths, first-seen times and the run table of a trace.
- Interrupts inside one file step, and between the deletion of unseen rows and the end of a trace: the latter leave the table of a completed trace.
- Files that change between stat and read, symbolic-link resolution, and paths that need normalising inside a handwritten evidence reference.
- Operational items, payload encoding, provider metadata and the foreign keys of the race of appends.
- The check of the adapter's messages argument, and response bodies that are not objects.
- `TurnProtocol.ControlKeeps`: rejected requests and their answers are not part of the state; malformed request texts appear only as steps that raise.
- Drive letters and network shares: paths are those of one file-system tree.
- Several control threads at once: one control handles requests in sequence, as the one-running-turn claim assumes.
- `Recovery.CallsKeep`: an execution whose process dies before its attempt is recorded is counted as lost, and while records are beyond the first page the claim is `StoppedRunsAgainIff` instead; a crash inside the store's own transaction is not modelled, nor are delays and backoff.
- What the schemas of guard results, evidence packages, proposals and decisions demand: the first three are parameters, and decisions are typed.
- `OperationalHistory.SessionOperationalHistory.LatestRunningTurn`: creation order stands for the created-at texts; equal texts are not modelled.
- Failure classification itself, and the computation of proposal and decision identifiers.
- Unified diff text: a diff is the pair of profiles it compares.
- Line numbers and snippets of extracted calls, and the classification of callbacks.
- The summary text and exit status of an audit, project profiling and pack selection before the pack loop.
- Truncation of the unreadable paths shown by the symlink rule to twenty.
- Owner records, relationships and persistence evidence of the extractor, and Python parsing.
- HTTP servers, command line, terminal interface, registries and completion runtime.
