/** The audit run: the foundation gate, the fail-fast loop over rule packs, and the counters. */
module AuditController {
  import opened Sequences
  import Text

  /** A rule status; `Invalid` is any string outside the four valid ones. */
  datatype Status = Passed | Failed | Blocked | NotApplicable | Invalid

  datatype RuleResult = RuleResult(ruleId: string, status: Status, required: bool, fastFail: bool)

  datatype AuditError = InvalidStatus(ruleId: string) | NotARuleResult(name: string) | NoPack

  ghost function CountOf(results: seq<RuleResult>, s: Status): nat {
    if results == [] then 0
    else CountOf(results[..|results| - 1], s) + if results[|results| - 1].status == s then 1 else 0
  }

  // ---------- foundation overrides ----------

  datatype Override = NotAnObject | Override(guardId: string, acknowledged: bool, reason: string, requestedBy: string)

  datatype Overrides = NoOverrides | NotAList | Listed(items: seq<Override>)

  const FOUNDATION_GUARDS: seq<string> := ["generic.index_present", "generic.forbidden_roots"]

  const OVERRIDABLE: string := "generic.forbidden_roots"

  predicate Acceptable(o: Override) {
    && o.Override? && o.guardId in FOUNDATION_GUARDS && o.guardId == OVERRIDABLE
    && o.acknowledged && !Text.Blank(o.reason) && o.requestedBy == "user"
  }

  function GuardId(o: Override): string {
    if o.Override? then o.guardId else ""
  }

  function GuardIds(items: seq<Override>): set<string> {
    set o | o in items :: GuardId(o)
  }

  ghost predicate DifferentGuards(items: seq<Override>) {
    forall i, j :: 0 <= i < j < |items| ==> GuardId(items[i]) != GuardId(items[j])
  }

  /** What `_validate_foundation_overrides` accepts: only well-formed, pairwise different acknowledgments. */
  ghost predicate OverridesOk(value: Overrides) {
    match value
    case NoOverrides => true
    case NotAList => false
    case Listed(items) => (forall o :: o in items ==> Acceptable(o)) && DifferentGuards(items)
  }

  ghost predicate Acknowledged(value: Overrides, guardId: string) {
    value.Listed? && exists o :: o in value.items && o.Override? && o.guardId == guardId
  }

  method ValidateOverrides(value: Overrides) returns (accepted: Option<set<string>>)
    ensures accepted.Some? <==> OverridesOk(value)
    ensures accepted.Some? ==> forall g :: g in accepted.value <==> Acknowledged(value, g)
  {
    if value.NoOverrides? {
      return Some({});
    }
    if value.NotAList? {
      return None;
    }
    var items := value.items;
    var ids: set<string> := {};
    for i := 0 to |items|
      invariant forall o :: o in items[..i] ==> Acceptable(o)
      invariant DifferentGuards(items[..i]) && ids == GuardIds(items[..i])
    {
      var o := items[i];
      assert items[..i + 1] == items[..i] + [o] && o in items;
      if !Acceptable(o) {
        return None;
      }
      if o.guardId in ids {
        RepeatedGuard(items, i);
        return None;
      }
      NewGuard(items, i);
      ids := ids + {o.guardId};
    }
    assert items[..|items|] == items;
    return Some(ids);
  }

  lemma RepeatedGuard(items: seq<Override>, i: nat)
    requires i < |items| && GuardId(items[i]) in GuardIds(items[..i])
    ensures !DifferentGuards(items)
  {
    var o :| o in items[..i] && GuardId(o) == GuardId(items[i]);
    var j :| 0 <= j < i && items[j] == o;
  }

  lemma NewGuard(items: seq<Override>, i: nat)
    requires i < |items| && DifferentGuards(items[..i]) && GuardId(items[i]) !in GuardIds(items[..i])
    ensures DifferentGuards(items[..i + 1])
    ensures GuardIds(items[..i + 1]) == GuardIds(items[..i]) + {GuardId(items[i])}
  {
    var before, after := items[..i], items[..i + 1];
    assert after == before + [items[i]];
    forall j, k | 0 <= j < k < |after| ensures GuardId(after[j]) != GuardId(after[k]) {
      if k < i {
        assert before[j] == after[j] && before[k] == after[k];
      } else {
        assert after[j] in before;
      }
    }
  }

  // ---------- the report ----------

  /** What running one foundation guard yields. */
  datatype GuardRun = GuardUnavailable | Ran(result: RuleResult, executionError: bool)

  /** What calling one rule function yields. */
  datatype RuleRun = RuleRaised | Returned(result: RuleResult) | ReturnedOther

  /** `foundation` tells whether the function's name is one of the foundation guard identifiers. */
  datatype RuleEntry = RuleEntry(name: string, foundation: bool, run: RuleRun)

  datatype Pack = Pack(packId: string, rules: Option<seq<RuleEntry>>)

  datatype GateStatus = Open | BlockedAt(guardId: string) | OverridesRejected

  // ---------- what the gate and the packs should do ----------

  /** What a guard's run counts as: it must be there, execute without error and apply. */
  ghost predicate GuardCounts(guardId: string, run: GuardRun, r: RuleResult) {
    match run
    case GuardUnavailable => r == RuleResult(guardId, Blocked, true, false)
    case Ran(q, error) =>
      if error || q.status == NotApplicable then r == RuleResult(guardId, Blocked, q.required, q.fastFail) else r == q
  }

  /** The guard passed reliably or carries an accepted acknowledgment. */
  ghost predicate Cleared(overrides: Overrides, runs: string -> GuardRun, guardId: string) {
    || Acknowledged(overrides, guardId)
    || (runs(guardId).Ran? && !runs(guardId).executionError && runs(guardId).result.status == Passed)
  }

  ghost predicate GateOpens(guards: seq<string>, overrides: Overrides, runs: string -> GuardRun) {
    OverridesOk(overrides) && forall g :: g in guards ==> Cleared(overrides, runs, g)
  }

  /** The first guard, in order, that is not cleared. */
  ghost predicate FirstBlocking(guards: seq<string>, overrides: Overrides, runs: string -> GuardRun, i: nat) {
    && i < |guards| && !Cleared(overrides, runs, guards[i])
    && forall j :: 0 <= j < i ==> Cleared(overrides, runs, guards[j])
  }

  lemma BlockingCloses(guards: seq<string>, overrides: Overrides, runs: string -> GuardRun, i: nat)
    requires FirstBlocking(guards, overrides, runs, i)
    ensures !GateOpens(guards, overrides, runs)
  {
    assert guards[i] in guards;
  }

  /** How many of the first `n` guards are run, not being acknowledged. */
  ghost function GuardRank(guards: seq<string>, n: nat, overrides: Overrides): nat
    requires n <= |guards|
  {
    if n == 0 then 0 else GuardRank(guards, n - 1, overrides) + if Acknowledged(overrides, guards[n - 1]) then 0 else 1
  }

  /** One result for each of the first `n` guards that is run, in order. */
  ghost predicate GuardsRecorded(
    guards: seq<string>, n: nat, overrides: Overrides, runs: string -> GuardRun, added: seq<RuleResult>)
  {
    && n <= |guards| && |added| == GuardRank(guards, n, overrides)
    && forall j :: 0 <= j < n ==> GuardPlaced(guards, j, overrides, runs, added)
  }

  ghost predicate GuardPlaced(
    guards: seq<string>, j: nat, overrides: Overrides, runs: string -> GuardRun, added: seq<RuleResult>)
    requires j < |guards|
  {
    !Acknowledged(overrides, guards[j]) ==>
      var k := GuardRank(guards, j, overrides);
      k < |added| && GuardCounts(guards[j], runs(guards[j]), added[k])
  }

  /** What one guard adds. */
  ghost predicate GuardAdds(guardId: string, overrides: Overrides, runs: string -> GuardRun, more: seq<RuleResult>) {
    if Acknowledged(overrides, guardId) then more == []
    else |more| == 1 && GuardCounts(guardId, runs(guardId), more[0])
  }

  lemma GuardsStep(
    guards: seq<string>, n: nat, overrides: Overrides, runs: string -> GuardRun, added: seq<RuleResult>,
    more: seq<RuleResult>)
    requires n < |guards| && GuardsRecorded(guards, n, overrides, runs, added)
    requires GuardAdds(guards[n], overrides, runs, more)
    ensures GuardsRecorded(guards, n + 1, overrides, runs, added + more)
  {
    forall j | 0 <= j < n ensures GuardPlaced(guards, j, overrides, runs, added + more) {
      assert GuardPlaced(guards, j, overrides, runs, added);
      GuardStays(guards, j, overrides, runs, added, more);
    }
    assert GuardPlaced(guards, n, overrides, runs, added + more);
  }

  lemma GuardStays(
    guards: seq<string>, j: nat, overrides: Overrides, runs: string -> GuardRun, added: seq<RuleResult>,
    more: seq<RuleResult>)
    requires j < |guards| && GuardPlaced(guards, j, overrides, runs, added)
    ensures GuardPlaced(guards, j, overrides, runs, added + more)
  {
    assert forall k :: 0 <= k < |added| ==> (added + more)[k] == added[k];
  }

  /** What the gate records before it answers: the guards up to and with the one that blocks it, those
      before one whose result is invalid, and none when the acknowledgments are rejected. */
  ghost predicate GateLeaves(
    gate: Result<GateStatus, AuditError>, guards: seq<string>, overrides: Overrides, runs: string -> GuardRun, at: nat,
    added: seq<RuleResult>)
  {
    match gate
    case Success(Open) => GuardsRecorded(guards, |guards|, overrides, runs, added)
    case Success(OverridesRejected) => added == []
    case Success(BlockedAt(guardId)) =>
      && FirstBlocking(guards, overrides, runs, at) && guardId == guards[at]
      && GuardsRecorded(guards, at + 1, overrides, runs, added)
    case Failure(e) =>
      && FirstBlocking(guards, overrides, runs, at) && GuardsRecorded(guards, at, overrides, runs, added)
      && InvalidGuard(runs(guards[at])) && e == InvalidStatus(runs(guards[at]).result.ruleId)
  }

  ghost predicate InvalidGuard(run: GuardRun) {
    run.Ran? && !run.executionError && run.result.status == Invalid
  }

  /** How one guard answers. */
  ghost predicate GuardAnswers(
    guardId: string, overrides: Overrides, runs: string -> GuardRun, gate: Result<GateStatus, AuditError>,
    added: seq<RuleResult>)
  {
    && (gate == Success(Open) <==> Cleared(overrides, runs, guardId))
    && match gate
       case Success(status) =>
         (status == Open || status == BlockedAt(guardId)) && GuardAdds(guardId, overrides, runs, added)
       case Failure(e) => InvalidGuard(runs(guardId)) && e == InvalidStatus(runs(guardId).result.ruleId) && added == []
  }

  /** The loop over the guards, after `n` of them. */
  ghost predicate GateAlong(
    guards: seq<string>, n: nat, overrides: Overrides, runs: string -> GuardRun, added: seq<RuleResult>)
  {
    && GuardsRecorded(guards, n, overrides, runs, added)
    && forall j :: 0 <= j < n ==> Cleared(overrides, runs, guards[j])
  }

  lemma GateGoes(
    guards: seq<string>, n: nat, overrides: Overrides, runs: string -> GuardRun, added: seq<RuleResult>,
    gate: Result<GateStatus, AuditError>, more: seq<RuleResult>)
    requires n < |guards| && GateAlong(guards, n, overrides, runs, added)
    requires GuardAnswers(guards[n], overrides, runs, gate, more)
    ensures gate == Success(Open) ==> GateAlong(guards, n + 1, overrides, runs, added + more)
    ensures gate != Success(Open) ==> GateLeaves(gate, guards, overrides, runs, n, added + more)
  {
    if gate.Success? {
      GuardsStep(guards, n, overrides, runs, added, more);
    } else {
      assert added + more == added;
    }
  }

  lemma GateDone(guards: seq<string>, overrides: Overrides, runs: string -> GuardRun, added: seq<RuleResult>)
    requires OverridesOk(overrides) && GateAlong(guards, |guards|, overrides, runs, added)
    ensures GateOpens(guards, overrides, runs) && GateLeaves(Success(Open), guards, overrides, runs, 0, added)
  {}

  // ---------- rules ----------

  predicate ClosesGate(r: RuleResult) {
    r.fastFail && r.required && (r.status == Failed || r.status == Blocked)
  }

  /** The rule did not return a result, or one with an unknown status. */
  ghost predicate Breaks(e: RuleEntry) {
    e.run.ReturnedOther? || (e.run.Returned? && e.run.result.status == Invalid)
  }

  ghost predicate BreaksWith(e: RuleEntry, error: AuditError) {
    match e.run
    case RuleRaised => false
    case Returned(r) => r.status == Invalid && error == InvalidStatus(r.ruleId)
    case ReturnedOther => error == NotARuleResult(e.name)
  }

  /** No rule of the pack runs after this one: it raised, returned a required fast-fail failure, or
      broke its contract. */
  ghost predicate Stops(e: RuleEntry) {
    || e.run.RuleRaised? || Breaks(e)
    || (e.run.Returned? && e.run.result.required && e.run.result.fastFail && e.run.result.status in {Failed, Blocked})
  }

  /** What a rule's run counts as: a raised exception is a failed, required fast-fail result. */
  ghost predicate RuleCounts(packId: string, e: RuleEntry, r: RuleResult) {
    match e.run
    case RuleRaised => r == RuleResult(packId + "." + e.name, Failed, true, true)
    case Returned(q) => r == q && q.status != Invalid
    case ReturnedOther => false
  }

  /** One of the first `n` rules, not a foundation guard, stops the pack. */
  ghost predicate StoppedBy(rules: seq<RuleEntry>, n: nat)
    requires n <= |rules|
  {
    exists j :: 0 <= j < n && !rules[j].foundation && Stops(rules[j])
  }

  ghost predicate Reached(rules: seq<RuleEntry>, i: nat) {
    i < |rules| && !rules[i].foundation && !StoppedBy(rules, i)
  }

  /** How many of the first `n` rules are no foundation guards. */
  ghost function Rank(rules: seq<RuleEntry>, n: nat): nat
    requires n <= |rules|
  {
    if n == 0 then 0 else Rank(rules, n - 1) + if rules[n - 1].foundation then 0 else 1
  }

  /** The first `n` rules split, in order, into an executed prefix and a skipped suffix: a reached rule
      has its result at its place, every other one its name among the skips. */
  ghost predicate Splits(
    packId: string, rules: seq<RuleEntry>, n: nat, executed: seq<RuleResult>, skips: seq<(string, string)>)
  {
    && n <= |rules| && |executed| + |skips| == Rank(rules, n)
    && forall j :: 0 <= j < n && !rules[j].foundation ==> Placed(packId, rules, j, executed, skips)
  }

  ghost predicate Placed(
    packId: string, rules: seq<RuleEntry>, j: nat, executed: seq<RuleResult>, skips: seq<(string, string)>)
    requires j < |rules|
  {
    var k := Rank(rules, j);
    if Reached(rules, j) then k < |executed| && RuleCounts(packId, rules[j], executed[k])
    else |executed| <= k < |executed| + |skips| && skips[k - |executed|] == (packId, rules[j].name)
  }

  /** Some reached rule breaks its contract. */
  ghost predicate RulesBreak(rules: seq<RuleEntry>) {
    exists i: nat :: Reached(rules, i) && Breaks(rules[i])
  }

  ghost predicate PackBreaks(p: Pack) {
    p.rules.Some? && RulesBreak(p.rules.value)
  }

  ghost predicate SomeBreaks(packs: seq<Pack>) {
    exists p :: p in packs && PackBreaks(p)
  }

  /** What visiting one rule adds, and whether the gate is closed afterwards. */
  ghost predicate Visited(
    packId: string, e: RuleEntry, gateClosed: bool, ran: seq<RuleResult>, skip: seq<(string, string)>, closed: bool)
  {
    if e.foundation then ran == [] && skip == [] && closed == gateClosed
    else if gateClosed then ran == [] && skip == [(packId, e.name)] && closed
    else |ran| == 1 && RuleCounts(packId, e, ran[0]) && skip == [] && (closed <==> Stops(e))
  }

  /** The pack's loop after the first `n` rules. */
  ghost predicate Along(
    packId: string, rules: seq<RuleEntry>, n: nat, executed: seq<RuleResult>, skips: seq<(string, string)>,
    gateClosed: bool)
  {
    && Splits(packId, rules, n, executed, skips)
    && gateClosed == StoppedBy(rules, n) && (!gateClosed ==> skips == [])
  }

  lemma StoppedStep(rules: seq<RuleEntry>, n: nat)
    requires n < |rules|
    ensures StoppedBy(rules, n + 1) <==> StoppedBy(rules, n) || (!rules[n].foundation && Stops(rules[n]))
  {}

  /** Visiting one more rule goes along. */
  lemma AlongStep(
    packId: string, rules: seq<RuleEntry>, n: nat, executed: seq<RuleResult>, skips: seq<(string, string)>,
    gateClosed: bool, ran: seq<RuleResult>, skip: seq<(string, string)>, closed: bool)
    requires n < |rules| && Along(packId, rules, n, executed, skips, gateClosed)
    requires Visited(packId, rules[n], gateClosed, ran, skip, closed)
    ensures Along(packId, rules, n + 1, executed + ran, skips + skip, closed)
  {
    StoppedStep(rules, n);
    forall j | 0 <= j < n + 1 && !rules[j].foundation ensures Placed(packId, rules, j, executed + ran, skips + skip) {
      if j < n {
        PlaceKept(packId, rules, j, executed, skips, ran, skip);
      } else {
        NewPlace(packId, rules, n, executed, skips, gateClosed, ran, skip, closed);
      }
    }
    assert Rank(rules, n + 1) == Rank(rules, n) + |ran| + |skip|;
  }

  lemma PlaceKept(
    packId: string, rules: seq<RuleEntry>, j: nat, executed: seq<RuleResult>, skips: seq<(string, string)>,
    ran: seq<RuleResult>, skip: seq<(string, string)>)
    requires j < |rules| && Placed(packId, rules, j, executed, skips) && (ran == [] || skips == [])
    ensures Placed(packId, rules, j, executed + ran, skips + skip)
  {}

  lemma NewPlace(
    packId: string, rules: seq<RuleEntry>, n: nat, executed: seq<RuleResult>, skips: seq<(string, string)>,
    gateClosed: bool, ran: seq<RuleResult>, skip: seq<(string, string)>, closed: bool)
    requires n < |rules| && Along(packId, rules, n, executed, skips, gateClosed) && !rules[n].foundation
    requires Visited(packId, rules[n], gateClosed, ran, skip, closed)
    ensures Placed(packId, rules, n, executed + ran, skips + skip)
  {}

  /** A pack that ran to its end has no reached rule that breaks its contract. */
  lemma NoBreak(packId: string, rules: seq<RuleEntry>, executed: seq<RuleResult>, skips: seq<(string, string)>)
    requires Splits(packId, rules, |rules|, executed, skips)
    ensures !RulesBreak(rules)
  {
    forall i: nat | Reached(rules, i) ensures !Breaks(rules[i]) {
      assert Placed(packId, rules, i, executed, skips);
    }
  }

  /** After a reached rule that stops the pack, an exception included, every other rule is skipped;
      the exception itself is one failed, required fast-fail result. */
  lemma StopEndsPack(
    packId: string, rules: seq<RuleEntry>, i: nat, executed: seq<RuleResult>, skips: seq<(string, string)>)
    requires Splits(packId, rules, |rules|, executed, skips) && Reached(rules, i) && Stops(rules[i])
    ensures forall j :: i < j < |rules| && !rules[j].foundation ==> (packId, rules[j].name) in skips
    ensures var k := Rank(rules, i);
            && k < |executed| && RuleCounts(packId, rules[i], executed[k])
            && (rules[i].run.RuleRaised? ==>
                  executed[k] == RuleResult(packId + "." + rules[i].name, Failed, true, true))
  {
    assert Placed(packId, rules, i, executed, skips);
    forall j | i < j < |rules| && !rules[j].foundation ensures (packId, rules[j].name) in skips {
      assert StoppedBy(rules, j) && Placed(packId, rules, j, executed, skips);
    }
  }

  // ---------- packs ----------

  /** What one pack adds: recorded results, executed rules, skipped rules. */
  datatype Trail = Trail(results: seq<RuleResult>, executed: seq<RuleResult>, skips: seq<(string, string)>)

  ghost predicate TrailOf(p: Pack, t: Trail) {
    if p.rules.None? then t == Trail([RuleResult(p.packId + ".__load__", Failed, true, true)], [], [])
    else t.results == t.executed && Splits(p.packId, p.rules.value, |p.rules.value|, t.executed, t.skips)
  }

  /** What a pack adds whose rule breaks its contract: the results before that rule, and no skips. */
  ghost predicate BrokenTrailOf(p: Pack, t: Trail, error: AuditError) {
    && p.rules.Some? && t.results == t.executed && t.skips == []
    && exists i: nat :: BrokenOff(p.packId, p.rules.value, i, t.executed, error)
  }

  ghost predicate BrokenOff(
    packId: string, rules: seq<RuleEntry>, i: nat, executed: seq<RuleResult>, error: AuditError)
  {
    Reached(rules, i) && BreaksWith(rules[i], error) && Splits(packId, rules, i, executed, [])
  }

  /** What one pack adds, and that it breaks off exactly when a reached rule breaks its contract. */
  ghost predicate PackEnds(p: Pack, t: Trail, error: Option<AuditError>) {
    && (error.None? ==> TrailOf(p, t))
    && (error.Some? ==> BrokenTrailOf(p, t, error.value))
    && (error.Some? <==> PackBreaks(p))
  }

  /** How the loop over a loaded pack ends. */
  ghost predicate RulesEnd(
    packId: string, rules: seq<RuleEntry>, at: nat, executed: seq<RuleResult>, skips: seq<(string, string)>,
    error: Option<AuditError>)
  {
    && (error.None? ==> Splits(packId, rules, |rules|, executed, skips))
    && (error.Some? ==> BrokenOff(packId, rules, at, executed, error.value) && skips == [])
    && (error.Some? <==> RulesBreak(rules))
  }

  lemma LoadedEnds(
    p: Pack, at: nat, executed: seq<RuleResult>, skips: seq<(string, string)>, error: Option<AuditError>)
    requires p.rules.Some? && RulesEnd(p.packId, p.rules.value, at, executed, skips, error)
    ensures PackEnds(p, Trail(executed, executed, skips), error)
  {}

  /** The loop over the packs, after `n` of them. */
  ghost predicate PacksAlong(packs: seq<Pack>, n: nat, trails: seq<Trail>) {
    n <= |packs| && TrailsOf(packs[..n], trails) && !SomeBreaks(packs[..n])
  }

  /** How the loop over the packs ends. */
  ghost predicate PacksEnd(packs: seq<Pack>, trails: seq<Trail>, error: Option<AuditError>) {
    && (error.None? ==> TrailsOf(packs, trails))
    && (error.Some? ==> BrokenTrailsOf(packs, trails, error.value))
    && (error.Some? <==> SomeBreaks(packs))
  }

  lemma PackAdded(packs: seq<Pack>, n: nat, trails: seq<Trail>, t: Trail, error: Option<AuditError>)
    requires n < |packs| && PacksAlong(packs, n, trails) && PackEnds(packs[n], t, error)
    ensures error.None? ==> PacksAlong(packs, n + 1, trails + [t])
    ensures error.Some? ==> PacksEnd(packs, trails + [t], error)
    ensures |trails + [t]| == n + 1
  {
    assert (trails + [t])[..|trails|] == trails && packs[n] in packs;
    if error.None? {
      UnbrokenPack(packs, n, trails, t);
    }
  }

  lemma UnbrokenPack(packs: seq<Pack>, n: nat, trails: seq<Trail>, t: Trail)
    requires n < |packs| && PacksAlong(packs, n, trails) && PackEnds(packs[n], t, None)
    ensures PacksAlong(packs, n + 1, trails + [t])
  {
    var before, after := packs[..n], packs[..n + 1];
    assert forall i :: 0 <= i < n ==> after[i] == before[i];
    forall p | p in after ensures p in before || p == packs[n] {}
  }

  lemma PacksDone(packs: seq<Pack>, trails: seq<Trail>)
    requires PacksAlong(packs, |packs|, trails)
    ensures PacksEnd(packs, trails, None) && |trails| == |packs|
  {
    assert packs[..|packs|] == packs;
  }

  /** Some packs ran, and the next one broke off. */
  ghost predicate BrokenTrailsOf(packs: seq<Pack>, trails: seq<Trail>, error: AuditError) {
    && 0 < |trails| <= |packs|
    && TrailsOf(packs[..|trails| - 1], trails[..|trails| - 1])
    && BrokenTrailOf(packs[|trails| - 1], trails[|trails| - 1], error)
  }

  ghost predicate TrailsOf(packs: seq<Pack>, trails: seq<Trail>) {
    |trails| == |packs| && forall i :: 0 <= i < |packs| ==> TrailOf(packs[i], trails[i])
  }

  ghost function AllResults(trails: seq<Trail>): seq<RuleResult> {
    if trails == [] then [] else AllResults(trails[..|trails| - 1]) + trails[|trails| - 1].results
  }

  ghost function AllExecuted(trails: seq<Trail>): seq<RuleResult> {
    if trails == [] then [] else AllExecuted(trails[..|trails| - 1]) + trails[|trails| - 1].executed
  }

  /** The packs that were and were not loaded. */
  function Loaded(packs: seq<Pack>): seq<string> {
    if packs == [] then []
    else Loaded(packs[..|packs| - 1]) + if packs[|packs| - 1].rules.Some? then [packs[|packs| - 1].packId] else []
  }

  function Unloaded(packs: seq<Pack>): seq<string> {
    if packs == [] then []
    else Unloaded(packs[..|packs| - 1]) + if packs[|packs| - 1].rules.None? then [packs[|packs| - 1].packId] else []
  }

  lemma PackListed(packs: seq<Pack>, i: nat)
    requires i < |packs|
    ensures Loaded(packs[..i + 1]) == Loaded(packs[..i]) + if packs[i].rules.Some? then [packs[i].packId] else []
    ensures Unloaded(packs[..i + 1]) == Unloaded(packs[..i]) + if packs[i].rules.None? then [packs[i].packId] else []
  {
    assert packs[..i + 1][..i] == packs[..i];
  }

  ghost function AllSkips(trails: seq<Trail>): seq<(string, string)> {
    if trails == [] then [] else AllSkips(trails[..|trails| - 1]) + trails[|trails| - 1].skips
  }

  lemma TrailAdded(trails: seq<Trail>, t: Trail)
    ensures AllResults(trails + [t]) == AllResults(trails) + t.results
    ensures AllExecuted(trails + [t]) == AllExecuted(trails) + t.executed
    ensures AllSkips(trails + [t]) == AllSkips(trails) + t.skips
  {
    assert (trails + [t])[..|trails|] == trails;
  }

  /** The lists of a report. */
  datatype Entries = Entries(
    results: seq<RuleResult>, executed: seq<RuleResult>, skips: seq<(string, string)>,
    evaluated: seq<string>, unloaded: seq<string>)

  /** The lists after one pack, and after several. */
  function WithPack(e: Entries, p: Pack, t: Trail): Entries {
    Entries(e.results + t.results, e.executed + t.executed, e.skips + t.skips,
            e.evaluated + (if p.rules.Some? then [p.packId] else []),
            e.unloaded + (if p.rules.None? then [p.packId] else []))
  }

  ghost function WithPacks(e: Entries, packs: seq<Pack>, trails: seq<Trail>): Entries {
    Entries(e.results + AllResults(trails), e.executed + AllExecuted(trails), e.skips + AllSkips(trails),
            e.evaluated + Loaded(packs), e.unloaded + Unloaded(packs))
  }

  lemma WithOneMore(e: Entries, packs: seq<Pack>, i: nat, trails: seq<Trail>, t: Trail)
    requires i < |packs|
    ensures WithPack(WithPacks(e, packs[..i], trails), packs[i], t) == WithPacks(e, packs[..i + 1], trails + [t])
  {
    PackListed(packs, i);
    TrailAdded(trails, t);
    Reassociate(e.results, AllResults(trails), t.results);
    Reassociate(e.executed, AllExecuted(trails), t.executed);
    Reassociate(e.skips, AllSkips(trails), t.skips);
    Reassociate(e.evaluated, Loaded(packs[..i]), if packs[i].rules.Some? then [packs[i].packId] else []);
    Reassociate(e.unloaded, Unloaded(packs[..i]), if packs[i].rules.None? then [packs[i].packId] else []);
  }

  lemma WithNoPacks(e: Entries)
    ensures WithPacks(e, [], []) == e
  {}

  class AuditReport {
    var passed: nat
    var failed: nat
    var blocked: nat
    var notApplicable: nat
    var results: seq<RuleResult>
    var skippedGates: seq<(string, string)>
    var skippedPacks: seq<string>
    var packsEvaluated: seq<string>
    var optionalExecution: seq<RuleResult>

    /** Every counter equals the number of recorded results with its status. */
    ghost predicate Counted()
      reads this
    {
      && passed == CountOf(results, Passed) && failed == CountOf(results, Failed)
      && blocked == CountOf(results, Blocked) && notApplicable == CountOf(results, NotApplicable)
      && |results| == passed + failed + blocked + notApplicable
    }

    function Lists(): Entries
      reads this
    {
      Entries(results, optionalExecution, skippedGates, packsEvaluated, skippedPacks)
    }

    constructor ()
      ensures Counted() && results == [] && skippedGates == [] && skippedPacks == [] && packsEvaluated == []
      ensures optionalExecution == []
    {
      passed, failed, blocked, notApplicable := 0, 0, 0, 0;
      results, skippedGates, skippedPacks, packsEvaluated, optionalExecution := [], [], [], [], [];
    }

    method RecordResult(r: RuleResult) returns (error: Option<AuditError>)
      requires Counted()
      modifies this`passed, this`failed, this`blocked, this`notApplicable, this`results
      ensures Counted()
      ensures error == if r.status == Invalid then Some(InvalidStatus(r.ruleId)) else None
      ensures results == if error.Some? then old(results) else old(results) + [r]
    {
      if r.status == Invalid {
        return Some(InvalidStatus(r.ruleId));
      }
      assert (results + [r])[..|results|] == results;
      results := results + [r];
      match r.status {
        case Passed => passed := passed + 1;
        case Failed => failed := failed + 1;
        case Blocked => blocked := blocked + 1;
        case NotApplicable => notApplicable := notApplicable + 1;
      }
      return None;
    }

    method RunRule(packId: string, e: RuleEntry) returns (error: Option<AuditError>, r: RuleResult)
      requires Counted()
      modifies this`passed, this`failed, this`blocked, this`notApplicable, this`results, this`optionalExecution
      ensures Counted() && (error.Some? <==> Breaks(e)) && (error.Some? ==> BreaksWith(e, error.value))
      ensures error.None? ==> RuleCounts(packId, e, r)
      ensures error.None? ==> results == old(results) + [r] && optionalExecution == old(optionalExecution) + [r]
      ensures error.Some? ==> results == old(results) && optionalExecution == old(optionalExecution)
    {
      match e.run {
        case RuleRaised => r := RuleResult(packId + "." + e.name, Failed, true, true);
        case Returned(q) => r := q;
        case ReturnedOther =>
          r := RuleResult(e.name, Invalid, true, true);
          return Some(NotARuleResult(e.name)), r;
      }
      error := RecordResult(r);
      if error.None? {
        optionalExecution := optionalExecution + [r];
      }
    }

    /** One rule of a pack: passed over, skipped, or run. */
    method VisitRule(packId: string, e: RuleEntry, gateClosed: bool)
      returns (error: Option<AuditError>, closed: bool, ghost ran: seq<RuleResult>, ghost skip: seq<(string, string)>)
      requires Counted()
      modifies this`passed, this`failed, this`blocked, this`notApplicable, this`results, this`optionalExecution,
               this`skippedGates
      ensures Counted()
      ensures error.Some? <==> !e.foundation && !gateClosed && Breaks(e)
      ensures error.Some? ==> BreaksWith(e, error.value) && ran == [] && skip == []
      ensures error.None? ==> Visited(packId, e, gateClosed, ran, skip, closed)
      ensures results == old(results) + ran && optionalExecution == old(optionalExecution) + ran
      ensures skippedGates == old(skippedGates) + skip
    {
      closed, error, ran, skip := gateClosed, None, [], [];
      if e.foundation {
        return;
      }
      if gateClosed {
        skippedGates := skippedGates + [(packId, e.name)];
        skip := [(packId, e.name)];
        return;
      }
      var r;
      error, r := RunRule(packId, e);
      if error.None? {
        ran := [r];
        closed := ClosesGate(r);
      }
    }

    /** The loop over one loaded pack. It ends early exactly when a rule that is reached breaks its
        contract; then the rules before it are recorded and nothing is skipped. */
    method RunPack(packId: string, rules: seq<RuleEntry>)
      returns (error: Option<AuditError>, ghost at: nat, ghost executed: seq<RuleResult>,
               ghost skips: seq<(string, string)>)
      requires Counted()
      modifies this
      ensures Counted() && skippedPacks == old(skippedPacks) && packsEvaluated == old(packsEvaluated) + [packId]
      ensures results == old(results) + executed && optionalExecution == old(optionalExecution) + executed
      ensures skippedGates == old(skippedGates) + skips
      ensures RulesEnd(packId, rules, at, executed, skips, error)
    {
      packsEvaluated := packsEvaluated + [packId];
      var gateClosed := false;
      at, executed, skips := 0, [], [];
      for i := 0 to |rules|
        invariant Counted() && skippedPacks == old(skippedPacks) && packsEvaluated == old(packsEvaluated) + [packId]
        invariant Along(packId, rules, i, executed, skips, gateClosed)
        invariant results == old(results) + executed && optionalExecution == old(optionalExecution) + executed
        invariant skippedGates == old(skippedGates) + skips
      {
        ghost var ran, skip;
        var closed;
        error, closed, ran, skip := VisitRule(packId, rules[i], gateClosed);
        Reassociate(old(results), executed, ran);
        Reassociate(old(optionalExecution), executed, ran);
        Reassociate(old(skippedGates), skips, skip);
        if error.Some? {
          at := i;
          assert Reached(rules, i) && Breaks(rules[i]);
          return;
        }
        AlongStep(packId, rules, i, executed, skips, gateClosed, ran, skip, closed);
        gateClosed, executed, skips := closed, executed + ran, skips + skip;
      }
      error := None;
      NoBreak(packId, rules, executed, skips);
    }

    /** Once the acknowledgments are accepted, guards run in order until one is neither acknowledged
        nor passed. */
    method RunGuards(guards: seq<string>, ghost overrides: Overrides, accepted: set<string>, runs: string -> GuardRun)
      returns (gate: Result<GateStatus, AuditError>, ghost at: nat, ghost added: seq<RuleResult>)
      requires Counted() && OverridesOk(overrides) && forall g :: g in accepted <==> Acknowledged(overrides, g)
      modifies this`passed, this`failed, this`blocked, this`notApplicable, this`results
      ensures Counted() && results == old(results) + added
      ensures GateLeaves(gate, guards, overrides, runs, at, added) && gate != Success(OverridesRejected)
      ensures gate == Success(Open) ==> GateOpens(guards, overrides, runs)
    {
      at, added := 0, [];
      for i := 0 to |guards|
        invariant Counted() && results == old(results) + added
        invariant GateAlong(guards, i, overrides, runs, added)
      {
        ghost var more;
        gate, more := RunGuard(guards[i], overrides, accepted, runs);
        Reassociate(old(results), added, more);
        GateGoes(guards, i, overrides, runs, added, gate, more);
        added := added + more;
        if gate != Success(Open) {
          return gate, i, added;
        }
      }
      GateDone(guards, overrides, runs, added);
      return Success(Open), at, added;
    }

    /** One guard: passed over when acknowledged, otherwise run and recorded. */
    method RunGuard(guardId: string, ghost overrides: Overrides, accepted: set<string>, runs: string -> GuardRun)
      returns (gate: Result<GateStatus, AuditError>, ghost added: seq<RuleResult>)
      requires Counted() && forall g :: g in accepted <==> Acknowledged(overrides, g)
      modifies this`passed, this`failed, this`blocked, this`notApplicable, this`results
      ensures Counted() && results == old(results) + added
      ensures GuardAnswers(guardId, overrides, runs, gate, added)
    {
      added := [];
      if guardId in accepted {
        return Success(Open), added;
      }
      var run := runs(guardId);
      var result := RuleResult(guardId, Blocked, true, false);
      if run.Ran? {
        result := run.result;
        if result.status == NotApplicable || run.executionError {
          result := RuleResult(guardId, Blocked, result.required, result.fastFail);
        }
      }
      var error := RecordResult(result);
      if error.Some? {
        return Failure(error.value), added;
      }
      added := [result];
      return Success(if result.status == Passed then Open else BlockedAt(guardId)), added;
    }

    /** The gate opens exactly when the acknowledgments are accepted and every guard is cleared;
        otherwise it stops at the first guard that is not. */
    method RunFoundationGate(guards: seq<string>, overrides: Overrides, runs: string -> GuardRun)
      returns (gate: Result<GateStatus, AuditError>, ghost at: nat, ghost added: seq<RuleResult>)
      requires Counted()
      modifies this`passed, this`failed, this`blocked, this`notApplicable, this`results
      ensures Counted() && results == old(results) + added
      ensures GateLeaves(gate, guards, overrides, runs, at, added)
      ensures gate == Success(Open) <==> GateOpens(guards, overrides, runs)
      ensures gate == Success(OverridesRejected) <==> !OverridesOk(overrides)
    {
      var accepted := ValidateOverrides(overrides);
      if accepted.None? {
        return Success(OverridesRejected), 0, [];
      }
      gate, at, added := RunGuards(guards, overrides, accepted.value, runs);
      if gate != Success(Open) {
        BlockingCloses(guards, overrides, runs, at);
      }
    }

    /** The packs in order, up to the first that breaks off, if one does. */
    method RunPacks(packs: seq<Pack>) returns (error: Option<AuditError>, ghost trails: seq<Trail>)
      requires Counted()
      modifies this
      ensures Counted() && |trails| <= |packs|
      ensures Lists() == WithPacks(old(Lists()), packs[..|trails|], trails)
      ensures PacksEnd(packs, trails, error)
    {
      trails := [];
      WithNoPacks(Lists());
      for i := 0 to |packs|
        invariant Counted() && PacksAlong(packs, i, trails)
        invariant Lists() == WithPacks(old(Lists()), packs[..i], trails)
      {
        ghost var t;
        error, t := RunOrSkipPack(packs[i]);
        WithOneMore(old(Lists()), packs, i, trails, t);
        PackAdded(packs, i, trails, t, error);
        trails := trails + [t];
        if error.Some? {
          return;
        }
      }
      PacksDone(packs, trails);
      error := None;
    }

    method RunOrSkipPack(p: Pack) returns (error: Option<AuditError>, ghost t: Trail)
      requires Counted()
      modifies this
      ensures Counted() && Lists() == WithPack(old(Lists()), p, t)
      ensures PackEnds(p, t, error)
    {
      if p.rules.None? {
        skippedPacks := skippedPacks + [p.packId];
        var failure := RuleResult(p.packId + ".__load__", Failed, true, true);
        t := Trail([failure], [], []);
        error := RecordResult(failure);
        return;
      }
      ghost var at, executed, skips;
      error, at, executed, skips := RunPack(p.packId, p.rules.value);
      t := Trail(executed, executed, skips);
      LoadedEnds(p, at, executed, skips, error);
    }

    /** No optional rule runs unless every foundation guard is cleared: a gate that stays closed leaves
        its own results and nothing else. Once it is open, the audit fails exactly when no pack is
        requested or a reached rule breaks its contract; what runs is, pack by pack, a prefix of its rules. */
    method RunAudit(overrides: Overrides, runs: string -> GuardRun, packs: seq<Pack>)
      returns (gate: Result<GateStatus, AuditError>, error: Option<AuditError>,
               ghost at: nat, ghost added: seq<RuleResult>, ghost trails: seq<Trail>)
      requires Counted()
      modifies this
      ensures Counted()
      ensures gate == Success(Open) <==> GateOpens(FOUNDATION_GUARDS, overrides, runs)
      ensures gate == Success(OverridesRejected) <==> !OverridesOk(overrides)
      ensures GateLeaves(gate, FOUNDATION_GUARDS, overrides, runs, at, added)
      ensures gate != Success(Open) ==>
                error.None? && trails == [] && Lists() == old(Lists()).(results := old(results) + added)
      ensures gate == Success(Open) ==>
                && |trails| <= |packs|
                && Lists() == WithPacks(old(Lists()).(results := old(results) + added), packs[..|trails|], trails)
                && (error == Some(NoPack) <==> packs == [])
                && (error.Some? <==> packs == [] || SomeBreaks(packs))
                && (error.None? ==> TrailsOf(packs, trails))
                && (error.Some? && packs != [] ==> BrokenTrailsOf(packs, trails, error.value))
    {
      trails := [];
      error := None;
      gate, at, added := RunFoundationGate(FOUNDATION_GUARDS, overrides, runs);
      if gate != Success(Open) {
        return;
      }
      if packs == [] {
        WithNoPacks(Lists());
        error := Some(NoPack);
        return;
      }
      error, trails := RunPacks(packs);
    }
  }

  lemma Reassociate<T>(a: seq<T>, b: seq<T>, c: seq<T>)
    ensures (a + b) + c == a + (b + c)
  {}
}
