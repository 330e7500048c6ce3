/** Propose, decide, apply: one governed write to a profile, bound by hashes to what was proposed. */
module RuleGatekeeper {
  import opened Sequences
  import opened JsonModel
  import opened EvidenceRefs
  import Text

  // ---------- rules and profiles ----------

  datatype Rule = Rule(
    ruleId: string, trigger: string, requiredAction: string, severity: string,
    scope: seq<string>, exceptions: seq<string>)

  function Strings(texts: seq<string>): Json {
    List(seq(|texts|, i requires 0 <= i < |texts| => Str(texts[i])))
  }

  function RuleJson(r: Rule): Json {
    Object(map["rule_id" := Str(r.ruleId), "trigger" := Str(r.trigger), "required_action" := Str(r.requiredAction),
               "severity" := Str(r.severity), "scope" := Strings(r.scope), "exceptions" := Strings(r.exceptions)])
  }

  function TextList(texts: seq<string>): Option<seq<string>> {
    if texts == [] then Some([])
    else
      var init, last := TextList(texts[..|texts| - 1]), Text.Required(texts[|texts| - 1]);
      if init.None? || last.None? then None else Some(init.value + [last.value])
  }

  function Unique(texts: seq<string>): seq<string> {
    if texts == [] then []
    else
      var rest := Unique(texts[1..]);
      if texts[0] in rest then rest else [texts[0]] + rest
  }

  /** sorted(set(...)) */
  function SortedSet(texts: seq<string>): seq<string> {
    Sort(Unique(texts), StrLe)
  }

  /** `None` stands for the ValueError of a blank or missing text. */
  function ProposedRule(
    ruleId: string, trigger: string, action: string, severity: string, scope: seq<string>, exceptions: seq<string>)
    : Option<Rule>
  {
    var t, a, s := Text.Required(trigger), Text.Required(action), Text.Required(severity);
    var sc, ex := TextList(scope), TextList(exceptions);
    if t.None? || a.None? || s.None? || sc.None? || sc.value == [] || ex.None? then None
    else Some(Rule(ruleId, t.value, a.value, s.value, SortedSet(sc.value), SortedSet(ex.value)))
  }

  /** `None` when "rules" is present and not an object. */
  function UpdatedProfile(profile: JsonObject, rule: Rule): Option<JsonObject> {
    if "rules" !in profile then Some(profile["rules" := Object(map[rule.ruleId := RuleJson(rule)])])
    else match profile["rules"]
      case Object(rules) => Some(profile["rules" := Object(rules[rule.ruleId := RuleJson(rule)])])
      case _ => None
  }

  /** The unified diff, taken as the pair it compares; equal texts give the fixed message. */
  datatype Diff = NoProfileChange | ProfileChange(before: JsonObject, after: JsonObject, target: string)

  function ProfileDiff(profile: JsonObject, rule: Rule, target: string): Option<Diff> {
    var updated := UpdatedProfile(profile, rule);
    if updated.None? then None
    else if updated.value == profile then Some(NoProfileChange)
    else Some(ProfileChange(profile, updated.value, target))
  }

  // ---------- library parameters ----------

  /** SHA-256 of bytes, JSON reading and printing of a profile file, `Path(..).as_posix()`
      (`None` for an absolute path or one with ".."), and the schema of a proposal. */
  datatype Library = Library(
    sha: string -> string, load: string -> Option<JsonObject>, dump: JsonObject -> string,
    posix: string -> Option<string>, schema: Proposal -> bool)

  ghost predicate Digests(lib: Library) {
    forall b :: IsDigest(lib.sha(b))
  }

  // ---------- proposing ----------

  datatype EvidenceItem = EvidenceItem(path: string, hash: string)

  /** `schemasValid`: the guard result and the evidence package keep their schemas; `registered` looks
      a guard up in a pack. `resultsExplicit`: the equivalent-rule and contradiction results are given,
      the second as an object or named text. */
  datatype Request = Request(
    packId: string, ruleId: string, target: string, trigger: string, scope: seq<string>, requiredAction: string,
    severity: string, exceptions: seq<string>, evidence: seq<EvidenceItem>,
    rationale: string, validationPlan: seq<string>, rollbackPlan: seq<string>,
    schemasValid: bool, guardWorkspace: string, evidenceWorkspace: string, governance: string, guardGovernance: string,
    registered: (string, string) -> bool, resultsExplicit: bool, provenanceGiven: bool)

  const READ_ONLY: string := "READ_ONLY"

  /** `_validate_inputs` finds nothing missing. */
  predicate InputsValid(q: Request, workspaceId: string) {
    && q.schemasValid && q.guardWorkspace == workspaceId && q.evidenceWorkspace == workspaceId
    && q.governance == READ_ONLY && q.guardGovernance == READ_ONLY
    && !Text.Blank(q.packId) && !Text.Blank(q.ruleId) && q.registered(Text.Strip(q.packId), Text.Strip(q.ruleId))
  }

  /** A text list that may not be empty. */
  predicate SomeTexts(texts: seq<string>) {
    texts != [] && TextList(texts).Some?
  }

  /** Everything the gatekeeper demands besides the rule, its target and its evidence. */
  predicate Complete(q: Request, workspaceId: string) {
    && InputsValid(q, workspaceId) && q.resultsExplicit && q.provenanceGiven
    && !Text.Blank(q.rationale) && SomeTexts(q.validationPlan) && SomeTexts(q.rollbackPlan)
  }

  datatype Proposal = Proposal(
    proposalId: string, workspaceId: string, ruleId: string, target: string, trigger: string, scope: seq<string>,
    requiredAction: string, severity: string, exceptions: seq<string>, evidenceRefs: seq<string>,
    diff: Diff, targetHash: string, packId: string, rationale: string,
    validationPlan: seq<string>, rollbackPlan: seq<string>)

  function NormalizedScope(scope: seq<string>, lib: Library): Option<seq<string>> {
    var texts := TextList(scope);
    if texts.None? || texts.value == [] then None
    else
      var paths := Posix(texts.value, lib);
      if paths.None? then None else Some(SortedSet(paths.value))
  }

  function Posix(texts: seq<string>, lib: Library): Option<seq<string>> {
    if texts == [] then Some([])
    else
      var init, last := Posix(texts[..|texts| - 1], lib), lib.posix(texts[|texts| - 1]);
      if init.None? || last.None? then None else Some(init.value + [last.value])
  }

  /** References of the evidence items whose hash is that of the current file. */
  function CurrentRefs(files: Files, workspaceId: string, items: seq<EvidenceItem>, lib: Library): seq<string> {
    if items == [] then []
    else
      var last := items[|items| - 1];
      CurrentRefs(files, workspaceId, items[..|items| - 1], lib)
      + if last.path in files && lib.sha(files[last.path]) == last.hash && |last.hash| == 64
        then [BuildRef(workspaceId, last.path, last.hash)] else []
  }

  /** `None` for a proposal that is refused as insufficient or malformed. */
  function ProposeRule(files: Files, workspaceId: string, proposalId: string, q: Request, lib: Library)
    : Option<Proposal>
  {
    var draft := Draft(files, workspaceId, proposalId, q, lib);
    if draft.Some? && lib.schema(draft.value) then draft else None
  }

  /** The proposal before its own schema is checked. */
  function Draft(files: Files, workspaceId: string, proposalId: string, q: Request, lib: Library): Option<Proposal> {
    if !Complete(q, workspaceId) || q.target !in files then None
    else
      var scope := NormalizedScope(q.scope, lib);
      var refs := CurrentRefs(files, workspaceId, q.evidence, lib);
      var ruleId, profile := Text.Required(q.ruleId), lib.load(files[q.target]);
      if scope.None? || refs == [] || ruleId.None? || profile.None? then None
      else
        var rule := ProposedRule(ruleId.value, q.trigger, q.requiredAction, q.severity, scope.value, q.exceptions);
        if rule.None? then None
        else
          var diff := ProfileDiff(profile.value, rule.value, q.target);
          if diff.None? then None
          else
            var hash := lib.sha(files[q.target]);
            Some(Proposal(
              proposalId, workspaceId, ruleId.value, q.target, Text.Strip(q.trigger), scope.value,
              Text.Strip(q.requiredAction), Text.Strip(q.severity), TextList(q.exceptions).value,
              SortedSet(refs + [BuildRef(workspaceId, q.target, hash)]), diff.value, hash,
              Text.Strip(q.packId), Text.Strip(q.rationale),
              TextList(q.validationPlan).value, TextList(q.rollbackPlan).value))
  }

  // ---------- revalidation and application ----------

  predicate RefsValid(files: Files, workspaceId: string, refs: seq<string>, lib: Library) {
    forall ref :: ref in refs ==> ValidateRef(files, workspaceId, ref, lib.sha) == None
  }

  /** `revalidate_proposal` answers PROPOSAL_READY. */
  predicate Revalidates(files: Files, workspaceId: string, guardRegistered: bool, p: Proposal, lib: Library) {
    && lib.schema(p) && p.workspaceId == workspaceId
    && guardRegistered
    && p.target in files && p.targetHash == lib.sha(files[p.target])
    && RefsValid(files, workspaceId, p.evidenceRefs, lib)
  }

  datatype Decision = Decision(approved: bool, proposalId: string, workspaceId: string, proposalHash: string)

  datatype ApplyError =
    | InvalidSchema | NotApproved | DecisionMismatch | NoAuthorization | Stale | InvalidProfile | DiffMismatch

  predicate DecisionMatches(d: Decision, p: Proposal, stableHash: Proposal -> string) {
    d.approved && d.proposalId == p.proposalId && d.workspaceId == p.workspaceId && d.proposalHash == stableHash(p)
  }

  /** The text the write puts in the target, or why there is no write. */
  function Application(
    files: Files, workspaceId: string, guardRegistered: bool, authorized: bool, p: Proposal, d: Decision,
    stableHash: Proposal -> string, lib: Library): Result<string, ApplyError>
  {
    if !lib.schema(p) then Failure(InvalidSchema)
    else if !d.approved then Failure(NotApproved)
    else if !DecisionMatches(d, p, stableHash) then Failure(DecisionMismatch)
    else if !authorized then Failure(NoAuthorization)
    else if !Revalidates(files, workspaceId, guardRegistered, p, lib) then Failure(Stale)
    else
      var profile := lib.load(files[p.target]);
      var rule := ProposedRule(p.ruleId, p.trigger, p.requiredAction, p.severity, p.scope, p.exceptions);
      if profile.None? || rule.None? || UpdatedProfile(profile.value, rule.value).None? then Failure(InvalidProfile)
      else if ProfileDiff(profile.value, rule.value, p.target) != Some(p.diff) then Failure(DiffMismatch)
      else Success(lib.dump(UpdatedProfile(profile.value, rule.value).value))
  }

  class Workspace {
    const workspaceId: string
    const lib: Library
    var files: Files

    constructor (workspaceId: string, lib: Library, files: Files)
      ensures this.workspaceId == workspaceId && this.lib == lib && this.files == files
    {
      this.workspaceId, this.lib, this.files := workspaceId, lib, files;
    }

    /** The governed write; the activation check that follows it never undoes it. */
    method ApplyApprovedProposal(
      p: Proposal, d: Decision, guardRegistered: bool, authorized: bool, stableHash: Proposal -> string,
      activation: Files -> bool) returns (r: Result<bool, ApplyError>)
      modifies this
      ensures var written := old(Application(files, workspaceId, guardRegistered, authorized, p, d, stableHash, lib));
              && (r.Success? <==> written.Success?)
              && (r.Success? ==> files == old(files)[p.target := written.value] && r.value == activation(files))
              && (r.Failure? ==> files == old(files) && r.error == written.error)
    {
      if !lib.schema(p) {
        return Failure(InvalidSchema);
      }
      if !d.approved {
        return Failure(NotApproved);
      }
      if !DecisionMatches(d, p, stableHash) {
        return Failure(DecisionMismatch);
      }
      if !authorized {
        return Failure(NoAuthorization);
      }
      if !Revalidates(files, workspaceId, guardRegistered, p, lib) {
        return Failure(Stale);
      }
      var profile := lib.load(files[p.target]);
      var rule := ProposedRule(p.ruleId, p.trigger, p.requiredAction, p.severity, p.scope, p.exceptions);
      if profile.None? || rule.None? {
        return Failure(InvalidProfile);
      }
      var updated := UpdatedProfile(profile.value, rule.value);
      if updated.None? {
        return Failure(InvalidProfile);
      }
      if ProfileDiff(profile.value, rule.value, p.target) != Some(p.diff) {
        return Failure(DiffMismatch);
      }
      files := files[p.target := lib.dump(updated.value)];
      return Success(activation(files));
    }
  }

  // ---------- what a proposal binds ----------

  lemma {:induction false} TextListIdempotent(texts: seq<string>)
    requires TextList(texts).Some?
    ensures TextList(TextList(texts).value) == TextList(texts)
  {
    if texts != [] {
      var init, last := texts[..|texts| - 1], texts[|texts| - 1];
      TextListIdempotent(init);
      Text.RequiredStays(last);
      var all := TextList(texts).value;
      assert all[..|all| - 1] == TextList(init).value;
    }
  }

  lemma {:induction false} TextListIff(texts: seq<string>)
    ensures TextList(texts).Some? <==> forall s :: s in texts ==> !Text.Blank(s)
  {
    if texts != [] {
      var init, last := texts[..|texts| - 1], texts[|texts| - 1];
      TextListIff(init);
      assert texts == init + [last];
      if TextList(init).None? {
        var s :| s in init && Text.Blank(s);
        assert s in texts;
      } else {
        assert last in texts;
        forall s | s in texts ensures s in init || s == last {}
      }
    }
  }

  lemma {:induction false} TextListMember(texts: seq<string>, t: string)
    requires TextList(texts).Some?
    ensures t in TextList(texts).value <==> exists s :: s in texts && Text.Strip(s) == t
  {
    if texts != [] {
      var init, last := texts[..|texts| - 1], texts[|texts| - 1];
      TextListMember(init, t);
      assert texts == init + [last];
      assert t in TextList(texts).value <==> t in TextList(init).value || t == Text.Strip(last);
    }
  }

  /** A list of texts is read text by text, unless one is blank. */
  lemma TextListReads(texts: seq<string>)
    ensures TextList(texts).Some? <==> forall s :: s in texts ==> !Text.Blank(s)
    ensures TextList(texts).Some? ==>
              forall t :: t in TextList(texts).value <==> exists s :: s in texts && Text.Strip(s) == t
  {
    TextListIff(texts);
    if TextList(texts).Some? {
      forall t ensures t in TextList(texts).value <==> exists s :: s in texts && Text.Strip(s) == t {
        TextListMember(texts, t);
      }
    }
  }

  lemma {:induction false} PosixReads(texts: seq<string>, lib: Library)
    ensures Posix(texts, lib).Some? <==> forall s :: s in texts ==> lib.posix(s).Some?
    ensures Posix(texts, lib).Some? ==>
              && (Posix(texts, lib).value == [] <==> texts == [])
              && forall t :: t in Posix(texts, lib).value <==> exists s :: s in texts && lib.posix(s) == Some(t)
  {
    if texts != [] {
      var init, last := texts[..|texts| - 1], texts[|texts| - 1];
      PosixReads(init, lib);
      assert texts == init + [last];
      if Posix(texts, lib).Some? {
        forall t ensures t in Posix(texts, lib).value <==> exists s :: s in texts && lib.posix(s) == Some(t) {
          assert t in Posix(texts, lib).value <==> t in Posix(init, lib).value || Some(t) == lib.posix(last);
        }
      }
    }
  }

  lemma {:induction false} UniqueMembers(texts: seq<string>)
    ensures forall t :: t in Unique(texts) <==> t in texts
  {
    if texts != [] {
      UniqueMembers(texts[1..]);
      assert texts == [texts[0]] + texts[1..];
    }
  }

  lemma SortedSetMembers(texts: seq<string>)
    ensures forall t :: t in SortedSet(texts) <==> t in texts
  {
    UniqueMembers(texts);
    SameElements(Unique(texts), SortedSet(texts));
  }

  lemma {:induction false} UniqueIsDistinct(texts: seq<string>)
    ensures Distinct(Unique(texts))
  {
    if texts != [] {
      UniqueIsDistinct(texts[1..]);
    }
  }

  /** Each text once, in order. */
  lemma SortedSetOrder(texts: seq<string>)
    ensures Distinct(SortedSet(texts)) && Sorted(SortedSet(texts), StrLe)
  {
    UniqueIsDistinct(texts);
    DistinctPermutation(Unique(texts), SortedSet(texts));
    StrLeIsTotalPreorder();
    SortIsSorted(Unique(texts), StrLe);
  }

  /** The rule a request asks for, before any of its texts is trimmed. */
  function RequestedRule(q: Request, lib: Library): Option<Rule> {
    var scope, ruleId := NormalizedScope(q.scope, lib), Text.Required(q.ruleId);
    if scope.None? || ruleId.None? then None
    else ProposedRule(ruleId.value, q.trigger, q.requiredAction, q.severity, scope.value, q.exceptions)
  }

  /** The rule rebuilt from the stored proposal is the rule that was proposed. */
  lemma RebuiltRule(files: Files, workspaceId: string, proposalId: string, q: Request, lib: Library)
    requires ProposeRule(files, workspaceId, proposalId, q, lib).Some?
    ensures var p := ProposeRule(files, workspaceId, proposalId, q, lib).value;
            && RequestedRule(q, lib).Some?
            && ProposedRule(p.ruleId, p.trigger, p.requiredAction, p.severity, p.scope, p.exceptions) ==
               RequestedRule(q, lib)
  {
    Text.RequiredStays(q.trigger);
    Text.RequiredStays(q.requiredAction);
    Text.RequiredStays(q.severity);
    TextListIdempotent(q.exceptions);
  }

  // ---------- the rule in the request's own texts ----------

  /** The scope as a profile path, trimmed on both sides of the conversion. */
  function PathOf(text: string, lib: Library): Option<string> {
    match lib.posix(Text.Strip(text))
    case Some(path) => if Text.Blank(path) then None else Some(Text.Strip(path))
    case None => None
  }

  /** No text of the rule is blank, and every scope is a relative path. */
  ghost predicate RuleGiven(q: Request, lib: Library) {
    && !Text.Blank(q.ruleId) && !Text.Blank(q.trigger) && !Text.Blank(q.requiredAction) && !Text.Blank(q.severity)
    && ScopeGiven(q.scope, lib) && forall s :: s in q.exceptions ==> !Text.Blank(s)
  }

  ghost predicate ScopeGiven(scope: seq<string>, lib: Library) {
    scope != [] && forall s :: s in scope ==> !Text.Blank(s) && PathOf(s, lib).Some?
  }

  /** A JSON list of texts, each once and in order. */
  ghost predicate OrderedTexts(list: Json) {
    && list.List? && (forall i :: 0 <= i < |list.items| ==> list.items[i].Str?)
    && forall i, j :: 0 <= i < j < |list.items| ==>
         list.items[i].s != list.items[j].s && StrLe(list.items[i].s, list.items[j].s)
  }

  /** The written rule, field by field in the texts of the request. */
  ghost predicate Written(rule: Json, q: Request, lib: Library) {
    && rule.Object?
    && rule.fields.Keys == {"rule_id", "trigger", "required_action", "severity", "scope", "exceptions"}
    && rule.fields["rule_id"] == Str(Text.Strip(q.ruleId)) && rule.fields["trigger"] == Str(Text.Strip(q.trigger))
    && rule.fields["required_action"] == Str(Text.Strip(q.requiredAction))
    && rule.fields["severity"] == Str(Text.Strip(q.severity))
    && ScopeWritten(rule.fields["scope"], q.scope, lib) && TextsWritten(rule.fields["exceptions"], q.exceptions)
  }

  ghost predicate ScopeWritten(list: Json, scope: seq<string>, lib: Library) {
    && OrderedTexts(list)
    && forall t :: Str(t) in list.items <==> exists s :: s in scope && PathOf(s, lib) == Some(t)
  }

  ghost predicate TextsWritten(list: Json, texts: seq<string>) {
    && OrderedTexts(list)
    && forall t :: Str(t) in list.items <==> exists s :: s in texts && Text.Strip(s) == t
  }

  lemma StringsOrdered(texts: seq<string>)
    ensures OrderedTexts(Strings(SortedSet(texts)))
    ensures forall t :: Str(t) in Strings(SortedSet(texts)).items <==> t in texts
  {
    SortedSetOrder(texts);
    SortedSetMembers(texts);
    var sorted := SortedSet(texts);
    forall t ensures Str(t) in Strings(sorted).items <==> t in sorted {
      if t in sorted {
        var i :| 0 <= i < |sorted| && sorted[i] == t;
        assert Strings(sorted).items[i] == Str(t);
      }
    }
  }

  /** The paths of a scope, before they are sorted and trimmed again. */
  lemma PathsRead(scope: seq<string>, lib: Library)
    ensures NormalizedScope(scope, lib).Some? <==>
              scope != [] && forall s :: s in scope ==> !Text.Blank(s) && lib.posix(Text.Strip(s)).Some?
    ensures NormalizedScope(scope, lib).Some? ==>
              forall p :: p in NormalizedScope(scope, lib).value <==>
                exists s :: s in scope && lib.posix(Text.Strip(s)) == Some(p)
  {
    TextListReads(scope);
    if TextList(scope).Some? {
      var texts := TextList(scope).value;
      PosixReads(texts, lib);
      assert forall s :: s in scope ==> Text.Strip(s) in texts;
      if Posix(texts, lib).Some? {
        SortedSetMembers(Posix(texts, lib).value);
      }
    }
  }

  lemma ScopeReads(scope: seq<string>, lib: Library)
    requires NormalizedScope(scope, lib).Some?
    ensures var texts := TextList(NormalizedScope(scope, lib).value);
            && (texts.Some? <==> forall s :: s in scope ==> PathOf(s, lib).Some?)
            && (texts.Some? ==> forall t :: t in texts.value <==> exists s :: s in scope && PathOf(s, lib) == Some(t))
  {
    var paths := NormalizedScope(scope, lib).value;
    PathsRead(scope, lib);
    TextListReads(paths);
    forall s | s in scope
      ensures lib.posix(Text.Strip(s)).Some? && lib.posix(Text.Strip(s)).value in paths
    {
      var p := lib.posix(Text.Strip(s)).value;
      assert lib.posix(Text.Strip(s)) == Some(p);
    }
    var texts := TextList(paths);
    if texts.Some? {
      forall t ensures t in texts.value <==> exists s :: s in scope && PathOf(s, lib) == Some(t) {
        if t in texts.value {
          var p :| p in paths && Text.Strip(p) == t;
          var s :| s in scope && lib.posix(Text.Strip(s)) == Some(p);
          assert PathOf(s, lib) == Some(t);
        }
      }
    }
  }

  lemma ScopeIff(scope: seq<string>, lib: Library)
    ensures var paths := NormalizedScope(scope, lib);
            && (paths.Some? && TextList(paths.value).Some? <==> ScopeGiven(scope, lib))
            && (ScopeGiven(scope, lib) ==> TextList(paths.value).value != [])
  {
    PathsRead(scope, lib);
    if NormalizedScope(scope, lib).Some? {
      ScopeReads(scope, lib);
      if ScopeGiven(scope, lib) {
        assert PathOf(scope[0], lib).value in TextList(NormalizedScope(scope, lib).value).value;
      }
    }
  }

  lemma RequestedIff(q: Request, lib: Library)
    ensures RequestedRule(q, lib).Some? <==> RuleGiven(q, lib)
  {
    ScopeIff(q.scope, lib);
    TextListIff(q.exceptions);
  }

  lemma RuleFields(rule: Rule)
    ensures RuleJson(rule).Object?
    ensures var f := RuleJson(rule).fields;
            && f.Keys == {"rule_id", "trigger", "required_action", "severity", "scope", "exceptions"}
            && f["rule_id"] == Str(rule.ruleId) && f["trigger"] == Str(rule.trigger)
            && f["required_action"] == Str(rule.requiredAction) && f["severity"] == Str(rule.severity)
            && f["scope"] == Strings(rule.scope) && f["exceptions"] == Strings(rule.exceptions)
  {}

  lemma ListsWritten(q: Request, lib: Library)
    requires RequestedRule(q, lib).Some?
    ensures ScopeWritten(Strings(RequestedRule(q, lib).value.scope), q.scope, lib)
    ensures TextsWritten(Strings(RequestedRule(q, lib).value.exceptions), q.exceptions)
  {
    ScopeReads(q.scope, lib);
    TextListReads(q.exceptions);
    StringsOrdered(TextList(NormalizedScope(q.scope, lib).value).value);
    StringsOrdered(TextList(q.exceptions).value);
  }

  /** The rule is what the request says. */
  lemma RequestedFields(q: Request, lib: Library)
    requires RequestedRule(q, lib).Some?
    ensures RequestedRule(q, lib).value.ruleId == Text.Strip(q.ruleId)
    ensures Written(RuleJson(RequestedRule(q, lib).value), q, lib)
  {
    RuleFields(RequestedRule(q, lib).value);
    ListsWritten(q, lib);
  }

  /** The evidence item named a current file when the proposal was made. */
  predicate Cited(files: Files, item: EvidenceItem, lib: Library) {
    item.path in files && lib.sha(files[item.path]) == item.hash && |item.hash| == 64
  }

  lemma {:induction false} CurrentRefsMembers(
    files: Files, workspaceId: string, items: seq<EvidenceItem>, lib: Library, ref: string)
    ensures ref in CurrentRefs(files, workspaceId, items, lib) <==>
            exists item ::
              item in items && Cited(files, item, lib) && ref == BuildRef(workspaceId, item.path, item.hash)
  {
    if items != [] {
      var init, last := items[..|items| - 1], items[|items| - 1];
      CurrentRefsMembers(files, workspaceId, init, lib, ref);
      assert items == init + [last];
    }
  }

  ghost predicate CitesSome(files: Files, items: seq<EvidenceItem>, lib: Library) {
    exists item :: item in items && Cited(files, item, lib)
  }

  lemma CitedRefs(files: Files, workspaceId: string, items: seq<EvidenceItem>, lib: Library)
    ensures CurrentRefs(files, workspaceId, items, lib) != [] <==> CitesSome(files, items, lib)
  {
    var refs := CurrentRefs(files, workspaceId, items, lib);
    if refs != [] {
      CurrentRefsMembers(files, workspaceId, items, lib, refs[0]);
    }
    if item :| item in items && Cited(files, item, lib) {
      CurrentRefsMembers(files, workspaceId, items, lib, BuildRef(workspaceId, item.path, item.hash));
    }
  }

  /** A profile with room for a rule: "rules" is missing or an object. */
  predicate TakesRules(profile: JsonObject) {
    "rules" in profile ==> profile["rules"].Object?
  }

  lemma DiffExists(profile: JsonObject, rule: Rule, target: string)
    ensures ProfileDiff(profile, rule, target).Some? <==> TakesRules(profile)
  {}

  /** The request is complete, its rule can be built, the target is a profile that can take it, and at
      least one evidence item names a current file. */
  ghost predicate Acceptable(files: Files, workspaceId: string, q: Request, lib: Library) {
    && Complete(q, workspaceId) && RuleGiven(q, lib)
    && q.target in files && lib.load(files[q.target]).Some? && TakesRules(lib.load(files[q.target]).value)
    && CitesSome(files, q.evidence, lib)
  }

  /** A request becomes a proposal exactly when it is acceptable and what it drafts keeps its schema. */
  lemma ProposedIff(files: Files, workspaceId: string, proposalId: string, q: Request, lib: Library)
    ensures ProposeRule(files, workspaceId, proposalId, q, lib).Some? <==>
              && Acceptable(files, workspaceId, q, lib)
              && (var draft := Draft(files, workspaceId, proposalId, q, lib); draft.Some? ==> lib.schema(draft.value))
  {
    DraftedIff(files, workspaceId, proposalId, q, lib);
  }

  lemma DraftedIff(files: Files, workspaceId: string, proposalId: string, q: Request, lib: Library)
    ensures Draft(files, workspaceId, proposalId, q, lib).Some? <==> Acceptable(files, workspaceId, q, lib)
  {
    CitedRefs(files, workspaceId, q.evidence, lib);
    RequestedIff(q, lib);
    if RequestedRule(q, lib).Some? && q.target in files && lib.load(files[q.target]).Some? {
      DiffExists(lib.load(files[q.target]).value, RequestedRule(q, lib).value, q.target);
    }
  }

  ghost predicate EvidenceUnchanged(before: Files, now: Files, q: Request, lib: Library) {
    forall item :: item in q.evidence && Cited(before, item, lib) ==>
      item.path in now && lib.sha(now[item.path]) == item.hash
  }

  ghost predicate TargetUnchanged(before: Files, now: Files, target: string, lib: Library)
    requires target in before
  {
    target in now && lib.sha(now[target]) == lib.sha(before[target])
  }

  /** A proposal stays valid exactly while the guard is registered and the target and every cited
      evidence file have the hashes they had when it was made. */
  lemma ProposalBindsFiles(
    before: Files, workspaceId: string, proposalId: string, q: Request, lib: Library, now: Files, guardRegistered: bool)
    requires Digests(lib) && ProposeRule(before, workspaceId, proposalId, q, lib).Some?
    ensures var p := ProposeRule(before, workspaceId, proposalId, q, lib).value;
            Revalidates(now, workspaceId, guardRegistered, p, lib) <==>
              guardRegistered && TargetUnchanged(before, now, q.target, lib) && EvidenceUnchanged(before, now, q, lib)
  {
    var p := ProposeRule(before, workspaceId, proposalId, q, lib).value;
    var refs := CurrentRefs(before, workspaceId, q.evidence, lib);
    var targetRef := BuildRef(workspaceId, q.target, p.targetHash);
    SortedSetMembers(refs + [targetRef]);
    BuiltRefAccepted(now, workspaceId, q.target, p.targetHash, lib.sha);
    forall item | item in q.evidence && Cited(before, item, lib)
      ensures BuildRef(workspaceId, item.path, item.hash) in p.evidenceRefs
      ensures ValidateRef(now, workspaceId, BuildRef(workspaceId, item.path, item.hash), lib.sha) == None
              <==> item.path in now && lib.sha(now[item.path]) == item.hash
    {
      CurrentRefsMembers(before, workspaceId, q.evidence, lib, BuildRef(workspaceId, item.path, item.hash));
      BuiltRefAccepted(now, workspaceId, item.path, item.hash, lib.sha);
    }
    forall ref | ref in p.evidenceRefs && ref != targetRef
      ensures exists item ::
                item in q.evidence && Cited(before, item, lib) && ref == BuildRef(workspaceId, item.path, item.hash)
    {
      CurrentRefsMembers(before, workspaceId, q.evidence, lib, ref);
    }
    assert targetRef in p.evidenceRefs;
  }

  // ---------- what the write does ----------

  /** Only rules[rule_id] differs between the two profiles; it is `rule` afterwards. */
  ghost predicate OnlyRuleReplaced(before: JsonObject, after: JsonObject, ruleId: string, rule: Json) {
    && after.Keys == before.Keys + {"rules"}
    && (forall k :: k in before && k != "rules" ==> after[k] == before[k])
    && after["rules"].Object?
    && (var rules := if "rules" in before && before["rules"].Object? then before["rules"].fields else map[];
        after["rules"].fields == rules[ruleId := rule])
  }

  /** Only the requested rule differs, and it is what the request says. */
  ghost predicate RulePlaced(before: JsonObject, after: JsonObject, q: Request, lib: Library) {
    exists rule :: Written(rule, q, lib) && OnlyRuleReplaced(before, after, Text.Strip(q.ruleId), rule)
  }

  lemma PlacedByUpdate(profile: JsonObject, q: Request, lib: Library)
    requires RequestedRule(q, lib).Some? && UpdatedProfile(profile, RequestedRule(q, lib).value).Some?
    ensures RulePlaced(profile, UpdatedProfile(profile, RequestedRule(q, lib).value).value, q, lib)
  {
    var rule := RequestedRule(q, lib).value;
    RequestedFields(q, lib);
    UpdateReplacesOnlyRule(profile, rule);
    assert OnlyRuleReplaced(profile, UpdatedProfile(profile, rule).value, Text.Strip(q.ruleId), RuleJson(rule));
  }

  /** What a proposal says: the trimmed texts of the request, the hash of the target, and the change
      it would make, which is none when the profile holds the same rule already. */
  lemma ProposalSays(files: Files, workspaceId: string, proposalId: string, q: Request, lib: Library)
    requires ProposeRule(files, workspaceId, proposalId, q, lib).Some?
    ensures var p := ProposeRule(files, workspaceId, proposalId, q, lib).value;
            && p.proposalId == proposalId && p.workspaceId == workspaceId && p.target == q.target
            && p.ruleId == Text.Strip(q.ruleId) && p.trigger == Text.Strip(q.trigger)
            && p.requiredAction == Text.Strip(q.requiredAction) && p.severity == Text.Strip(q.severity)
            && p.packId == Text.Strip(q.packId) && p.rationale == Text.Strip(q.rationale)
            && p.targetHash == lib.sha(files[q.target])
            && exists after ::
                 && RulePlaced(lib.load(files[q.target]).value, after, q, lib)
                 && p.diff == (if after == lib.load(files[q.target]).value then NoProfileChange
                               else ProfileChange(lib.load(files[q.target]).value, after, q.target))
  {
    PlacedByUpdate(lib.load(files[q.target]).value, q, lib);
  }

  lemma UpdateReplacesOnlyRule(profile: JsonObject, rule: Rule)
    ensures UpdatedProfile(profile, rule).Some? <==> ("rules" in profile ==> profile["rules"].Object?)
    ensures UpdatedProfile(profile, rule).Some? ==>
              && OnlyRuleReplaced(profile, UpdatedProfile(profile, rule).value, rule.ruleId, RuleJson(rule))
              && UpdatedProfile(UpdatedProfile(profile, rule).value, rule) == UpdatedProfile(profile, rule)
  {
    if UpdatedProfile(profile, rule).Some? {
      var once := UpdatedProfile(profile, rule).value;
      var rules := once["rules"].fields;
      assert rules[rule.ruleId := RuleJson(rule)] == rules;
      assert once["rules" := Object(rules)] == once;
    }
  }

  /** With a matching approved decision the write happens exactly when the proposal still binds, and
      it is the profile of proposal time with that one rule replaced. The hash must not collide on
      the two versions of the target. */
  lemma AppliedAsProposed(
    before: Files, workspaceId: string, proposalId: string, q: Request, lib: Library,
    now: Files, guardRegistered: bool, authorized: bool, d: Decision, stableHash: Proposal -> string)
    requires Digests(lib) && ProposeRule(before, workspaceId, proposalId, q, lib).Some?
    requires q.target in now && lib.sha(now[q.target]) == lib.sha(before[q.target]) ==>
        now[q.target] == before[q.target]
    ensures var p := ProposeRule(before, workspaceId, proposalId, q, lib).value;
            var written := Application(now, workspaceId, guardRegistered, authorized, p, d, stableHash, lib);
            && (written.Success? <==>
                  && DecisionMatches(d, p, stableHash) && authorized && guardRegistered
                  && TargetUnchanged(before, now, q.target, lib) && EvidenceUnchanged(before, now, q, lib))
            && (written.Success? ==>
                  exists after ::
                    RulePlaced(lib.load(before[q.target]).value, after, q, lib) && written.value == lib.dump(after))
  {
    ProposalBindsFiles(before, workspaceId, proposalId, q, lib, now, guardRegistered);
    RebuiltRule(before, workspaceId, proposalId, q, lib);
    PlacedByUpdate(lib.load(before[q.target]).value, q, lib);
  }

  /** A write that changed the target's hash makes the same proposal stale, in every later state,
      until a target with the original hash is back. */
  lemma RefusedUntilBytesReturn(
    before: Files, workspaceId: string, proposalId: string, q: Request, lib: Library,
    later: Files, guardRegistered: bool, authorized: bool, d: Decision, stableHash: Proposal -> string)
    requires Digests(lib) && ProposeRule(before, workspaceId, proposalId, q, lib).Some?
    requires q.target in later && lib.sha(later[q.target]) != lib.sha(before[q.target])
    ensures var p := ProposeRule(before, workspaceId, proposalId, q, lib).value;
            && !Revalidates(later, workspaceId, guardRegistered, p, lib)
            && Application(later, workspaceId, guardRegistered, authorized, p, d, stableHash, lib).Failure?
            && (DecisionMatches(d, p, stableHash) && authorized ==>
                  Application(later, workspaceId, guardRegistered, authorized, p, d, stableHash, lib) == Failure(Stale))
  {
    ProposalBindsFiles(before, workspaceId, proposalId, q, lib, later, guardRegistered);
  }
}
