/** Contract revisions of a factory recovery (crates/crony-cli/src/factory.rs) and the store's
    composition of the persisted objective (crates/crony-store/src/contract_revision.rs).
    A lost response makes the controller rebuild its request from the persisted contract; the
    rebuilt request must name the same revision, and never one of another reviewed source. */
module RecoveryContract {
  import opened Prelude
  import opened RustStr
  import opened Truncation

  const SEPARATOR := "\n\nTASK-SPECIFIC OBJECTIVE:\n"
  const MAX_OBJECTIVE_BYTES: nat := 100_000
  const MARKER_PREFIX := "urn:ecorp:factory-reviewed-source:sha256:"
  const MAX_REFERENCES: nat := 64

  datatype Mode = VerifierOnly | SourceCorrection | CheckpointVerification

  /** What a revision may not touch. */
  datatype Authority = Authority(
    sourceRepository: Option<string>, sourceBaseRef: Option<string>, sourceBaseCommit: Option<string>,
    workspaceConnection: Option<string>, allowedTools: seq<string>, prohibitedActions: seq<string>,
    writeScope: seq<string>, budgetTokens: int, budgetCostMicrousd: int, deadline: Option<string>,
    escalation: string, secretRefs: seq<string>, model: Option<string>,
    reasoningEffort: Option<string>, deliverable: Option<string>)

  datatype Contract = Contract(
    objective: string, expectedOutput: string, acceptanceTests: seq<string>,
    references: seq<string>, authority: Authority)

  /** The issue, with the checklist that the acceptance parser reads from its body. */
  datatype Issue = Issue(
    number: int, title: string, body: string, url: string, updatedAt: string,
    acceptance: seq<string>)

  datatype ReviewedSource = ReviewedSource(
    repository: string, projectItem: string, issueNumber: int, issueNode: string,
    issueUrl: string, title: string, sourceRevision: string, bodySha256: string)

  type Policy = string

  datatype Revision = Revision(
    id: nat, corp: string, mission: string, task: string, sourceRun: string, revisedBy: string,
    nextAction: string, reason: string, version: int, replacementDescription: string,
    replacementContract: Contract, replacementPolicy: Policy)

  datatype Snapshot = Snapshot(
    task: string, sourceRun: string, version: int, contract: Contract, policy: Policy,
    revisions: seq<Revision>)

  datatype Request = Request(
    actor: string, task: string, expectedVersion: int, nextAction: string, sourceRun: string,
    reason: string, description: string, contract: Contract, policy: Policy)

  /** Everything about one recovery attempt that does not come from the snapshot. */
  datatype Attempt = Attempt(
    corp: string, mission: string, actor: string, mode: Mode, sourceChanged: bool, issue: Issue,
    reason: string, policy: Policy, source: ReviewedSource)

  // -------------------------------------------------------------------------
  // Building the request
  // -------------------------------------------------------------------------

  function Digits(n: nat): string {
    (if n < 10 then "" else Digits(n / 10)) + ["0123456789"[n % 10]]
  }

  function Decimal(n: int): string {
    if n < 0 then "-" + Digits(-n) else Digits(n)
  }

  /** The issue as the objective quotes it, before the cut. */
  function IssueText(issue: Issue): string {
    "Implement the authoritative GitHub issue below inside the assigned worktree.\n\n"
    + "ISSUE: #" + Decimal(issue.number) + " \U{2014} " + Trim(issue.title) + "\n"
    + "URL: " + issue.url + "\n"
    + "SOURCE REVISION: " + issue.updatedAt + "\n\n" + Trim(issue.body)
  }

  function IssueObjective(issue: Issue): string {
    Truncate(IssueText(issue), MAX_OBJECTIVE_BYTES)
  }

  predicate IsMarker(reference: string) {
    MARKER_PREFIX <= reference
  }

  function OperatorReferences(references: seq<string>): seq<string> {
    Filter(r => !IsMarker(r), references)
  }

  function Markers(references: seq<string>): seq<string> {
    Filter(r => IsMarker(r), references)
  }

  /** `digest` stands for SHA-256 over the encoded source. */
  function Marker(digest: ReviewedSource -> string, source: ReviewedSource): string {
    MARKER_PREFIX + digest(source)
  }

  predicate Rewrites(attempt: Attempt) {
    attempt.mode == SourceCorrection || attempt.sourceChanged
  }

  /** The issue's URL joins the references of a rewritten contract once, and the marker of the
      reviewed source replaces every earlier marker. */
  function RequestedReferences(references: seq<string>, rewrites: bool, url: string, marker: string): seq<string> {
    OperatorReferences(if rewrites && url !in references then references + [url] else references) + [marker]
  }

  /** The clone of the task's contract that a request carries. */
  function RequestedContract(contract: Contract, attempt: Attempt, digest: ReviewedSource -> string): Contract {
    var issue := attempt.issue;
    var edited :=
      if Rewrites(attempt) then
        contract.(
          objective := IssueObjective(issue),
          expectedOutput := "A corrected, verified implementation for GitHub issue #" + Decimal(issue.number) + ".",
          acceptanceTests := if issue.acceptance != [] then issue.acceptance else contract.acceptanceTests)
      else contract;
    edited.(references := RequestedReferences(
      contract.references, Rewrites(attempt), issue.url, Marker(digest, attempt.source)))
  }

  /** `replace("\r\n", "\n")`. */
  function ReplaceCrLf(s: string): string {
    if |s| < 2 then s
    else if s[0] == '\r' && s[1] == '\n' then "\n" + ReplaceCrLf(s[2..])
    else [s[0]] + ReplaceCrLf(s[1..])
  }

  /** `replace('\r', "\n")`. */
  function ReplaceCr(s: string): string {
    if s == "" then "" else [if s[0] == '\r' then '\n' else s[0]] + ReplaceCr(s[1..])
  }

  function NormalizeDescription(s: string): string {
    Trim(ReplaceCr(ReplaceCrLf(s)))
  }

  datatype Refusal = NoRoomForMarker

  /** `recovery_contract_request`: an error when the provenance marker has no room. */
  function RecoveryContractRequest(snapshot: Snapshot, attempt: Attempt, digest: ReviewedSource -> string)
    : Result<Request, Refusal>
  {
    var contract := RequestedContract(snapshot.contract, attempt, digest);
    if |contract.references| > MAX_REFERENCES then
      Err(NoRoomForMarker)
    else
      Ok(Request(attempt.actor, snapshot.task, snapshot.version, "resume", snapshot.sourceRun,
                 attempt.reason, NormalizeDescription(attempt.issue.body), contract, attempt.policy))
  }

  // -------------------------------------------------------------------------
  // Composing the objective
  // -------------------------------------------------------------------------

  /** The task-specific part of an objective that may carry a generated description before it. */
  function TaskObjective(description: string, objective: string): string {
    if description != "" && objective == description then ""
    else if description != "" && description + SEPARATOR <= objective then
      objective[|description| + |SEPARATOR|..]
    else objective
  }

  function Compose(description: string, taskObjective: string): string {
    if description == "" then taskObjective
    else if taskObjective == ""
            || ByteLen(description) + ByteLen(SEPARATOR) + ByteLen(taskObjective) > MAX_OBJECTIVE_BYTES
    then description
    else description + SEPARATOR + taskObjective
  }

  /** The objective `recovery_replacement_contract` predicts. */
  function PredictedObjective(description: string, objective: string): string {
    Compose(description, TaskObjective(description, Trim(objective)))
  }

  function RecoveryReplacementContract(request: Request): Contract {
    request.contract.(objective := PredictedObjective(request.description, request.contract.objective))
  }

  /** The objective `compose_revised_task_objective` persists: it strips the description the
      mission had before this revision. */
  function StoredObjective(previousDescription: string, description: string, objective: string): string {
    Compose(description, TaskObjective(NormalizeDescription(previousDescription), Trim(objective)))
  }

  // -------------------------------------------------------------------------
  // Looking the revision up again
  // -------------------------------------------------------------------------

  predicate Matches(revision: Revision, attempt: Attempt, snapshot: Snapshot, request: Request) {
    && revision.corp == attempt.corp
    && revision.mission == attempt.mission
    && revision.task == request.task
    && revision.sourceRun == request.sourceRun
    && revision.revisedBy == request.actor
    && revision.nextAction == request.nextAction
    && revision.reason == request.reason
    && revision.version == snapshot.version
    && revision.replacementDescription == request.description
    && revision.replacementContract == RecoveryReplacementContract(request)
    && revision.replacementPolicy == request.policy
  }

  function FirstMatch(revisions: seq<Revision>, attempt: Attempt, snapshot: Snapshot, request: Request)
    : (r: Option<nat>)
    ensures r.Some? ==> exists v :: v in revisions && v.id == r.value && Matches(v, attempt, snapshot, request)
    ensures r.None? ==> forall v :: v in revisions ==> !Matches(v, attempt, snapshot, request)
  {
    if revisions == [] then None
    else if Matches(revisions[0], attempt, snapshot, request) then Some(revisions[0].id)
    else FirstMatch(revisions[1..], attempt, snapshot, request)
  }

  function CachedRevision(attempt: Attempt, snapshot: Snapshot, request: Request): Option<nat> {
    if RecoveryReplacementContract(request) != snapshot.contract || request.policy != snapshot.policy then None
    else FirstMatch(snapshot.revisions, attempt, snapshot, request)
  }

  predicate RevisionRequired(mode: Mode, sourceChanged: bool, policyChanged: bool, snapshot: Snapshot) {
    || mode == SourceCorrection
    || sourceChanged
    || policyChanged
    || exists i :: 0 <= i < |snapshot.revisions| && snapshot.revisions[i].task == snapshot.task
         && snapshot.revisions[i].sourceRun == snapshot.sourceRun
         && snapshot.revisions[i].version == snapshot.version
  }

  // -------------------------------------------------------------------------
  // Composition is a normal form
  // -------------------------------------------------------------------------

  lemma TrimmedPrefixKeepsTrim(d: string, t: string)
    requires d != "" && Trimmed(d) && t != "" && !IsWhitespace(t[|t| - 1])
    ensures Trimmed(d + SEPARATOR + t)
  {
    var r := d + SEPARATOR + t;
    assert r[0] == d[0] && r[|r| - 1] == t[|t| - 1];
  }

  /** Either part of a trimmed objective ends in a visible character. */
  lemma TaskObjectiveEnds(description: string, objective: string)
    requires Trimmed(objective)
    ensures var t := TaskObjective(description, objective); t != "" ==> !IsWhitespace(t[|t| - 1])
    ensures description == "" ==> TaskObjective(description, objective) == objective
  {
  }

  /** Composing again what was composed with the same description gives the same text, whatever
      description the task part was stripped of; only a task part that starts with whitespace
      and stands alone is trimmed further. */
  lemma ComposedIsFixed(description: string, task: string)
    requires Trimmed(description)
    requires task != "" ==> !IsWhitespace(task[|task| - 1])
    ensures var r := Compose(description, task);
            PredictedObjective(description, r) == r <==> description != "" || Trimmed(task)
  {
    var r := Compose(description, task);
    TrimIsNormalForm(r);
    if description == "" {
      assert PredictedObjective(description, r) == Trim(task);
    } else if r == description {
      assert TaskObjective(description, r) == "";
    } else {
      TrimmedPrefixKeepsTrim(description, task);
      assert r == (description + SEPARATOR) + task;
      assert r[|description| + |SEPARATOR|..] == task;
      assert |r| > |description|;
      assert TaskObjective(description, r) == task;
    }
  }

  lemma PredictionIsIdempotent(description: string, objective: string)
    requires Trimmed(description)
    ensures PredictedObjective(description, PredictedObjective(description, objective))
            == PredictedObjective(description, objective)
  {
    TrimIsNormalForm(objective);
    TaskObjectiveEnds(description, Trim(objective));
    ComposedIsFixed(description, TaskObjective(description, Trim(objective)));
  }

  lemma ReplaceCrLfKeepsCrFree(s: string)
    requires '\r' !in s
    ensures ReplaceCrLf(s) == s && ReplaceCr(s) == s
  {
    if s != "" {
      assert s == [s[0]] + s[1..];
      ReplaceCrLfKeepsCrFree(s[1..]);
    }
  }

  lemma ReplaceCrRemovesCr(s: string)
    ensures '\r' !in ReplaceCr(s)
  {
  }

  lemma TrimKeepsCrFree(s: string)
    requires '\r' !in s
    ensures '\r' !in Trim(s)
  {
    TrimStartIsSuffix(s);
    TrimEndPrefix(TrimStart(s));
  }

  lemma TrimStartIsSuffix(s: string)
    ensures forall c :: c in TrimStart(s) ==> c in s
  {
  }

  /** The store normalises the description once more and changes nothing. */
  lemma DescriptionIsNormalForm(s: string)
    ensures Trimmed(NormalizeDescription(s))
    ensures NormalizeDescription(NormalizeDescription(s)) == NormalizeDescription(s)
  {
    var t := ReplaceCr(ReplaceCrLf(s));
    ReplaceCrRemovesCr(ReplaceCrLf(s));
    TrimIsNormalForm(t);
    TrimKeepsCrFree(t);
    ReplaceCrLfKeepsCrFree(Trim(t));
    TrimIsNormalForm(Trim(t));
  }

  // -------------------------------------------------------------------------
  // References
  // -------------------------------------------------------------------------

  lemma FilterSplitsMarkers(references: seq<string>, marker: string)
    requires IsMarker(marker)
    ensures OperatorReferences(OperatorReferences(references) + [marker]) == OperatorReferences(references)
    ensures Markers(OperatorReferences(references) + [marker]) == [marker]
  {
    var kept := OperatorReferences(references);
    FilterMembers(r => !IsMarker(r), references);
    FilterAppend(r => !IsMarker(r), kept, [marker]);
    FilterAppend(r => IsMarker(r), kept, [marker]);
    FilterAll(r => !IsMarker(r), kept);
    FilterNone(r => IsMarker(r), kept);
    assert [marker][1..] == [];
  }

  /** One request: a single marker, for the reviewed source; the operator's references in their
      order, followed at most by the issue's own URL; the authority untouched. */
  lemma RequestedContractKeepsAuthority(contract: Contract, attempt: Attempt, digest: ReviewedSource -> string)
    ensures var c := RequestedContract(contract, attempt, digest);
            && c.authority == contract.authority
            && Markers(c.references) == [Marker(digest, attempt.source)]
            && (|| OperatorReferences(c.references) == OperatorReferences(contract.references)
                || (Rewrites(attempt) && OperatorReferences(c.references)
                      == OperatorReferences(contract.references) + [attempt.issue.url]))
  {
    var url, marker := attempt.issue.url, Marker(digest, attempt.source);
    FilterAppend(r => !IsMarker(r), contract.references, [url]);
    assert [url][1..] == [];
    FilterSplitsMarkers(contract.references, marker);
    FilterSplitsMarkers(contract.references + [url], marker);
  }

  lemma RequestedReferencesAreFixed(references: seq<string>, rewrites: bool, url: string, marker: string)
    requires IsMarker(marker)
    ensures var once := RequestedReferences(references, rewrites, url, marker);
            RequestedReferences(once, rewrites, url, marker) == once
  {
    var given := if rewrites && url !in references then references + [url] else references;
    var once := OperatorReferences(given) + [marker];
    FilterSplitsMarkers(given, marker);
    FilterMembers(r => !IsMarker(r), given);
    if rewrites && url !in once {
      assert url in given && IsMarker(url);
      FilterAppend(r => !IsMarker(r), once, [url]);
      FilterNone(r => !IsMarker(r), [url]);
      assert OperatorReferences(once + [url]) == OperatorReferences(once) + [];
    }
  }

  /** Rebuilding the request from the contract it produced rewrites the references to themselves. */
  lemma ReferencesAreFixed(contract: Contract, attempt: Attempt, digest: ReviewedSource -> string, objective: string)
    ensures var c := RequestedContract(contract, attempt, digest).(objective := objective);
            RequestedContract(c, attempt, digest)
            == c.(objective := if Rewrites(attempt) then IssueObjective(attempt.issue) else objective)
  {
    RequestedReferencesAreFixed(
      contract.references, Rewrites(attempt), attempt.issue.url, Marker(digest, attempt.source));
  }

  // -------------------------------------------------------------------------
  // Replay
  // -------------------------------------------------------------------------

  /** The snapshot after `request` was persisted with the given objective under a new version. */
  function Persisted(snapshot: Snapshot, attempt: Attempt, request: Request, objective: string,
                     id: nat, version: int): Snapshot
  {
    var contract := request.contract.(objective := objective);
    snapshot.(
      version := version,
      contract := contract,
      policy := request.policy,
      revisions := snapshot.revisions + [Revision(
        id, attempt.corp, attempt.mission, request.task, request.sourceRun, request.actor,
        request.nextAction, request.reason, version, request.description, contract, request.policy)])
  }

  lemma FirstMatchSkipsOlder(older: seq<Revision>, row: Revision, attempt: Attempt, snapshot: Snapshot,
                             request: Request)
    requires forall v :: v in older ==> v.version != snapshot.version
    requires Matches(row, attempt, snapshot, request)
    ensures FirstMatch(older + [row], attempt, snapshot, request) == Some(row.id)
  {
    if older == [] {
      assert older + [row] == [row];
    } else {
      assert (older + [row])[0] == older[0] && (older + [row])[1..] == older[1..] + [row];
      FirstMatchSkipsOlder(older[1..], row, attempt, snapshot, request);
    }
  }

  /** After persistence the same attempt rebuilds a request, is told that a revision is required,
      and finds the persisted one exactly when its prediction equals the stored objective. */
  lemma ReplayAfterPersistence(snapshot: Snapshot, attempt: Attempt, digest: ReviewedSource -> string,
                               objective: string, id: nat, version: int)
    requires RecoveryContractRequest(snapshot, attempt, digest).Ok?
    requires forall v :: v in snapshot.revisions ==> v.version < version
    ensures
      var request := RecoveryContractRequest(snapshot, attempt, digest).value;
      var after := Persisted(snapshot, attempt, request, objective, id, version);
      var again := RecoveryContractRequest(after, attempt, digest);
      && RevisionRequired(attempt.mode, attempt.sourceChanged, false, after)
      && again.Ok?
      && (CachedRevision(attempt, after, again.value) == Some(id) <==>
          RecoveryReplacementContract(again.value).objective == objective)
      && again.value.contract.objective
         == (if Rewrites(attempt) then IssueObjective(attempt.issue) else objective)
  {
    var request := RecoveryContractRequest(snapshot, attempt, digest).value;
    var after := Persisted(snapshot, attempt, request, objective, id, version);
    ReferencesAreFixed(snapshot.contract, attempt, digest, objective);
    var again := RecoveryContractRequest(after, attempt, digest).value;
    var row := after.revisions[|snapshot.revisions|];
    assert row.version == after.version;
    if RecoveryReplacementContract(again).objective == objective {
      assert RecoveryReplacementContract(again) == after.contract;
      FirstMatchSkipsOlder(snapshot.revisions, row, attempt, after, again);
    }
  }

  /** Replay is a fixpoint: a revision persisted as the request's own replacement is found again,
      and the rebuilt request predicts the same replacement. */
  lemma ReplayFindsOwnReplacement(snapshot: Snapshot, attempt: Attempt, digest: ReviewedSource -> string,
                                  id: nat, version: int)
    requires RecoveryContractRequest(snapshot, attempt, digest).Ok?
    requires forall v :: v in snapshot.revisions ==> v.version < version
    ensures
      var request := RecoveryContractRequest(snapshot, attempt, digest).value;
      var replacement := RecoveryReplacementContract(request);
      var after := Persisted(snapshot, attempt, request, replacement.objective, id, version);
      var again := RecoveryContractRequest(after, attempt, digest);
      && again.Ok?
      && RecoveryReplacementContract(again.value) == replacement == after.contract
      && CachedRevision(attempt, after, again.value) == Some(id)
  {
    var request := RecoveryContractRequest(snapshot, attempt, digest).value;
    var objective := RecoveryReplacementContract(request).objective;
    ReplayAfterPersistence(snapshot, attempt, digest, objective, id, version);
    ReferencesAreFixed(snapshot.contract, attempt, digest, objective);
    DescriptionIsNormalForm(attempt.issue.body);
    PredictionIsIdempotent(request.description, request.contract.objective);
  }

  /** `description` is read off the front of the objective. */
  predicate Strips(description: string, objective: string) {
    description != "" && (objective == description || description + SEPARATOR <= objective)
  }

  /** Composing keeps the description alone: there is no task text, or no room for it. */
  predicate LeavesNoRoom(description: string, task: string) {
    task == "" || ByteLen(description) + ByteLen(SEPARATOR) + ByteLen(task) > MAX_OBJECTIVE_BYTES
  }

  /** The store, which strips `previous`, and the prediction, which strips `description`, agree. */
  predicate RewritesAlike(previous: string, description: string, objective: string) {
    || previous == description
    || (!Strips(previous, objective) && !Strips(description, objective))
    || (description != "" && LeavesNoRoom(description, TaskObjective(previous, objective))
        && LeavesNoRoom(description, TaskObjective(description, objective)))
  }

  lemma ComposeWithRoom(description: string, task: string)
    ensures description == "" ==> Compose(description, task) == task
    ensures description != "" && LeavesNoRoom(description, task) ==> Compose(description, task) == description
    ensures description != "" && !LeavesNoRoom(description, task) ==>
              && |Compose(description, task)| > |description|
              && Compose(description, task)[|description| + |SEPARATOR|..] == task
  {
  }

  lemma CompositionIsInjective(description: string, a: string, b: string)
    ensures Compose(description, a) == Compose(description, b) <==>
            a == b || (description != "" && LeavesNoRoom(description, a) && LeavesNoRoom(description, b))
  {
    ComposeWithRoom(description, a);
    ComposeWithRoom(description, b);
  }

  lemma StrippingShrinks(description: string, objective: string)
    ensures if Strips(description, objective) then |TaskObjective(description, objective)| < |objective|
            else TaskObjective(description, objective) == objective
  {
  }

  /** Two different descriptions never leave the same rest of an objective, unless they leave nothing. */
  lemma SameRest(a: string, b: string, objective: string)
    requires TaskObjective(a, objective) == TaskObjective(b, objective)
    ensures || a == b || (!Strips(a, objective) && !Strips(b, objective))
            || (Strips(b, objective) && TaskObjective(a, objective) == "")
  {
    StrippingShrinks(a, objective);
    StrippingShrinks(b, objective);
    if Strips(a, objective) && TaskObjective(a, objective) != "" {
      assert a == objective[..|a|] && b == objective[..|b|];
    }
  }

  lemma RewritesAlikeComposes(previous: string, description: string, objective: string)
    ensures RewritesAlike(previous, description, objective) <==>
            Compose(description, TaskObjective(previous, objective))
            == Compose(description, TaskObjective(description, objective))
  {
    var kept, stripped := TaskObjective(previous, objective), TaskObjective(description, objective);
    CompositionIsInjective(description, kept, stripped);
    StrippingShrinks(previous, objective);
    StrippingShrinks(description, objective);
    if kept == stripped {
      SameRest(previous, description, objective);
    }
  }

  /** The kept task text starts with whitespace and stands alone, so that the prediction trims it. */
  predicate LosesWhitespace(previous: string, description: string, objective: string) {
    var n := |previous| + |SEPARATOR|;
    && description == "" && previous != ""
    && previous + SEPARATOR <= objective && n < |objective| && IsWhitespace(objective[n])
  }

  lemma KeptTaskIsTrimmed(previous: string, description: string, objective: string)
    requires Trimmed(objective)
    ensures description != "" || Trimmed(TaskObjective(previous, objective)) <==>
            !LosesWhitespace(previous, description, objective)
  {
  }

  /** The task part the store keeps of the objective a request carries. */
  function StoredTask(previousDescription: string, objective: string): string {
    TaskObjective(NormalizeDescription(previousDescription), Trim(objective))
  }

  /** What makes the attempt miss what the store persisted for it. */
  predicate StoredIsPredicted(attempt: Attempt, previous: string, objective: string) {
    var description := NormalizeDescription(attempt.issue.body);
    if Rewrites(attempt) then RewritesAlike(previous, description, Trim(objective))
    else !LosesWhitespace(previous, description, Trim(objective))
  }

  /** Replay against what the store really persists, for any description the mission had before.
      A kept objective is found unless its task text starts with whitespace and loses the
      description before it; a rewritten one is found if the old and the new description are
      equal, are both absent from its front, or both leave no room for a task text. */
  lemma ReplayFindsStoredRevision(snapshot: Snapshot, attempt: Attempt, digest: ReviewedSource -> string,
                                  previousDescription: string, id: nat, version: int)
    requires RecoveryContractRequest(snapshot, attempt, digest).Ok?
    requires forall v :: v in snapshot.revisions ==> v.version < version
    ensures
      var request := RecoveryContractRequest(snapshot, attempt, digest).value;
      var stored := StoredObjective(previousDescription, request.description, request.contract.objective);
      var after := Persisted(snapshot, attempt, request, stored, id, version);
      var again := RecoveryContractRequest(after, attempt, digest);
      && again.Ok?
      && (CachedRevision(attempt, after, again.value) == Some(id) <==>
          StoredIsPredicted(attempt, NormalizeDescription(previousDescription), request.contract.objective))
  {
    var request := RecoveryContractRequest(snapshot, attempt, digest).value;
    var objective := request.contract.objective;
    var stored := StoredObjective(previousDescription, request.description, objective);
    var previous := NormalizeDescription(previousDescription);
    ReplayAfterPersistence(snapshot, attempt, digest, stored, id, version);
    DescriptionIsNormalForm(attempt.issue.body);
    TrimIsNormalForm(objective);
    TaskObjectiveEnds(previous, Trim(objective));
    if Rewrites(attempt) {
      RewritesAlikeComposes(previous, request.description, Trim(objective));
    } else {
      ComposedIsFixed(request.description, StoredTask(previousDescription, objective));
      KeptTaskIsTrimmed(previous, request.description, Trim(objective));
    }
  }

  /** Text before a task part that starts with a space: the issue has no body any more, the store
      keeps the bare task part, and the same attempt does not find its revision. */
  lemma StoredRevisionIsMissed(snapshot: Snapshot, attempt: Attempt, digest: ReviewedSource -> string, id: nat)
    requires snapshot.contract.objective == "d" + SEPARATOR + " x"
    requires snapshot.contract.references == [] && snapshot.revisions == []
    requires attempt.mode == VerifierOnly && !attempt.sourceChanged && attempt.issue.body == ""
    ensures
      var request := RecoveryContractRequest(snapshot, attempt, digest);
      && request.Ok?
      && StoredObjective("d", request.value.description, request.value.contract.objective) == " x"
      && var after := Persisted(snapshot, attempt, request.value, " x", id, snapshot.version + 1);
         var again := RecoveryContractRequest(after, attempt, digest);
         again.Ok? && CachedRevision(attempt, after, again.value) != Some(id)
  {
    var objective := "d" + SEPARATOR + " x";
    TrimIsNormalForm(objective);
    TrimIsNormalForm("d");
    assert ReplaceCr("d") == "d";
    assert NormalizeDescription("d") == "d" && NormalizeDescription("") == "";
    assert objective[1 + |SEPARATOR|..] == " x";
    ReplayFindsStoredRevision(snapshot, attempt, digest, "d", id, snapshot.version + 1);
  }

  predicate IsUnrelated(description: string, objective: string) {
    description == "" || !(description <= objective)
  }

  /** Descriptions that are no prefix of the generated objective do not get in the way. */
  lemma UnrelatedDescriptionsAreFound(snapshot: Snapshot, attempt: Attempt, digest: ReviewedSource -> string,
                                      previousDescription: string, id: nat, version: int)
    requires Rewrites(attempt) && RecoveryContractRequest(snapshot, attempt, digest).Ok?
    requires forall v :: v in snapshot.revisions ==> v.version < version
    requires IsUnrelated(NormalizeDescription(previousDescription), Trim(IssueObjective(attempt.issue)))
    requires IsUnrelated(NormalizeDescription(attempt.issue.body), Trim(IssueObjective(attempt.issue)))
    ensures
      var request := RecoveryContractRequest(snapshot, attempt, digest).value;
      var stored := StoredObjective(previousDescription, request.description, request.contract.objective);
      var after := Persisted(snapshot, attempt, request, stored, id, version);
      var again := RecoveryContractRequest(after, attempt, digest);
      again.Ok? && CachedRevision(attempt, after, again.value) == Some(id)
  {
    var objective := Trim(IssueObjective(attempt.issue));
    PrefixNeeded(NormalizeDescription(previousDescription), objective);
    PrefixNeeded(NormalizeDescription(attempt.issue.body), objective);
    ReplayFindsStoredRevision(snapshot, attempt, digest, previousDescription, id, version);
  }

  lemma PrefixNeeded(description: string, objective: string)
    requires IsUnrelated(description, objective)
    ensures !Strips(description, objective)
  {
    assert description + SEPARATOR <= objective ==> description <= objective;
  }

  // -------------------------------------------------------------------------
  // Chains of recoveries
  // -------------------------------------------------------------------------

  /** One persisted recovery: the attempt, and the description the mission had before it. */
  datatype Recovery = Recovery(attempt: Attempt, previousDescription: string)

  /** The contract after a chain of recoveries, if every request had room for its marker. */
  function AfterChain(contract: Contract, chain: seq<Recovery>, digest: ReviewedSource -> string): Option<Contract>
    decreases |chain|
  {
    if chain == [] then Some(contract)
    else
      match AfterChain(contract, chain[..|chain| - 1], digest)
      case None => None
      case Some(before) =>
        var last := chain[|chain| - 1];
        var requested := RequestedContract(before, last.attempt, digest);
        if |requested.references| > MAX_REFERENCES then None
        else Some(requested.(objective := StoredObjective(
                    last.previousDescription, NormalizeDescription(last.attempt.issue.body), requested.objective)))
  }

  /** The issue URLs that a chain may have appended. */
  function ChainUrls(chain: seq<Recovery>): seq<string> {
    seq(|chain|, i requires 0 <= i < |chain| => chain[i].attempt.issue.url)
  }

  /** `grown` is `references` with only the chain's issue URLs appended. */
  predicate GrowsByUrls(references: seq<string>, grown: seq<string>, chain: seq<Recovery>) {
    && references <= grown
    && forall i :: |references| <= i < |grown| ==> grown[i] in ChainUrls(chain)
  }

  lemma GrowthExtends(references: seq<string>, grown: seq<string>, more: seq<string>, front: seq<Recovery>,
                      last: Recovery)
    requires GrowsByUrls(references, grown, front)
    requires more == grown || more == grown + [last.attempt.issue.url]
    ensures GrowsByUrls(references, more, front + [last])
  {
    var urls := ChainUrls(front + [last]);
    assert urls == ChainUrls(front) + [last.attempt.issue.url];
  }

  ghost predicate ChainKept(contract: Contract, after: Contract, chain: seq<Recovery>,
                            digest: ReviewedSource -> string)
  {
    && after.authority == contract.authority
    && GrowsByUrls(OperatorReferences(contract.references), OperatorReferences(after.references), chain)
    && (chain != [] ==> Markers(after.references) == [Marker(digest, chain[|chain| - 1].attempt.source)])
  }

  lemma ChainKeptAtStart(contract: Contract, digest: ReviewedSource -> string)
    ensures ChainKept(contract, contract, [], digest)
  {
  }

  lemma ChainKeptByStep(contract: Contract, before: Contract, after: Contract, front: seq<Recovery>,
                        last: Recovery, digest: ReviewedSource -> string)
    requires ChainKept(contract, before, front, digest)
    requires var requested := RequestedContract(before, last.attempt, digest);
             after.authority == requested.authority && after.references == requested.references
    ensures ChainKept(contract, after, front + [last], digest)
  {
    RequestedContractKeepsAuthority(before, last.attempt, digest);
    GrowthExtends(OperatorReferences(contract.references), OperatorReferences(before.references),
                  OperatorReferences(after.references), front, last);
  }

  lemma ChainUnfolds(contract: Contract, front: seq<Recovery>, last: Recovery, digest: ReviewedSource -> string)
    requires AfterChain(contract, front + [last], digest).Some?
    ensures AfterChain(contract, front, digest).Some?
    ensures var requested := RequestedContract(AfterChain(contract, front, digest).value, last.attempt, digest);
            var after := AfterChain(contract, front + [last], digest).value;
            after.authority == requested.authority && after.references == requested.references
  {
    assert (front + [last])[..|front|] == front;
  }

  /** However long the chain and whatever the attempts: exactly one marker, for the last reviewed
      source; operator references only grow at the end, by issue URLs; authority never changes. */
  lemma {:induction false} ChainKeepsAuthority(contract: Contract, chain: seq<Recovery>,
                                               digest: ReviewedSource -> string)
    requires AfterChain(contract, chain, digest).Some?
    ensures ChainKept(contract, AfterChain(contract, chain, digest).value, chain, digest)
    decreases |chain|
  {
    if chain == [] {
      ChainKeptAtStart(contract, digest);
    } else {
      var front, last := chain[..|chain| - 1], chain[|chain| - 1];
      SplitLast(chain);
      ChainUnfolds(contract, front, last, digest);
      ChainKeepsAuthority(contract, front, digest);
      ChainKeptByStep(contract, AfterChain(contract, front, digest).value,
                      AfterChain(contract, chain, digest).value, front, last, digest);
    }
  }

  ghost predicate Injective(digest: ReviewedSource -> string) {
    forall a, b :: digest(a) == digest(b) ==> a == b
  }

  lemma MarkersAreInjective(digest: ReviewedSource -> string, a: ReviewedSource, b: ReviewedSource)
    requires Injective(digest) && Marker(digest, a) == Marker(digest, b)
    ensures a == b
  {
    assert Marker(digest, a)[|MARKER_PREFIX|..] == digest(a);
    assert Marker(digest, b)[|MARKER_PREFIX|..] == digest(b);
  }

  /** The revision the attempt finds for its own request in the snapshot. */
  function FoundRevision(snapshot: Snapshot, attempt: Attempt, digest: ReviewedSource -> string): Option<nat> {
    match RecoveryContractRequest(snapshot, attempt, digest)
    case Ok(request) => CachedRevision(attempt, snapshot, request)
    case Err(_) => None
  }

  /** Whatever the snapshot: a found revision is the task's current contract under the requesting
      actor, and that contract names the attempt's reviewed source and no other. */
  lemma FoundRevisionIsCurrent(snapshot: Snapshot, attempt: Attempt, digest: ReviewedSource -> string)
    requires FoundRevision(snapshot, attempt, digest).Some?
    ensures Markers(snapshot.contract.references) == [Marker(digest, attempt.source)]
    ensures exists v :: v in snapshot.revisions && v.id == FoundRevision(snapshot, attempt, digest).value
              && v.version == snapshot.version && v.sourceRun == snapshot.sourceRun && v.revisedBy == attempt.actor
              && v.replacementContract == snapshot.contract && v.replacementPolicy == snapshot.policy
  {
    RequestedContractKeepsAuthority(snapshot.contract, attempt, digest);
  }

  /** So two attempts that find a revision in one snapshot reviewed the same source, even when the
      size cap makes the objectives of different sources equal. */
  lemma FoundRevisionsShareSource(snapshot: Snapshot, one: Attempt, other: Attempt, digest: ReviewedSource -> string)
    requires Injective(digest)
    requires FoundRevision(snapshot, one, digest).Some? && FoundRevision(snapshot, other, digest).Some?
    ensures one.source == other.source
  {
    FoundRevisionIsCurrent(snapshot, one, digest);
    FoundRevisionIsCurrent(snapshot, other, digest);
    assert [Marker(digest, one.source)][0] == [Marker(digest, other.source)][0];
    MarkersAreInjective(digest, one.source, other.source);
  }

  /** And a revision found after a chain of recoveries reviewed the chain's last source. */
  lemma CachedRevisionBindsSource(contract: Contract, chain: seq<Recovery>, snapshot: Snapshot, attempt: Attempt,
                                  digest: ReviewedSource -> string)
    requires Injective(digest)
    requires chain != [] && AfterChain(contract, chain, digest) == Some(snapshot.contract)
    requires FoundRevision(snapshot, attempt, digest).Some?
    ensures attempt.source == chain[|chain| - 1].attempt.source
  {
    var last := chain[|chain| - 1].attempt;
    ChainKeepsAuthority(contract, chain, digest);
    FoundRevisionIsCurrent(snapshot, attempt, digest);
    assert [Marker(digest, attempt.source)][0] == [Marker(digest, last.source)][0];
    MarkersAreInjective(digest, attempt.source, last.source);
  }
}
