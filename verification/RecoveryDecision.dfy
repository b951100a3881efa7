/** When a recovery attempt without an active recovery revises the contract
    (`recover_factory_verification` in crates/crony-cli/src/factory.rs). */
module RecoveryDecision {
  import opened Prelude
  import opened RecoveryContract

  /** The task has a revision for this source run at its current version. */
  ghost predicate IsRevised(snapshot: Snapshot) {
    exists v :: v in snapshot.revisions
      && v.task == snapshot.task && v.sourceRun == snapshot.sourceRun && v.version == snapshot.version
  }

  /** A revision is required exactly if the attempt corrects the source, comes with a changed source
      or policy, or retries on a contract that was revised for the same source run. */
  lemma WhenRevisionIsRequired(mode: Mode, sourceChanged: bool, policyChanged: bool, snapshot: Snapshot)
    ensures RevisionRequired(mode, sourceChanged, policyChanged, snapshot) <==>
            mode == SourceCorrection || sourceChanged || policyChanged || IsRevised(snapshot)
  {
    if IsRevised(snapshot) {
      var v :| v in snapshot.revisions
        && v.task == snapshot.task && v.sourceRun == snapshot.sourceRun && v.version == snapshot.version;
      var i :| 0 <= i < |snapshot.revisions| && snapshot.revisions[i] == v;
    }
  }

  /** What an attempt without an active recovery does about the contract. */
  datatype Decision =
    | Refuse
    | KeepContract
    | Reuse(revision: nat)
    | Persist(request: Request)

  /** The request, and the revision it has already, or why there is none. */
  function Revise(snapshot: Snapshot, attempt: Attempt, digest: ReviewedSource -> string): (d: Decision)
    ensures d != KeepContract && (d == Refuse <==> RecoveryContractRequest(snapshot, attempt, digest).Err?)
  {
    match RecoveryContractRequest(snapshot, attempt, digest)
    case Err(_) => Refuse
    case Ok(request) =>
      match CachedRevision(attempt, snapshot, request)
      case Some(id) => Reuse(id)
      case None => Persist(request)
  }

  function Decide(snapshot: Snapshot, attempt: Attempt, digest: ReviewedSource -> string): Decision {
    var policyChanged := attempt.policy != snapshot.policy;
    if attempt.mode == CheckpointVerification then
      if attempt.sourceChanged || policyChanged then Refuse else KeepContract
    else if RevisionRequired(attempt.mode, attempt.sourceChanged, policyChanged, snapshot) then
      Revise(snapshot, attempt, digest)
    else KeepContract
  }

  /** A plain verifier retry on an unrevised task asks for no revision, and nothing else but an
      unchanged checkpoint verification does without. */
  lemma PlainRetriesKeepTheContract(snapshot: Snapshot, attempt: Attempt, digest: ReviewedSource -> string)
    ensures Decide(snapshot, attempt, digest) == KeepContract <==>
            && !attempt.sourceChanged && attempt.policy == snapshot.policy
            && (attempt.mode == CheckpointVerification || (attempt.mode == VerifierOnly && !IsRevised(snapshot)))
  {
    WhenRevisionIsRequired(attempt.mode, attempt.sourceChanged, attempt.policy != snapshot.policy, snapshot);
  }

  /** Only a request without room for its marker, or a checkpoint verification with a changed source or
      policy, is refused. */
  lemma WhenAttemptsAreRefused(snapshot: Snapshot, attempt: Attempt, digest: ReviewedSource -> string)
    ensures Decide(snapshot, attempt, digest) == Refuse <==>
            if attempt.mode == CheckpointVerification then attempt.sourceChanged || attempt.policy != snapshot.policy
            else
              && (attempt.mode == SourceCorrection || attempt.sourceChanged || attempt.policy != snapshot.policy
                  || IsRevised(snapshot))
              && |RequestedContract(snapshot.contract, attempt, digest).references| > MAX_REFERENCES
  {
    WhenRevisionIsRequired(attempt.mode, attempt.sourceChanged, attempt.policy != snapshot.policy, snapshot);
  }

  /** A revision is persisted once: the attempt that lost the answer finds it instead of asking again. */
  lemma PersistedRevisionsAreReused(snapshot: Snapshot, attempt: Attempt, digest: ReviewedSource -> string,
                                    id: nat, version: int)
    requires Decide(snapshot, attempt, digest).Persist?
    requires forall v :: v in snapshot.revisions ==> v.version < version
    ensures var request := Decide(snapshot, attempt, digest).request;
            var objective := RecoveryReplacementContract(request).objective;
            Decide(Persisted(snapshot, attempt, request, objective, id, version), attempt, digest) == Reuse(id)
  {
    var request := Decide(snapshot, attempt, digest).request;
    var objective := RecoveryReplacementContract(request).objective;
    var after := Persisted(snapshot, attempt, request, objective, id, version);
    ReplayFindsOwnReplacement(snapshot, attempt, digest, id, version);
    ReplayAfterPersistence(snapshot, attempt, digest, objective, id, version);
    assert after.revisions[|snapshot.revisions|] in after.revisions;
    WhenRevisionIsRequired(attempt.mode, attempt.sourceChanged, attempt.policy != after.policy, after);
  }
}
