/** What follows for every run: failures block the item, requests are distinct, the launch happens exactly
    when its guards pass, and blocking follows what the server reported unless a report was dropped. */
module RunOutcomes {
  import opened Prelude
  import opened RunEffects
  import opened RunGuards

  lemma AfterFailure(w: Answers, before: seq<Event>, failure: Event, e: Event)
    requires IsFailure(failure) && Justified(w, before + [failure], e)
    ensures e.Move? && e.to == Blocked && Ends(e)
    ensures State(before, Some(ProjectReady)) != Some(Blocked) && !IsCheckpointFailure(failure)
  {
    Push(before, failure);
  }

  lemma FailureIsFollowed(w: Answers, log: seq<Event>, k: nat)
    requires AllJustified(w, log) && k + 1 < |log| && IsFailure(log[k])
    ensures log[k + 1].Move? && log[k + 1].to == Blocked && Ends(log[k + 1])
    ensures State(log[..k], Some(ProjectReady)) != Some(Blocked) && !IsCheckpointFailure(log[k])
  {
    var before, next := log[..k], log[k + 1];
    assert Justified(w, log[..k + 1], next);
    assert log[..k + 1] == before + [log[k]];
    AfterFailure(w, before, log[k], next);
  }

  lemma NothingAfterEnd(w: Answers, log: seq<Event>, k: nat)
    requires k + 1 < |log| && Ends(log[k])
    ensures !Justified(w, log[..k + 1], log[k + 1])
  {
  }

  lemma EndIsLast(w: Answers, log: seq<Event>, k: nat)
    requires AllJustified(w, log) && k < |log| && Ends(log[k])
    ensures k == |log| - 1
  {
    if k + 1 < |log| {
      NothingAfterEnd(w, log, k);
    }
  }

  /** The item is known to be blocked, or a checkpoint verification failed. */
  predicate IsExcused(before: seq<Event>, failure: Event) {
    State(before, Some(ProjectReady)) == Some(Blocked) || IsCheckpointFailure(failure)
  }

  lemma FailureEndsLog(w: Answers, r: Run, k: nat)
    requires Sound(w, r) && k < |r.log| && IsFailure(r.log[k]) && Token(r.log[..k]).Some?
    ensures !r.status.Going?
    ensures if IsExcused(r.log[..k], r.log[k]) then k == |r.log| - 1
            else k == |r.log| - 2 && r.log[k + 1].Move? && r.log[k + 1].to == Blocked
  {
    if k + 1 < |r.log| {
      FailureIsFollowed(w, r.log, k);
      EndIsLast(w, r.log, k + 1);
    }
  }

  /** Whatever happens in a run that fails a check, a Project write or a launch under its claim: the
      failure ends the run, but for the one request that blocks the item, which is left out exactly
      if the item is known to be blocked or the launch was a checkpoint verification. */
  lemma FailuresAreBlocked(args: Arguments, w: Answers, k: nat)
    requires var log := Trace(args, w).log; k < |log| && IsFailure(log[k]) && Token(log[..k]).Some?
    ensures var log := Trace(args, w).log;
            && !Trace(args, w).status.Going?
            && if IsExcused(log[..k], log[k]) then k == |log| - 1
               else k == |log| - 2 && log[k + 1].Move? && log[k + 1].to == Blocked
  {
    EveryCallIsJustified(args, w);
    FailureEndsLog(w, Trace(args, w), k);
  }

  lemma {:induction false} RequestsAreRecorded(log: seq<Event>, i: nat)
    requires i < |log|
    ensures log[i].Renew? ==> log[i].stage in RenewedStages(log)
    ensures log[i].Move? ==> log[i].to in RequestedStates(log)
  {
    if i < |log| - 1 { RequestsAreRecorded(log[..|log| - 1], i); }
  }

  /** No two renewals name the same stage and no two transitions the same state, so no two requests of
      a run share an idempotency key. */
  lemma RequestsAreDistinct(args: Arguments, w: Answers, i: nat, k: nat)
    requires i < k < |Trace(args, w).log|
    ensures var log := Trace(args, w).log;
            && (log[i].Renew? && log[k].Renew? ==> log[i].stage != log[k].stage)
            && (log[i].Move? && log[k].Move? ==> log[i].to != log[k].to)
  {
    var log := Trace(args, w).log;
    EveryCallIsJustified(args, w);
    assert Justified(w, log[..k], log[k]);
    RequestsAreRecorded(log[..k], i);
  }

  // -------------------------------------------------------------------------
  // Exactly when the mission is launched
  // -------------------------------------------------------------------------

  function FinalItem(w: Answers): Item
    requires w.refreshed.Some? && (IsCancelled(w.refreshed.value) ==> w.reread.Some?)
  {
    if IsCancelled(w.refreshed.value) then w.reread.value else w.refreshed.value
  }

  /** A selected, refreshed item, reconciled if it was cancelled. */
  predicate ItemIsReady(w: Answers) {
    && w.selection.Selected? && w.refreshed.Some?
    && (IsCancelled(w.refreshed.value) ==>
          w.reconcilable && w.reconciled && w.reread.Some? && SameWork(w.refreshed.value, w.reread.value))
  }

  function LastClaim(w: Answers): Option<Grant> {
    if w.claim.Some? && w.claim.value.token.None? then w.reclaim else w.claim
  }

  /** A claim with a token, a source commit, and a mission. */
  predicate ClaimIsReady(w: Answers)
    requires ItemIsReady(w)
  {
    && w.legacy.Some? && (HasMission(FinalItem(w)) || w.preflight)
    && LastClaim(w).Some? && LastClaim(w).value.token.Some?
    && (w.legacy.value ==> w.upgrade.Some?)
    && ((if w.legacy.value then w.upgrade.value.mission else LastClaim(w).value.mission).None? ==> w.creation.Some?)
  }

  predicate RenewalHolds(w: Answers, stage: Stage, token: int) {
    w.renewals(stage).Some? && w.renewals(stage).value.token == token
  }

  predicate ProjectIsUpdated(w: Answers, status: string) {
    status == IN_PROGRESS || (w.statusSet && w.statusRead == Some(IN_PROGRESS))
  }

  predicate GuardsPass(args: Arguments, w: Answers) {
    && !args.dryRun && ItemIsReady(w) && ClaimIsReady(w)
    && (forall stage :: RenewalHolds(w, stage, LastClaim(w).value.token.value))
    && w.sourceHolds && w.sourceStillHolds
    && ProjectIsUpdated(w, FinalItem(w).status)
    && (args.recovery.Some? ==> FinalItem(w).persisted.Some?)
  }

  predicate KeepsAim(r: Run, s: Run) {
    s.item == r.item && s.token == r.token && Launches(s.log) == Launches(r.log)
  }

  predicate RequestsNothing(r: Run, s: Run) {
    RequestedStates(s.log) == RequestedStates(r.log)
  }

  lemma SelectingSucceeds(args: Arguments, w: Answers)
    ensures var s := Selecting(args, w);
            && (s.status.Going? <==> !args.dryRun && w.selection.Selected? && w.refreshed.Some?)
            && (s.status.Going? ==> s.item == w.refreshed.value)
            && Launches(s.log) == 0 && RequestedStates(s.log) == {}
  {
    Push([], Preflight(w.preview));
    assert [] + [Preflight(w.preview)] == [Preflight(w.preview)];
  }

  lemma ReconcilingSucceeds(w: Answers, r: Run)
    ensures var s := Reconciling(w, r);
            && (s.status.Going? <==>
                  && r.status.Going?
                  && (IsCancelled(r.item) ==>
                        w.reconcilable && w.reconciled && w.reread.Some? && SameWork(r.item, w.reread.value)))
            && (s.status.Going? ==> s.item == if IsCancelled(r.item) then w.reread.value else r.item)
            && Launches(s.log) == Launches(r.log) && RequestsNothing(r, s)
  {
    var check := Revalidate(r.item.status, w.reconcilable);
    Push(r.log, check);
    Push(r.log + [check], Reconcile(w.reconciled));
  }

  lemma AdmittingSucceeds(w: Answers, r: Run)
    ensures var s := Admitting(w, r);
            && (s.status.Going? <==> r.status.Going? && w.legacy.Some? && (HasMission(r.item) || w.preflight))
            && KeepsAim(r, s) && RequestsNothing(r, s)
  {
    Push(r.log, Preflight(w.preflight));
  }

  lemma ClaimingSucceeds(w: Answers, r: Run)
    ensures var s := Claiming(w, r);
            && (s.status.Going? <==> r.status.Going? && LastClaim(w).Some? && LastClaim(w).value.token.Some?)
            && (s.status.Going? ==>
                  s.token == LastClaim(w).value.token.value && s.mission == LastClaim(w).value.mission)
            && s.item == r.item && Launches(s.log) == Launches(r.log) && RequestsNothing(r, s)
  {
    Push(r.log, Claim(w.claim));
    Push(r.log + [Claim(w.claim)], Claim(w.reclaim));
  }

  lemma UpgradingSucceeds(w: Answers, r: Run)
    ensures var s := Upgrading(w, r);
            && (s.status.Going? <==> r.status.Going? && (w.legacy == Some(true) ==> w.upgrade.Some?))
            && (s.status.Going? ==> s.mission == if w.legacy == Some(true) then w.upgrade.value.mission else r.mission)
            && KeepsAim(r, s) && RequestsNothing(r, s)
  {
    Push(r.log, UpgradeSource(FenceOf(r), w.upgrade));
  }

  lemma LinkingSucceeds(w: Answers, r: Run)
    ensures var s := Linking(w, Upgrading(w, r));
            && (s.status.Going? <==>
                  && r.status.Going? && (w.legacy == Some(true) ==> w.upgrade.Some?)
                  && ((if w.legacy == Some(true) then w.upgrade.value.mission else r.mission).None?
                      ==> w.creation.Some?))
            && KeepsAim(r, s) && RequestsNothing(r, s)
  {
    UpgradingSucceeds(w, r);
    var upgraded := Upgrading(w, r);
    Push(upgraded.log, Materialize(FenceOf(upgraded), w.creation));
  }

  lemma HoldingSucceeds(args: Arguments, w: Answers)
    ensures var r := Holding(args, w);
            && (r.status.Going? <==> !args.dryRun && ItemIsReady(w) && ClaimIsReady(w))
            && (r.status.Going? ==> r.item == FinalItem(w) && r.token == LastClaim(w).value.token.value)
            && Launches(r.log) == 0 && RequestedStates(r.log) == {}
  {
    SelectingSucceeds(args, w);
    var r0 := Selecting(args, w);
    ReconcilingSucceeds(w, r0);
    var r1 := Reconciling(w, r0);
    AdmittingSucceeds(w, r1);
    var r2 := Admitting(w, r1);
    ClaimingSucceeds(w, r2);
    LinkingSucceeds(w, Claiming(w, r2));
    assert Holding(args, w) == Linking(w, Upgrading(w, Claiming(w, r2)));
  }

  lemma RenewingSucceeds(w: Answers, stage: Stage, r: Run)
    ensures var s := Renewing(w, stage, r);
            && (s.status.Going? <==> r.status.Going? && RenewalHolds(w, stage, r.token))
            && KeepsAim(r, s) && RequestsNothing(r, s)
  {
    Push(r.log, Renew(stage, FenceOf(r), w.renewals(stage)));
  }

  lemma BlockingLaunchesNothing(w: Answers, r: Run)
    ensures var s := Blocking(w, r); !s.status.Going? && KeepsAim(r, s)
  {
    Push(r.log, Move(Blocked, FenceOf(r), w.moves(Blocked)));
  }

  lemma RevalidatingSucceeds(w: Answers, expected: string, passed: bool, r: Run)
    ensures var s := Revalidating(w, expected, passed, r);
            (s.status.Going? <==> r.status.Going? && passed) && KeepsAim(r, s)
  {
    Push(r.log, Revalidate(expected, passed));
    BlockingLaunchesNothing(w, r.(log := r.log + [Revalidate(expected, passed)]));
  }

  lemma SynchronizingSucceeds(w: Answers, r: Run)
    ensures var s := Synchronizing(w, r);
            && (s.status.Going? <==>
                  r.status.Going? && ProjectIsUpdated(w, r.item.status))
            && KeepsAim(r, s)
  {
    var asked := r.(log := r.log + [SetInProgress(w.statusSet)]);
    var reread := asked.(log := asked.log + [ReadStatus(w.statusRead)]);
    Push(r.log, SetInProgress(w.statusSet));
    Push(asked.log, ReadStatus(w.statusRead));
    BlockingLaunchesNothing(w, asked);
    BlockingLaunchesNothing(w, reread);
  }

  lemma ProjectingSucceeds(w: Answers, r: Run)
    ensures var s := Projecting(w, r);
            && (s.status.Going? <==>
                  && r.status.Going? && w.sourceHolds
                  && RenewalHolds(w, ProjectStatus, r.token) && RenewalHolds(w, ProjectReady, r.token)
                  && ProjectIsUpdated(w, r.item.status))
            && KeepsAim(r, s)
  {
    RenewingSucceeds(w, ProjectStatus, r);
    var renewed := Renewing(w, ProjectStatus, r);
    RevalidatingSucceeds(w, r.item.status, w.sourceHolds, renewed);
    var checked := Revalidating(w, r.item.status, w.sourceHolds, renewed);
    RenewingSucceeds(w, ProjectReady, checked);
    SynchronizingSucceeds(w, Renewing(w, ProjectReady, checked));
  }

  lemma LaunchingLaunches(args: Arguments, w: Answers, r: Run)
    ensures Launches(Launching(args, w, r).log)
         == Launches(r.log) + if r.status.Going? && (args.recovery.Some? ==> r.item.persisted.Some?) then 1 else 0
  {
    var asked := r.(log := r.log + [LaunchCall(args, w, r)]);
    Push(r.log, LaunchCall(args, w, r));
    BlockingLaunchesNothing(w, asked);
  }

  lemma StartingLaunches(args: Arguments, w: Answers, r: Run)
    ensures Launches(Starting(args, w, r).log)
         == Launches(r.log) + if && r.status.Going? && RenewalHolds(w, MissionLaunch, r.token)
                                 && w.sourceStillHolds && RenewalHolds(w, LaunchReady, r.token)
                                 && (args.recovery.Some? ==> r.item.persisted.Some?) then 1 else 0
  {
    RenewingSucceeds(w, MissionLaunch, r);
    var renewed := Renewing(w, MissionLaunch, r);
    RevalidatingSucceeds(w, IN_PROGRESS, w.sourceStillHolds, renewed);
    var checked := Revalidating(w, IN_PROGRESS, w.sourceStillHolds, renewed);
    RenewingSucceeds(w, LaunchReady, checked);
    LaunchingLaunches(args, w, Renewing(w, LaunchReady, checked));
  }

  lemma MovingLaunchesNothing(w: Answers, to: ItemState, r: Run)
    ensures Launches(Moving(w, to, r).log) == Launches(r.log)
  {
    Push(r.log, Move(to, FenceOf(r), w.moves(to)));
  }

  lemma EndingLaunchesNothing(w: Answers, r: Run)
    ensures Launches(Ending(w, r).log) == Launches(r.log)
  {
    if w.report.Some? {
      MovingLaunchesNothing(w, TerminalState(w.report.value), r);
    }
  }

  lemma AdvancingLaunchesNothing(w: Answers, r: Run)
    ensures Launches(Advancing(w, r).log) == Launches(r.log)
  {
    MovingLaunchesNothing(w, AwaitingApproval, r);
    MovingLaunchesNothing(w, Running, r);
  }

  lemma ConcludingLaunchesNothing(w: Answers, r: Run)
    ensures Launches(Concluding(w, r).log) == Launches(r.log)
  {
    EndingLaunchesNothing(w, r);
    AdvancingLaunchesNothing(w, Ending(w, r));
    MovingLaunchesNothing(w, Verified, Advancing(w, Ending(w, r)));
  }

  lemma DryRunsOnlyPreflight(args: Arguments, w: Answers)
    requires args.dryRun
    ensures Trace(args, w).log in {[], [Preflight(w.preview)]}
  {
    var r := Selecting(args, w);
    assert Holding(args, w) == r;
    StopsStay(args, w, r);
    assert Trace(args, w) == r;
    assert [] + [Preflight(w.preview)] == [Preflight(w.preview)];
  }

  /** A run launches its mission once if every guard passes, and otherwise never; a dry run makes no
      call at all but one preflight. */
  lemma LaunchesExactlyWhenGuardsPass(args: Arguments, w: Answers)
    ensures Launches(Trace(args, w).log) == if GuardsPass(args, w) then 1 else 0
    ensures args.dryRun ==> Trace(args, w).log in {[], [Preflight(w.preview)]}
  {
    if args.dryRun {
      DryRunsOnlyPreflight(args, w);
    }
    HoldingSucceeds(args, w);
    var held := Holding(args, w);
    ProjectingSucceeds(w, held);
    var r := Projecting(w, held);
    StartingLaunches(args, w, r);
    ConcludingLaunchesNothing(w, Starting(args, w, r));
    if r.status.Going? {
      StagesAreFour(w, r.token);
    }
  }

  lemma StagesAreFour(w: Answers, token: int)
    ensures (forall stage :: RenewalHolds(w, stage, token))
       <==> && RenewalHolds(w, ProjectStatus, token) && RenewalHolds(w, ProjectReady, token)
            && RenewalHolds(w, MissionLaunch, token) && RenewalHolds(w, LaunchReady, token)
  {
    forall stage | && RenewalHolds(w, ProjectStatus, token) && RenewalHolds(w, ProjectReady, token)
                   && RenewalHolds(w, MissionLaunch, token) && RenewalHolds(w, LaunchReady, token)
      ensures RenewalHolds(w, stage, token)
    {
      match stage case ProjectStatus => case ProjectReady => case MissionLaunch => case LaunchReady =>
    }
  }

  // -------------------------------------------------------------------------
  // The report of the renewal right before the Project update is dropped
  // -------------------------------------------------------------------------

  predicate IsProjectFailure(e: Event) {
    IsFailure(e) && (e.SetInProgress? || e.ReadStatus?)
  }

  /** The two renewals before the Project update agree on whether the item is blocked. */
  predicate RenewalsAgree(w: Answers) {
    var first, second := w.renewals(ProjectStatus), w.renewals(ProjectReady);
    first.Some? && second.Some? ==> (first.value.state == Blocked <==> second.value.state == Blocked)
  }

  /** All that was read back after a renewal is what that renewal reported. */
  lemma RenewalReports(w: Answers, log: seq<Event>, stage: Stage)
    requires AllJustified(w, log) && PassedRenewal(log, stage)
    ensures w.renewals(stage).Some? && State(log, None) == Some(w.renewals(stage).value.state)
    ensures stage != ProjectReady ==> State(log, Some(ProjectReady)) == State(log, None)
  {
    assert Justified(w, log[..|log| - 1], log[|log| - 1]);
  }

  lemma JustifiedPrefix(w: Answers, log: seq<Event>, k: nat)
    requires AllJustified(w, log) && k <= |log|
    ensures AllJustified(w, log[..k])
  {
    forall i | 0 <= i < k ensures Justified(w, log[..k][..i], log[..k][i]) {
      assert log[..k][..i] == log[..i];
    }
  }

  lemma ClearedReports(w: Answers, log: seq<Event>)
    requires AllJustified(w, log) && IsCleared(log, ProjectStatus, ProjectReady)
    ensures w.renewals(ProjectStatus).Some? && w.renewals(ProjectReady).Some?
    ensures State(log, None) == Some(w.renewals(ProjectReady).value.state)
    ensures State(log, Some(ProjectReady)) == Some(w.renewals(ProjectStatus).value.state)
  {
    var checked, renewed := log[..|log| - 1], log[..|log| - 2];
    assert checked[..|checked| - 1] == renewed;
    RenewalReports(w, log, ProjectReady);
    JustifiedPrefix(w, log, |log| - 2);
    RenewalReports(w, renewed, ProjectStatus);
    Push(renewed, checked[|checked| - 1]);
    assert renewed + [checked[|checked| - 1]] == checked;
  }

  /** The reports that a call relies on: two renewals for the Project write, otherwise the last one. */
  predicate ReadsLastReport(log: seq<Event>) {
    State(log, Some(ProjectReady)) == State(log, None)
  }

  predicate ReadsFirstRenewal(w: Answers, log: seq<Event>) {
    && w.renewals(ProjectStatus).Some? && w.renewals(ProjectReady).Some?
    && State(log, Some(ProjectReady)) == Some(w.renewals(ProjectStatus).value.state)
    && State(log, None) == Some(w.renewals(ProjectReady).value.state)
  }

  lemma WriteConsults(w: Answers, before: seq<Event>, write: Event)
    requires AllJustified(w, before) && write.SetInProgress? && Justified(w, before, write)
    ensures ReadsFirstRenewal(w, before) && ReadsFirstRenewal(w, before + [write])
  {
    ClearedReports(w, before);
    Push(before, write);
  }

  lemma CheckConsults(w: Answers, before: seq<Event>, e: Event)
    requires AllJustified(w, before) && Justified(w, before, e) && Token(before).Some?
    requires e.Revalidate? || IsLaunch(e)
    ensures ReadsLastReport(before)
  {
    RenewalReports(w, before, before[|before| - 1].stage);
  }

  lemma ReadConsults(w: Answers, before: seq<Event>, read: Event)
    requires AllJustified(w, before) && read.ReadStatus? && Justified(w, before, read)
    ensures ReadsFirstRenewal(w, before)
  {
    var n := |before| - 1;
    assert before == before[..n] + [before[n]];
    JustifiedPrefix(w, before, n);
    WriteConsults(w, before[..n], before[n]);
  }

  /** At a failure, what the run consults is what the server reported last, unless it is the Project
      update that failed. */
  lemma FailureConsults(w: Answers, log: seq<Event>, k: nat)
    requires AllJustified(w, log) && k < |log| && IsFailure(log[k]) && Token(log[..k]).Some?
    ensures if IsProjectFailure(log[k]) then ReadsFirstRenewal(w, log[..k]) else ReadsLastReport(log[..k])
  {
    JustifiedPrefix(w, log, k);
    var before, failure := log[..k], log[k];
    if failure.ReadStatus? {
      ReadConsults(w, before, failure);
    } else if failure.SetInProgress? {
      WriteConsults(w, before, failure);
    } else {
      CheckConsults(w, before, failure);
    }
  }

  /** A failure is left unblocked exactly if the server last reported the item as blocked: this holds
      of every failure but a failed Project update whose two renewals disagree. */
  lemma BlocksWhatWasReported(args: Arguments, w: Answers, k: nat)
    requires var log := Trace(args, w).log;
             k < |log| && IsFailure(log[k]) && Token(log[..k]).Some? && !IsCheckpointFailure(log[k])
    ensures var log := Trace(args, w).log;
            (k == |log| - 1 <==> State(log[..k], None) == Some(Blocked)) <==>
            !IsProjectFailure(log[k]) || RenewalsAgree(w)
  {
    EveryCallIsJustified(args, w);
    FailuresAreBlocked(args, w, k);
    FailureConsults(w, Trace(args, w).log, k);
  }

  /** The store keeps the state over a renewal, and every change of state moves the version. */
  ghost predicate RenewalsAreFresh(log: seq<Event>, history: int -> ItemState) {
    forall i :: 0 <= i < |log| && log[i].Renew? && log[i].renewal.Some? ==>
      var renewal, version := log[i].renewal.value, log[i].fence.version;
      && renewal.version == version + 1 && renewal.state == history(renewal.version)
      && history(version + 1) == history(version)
  }

  /** Without replayed renewals, then, no report is missed. */
  lemma FreshRenewalsAgree(args: Arguments, w: Answers, k: nat, history: int -> ItemState)
    requires var log := Trace(args, w).log;
             k < |log| && IsProjectFailure(log[k]) && Token(log[..k]).Some? && RenewalsAreFresh(log, history)
    ensures RenewalsAgree(w)
  {
    var log := Trace(args, w).log;
    EveryCallIsJustified(args, w);
    assert Justified(w, log[..k], log[k]);
    if log[k].ReadStatus? {
      assert log[..k][k - 1] == log[k - 1];
      assert Justified(w, log[..k - 1], log[k - 1]);
      ClearedIsFresh(w, log, k - 1, history);
    } else {
      ClearedIsFresh(w, log, k, history);
    }
  }

  lemma ClearedShape(log: seq<Event>, k: nat)
    requires k <= |log| && IsCleared(log[..k], ProjectStatus, ProjectReady)
    ensures k >= 3 && log[k - 2].Revalidate?
    ensures log[k - 3].Renew? && log[k - 3].stage == ProjectStatus && log[k - 3].renewal.Some?
    ensures log[k - 1].Renew? && log[k - 1].stage == ProjectReady && log[k - 1].renewal.Some?
  {
    assert log[..k][..k - 1] == log[..k - 1] && log[..k][..k - 2] == log[..k - 2];
    assert log[..k - 1][k - 2] == log[k - 2] && log[..k - 2][k - 3] == log[k - 3];
  }

  lemma ClearedChain(w: Answers, log: seq<Event>, k: nat)
    requires AllJustified(w, log) && k <= |log| && IsCleared(log[..k], ProjectStatus, ProjectReady)
    ensures k >= 3 && log[k - 3].Renew? && log[k - 1].Renew?
    ensures log[k - 3].renewal == w.renewals(ProjectStatus) && log[k - 1].renewal == w.renewals(ProjectReady)
    ensures log[k - 3].renewal.Some? && log[k - 1].renewal.Some?
    ensures log[k - 1].fence.version == log[k - 3].renewal.value.version
  {
    ClearedShape(log, k);
    assert log[..k - 1] == log[..k - 3] + [log[k - 3]] + [log[k - 2]];
    RenewalsChain(w, log[..k - 3], log[k - 3], log[k - 2], log[k - 1]);
  }

  lemma ClearedIsFresh(w: Answers, log: seq<Event>, k: nat, history: int -> ItemState)
    requires AllJustified(w, log) && RenewalsAreFresh(log, history)
    requires k <= |log| && IsCleared(log[..k], ProjectStatus, ProjectReady)
    ensures RenewalsAgree(w)
  {
    ClearedChain(w, log, k);
    assert log[k - 3].Renew? && log[k - 1].Renew?;
  }

  /** The second renewal presents the version that the first one returned. */
  lemma RenewalsChain(w: Answers, before: seq<Event>, first: Event, check: Event, second: Event)
    requires first.Renew? && first.renewal.Some? && check.Revalidate? && second.Renew?
    requires Justified(w, before, first) && Justified(w, before + [first] + [check], second)
    ensures first.renewal == w.renewals(first.stage) && second.renewal == w.renewals(second.stage)
    ensures second.fence.version == first.renewal.value.version
  {
    Push(before, first);
    Push(before + [first], check);
  }

  /** With a renewal replayed over a change of state, it is: the item runs again when the Project write
      fails, and the run leaves it so. */
  lemma ReplayedRenewalHidesState(w: Answers)
    requires w.selection.Selected? && w.refreshed == Some(Item("Todo", 0, None)) && w.legacy == Some(false)
    requires w.preflight && w.claim == Some(Grant(Some(7), Some(3), 1)) && w.sourceHolds && !w.statusSet
    requires w.renewals(ProjectStatus) == Some(Renewal(7, Blocked, 2))
    requires w.renewals(ProjectReady) == Some(Renewal(7, Running, 9))
    ensures var log := Trace(Arguments(false, None), w).log;
            log == [Preflight(true), Claim(w.claim), Renew(ProjectStatus, Fence(7, 1), w.renewals(ProjectStatus)),
                    Revalidate("Todo", true), Renew(ProjectReady, Fence(7, 2), w.renewals(ProjectReady)),
                    SetInProgress(false)]
  {
    var held := Run([Preflight(true), Claim(w.claim)], Going, w.refreshed.value, 7, Some(3), 1, Claimed);
    var args := Arguments(false, None);
    assert Admitting(w, Reconciling(w, Selecting(args, w))).log == [Preflight(true)];
    assert Holding(args, w) == held;
    var ready := Renewing(w, ProjectReady, Revalidating(w, "Todo", true, Renewing(w, ProjectStatus, held)));
    assert ready.status.Going? && ready.state == Blocked;
    assert !Projecting(w, held).status.Going?;
  }

  // -------------------------------------------------------------------------
  // After the launch
  // -------------------------------------------------------------------------

  predicate IsLive(state: ItemState) {
    state in {MissionCreated, Running, Blocked, AwaitingApproval}
  }

  predicate IsCompleted(report: Report) {
    report.mission == Some(MissionCompleted) && !report.cleanupPending
  }

  lemma ConcludingThrough(w: Answers, r: Run)
    requires Sound(w, r) && (r.status.Going? ==> IsLaunched(w, r, {})) && Concluding(w, r).status.Going?
    ensures var s := Concluding(w, r);
            && w.report.Some? && w.report.value.mission != Some(MissionFailed)
            && (IsCompleted(w.report.value) && Verified !in RequestedStates(s.log) ==> !IsLive(s.state))
            && (w.report.value.mission == Some(MissionCancelled) ==> s == r && IsRetained(w, r))
  {
    EndingIsSound(w, r);
    var ended := Ending(w, r);
    assert ended == r;
    var advanced := Advancing(w, r);
    Push(advanced.log, Move(Verified, FenceOf(advanced), w.moves(Verified)));
  }

  /** In a run that goes through, a completed mission without pending cleanup is verified, unless
      the item already stands beyond that; a cancelled mission is one with a retained checkpoint,
      and it moves nothing. */
  lemma ThroughRunsConclude(args: Arguments, w: Answers)
    requires Trace(args, w).status.Going?
    ensures var r := Trace(args, w);
            && w.report.Some? && w.report.value.mission != Some(MissionFailed)
            && (IsCompleted(w.report.value) && Verified !in RequestedStates(r.log) ==> !IsLive(r.state))
            && (w.report.value.mission == Some(MissionCancelled) ==>
                  RequestedStates(r.log) == {} && r.state == Running && w.checkpoint == Some(Checkpoint(Running, true)))
  {
    HoldingIsSound(args, w);
    ProjectingIsSound(w, Holding(args, w));
    StartingIsSound(args, w, Projecting(w, Holding(args, w)));
    ConcludingThrough(w, Starting(args, w, Projecting(w, Holding(args, w))));
  }
}
