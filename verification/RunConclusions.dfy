/** What a run must record after a launch that reported, transition by transition. */
module RunConclusions {
  import opened Prelude
  import opened RunEffects
  import opened RunGuards
  import opened RunOutcomes

  /** `to` was requested from `r`, and nothing else after it. */
  predicate Requests(w: Answers, r: Run, s: Run, to: ItemState) {
    s.log == r.log + [Move(to, FenceOf(r), w.moves(to))]
  }

  // -------------------------------------------------------------------------
  // From the launched run
  // -------------------------------------------------------------------------

  /** A failed mission is recorded, as failed or as a failed verification, unless the item already
      stands there; and the run halts. */
  lemma FailedMissionIsRecorded(w: Answers, r: Run)
    requires r.status.Going? && w.report.Some? && w.report.value.mission == Some(MissionFailed)
    ensures var s := Concluding(w, r);
            var to := if w.report.value.verificationFailed then VerificationFailed else Failed;
            && !s.status.Going?
            && if r.state == to then s.log == r.log else Requests(w, r, s, to)
  {
  }

  /** A cancelled mission is recorded, unless the item already stands there, if the checkpoint context
      was read, shows the item's state and no retained checkpoint; a retained one changes nothing. */
  lemma CancelledMissionIsRecorded(w: Answers, r: Run)
    requires r.status.Going? && w.report.Some? && w.report.value.mission == Some(MissionCancelled)
    ensures var s := Concluding(w, r);
            if w.checkpoint.None? || w.checkpoint.value.state != r.state then !s.status.Going? && s.log == r.log
            else if w.checkpoint.value == Checkpoint(Running, true) then s == r
            else !s.status.Going? && if r.state == Cancelled then s.log == r.log else Requests(w, r, s, Cancelled)
  {
  }

  predicate IsOpenEnded(w: Answers) {
    w.report.Some? && w.report.value.mission != Some(MissionFailed) && w.report.value.mission != Some(MissionCancelled)
  }

  /** A mission that waits for approval makes its item wait, whether it is complete or not. */
  lemma WaitingIsRecorded(w: Answers, r: Run)
    requires r.status.Going? && IsOpenEnded(w) && w.report.value.awaitingApproval
    ensures var s := Advancing(w, Ending(w, r));
            && (if r.state == AwaitingApproval then s == r else Requests(w, r, s, AwaitingApproval))
            && (s.status.Going? <==> r.state == AwaitingApproval || w.moves(AwaitingApproval).Some?)
            && (w.report.value.mission != Some(MissionCompleted) ==> Concluding(w, r) == s)
  {
  }

  /** A mission that neither waits nor is complete makes an item that was created, blocked or waiting
      run again, and leaves every other item alone. */
  lemma RunningIsRecorded(w: Answers, r: Run)
    requires r.status.Going? && IsOpenEnded(w) && !w.report.value.awaitingApproval
    requires w.report.value.mission != Some(MissionCompleted)
    ensures var s := Concluding(w, r);
            && (if r.state in {MissionCreated, Blocked, AwaitingApproval} then Requests(w, r, s, Running) else s == r)
            && (s.status.Going? <==>
                  r.state !in {MissionCreated, Blocked, AwaitingApproval} || w.moves(Running).Some?)
  {
  }

  /** A complete mission without pending cleanup, and without approval to wait for, verifies every
      live item; with cleanup pending it requests nothing. */
  lemma CompletionIsRecorded(w: Answers, r: Run)
    requires r.status.Going? && IsOpenEnded(w) && w.report.value.mission == Some(MissionCompleted)
    ensures var s, advanced := Concluding(w, r), Advancing(w, Ending(w, r));
            && (!w.report.value.awaitingApproval ==> advanced == r)
            && (if advanced.status.Going? && !w.report.value.cleanupPending && IsLive(advanced.state)
                then Requests(w, advanced, s, Verified) else s == advanced)
  {
  }

  // -------------------------------------------------------------------------
  // For whole runs
  // -------------------------------------------------------------------------

  /** The item state and version that the launch leaves the run with. */
  function LaunchedState(w: Answers): ItemState
    requires w.report.Some? && w.renewals(LaunchReady).Some?
  {
    w.report.value.state.UnwrapOr(w.renewals(LaunchReady).value.state)
  }

  function LaunchedVersion(w: Answers): int
    requires w.report.Some? && w.renewals(LaunchReady).Some?
  {
    w.report.value.version.UnwrapOr(w.renewals(LaunchReady).value.version)
  }

  /** The run once it has launched and was told what became of the mission. */
  function Launched(args: Arguments, w: Answers): Run {
    Starting(args, w, Projecting(w, Holding(args, w)))
  }

  lemma ReadyRuns(args: Arguments, w: Answers, r: Run)
    requires r.status.Going? && w.sourceStillHolds
    requires RenewalHolds(w, MissionLaunch, r.token) && RenewalHolds(w, LaunchReady, r.token)
    ensures var s, renewal := Readying(w, r), w.renewals(LaunchReady).value;
            && s.status.Going? && s.state == renewal.state && s.version == renewal.version
            && s.token == r.token && s.item == r.item
  {
    RenewingSucceeds(w, MissionLaunch, r);
    var renewed := Renewing(w, MissionLaunch, r);
    RevalidatingSucceeds(w, IN_PROGRESS, w.sourceStillHolds, renewed);
    RenewingSucceeds(w, LaunchReady, Revalidating(w, IN_PROGRESS, w.sourceStillHolds, renewed));
  }

  lemma ReportedRuns(args: Arguments, w: Answers, r: Run)
    requires r.status.Going? && w.report.Some? && (args.recovery.Some? ==> r.item.persisted.Some?)
    ensures var s := Launching(args, w, r);
            && s.status.Going? && s.token == r.token
            && s.state == w.report.value.state.UnwrapOr(r.state)
            && s.version == w.report.value.version.UnwrapOr(r.version)
            && s.log != [] && IsLaunch(s.log[|s.log| - 1])
  {
  }

  lemma LaunchedRuns(args: Arguments, w: Answers)
    requires GuardsPass(args, w) && w.report.Some?
    ensures var r := Launched(args, w);
            && r.status.Going? && r.token == LastClaim(w).value.token.value
            && w.renewals(LaunchReady).Some?
            && r.state == LaunchedState(w) && r.version == LaunchedVersion(w)
            && r.log != [] && IsLaunch(r.log[|r.log| - 1])
            && Trace(args, w) == Concluding(w, r)
  {
    var held := Holding(args, w);
    HoldingSucceeds(args, w);
    StagesAreFour(w, held.token);
    ProjectingSucceeds(w, held);
    var projected := Projecting(w, held);
    ReadyRuns(args, w, projected);
    ReportedRuns(args, w, Readying(w, projected));
  }

  /** The calls a whole run makes after its launch: nothing, or one transition at the version the
      launch left. */
  ghost predicate EndsWithRequest(args: Arguments, w: Answers, to: Option<ItemState>)
    requires w.report.Some? && w.renewals(LaunchReady).Some? && LastClaim(w).Some? && LastClaim(w).value.token.Some?
  {
    var fence := Fence(LastClaim(w).value.token.value, LaunchedVersion(w));
    Trace(args, w).log == Launched(args, w).log
                          + match to case None => [] case Some(state) => [Move(state, fence, w.moves(state))]
  }

  /** A run whose launch reports a failed mission ends by recording it, exactly if it must. */
  lemma RunsRecordFailedMissions(args: Arguments, w: Answers)
    requires GuardsPass(args, w) && w.report.Some? && w.report.value.mission == Some(MissionFailed)
    ensures var to := if w.report.value.verificationFailed then VerificationFailed else Failed;
            && w.renewals(LaunchReady).Some? && !Trace(args, w).status.Going?
            && EndsWithRequest(args, w, if LaunchedState(w) == to then None else Some(to))
  {
    LaunchedRuns(args, w);
    FailedMissionIsRecorded(w, Launched(args, w));
  }

  /** Likewise a cancelled one that retains no checkpoint. */
  lemma RunsRecordCancelledMissions(args: Arguments, w: Answers)
    requires GuardsPass(args, w) && w.report.Some? && w.report.value.mission == Some(MissionCancelled)
    ensures && w.renewals(LaunchReady).Some?
            && var state := LaunchedState(w);
               var isRead := w.checkpoint.Some? && w.checkpoint.value.state == state;
               && EndsWithRequest(
                    args, w,
                    if isRead && state != Cancelled && w.checkpoint.value != Checkpoint(Running, true)
                    then Some(Cancelled) else None)
               && (Trace(args, w).status.Going? <==> isRead && w.checkpoint.value == Checkpoint(Running, true))
  {
    LaunchedRuns(args, w);
    CancelledMissionIsRecorded(w, Launched(args, w));
  }

  /** And one that goes on, without approval to wait for, makes the item run again where it must. */
  lemma RunsRecordProgress(args: Arguments, w: Answers)
    requires GuardsPass(args, w) && IsOpenEnded(w) && w.report.value.mission != Some(MissionCompleted)
    ensures && w.renewals(LaunchReady).Some?
            && var state := LaunchedState(w);
               EndsWithRequest(
                 args, w,
                 if w.report.value.awaitingApproval then
                   if state == AwaitingApproval then None else Some(AwaitingApproval)
                 else if state in {MissionCreated, Blocked, AwaitingApproval} then Some(Running) else None)
  {
    LaunchedRuns(args, w);
    var r := Launched(args, w);
    if w.report.value.awaitingApproval {
      WaitingIsRecorded(w, r);
    } else {
      RunningIsRecorded(w, r);
    }
  }

  /** A complete mission without approval to wait for verifies the item exactly if it is live and no
      cleanup is pending. */
  lemma RunsRecordCompletion(args: Arguments, w: Answers)
    requires GuardsPass(args, w) && w.report.Some? && w.report.value.mission == Some(MissionCompleted)
    requires !w.report.value.awaitingApproval
    ensures && w.renewals(LaunchReady).Some?
            && EndsWithRequest(
                 args, w,
                 if !w.report.value.cleanupPending && IsLive(LaunchedState(w)) then Some(Verified) else None)
  {
    LaunchedRuns(args, w);
    CompletionIsRecorded(w, Launched(args, w));
  }

  /** A complete mission that waits for approval first makes its item wait, and then verifies it from
      the state it was given, if that is live and no cleanup is pending. */
  lemma RunsRecordWaitingCompletion(args: Arguments, w: Answers)
    requires GuardsPass(args, w) && w.report.Some? && w.report.value.mission == Some(MissionCompleted)
    requires w.report.value.awaitingApproval
    ensures && w.renewals(LaunchReady).Some?
            && if LaunchedState(w) == AwaitingApproval then
                 EndsWithRequest(args, w, if w.report.value.cleanupPending then None else Some(Verified))
               else
                 var waiting := w.moves(AwaitingApproval);
                 var r, token := Launched(args, w), LastClaim(w).value.token.value;
                 Trace(args, w).log
                   == r.log + [Move(AwaitingApproval, Fence(token, LaunchedVersion(w)), waiting)]
                      + if waiting.Some? && !w.report.value.cleanupPending && IsLive(waiting.value.state)
                        then [Move(Verified, Fence(token, waiting.value.version), w.moves(Verified))] else []
  {
    LaunchedRuns(args, w);
    WaitingIsRecorded(w, Launched(args, w));
    CompletionIsRecorded(w, Launched(args, w));
  }
}
