/** The transitions a run requests, against the store's table (`factory_transition_allowed` in
    crates/crony-store/src/lib.rs). The store reads the table at the state of the version that the
    request presents, which is the state it reported last: also where the run dropped that report. */
module RunTransitions {
  import opened Prelude
  import opened RunEffects
  import opened RunGuards
  import opened RunOutcomes

  predicate TransitionAllowed(from: ItemState, to: ItemState) {
    match from
    case Claimed => to in {Blocked, Failed, Cancelled}
    case MissionCreated => to in {Running, Blocked, AwaitingApproval, VerificationFailed, Verified, Failed, Cancelled}
    case Running => to in {Blocked, AwaitingApproval, VerificationFailed, Verified, Failed, Cancelled}
    case Blocked => to in {Running, AwaitingApproval, VerificationFailed, Verified, Failed, Cancelled}
    case AwaitingApproval => to in {Running, Blocked, VerificationFailed, Verified, Failed, Cancelled}
    case VerificationFailed => to in {Blocked, Failed, Cancelled}
    case Verified => to in {Publishing, Published, Failed, Cancelled}
    case Publishing => to in {Verified, Published, Failed, Cancelled}
    case _ => false
  }

  /** The table lets the item move on from the state reported last. */
  predicate Permitted(before: seq<Event>, to: ItemState) {
    var state := State(before, None);
    state.Some? && TransitionAllowed(state.value, to)
  }

  ghost predicate AllPermitted(log: seq<Event>) {
    forall k :: 0 <= k < |log| && log[k].Move? ==> Permitted(log[..k], log[k].to)
  }

  // -------------------------------------------------------------------------
  // The condition on the answers
  // -------------------------------------------------------------------------

  /** The run asks nothing of an item it takes for blocked; else the last report must allow blocking. */
  predicate CanBeBlocked(consulted: ItemState, last: ItemState) {
    consulted == Blocked || last in {Claimed, MissionCreated, Running, AwaitingApproval, VerificationFailed}
  }

  /** The run consults the state reported last. */
  predicate KnowsLast(r: Run) {
    State(r.log, None) == Some(r.state)
  }

  predicate ClaimIsHeld(args: Arguments, w: Answers) {
    !args.dryRun && ItemIsReady(w) && ClaimIsReady(w)
  }

  predicate ProjectPasses(w: Answers, status: string, token: int) {
    && RenewalHolds(w, ProjectStatus, token) && RenewalHolds(w, ProjectReady, token)
    && w.sourceHolds && ProjectIsUpdated(w, status)
  }

  /** A failed source check meets the state of the first renewal; a failed Project update consults
      that one too, but meets the state of the second. */
  predicate ProjectPermits(w: Answers, status: string, token: int) {
    RenewalHolds(w, ProjectStatus, token) ==>
      var first := w.renewals(ProjectStatus).value.state;
      if !w.sourceHolds then CanBeBlocked(first, first)
      else RenewalHolds(w, ProjectReady, token) && !ProjectIsUpdated(w, status) ==>
        CanBeBlocked(first, w.renewals(ProjectReady).value.state)
  }

  /** Likewise for the second check and the launch, with the renewals before them. */
  predicate LaunchPermits(args: Arguments, w: Answers, item: Item, token: int) {
    RenewalHolds(w, MissionLaunch, token) ==>
      var third := w.renewals(MissionLaunch).value.state;
      if !w.sourceStillHolds then CanBeBlocked(third, third)
      else
        RenewalHolds(w, LaunchReady, token) && (args.recovery.Some? ==> item.persisted.Some?) ==>
          var ready := w.renewals(LaunchReady).value.state;
          if w.report.None? then args.recovery == Some(CheckpointVerification) || CanBeBlocked(ready, ready)
          else ConclusionPermits(w, w.report.value.state.UnwrapOr(ready))
  }

  /** What the launch reported can be recorded: a terminal state, or waiting for approval. */
  predicate ConclusionPermits(w: Answers, state: ItemState)
    requires w.report.Some?
  {
    var report := w.report.value;
    if HasEnded(report) then
      || (report.mission == Some(MissionCancelled)
          && (w.checkpoint.None? || w.checkpoint.value.state != state
              || w.checkpoint.value == Checkpoint(Running, true)))
      || state == TerminalState(report)
      || (if TerminalState(report) == VerificationFailed then IsLive(state)
          else state !in {Published, Failed, Cancelled})
    else report.awaitingApproval ==> IsLive(state)
  }

  predicate StatesPermit(args: Arguments, w: Answers) {
    ClaimIsHeld(args, w) ==>
      var item, token := FinalItem(w), LastClaim(w).value.token.value;
      && ProjectPermits(w, item.status, token)
      && (ProjectPasses(w, item.status, token) ==> LaunchPermits(args, w, item, token))
  }

  // -------------------------------------------------------------------------
  // Stage by stage
  // -------------------------------------------------------------------------

  lemma PushPermitted(log: seq<Event>, e: Event)
    ensures AllPermitted(log + [e]) <==> AllPermitted(log) && (e.Move? ==> Permitted(log, e.to))
  {
    var more := log + [e];
    assert more[..|log|] == log && more[|log|] == e;
    assert forall k :: 0 <= k < |log| ==> more[..k] == log[..k] && more[k] == log[k];
  }

  lemma NoneRequested(log: seq<Event>)
    requires RequestedStates(log) == {}
    ensures AllPermitted(log)
  {
    forall k | 0 <= k < |log|
      ensures !log[k].Move?
    {
      RequestsAreRecorded(log, k);
    }
  }

  lemma BlockingPermits(w: Answers, r: Run, failure: Event, last: ItemState)
    requires State(r.log, None) == Some(last) && AllPermitted(r.log) && IsFailure(failure)
    ensures AllPermitted(Blocking(w, r.(log := r.log + [failure])).log) <==> CanBeBlocked(r.state, last)
  {
    var log := r.log + [failure];
    Push(r.log, failure);
    PushPermitted(r.log, failure);
    PushPermitted(log, Move(Blocked, FenceOf(r), w.moves(Blocked)));
  }

  lemma RevalidatingPermits(w: Answers, expected: string, passed: bool, r: Run)
    requires r.status.Going? && KnowsLast(r) && AllPermitted(r.log)
    ensures AllPermitted(Revalidating(w, expected, passed, r).log) <==> passed || CanBeBlocked(r.state, r.state)
    ensures passed ==> KnowsLast(Revalidating(w, expected, passed, r))
  {
    if passed {
      Push(r.log, Revalidate(expected, passed));
      PushPermitted(r.log, Revalidate(expected, passed));
    } else {
      BlockingPermits(w, r, Revalidate(expected, passed), r.state);
    }
  }

  lemma RenewingPermits(w: Answers, stage: Stage, r: Run)
    requires AllPermitted(r.log)
    ensures var s := Renewing(w, stage, r);
            && AllPermitted(s.log)
            && (s.status.Going? ==>
                  State(s.log, None) == Some(w.renewals(stage).value.state) && (stage != ProjectReady ==> KnowsLast(s)))
  {
    Push(r.log, Renew(stage, FenceOf(r), w.renewals(stage)));
    PushPermitted(r.log, Renew(stage, FenceOf(r), w.renewals(stage)));
  }

  lemma SynchronizingPermits(w: Answers, r: Run, last: ItemState)
    requires r.status.Going? && State(r.log, None) == Some(last) && AllPermitted(r.log)
    ensures AllPermitted(Synchronizing(w, r).log) <==>
            ProjectIsUpdated(w, r.item.status) || CanBeBlocked(r.state, last)
  {
    if r.item.status != IN_PROGRESS {
      var write := SetInProgress(w.statusSet);
      var asked := r.(log := r.log + [write]);
      if !w.statusSet {
        BlockingPermits(w, r, write, last);
      } else {
        Push(r.log, write);
        PushPermitted(r.log, write);
        if w.statusRead == Some(IN_PROGRESS) {
          PushPermitted(asked.log, ReadStatus(w.statusRead));
        } else {
          BlockingPermits(w, asked, ReadStatus(w.statusRead), last);
        }
      }
    }
  }

  lemma ProjectingPermits(w: Answers, r: Run)
    requires r.status.Going? && AllPermitted(r.log)
    ensures AllPermitted(Projecting(w, r).log) <==> ProjectPermits(w, r.item.status, r.token)
  {
    RenewingSucceeds(w, ProjectStatus, r);
    RenewingPermits(w, ProjectStatus, r);
    var renewed := Renewing(w, ProjectStatus, r);
    if renewed.status.Going? {
      RevalidatingPermits(w, r.item.status, w.sourceHolds, renewed);
      var checked := Revalidating(w, r.item.status, w.sourceHolds, renewed);
      if w.sourceHolds {
        CheckedPermits(w, checked);
      }
    }
  }

  lemma CheckedPermits(w: Answers, checked: Run)
    requires checked.status.Going? && AllPermitted(checked.log)
    ensures AllPermitted(Synchronizing(w, Renewing(w, ProjectReady, checked)).log) <==>
            (RenewalHolds(w, ProjectReady, checked.token) && !ProjectIsUpdated(w, checked.item.status) ==>
               CanBeBlocked(checked.state, w.renewals(ProjectReady).value.state))
  {
    RenewingSucceeds(w, ProjectReady, checked);
    RenewingPermits(w, ProjectReady, checked);
    var ready := Renewing(w, ProjectReady, checked);
    if ready.status.Going? {
      SynchronizingPermits(w, ready, w.renewals(ProjectReady).value.state);
    }
  }

  lemma LaunchingPermits(args: Arguments, w: Answers, r: Run)
    requires r.status.Going? && KnowsLast(r) && AllPermitted(r.log)
    requires args.recovery.Some? ==> r.item.persisted.Some?
    ensures AllPermitted(Launching(args, w, r).log) <==>
            w.report.Some? || args.recovery == Some(CheckpointVerification) || CanBeBlocked(r.state, r.state)
    ensures w.report.Some? ==> KnowsLast(Launching(args, w, r))
  {
    var e := LaunchCall(args, w, r);
    Push(r.log, e);
    PushPermitted(r.log, e);
    if w.report.None? {
      BlockingPermits(w, r, e, r.state);
    }
  }

  lemma MovingPermits(w: Answers, to: ItemState, r: Run)
    requires KnowsLast(r)
    ensures var s := Moving(w, to, r);
            && (AllPermitted(s.log) <==> AllPermitted(r.log) && TransitionAllowed(r.state, to))
            && (s.status.Going? ==> KnowsLast(s))
  {
    var e := Move(to, FenceOf(r), w.moves(to));
    Push(r.log, e);
    PushPermitted(r.log, e);
  }

  lemma EndingPermits(w: Answers, r: Run)
    requires r.status.Going? && KnowsLast(r) && AllPermitted(r.log) && w.report.Some? && HasEnded(w.report.value)
    ensures AllPermitted(Concluding(w, r).log) <==> ConclusionPermits(w, r.state)
  {
    var ended, terminal := Ending(w, r), TerminalState(w.report.value);
    if ended.status.Going? {
      assert ended == r && IsRetained(w, r);
      assert Concluding(w, r) == r;
    } else {
      assert Concluding(w, r).log == ended.log;
      if r.state != terminal {
        MovingPermits(w, terminal, r);
        TerminalRequests(r.state, terminal);
      }
    }
  }

  lemma TerminalRequests(state: ItemState, to: ItemState)
    requires to in {Failed, Cancelled, VerificationFailed} && state != to
    ensures TransitionAllowed(state, to) <==>
            if to == VerificationFailed then IsLive(state) else state !in {Published, Failed, Cancelled}
  {
  }

  lemma VerifyingPermits(w: Answers, r: Run)
    requires r.status.Going? ==> KnowsLast(r)
    ensures AllPermitted(Verifying(w, r).log) <==> AllPermitted(r.log)
  {
    if Verifying(w, r) != r {
      MovingPermits(w, Verified, r);
    }
  }

  lemma AdvancingPermits(w: Answers, r: Run)
    requires r.status.Going? && KnowsLast(r) && AllPermitted(r.log) && w.report.Some? && !HasEnded(w.report.value)
    ensures var s := Advancing(w, r);
            && (AllPermitted(s.log) <==> ConclusionPermits(w, r.state))
            && (s.status.Going? ==> KnowsLast(s))
  {
    if Advancing(w, r) == r {
    } else if IsAwaiting(w, r) {
      assert Advancing(w, r) == Moving(w, AwaitingApproval, r);
      MovingPermits(w, AwaitingApproval, r);
    } else {
      assert Advancing(w, r) == Moving(w, Running, r);
      MovingPermits(w, Running, r);
    }
  }

  lemma ConcludingPermits(w: Answers, r: Run)
    requires r.status.Going? && KnowsLast(r) && AllPermitted(r.log) && w.report.Some?
    ensures AllPermitted(Concluding(w, r).log) <==> ConclusionPermits(w, r.state)
  {
    if HasEnded(w.report.value) {
      EndingPermits(w, r);
    } else {
      assert Ending(w, r) == r;
      AdvancingPermits(w, r);
      VerifyingPermits(w, Advancing(w, r));
    }
  }

  lemma LaunchedPermits(args: Arguments, w: Answers, r: Run)
    requires r.status.Going? && KnowsLast(r) && AllPermitted(r.log)
    ensures AllPermitted(Concluding(w, Launching(args, w, r)).log) <==>
            ((args.recovery.Some? ==> r.item.persisted.Some?) ==>
               if w.report.None? then
                 args.recovery == Some(CheckpointVerification) || CanBeBlocked(r.state, r.state)
               else ConclusionPermits(w, w.report.value.state.UnwrapOr(r.state)))
  {
    var launched := Launching(args, w, r);
    if args.recovery.Some? ==> r.item.persisted.Some? {
      LaunchingPermits(args, w, r);
    }
    if launched.status.Going? {
      assert launched.state == w.report.value.state.UnwrapOr(r.state);
      ConcludingPermits(w, launched);
    } else {
      StopsStay(args, w, launched);
    }
  }

  lemma ReadyingPermits(w: Answers, r: Run)
    requires r.status.Going? && AllPermitted(r.log)
    ensures var s := Readying(w, r);
            && (AllPermitted(s.log) <==>
                  (RenewalHolds(w, MissionLaunch, r.token) && !w.sourceStillHolds ==>
                     var third := w.renewals(MissionLaunch).value.state;
                     CanBeBlocked(third, third)))
            && (s.status.Going? <==>
                  && RenewalHolds(w, MissionLaunch, r.token) && w.sourceStillHolds
                  && RenewalHolds(w, LaunchReady, r.token))
            && (s.status.Going? ==>
                  s.state == w.renewals(LaunchReady).value.state && s.item == r.item && KnowsLast(s))
  {
    var renewed := Renewing(w, MissionLaunch, r);
    RenewingSucceeds(w, MissionLaunch, r);
    RenewingPermits(w, MissionLaunch, r);
    var checked := Revalidating(w, IN_PROGRESS, w.sourceStillHolds, renewed);
    RevalidatingSucceeds(w, IN_PROGRESS, w.sourceStillHolds, renewed);
    RenewingSucceeds(w, LaunchReady, checked);
    if renewed.status.Going? {
      RevalidatingPermits(w, IN_PROGRESS, w.sourceStillHolds, renewed);
    }
    if AllPermitted(checked.log) {
      RenewingPermits(w, LaunchReady, checked);
    }
  }

  lemma StartingPermits(args: Arguments, w: Answers, r: Run)
    requires r.status.Going? && AllPermitted(r.log)
    ensures AllPermitted(Concluding(w, Starting(args, w, r)).log) <==> LaunchPermits(args, w, r.item, r.token)
  {
    var ready := Readying(w, r);
    ReadyingPermits(w, r);
    if ready.status.Going? {
      LaunchedPermits(args, w, ready);
    } else {
      assert Launching(args, w, ready) == ready;
      StopsStay(args, w, ready);
    }
  }

  /** Every transition that a run requests is one the store's table allows from the state it reported
      last, exactly if the reported states permit it: a state to block wherever the run fails and
      does not take the item for blocked, and a live item where it records an outcome. Progress to
      running or verified always is. */
  lemma WhichRequestsAreAllowed(args: Arguments, w: Answers)
    ensures AllPermitted(Trace(args, w).log) <==> StatesPermit(args, w)
  {
    var held := Holding(args, w);
    HoldingSucceeds(args, w);
    NoneRequested(held.log);
    if held.status.Going? {
      var projected := Projecting(w, held);
      ProjectingSucceeds(w, held);
      ProjectingPermits(w, held);
      if projected.status.Going? {
        StartingPermits(args, w, projected);
      } else {
        StopsStay(args, w, projected);
      }
    } else {
      StopsStay(args, w, held);
    }
  }

  predicate ReplaysVerified(w: Answers) {
    && w.selection.Selected? && w.refreshed == Some(Item("Todo", 0, Some(Persisted(Verified, Some(3)))))
    && w.legacy == Some(false) && w.claim == Some(Grant(Some(7), Some(3), 1))
    && w.renewals(ProjectStatus) == Some(Renewal(7, Verified, 2)) && !w.sourceHolds
  }

  lemma ReplayRequestsBlocked(w: Answers)
    requires ReplaysVerified(w)
    ensures Trace(Arguments(false, None), w).log
         == [Claim(w.claim), Renew(ProjectStatus, Fence(7, 1), w.renewals(ProjectStatus)),
             Revalidate("Todo", false), Move(Blocked, Fence(7, 2), w.moves(Blocked))]
  {
    var args := Arguments(false, None);
    var held := Run([Claim(w.claim)], Going, w.refreshed.value, 7, Some(3), 1, Claimed);
    assert Holding(args, w) == held;
    var projected := Projecting(w, held);
    assert !projected.status.Going?;
    StopsStay(args, w, projected);
  }

  /** An explicit replay of a verified item whose source check fails asks for what the store refuses. */
  lemma VerifiedReplayIsRefused(w: Answers)
    requires ReplaysVerified(w)
    ensures var log := Trace(Arguments(false, None), w).log;
            && |log| == 4 && log[3].Move? && log[3].to == Blocked
            && !TransitionAllowed(Verified, Blocked) && !AllPermitted(log)
  {
    ReplayRequestsBlocked(w);
    WhichRequestsAreAllowed(Arguments(false, None), w);
    assert FinalItem(w) == w.refreshed.value;
  }

  /** A Project write fails after renewals that report these two states; the second is a replay. */
  predicate WriteFailsBetween(w: Answers, first: ItemState, second: ItemState) {
    && w.selection.Selected? && w.refreshed == Some(Item("Todo", 0, None)) && w.legacy == Some(false)
    && w.preflight && w.claim == Some(Grant(Some(7), Some(3), 1)) && w.sourceHolds && !w.statusSet
    && w.renewals(ProjectStatus) == Some(Renewal(7, first, 2))
    && w.renewals(ProjectReady) == Some(Renewal(7, second, 9))
  }

  lemma WriteFailureRequestsBlocked(w: Answers, first: ItemState, second: ItemState)
    requires WriteFailsBetween(w, first, second) && first != Blocked
    ensures Trace(Arguments(false, None), w).log
         == [Preflight(true), Claim(w.claim), Renew(ProjectStatus, Fence(7, 1), w.renewals(ProjectStatus)),
             Revalidate("Todo", true), Renew(ProjectReady, Fence(7, 2), w.renewals(ProjectReady)),
             SetInProgress(false), Move(Blocked, Fence(7, 9), w.moves(Blocked))]
  {
    var args := Arguments(false, None);
    var held := Run([Preflight(true), Claim(w.claim)], Going, w.refreshed.value, 7, Some(3), 1, Claimed);
    assert Admitting(w, Reconciling(w, Selecting(args, w))).log == [Preflight(true)];
    assert Holding(args, w) == held;
    var ready := Renewing(w, ProjectReady, Revalidating(w, "Todo", true, Renewing(w, ProjectStatus, held)));
    assert ready.status.Going? && ready.state == first;
    assert !Projecting(w, held).status.Going?;
    StopsStay(args, w, Projecting(w, held));
  }

  lemma RenewalIsLastReport(before: seq<Event>, renewal: Event, write: Event)
    requires renewal.Renew? && renewal.renewal.Some? && write.SetInProgress?
    ensures State(before + [renewal, write], None) == Some(renewal.renewal.value.state)
  {
    assert before + [renewal, write] == before + [renewal] + [write];
    Push(before, renewal);
    Push(before + [renewal], write);
  }

  lemma BlockMeetsSecondReport(w: Answers, first: ItemState, second: ItemState)
    requires WriteFailsBetween(w, first, second) && first != Blocked
    ensures var log := Trace(Arguments(false, None), w).log;
            && |log| == 7 && log[6] == Move(Blocked, Fence(7, 9), w.moves(Blocked))
            && State(log[..6], None) == Some(second)
  {
    var log := Trace(Arguments(false, None), w).log;
    WriteFailureRequestsBlocked(w, first, second);
    assert log[..6] == log[..4] + [log[4], log[5]];
    RenewalIsLastReport(log[..4], log[4], log[5]);
  }

  /** The item was verified meanwhile, and the store refuses to block it. */
  lemma UnseenVerifiedIsRefused(w: Answers)
    requires WriteFailsBetween(w, MissionCreated, Verified)
    ensures var log := Trace(Arguments(false, None), w).log;
            && |log| == 7 && log[6] == Move(Blocked, Fence(7, 9), w.moves(Blocked))
            && State(log[..6], None) == Some(Verified) && !AllPermitted(log)
  {
    BlockMeetsSecondReport(w, MissionCreated, Verified);
    var log := Trace(Arguments(false, None), w).log;
    assert !Permitted(log[..6], log[6].to);
  }

  /** The run still takes the item for verified, but it runs again, and the store blocks it. */
  lemma StaleVerifiedIsBlocked(w: Answers)
    requires WriteFailsBetween(w, Verified, Running)
    ensures var log := Trace(Arguments(false, None), w).log;
            && |log| == 7 && log[6] == Move(Blocked, Fence(7, 9), w.moves(Blocked))
            && State(log[..6], None) == Some(Running) && AllPermitted(log)
  {
    BlockMeetsSecondReport(w, Verified, Running);
    WhichRequestsAreAllowed(Arguments(false, None), w);
    assert FinalItem(w) == w.refreshed.value;
  }
}
