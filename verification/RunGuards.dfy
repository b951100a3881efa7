/** What every run's log of calls keeps: each call is justified by the calls and answers before it. */
module RunGuards {
  import opened Prelude
  import opened RunEffects

  function FenceIn(e: Event): Option<Fence> {
    match e
    case UpgradeSource(fence, _) => Some(fence)
    case Materialize(fence, _) => Some(fence)
    case Renew(_, fence, _) => Some(fence)
    case Recover(_, fence, _, _) => Some(fence)
    case Move(_, fence, _) => Some(fence)
    case _ => None
  }

  function ReportIn(e: Event): Option<Report> {
    match e
    case Launch(_, report) => report
    case Recover(_, _, _, report) => report
    case _ => None
  }

  function VersionIn(e: Event): Option<int> {
    match e
    case Claim(Some(grant)) => Some(grant.version)
    case UpgradeSource(_, Some(upgrade)) => Some(upgrade.version)
    case Materialize(_, Some(creation)) => Some(creation.version)
    case Renew(_, _, Some(renewal)) => Some(renewal.version)
    case Move(_, _, Some(standing)) => Some(standing.version)
    case _ => if ReportIn(e).Some? then ReportIn(e).value.version else None
  }

  /** The state an answer reports; `dropped` is the renewal whose state is ignored, if any. */
  function StateIn(e: Event, dropped: Option<Stage>): Option<ItemState> {
    match e
    case Renew(stage, _, Some(renewal)) => if Some(stage) == dropped then None else Some(renewal.state)
    case Move(_, _, Some(standing)) => Some(standing.state)
    case _ => if ReportIn(e).Some? then ReportIn(e).value.state else None
  }

  /** The version last reported by the server. */
  function Version(log: seq<Event>): Option<int> {
    if log == [] then None
    else
      var e := log[|log| - 1];
      if VersionIn(e).Some? then VersionIn(e) else Version(log[..|log| - 1])
  }

  /** The item state last reported, but for dropped reports. */
  function State(log: seq<Event>, dropped: Option<Stage>): Option<ItemState> {
    if log == [] then None
    else
      var e := log[|log| - 1];
      if StateIn(e, dropped).Some? then StateIn(e, dropped) else State(log[..|log| - 1], dropped)
  }

  /** The token of the last claim that returned one. */
  function Token(log: seq<Event>): Option<int> {
    if log == [] then None
    else match log[|log| - 1]
      case Claim(Some(grant)) => grant.token
      case _ => Token(log[..|log| - 1])
  }

  /** The mission the server last linked. */
  function Mission(log: seq<Event>): Option<int> {
    if log == [] then None
    else match log[|log| - 1]
      case Claim(Some(grant)) => grant.mission
      case UpgradeSource(_, Some(upgrade)) => upgrade.mission
      case Materialize(_, Some(creation)) => Some(creation.mission)
      case _ => Mission(log[..|log| - 1])
  }

  /** The launch's report. */
  function Reported(log: seq<Event>): Option<Report> {
    if log == [] then None
    else
      var e := log[|log| - 1];
      if ReportIn(e).Some? then ReportIn(e) else Reported(log[..|log| - 1])
  }

  predicate IsLaunch(e: Event) {
    e.Launch? || e.Recover?
  }

  function Launches(log: seq<Event>): nat {
    if log == [] then 0 else Launches(log[..|log| - 1]) + if IsLaunch(log[|log| - 1]) then 1 else 0
  }

  function RenewedStages(log: seq<Event>): set<Stage> {
    if log == [] then {}
    else RenewedStages(log[..|log| - 1]) + if log[|log| - 1].Renew? then {log[|log| - 1].stage} else {}
  }

  function RequestedStates(log: seq<Event>): set<ItemState> {
    if log == [] then {}
    else RequestedStates(log[..|log| - 1]) + if log[|log| - 1].Move? then {log[|log| - 1].to} else {}
  }

  /** A failed source check, Project write or launch. */
  predicate IsFailure(e: Event) {
    match e
    case Revalidate(_, passed) => !passed
    case SetInProgress(passed) => !passed
    case ReadStatus(status) => status != Some(IN_PROGRESS)
    case Launch(_, report) => report.None?
    case Recover(_, _, _, report) => report.None?
    case _ => false
  }

  predicate IsCheckpointFailure(e: Event) {
    e.Recover? && e.mode == CheckpointVerification && e.report.None?
  }

  /** Nothing may follow these. */
  predicate Ends(e: Event) {
    match e
    case Preflight(passed) => !passed
    case Reconcile(passed) => !passed
    case Claim(grant) => grant.None?
    case UpgradeSource(_, upgrade) => upgrade.None?
    case Materialize(_, creation) => creation.None?
    case Renew(_, fence, renewal) => renewal.None? || renewal.value.token != fence.token
    case Move(to, _, standing) => standing.None? || to in {Blocked, Failed, Cancelled, VerificationFailed}
    case _ => false
  }

  /** The logged answer is the one given to that call. */
  predicate IsAnswered(w: Answers, e: Event) {
    match e
    case UpgradeSource(_, upgrade) => upgrade == w.upgrade
    case Materialize(_, creation) => creation == w.creation
    case Renew(stage, _, renewal) => renewal == w.renewals(stage)
    case SetInProgress(passed) => passed == w.statusSet
    case ReadStatus(status) => status == w.statusRead
    case Move(to, _, standing) => standing == w.moves(to)
    case _ => IsLaunch(e) ==> e.report == w.report
  }

  predicate EndsWith(log: seq<Event>, e: Event) {
    log != [] && log[|log| - 1] == e
  }

  predicate PassedCheck(log: seq<Event>) {
    log != [] && log[|log| - 1].Revalidate? && log[|log| - 1].passed
  }

  /** A renewal that returned the token it presented. */
  predicate PassedRenewal(log: seq<Event>, stage: Stage) {
    log != [] && log[|log| - 1].Renew? && log[|log| - 1].stage == stage && !Ends(log[|log| - 1])
  }

  predicate HoldsMission(log: seq<Event>) {
    Token(log).Some? && Mission(log).Some?
  }

  /** A check passed between two renewals of a claim with a linked mission, the last thing done. */
  predicate IsCleared(log: seq<Event>, first: Stage, second: Stage) {
    && PassedRenewal(log, second) && PassedCheck(log[..|log| - 1])
    && PassedRenewal(log[..|log| - 2], first) && HoldsMission(log[..|log| - 2])
  }

  /** Position `k` confirms the Project status: a check that expected it, or a read after a cleared write. */
  predicate ConfirmsProgress(log: seq<Event>, k: nat)
    requires k < |log|
  {
    || (log[k] == Revalidate(IN_PROGRESS, true) && HoldsMission(log[..k]))
    || (log[k] == ReadStatus(Some(IN_PROGRESS)) && EndsWith(log[..k], SetInProgress(true))
        && IsCleared(log[..k - 1], ProjectStatus, ProjectReady))
  }

  ghost predicate ProgressConfirmed(log: seq<Event>) {
    exists k :: 0 <= k < |log| && ConfirmsProgress(log, k)
  }

  /** Before its own check and renewal, the Project status was already confirmed. */
  ghost predicate LaunchIsGuarded(before: seq<Event>) {
    && IsCleared(before, MissionLaunch, LaunchReady)
    && EndsWith(before[..|before| - 1], Revalidate(IN_PROGRESS, true))
    && ProgressConfirmed(before[..|before| - 2])
  }

  predicate MoveIsJustified(before: seq<Event>, to: ItemState) {
    && State(before, Some(ProjectReady)).Some?
    && State(before, Some(ProjectReady)).value != to
    && to !in RequestedStates(before)
    && (if to == Blocked then
          before != [] && IsFailure(before[|before| - 1]) && !IsCheckpointFailure(before[|before| - 1])
        else
          && Reported(before).Some?
          && var state, report := State(before, Some(ProjectReady)).value, Reported(before).value;
          match to
          case Running =>
            && state in {MissionCreated, Blocked, AwaitingApproval}
            && report.mission !in {Some(MissionCompleted), Some(MissionFailed)}
          case AwaitingApproval => report.awaitingApproval
          case Verified =>
            && state in {MissionCreated, Running, AwaitingApproval, Blocked}
            && report.mission == Some(MissionCompleted) && !report.cleanupPending
          case Cancelled => report.mission == Some(MissionCancelled)
          case Failed => report.mission == Some(MissionFailed) && !report.verificationFailed
          case VerificationFailed => report.mission == Some(MissionFailed) && report.verificationFailed
          case _ => false)
  }

  /** What each call needs of the calls before it. */
  ghost predicate Justified(w: Answers, before: seq<Event>, e: Event) {
    && IsAnswered(w, e)
    && (before != [] ==> !Ends(before[|before| - 1]))
    && (before != [] && IsFailure(before[|before| - 1]) ==> e.Move? && e.to == Blocked)
    && (FenceIn(e).Some? ==>
          Token(before) == Some(FenceIn(e).value.token) && Version(before) == Some(FenceIn(e).value.version))
    && (e.Revalidate? && Token(before).Some? ==>
          PassedRenewal(before, ProjectStatus) || PassedRenewal(before, MissionLaunch))
    && (e.Reconcile? ==> PassedCheck(before) && Token(before).None?)
    && (e.Claim? ==> Token(before).None?)
    && (e.Materialize? ==> Mission(before).None?)
    && (e.Renew? ==> HoldsMission(before) && e.stage !in RenewedStages(before))
    && (e.SetInProgress? ==> IsCleared(before, ProjectStatus, ProjectReady))
    && (e.ReadStatus? ==> EndsWith(before, SetInProgress(true)))
    && (IsLaunch(e) ==> LaunchIsGuarded(before) && Mission(before) == Some(e.linked) && Launches(before) == 0)
    && (e.Move? ==> MoveIsJustified(before, e.to))
  }

  ghost predicate AllJustified(w: Answers, log: seq<Event>) {
    forall k :: 0 <= k < |log| ==> Justified(w, log[..k], log[k])
  }

  lemma Push(log: seq<Event>, e: Event)
    ensures Version(log + [e]) == if VersionIn(e).Some? then VersionIn(e) else Version(log)
    ensures forall d :: State(log + [e], d) == if StateIn(e, d).Some? then StateIn(e, d) else State(log, d)
    ensures Token(log + [e]) == match e case Claim(Some(grant)) => grant.token case _ => Token(log)
    ensures Mission(log + [e]) == match e
      case Claim(Some(grant)) => grant.mission
      case UpgradeSource(_, Some(upgrade)) => upgrade.mission
      case Materialize(_, Some(creation)) => Some(creation.mission)
      case _ => Mission(log)
    ensures Reported(log + [e]) == if ReportIn(e).Some? then ReportIn(e) else Reported(log)
    ensures Launches(log + [e]) == Launches(log) + if IsLaunch(e) then 1 else 0
    ensures RenewedStages(log + [e]) == RenewedStages(log) + if e.Renew? then {e.stage} else {}
    ensures RequestedStates(log + [e]) == RequestedStates(log) + if e.Move? then {e.to} else {}
  {
    assert (log + [e])[..|log|] == log;
  }

  lemma PushJustified(w: Answers, log: seq<Event>, e: Event)
    requires AllJustified(w, log) && Justified(w, log, e)
    ensures AllJustified(w, log + [e])
  {
    var more := log + [e];
    forall k | 0 <= k < |more| ensures Justified(w, more[..k], more[k]) {
      if k < |log| {
        assert more[..k] == log[..k] && more[k] == log[k];
      } else {
        assert more[..k] == log && more[k] == e;
      }
    }
  }

  // -------------------------------------------------------------------------
  // Every stage keeps it
  // -------------------------------------------------------------------------

  predicate IsOpen(log: seq<Event>) {
    log != [] ==> !Ends(log[|log| - 1]) && !IsFailure(log[|log| - 1])
  }

  /** A failure that ends the log has nothing to block, or must not block. */
  predicate FailureIsExcused(log: seq<Event>) {
    log != [] && IsFailure(log[|log| - 1]) ==>
      var before := log[..|log| - 1];
      || Token(before).None?
      || State(before, Some(ProjectReady)) == Some(Blocked)
      || IsCheckpointFailure(log[|log| - 1])
  }

  ghost predicate Sound(w: Answers, r: Run) {
    AllJustified(w, r.log) && if r.status.Going? then IsOpen(r.log) else FailureIsExcused(r.log)
  }

  predicate IsFresh(r: Run) {
    && Token(r.log).None? && Reported(r.log).None?
    && Launches(r.log) == 0 && RenewedStages(r.log) == {} && RequestedStates(r.log) == {}
  }

  /** The variables hold what the server reported last. */
  predicate Knows(r: Run) {
    && Token(r.log) == Some(r.token) && Version(r.log) == Some(r.version) && Mission(r.log) == r.mission
  }

  predicate KnowsState(r: Run) {
    State(r.log, Some(ProjectReady)) == Some(r.state)
  }

  /** Between the claim and the launch, with these renewals made. */
  predicate IsAhead(r: Run, stages: set<Stage>) {
    && Knows(r)
    && RenewedStages(r.log) == stages && (stages != {} ==> r.mission.Some? && KnowsState(r))
    && Reported(r.log).None? && Launches(r.log) == 0 && RequestedStates(r.log) == {}
  }

  /** A call that changes nothing the run reads back. */
  lemma QuietCallIsSound(w: Answers, r: Run, e: Event)
    requires Sound(w, r) && r.status.Going? && IsFresh(r)
    requires e.Preflight? || e.Revalidate? || (e.Reconcile? && PassedCheck(r.log))
    ensures var s := Say(r, e, e.passed); Sound(w, s) && IsFresh(s)
    ensures PassedCheck(r.log + [e]) <==> e.Revalidate? && e.passed
  {
    Push(r.log, e);
    PushJustified(w, r.log, e);
    assert (r.log + [e])[..|r.log|] == r.log;
  }

  lemma ReconcilingIsSound(w: Answers, r: Run)
    requires Sound(w, r) && (r.status.Going? ==> IsFresh(r))
    ensures var s := Reconciling(w, r); Sound(w, s) && (s.status.Going? ==> IsFresh(s))
  {
    if r.status.Going? && IsCancelled(r.item) {
      QuietCallIsSound(w, r, Revalidate(r.item.status, w.reconcilable));
      var checked := Say(r, Revalidate(r.item.status, w.reconcilable), w.reconcilable);
      if w.reconcilable {
        QuietCallIsSound(w, checked, Reconcile(w.reconciled));
        var reconciled := Say(checked, Reconcile(w.reconciled), w.reconciled);
        assert Reconciling(w, r).log == reconciled.log;
        assert !IsFailure(reconciled.log[|reconciled.log| - 1]);
      }
    }
  }

  lemma AdmittingIsSound(w: Answers, r: Run)
    requires Sound(w, r) && (r.status.Going? ==> IsFresh(r))
    ensures var s := Admitting(w, r); Sound(w, s) && (s.status.Going? ==> IsFresh(s))
  {
    if r.status.Going? {
      QuietCallIsSound(w, r, Preflight(w.preflight));
      var s := Admitting(w, r);
      if s.log == r.log {
        assert IsOpen(r.log);
      } else {
        assert s == Say(r, Preflight(w.preflight), w.preflight);
      }
    }
  }

  lemma ClaimIsJustified(w: Answers, log: seq<Event>, grant: Option<Grant>)
    requires IsOpen(log) && Token(log).None?
    ensures Justified(w, log, Claim(grant))
  {
  }

  lemma GrantedIsSound(w: Answers, r: Run, grant: Option<Grant>)
    requires Sound(w, r) && r.status.Going? && IsFresh(r)
    ensures var s := Granted(r, grant); Sound(w, s) && (s.status.Going? ==> IsAhead(s, {}))
  {
    Push(r.log, Claim(grant));
    ClaimIsJustified(w, r.log, grant);
    PushJustified(w, r.log, Claim(grant));
  }

  lemma ReplayedClaimIsSound(w: Answers, r: Run, grant: Option<Grant>)
    requires Sound(w, r) && r.status.Going? && IsFresh(r) && grant.Some? && grant.value.token.None?
    ensures var s := Say(r, Claim(grant), true); Sound(w, s) && IsFresh(s)
  {
    Push(r.log, Claim(grant));
    ClaimIsJustified(w, r.log, grant);
    PushJustified(w, r.log, Claim(grant));
  }

  lemma ClaimingIsSound(w: Answers, r: Run)
    requires Sound(w, r) && (r.status.Going? ==> IsFresh(r))
    ensures var s := Claiming(w, r); Sound(w, s) && (s.status.Going? ==> IsAhead(s, {}))
  {
    if r.status.Going? {
      if w.claim.Some? && w.claim.value.token.None? {
        ReplayedClaimIsSound(w, r, w.claim);
        GrantedIsSound(w, Say(r, Claim(w.claim), true), w.reclaim);
      } else {
        GrantedIsSound(w, r, w.claim);
      }
    }
  }

  lemma UpgradingIsSound(w: Answers, r: Run)
    requires Sound(w, r) && (r.status.Going? ==> IsAhead(r, {}))
    ensures var s := Upgrading(w, r); Sound(w, s) && (s.status.Going? ==> IsAhead(s, {}))
  {
    if r.status.Going? && w.legacy == Some(true) {
      Push(r.log, UpgradeSource(FenceOf(r), w.upgrade));
      PushJustified(w, r.log, UpgradeSource(FenceOf(r), w.upgrade));
    }
  }

  lemma LinkingIsSound(w: Answers, r: Run)
    requires Sound(w, r) && (r.status.Going? ==> IsAhead(r, {}))
    ensures var s := Linking(w, r); Sound(w, s) && (s.status.Going? ==> IsAhead(s, {}) && s.mission.Some?)
  {
    if r.status.Going? && r.mission.None? {
      Push(r.log, Materialize(FenceOf(r), w.creation));
      PushJustified(w, r.log, Materialize(FenceOf(r), w.creation));
    }
  }

  lemma RenewingIsSound(w: Answers, stage: Stage, r: Run, stages: set<Stage>)
    requires Sound(w, r) && (r.status.Going? ==> IsAhead(r, stages) && r.mission.Some?)
    requires stage !in stages && (stage == ProjectReady ==> stages != {})
    ensures var s := Renewing(w, stage, r);
            && Sound(w, s)
            && (s.status.Going? ==>
                  && r.status.Going? && IsAhead(s, stages + {stage})
                  && PassedRenewal(s.log, stage) && s.log[..|s.log| - 1] == r.log)
  {
    if r.status.Going? {
      var e := Renew(stage, FenceOf(r), w.renewals(stage));
      Push(r.log, e);
      PushJustified(w, r.log, e);
    }
  }

  lemma BlockIsJustified(w: Answers, log: seq<Event>, failure: Event, fence: Fence)
    requires Token(log) == Some(fence.token) && Version(log) == Some(fence.version)
    requires State(log, Some(ProjectReady)).Some? && State(log, Some(ProjectReady)).value != Blocked
    requires IsFailure(failure) && !IsCheckpointFailure(failure) && RequestedStates(log) == {}
    ensures Justified(w, log + [failure], Move(Blocked, fence, w.moves(Blocked)))
  {
    Push(log, failure);
  }

  /** After a failed call, the item is blocked unless it is known to be. */
  lemma BlockingIsSound(w: Answers, r: Run, failure: Event)
    requires AllJustified(w, r.log) && Justified(w, r.log, failure)
    requires IsFailure(failure) && !IsCheckpointFailure(failure)
    requires Knows(r) && KnowsState(r) && RequestedStates(r.log) == {}
    ensures var s := Blocking(w, r.(log := r.log + [failure])); Sound(w, s) && !s.status.Going?
  {
    var log := r.log + [failure];
    PushJustified(w, r.log, failure);
    assert log[..|r.log|] == r.log;
    if r.state != Blocked {
      BlockIsJustified(w, r.log, failure, FenceOf(r));
      PushJustified(w, log, Move(Blocked, FenceOf(r), w.moves(Blocked)));
    }
  }

  lemma RevalidatingIsSound(w: Answers, expected: string, passed: bool, r: Run, stages: set<Stage>)
    requires Sound(w, r) && stages != {}
    requires r.status.Going? ==>
      IsAhead(r, stages) && (PassedRenewal(r.log, ProjectStatus) || PassedRenewal(r.log, MissionLaunch))
    ensures var s := Revalidating(w, expected, passed, r);
            && Sound(w, s)
            && (s.status.Going? ==>
                  && r.status.Going? && passed && IsAhead(s, stages)
                  && s.log == r.log + [Revalidate(expected, true)])
  {
    if r.status.Going? {
      if passed {
        Push(r.log, Revalidate(expected, passed));
        PushJustified(w, r.log, Revalidate(expected, passed));
      } else {
        BlockingIsSound(w, r, Revalidate(expected, passed));
      }
    }
  }

  lemma WriteIsJustified(w: Answers, log: seq<Event>)
    requires IsOpen(log) && IsCleared(log, ProjectStatus, ProjectReady)
    ensures Justified(w, log, SetInProgress(w.statusSet))
  {
  }

  lemma ReadIsJustified(w: Answers, log: seq<Event>)
    requires EndsWith(log, SetInProgress(true))
    ensures Justified(w, log, ReadStatus(w.statusRead))
  {
  }

  lemma WriteIsSound(w: Answers, r: Run, stages: set<Stage>)
    requires w.statusSet && Sound(w, r) && r.status.Going? && stages != {}
    requires IsAhead(r, stages) && IsCleared(r.log, ProjectStatus, ProjectReady)
    ensures var s := r.(log := r.log + [SetInProgress(true)]); Sound(w, s) && IsAhead(s, stages)
  {
    Push(r.log, SetInProgress(true));
    WriteIsJustified(w, r.log);
    PushJustified(w, r.log, SetInProgress(true));
  }

  lemma ReadIsSound(w: Answers, r: Run, stages: set<Stage>)
    requires w.statusRead == Some(IN_PROGRESS) && Sound(w, r) && r.status.Going? && stages != {} && IsAhead(r, stages)
    requires EndsWith(r.log, SetInProgress(true)) && IsCleared(r.log[..|r.log| - 1], ProjectStatus, ProjectReady)
    ensures var s := r.(log := r.log + [ReadStatus(Some(IN_PROGRESS))]);
            Sound(w, s) && IsAhead(s, stages) && ProgressConfirmed(s.log)
  {
    var read := ReadStatus(Some(IN_PROGRESS));
    Push(r.log, read);
    ReadIsJustified(w, r.log);
    PushJustified(w, r.log, read);
    var log, n := r.log + [read], |r.log|;
    assert log[..n] == r.log && log[..n - 1] == r.log[..n - 1];
    assert ConfirmsProgress(log, n);
  }

  lemma SynchronizingIsSound(w: Answers, r: Run, stages: set<Stage>)
    requires Sound(w, r) && stages != {}
    requires r.status.Going? ==> IsAhead(r, stages) && IsCleared(r.log, ProjectStatus, ProjectReady)
    requires r.status.Going? && r.item.status == IN_PROGRESS ==> ProgressConfirmed(r.log)
    ensures var s := Synchronizing(w, r);
            Sound(w, s) && (s.status.Going? ==> IsAhead(s, stages) && ProgressConfirmed(s.log))
  {
    if r.status.Going? && r.item.status != IN_PROGRESS {
      WriteIsJustified(w, r.log);
      if !w.statusSet {
        BlockingIsSound(w, r, SetInProgress(false));
      } else {
        var asked := r.(log := r.log + [SetInProgress(true)]);
        WriteIsSound(w, r, stages);
        StatusReadIsSound(w, r, asked, stages);
      }
    }
  }

  lemma StatusReadIsSound(w: Answers, r: Run, asked: Run, stages: set<Stage>)
    requires Sound(w, asked) && asked.status.Going? && stages != {} && IsAhead(asked, stages)
    requires asked == r.(log := r.log + [SetInProgress(true)]) && IsCleared(r.log, ProjectStatus, ProjectReady)
    requires w.statusSet && r.item.status != IN_PROGRESS
    ensures var s := Synchronizing(w, r);
            Sound(w, s) && (s.status.Going? ==> IsAhead(s, stages) && ProgressConfirmed(s.log))
  {
    assert asked.log[..|asked.log| - 1] == r.log;
    ReadIsJustified(w, asked.log);
    if w.statusRead == Some(IN_PROGRESS) {
      ReadIsSound(w, asked, stages);
    } else {
      BlockingIsSound(w, asked, ReadStatus(w.statusRead));
    }
  }

  lemma ConfirmationLasts(log: seq<Event>, more: seq<Event>)
    requires log <= more && ProgressConfirmed(log)
    ensures ProgressConfirmed(more)
  {
    var k :| 0 <= k < |log| && ConfirmsProgress(log, k);
    assert more[..k] == log[..k];
    if k > 0 { assert more[..k - 1] == log[..k - 1]; }
    assert ConfirmsProgress(more, k);
  }

  /** After the launch, with these transitions requested. */
  predicate IsLaunched(w: Answers, r: Run, states: set<ItemState>) {
    Knows(r) && KnowsState(r) && Reported(r.log) == w.report && w.report.Some? && RequestedStates(r.log) <= states
  }

  lemma LaunchCallIsJustified(args: Arguments, w: Answers, r: Run, stages: set<Stage>)
    requires Sound(w, r) && r.status.Going? && stages != {} && IsAhead(r, stages) && LaunchIsGuarded(r.log)
    ensures Justified(w, r.log, LaunchCall(args, w, r))
  {
  }

  lemma LaunchReports(w: Answers, r: Run, e: Event)
    requires Sound(w, r) && r.status.Going? && Knows(r) && KnowsState(r) && RequestedStates(r.log) == {}
    requires IsLaunch(e) && ReportIn(e) == w.report && w.report.Some? && Justified(w, r.log, e)
    ensures var s := r.(log := r.log + [e], state := w.report.value.state.UnwrapOr(r.state),
                        version := w.report.value.version.UnwrapOr(r.version));
            Sound(w, s) && IsLaunched(w, s, {})
  {
    Push(r.log, e);
    PushJustified(w, r.log, e);
  }

  lemma LaunchingIsSound(args: Arguments, w: Answers, r: Run, stages: set<Stage>)
    requires Sound(w, r) && stages != {}
    requires r.status.Going? ==> IsAhead(r, stages) && LaunchIsGuarded(r.log)
    ensures var s := Launching(args, w, r); Sound(w, s) && (s.status.Going? ==> IsLaunched(w, s, {}))
  {
    if r.status.Going? && !(args.recovery.Some? && r.item.persisted.None?) {
      var e := LaunchCall(args, w, r);
      LaunchCallIsJustified(args, w, r, stages);
      if w.report.Some? {
        LaunchReports(w, r, e);
      } else if args.recovery == Some(CheckpointVerification) {
        PushJustified(w, r.log, e);
      } else {
        BlockingIsSound(w, r, e);
      }
    }
  }

  lemma MovingIsSound(w: Answers, to: ItemState, r: Run, states: set<ItemState>)
    requires Sound(w, r) && r.status.Going? && IsLaunched(w, r, states)
    requires to != Blocked && to !in states && MoveIsJustified(r.log, to)
    ensures var s := Moving(w, to, r);
            && AllJustified(w, s.log) && FailureIsExcused(s.log)
            && (s.status.Going? ==> IsLaunched(w, s, states + {to}))
            && (s.status.Going? && to !in {Failed, Cancelled, VerificationFailed} ==> Sound(w, s))
  {
    var e := Move(to, FenceOf(r), w.moves(to));
    Push(r.log, e);
    assert Justified(w, r.log, e);
    PushJustified(w, r.log, e);
    assert Moving(w, to, r).log == r.log + [e] && !IsFailure(e);
  }

  lemma EndingIsSound(w: Answers, r: Run)
    requires Sound(w, r) && (r.status.Going? ==> IsLaunched(w, r, {}))
    ensures var s := Ending(w, r);
            && Sound(w, s)
            && (s.status.Going? ==> s == r && (HasEnded(w.report.value) ==> IsRetained(w, r)))
  {
    if r.status.Going? && HasEnded(w.report.value) && Ending(w, r).log != r.log {
      MovingIsSound(w, TerminalState(w.report.value), r, {});
    }
  }

  lemma AdvancingIsSound(w: Answers, r: Run)
    requires Sound(w, r)
    requires r.status.Going? ==> IsLaunched(w, r, {}) && (HasEnded(w.report.value) ==> IsRetained(w, r))
    ensures var s := Advancing(w, r);
            Sound(w, s) && (s.status.Going? ==> IsLaunched(w, s, {AwaitingApproval, Running}))
  {
    var s := Advancing(w, r);
    if s.log != r.log {
      var to := if IsAwaiting(w, r) then AwaitingApproval else Running;
      AdvanceIsJustified(w, r, to);
      MovingIsSound(w, to, r, {});
      assert s == Moving(w, to, r);
    } else {
      assert s == r;
    }
  }

  lemma AdvanceIsJustified(w: Answers, r: Run, to: ItemState)
    requires Sound(w, r) && r.status.Going? && IsLaunched(w, r, {}) && Advancing(w, r).log != r.log
    requires HasEnded(w.report.value) ==> IsRetained(w, r)
    requires to == if IsAwaiting(w, r) then AwaitingApproval else Running
    ensures MoveIsJustified(r.log, to) && Advancing(w, r) == Moving(w, to, r)
  {
  }

  lemma VerifyingIsSound(w: Answers, r: Run)
    requires Sound(w, r) && (r.status.Going? ==> IsLaunched(w, r, {AwaitingApproval, Running}))
    ensures var s := Verifying(w, r);
            Sound(w, s) && (s.status.Going? ==> Knows(s) && KnowsState(s))
  {
    if Verifying(w, r) != r {
      MovingIsSound(w, Verified, r, {AwaitingApproval, Running});
    }
  }

  lemma HoldingIsSound(args: Arguments, w: Answers)
    ensures var s := Holding(args, w); Sound(w, s) && (s.status.Going? ==> IsAhead(s, {}) && s.mission.Some?)
  {
    var r0 := Selecting(args, w);
    Push([], Preflight(w.preview));
    PushJustified(w, [], Preflight(w.preview));
    assert [] + [Preflight(w.preview)] == [Preflight(w.preview)];
    ReconcilingIsSound(w, r0);
    var r1 := Reconciling(w, r0);
    AdmittingIsSound(w, r1);
    var r2 := Admitting(w, r1);
    ClaimingIsSound(w, r2);
    var r3 := Claiming(w, r2);
    UpgradingIsSound(w, r3);
    LinkingIsSound(w, Upgrading(w, r3));
  }

  lemma ReadyIsCleared(renewed: seq<Event>, checked: seq<Event>, ready: seq<Event>, expected: string)
    requires HoldsMission(renewed) && PassedRenewal(renewed, ProjectStatus)
    requires checked == renewed + [Revalidate(expected, true)]
    requires PassedRenewal(ready, ProjectReady) && ready[..|ready| - 1] == checked
    ensures IsCleared(ready, ProjectStatus, ProjectReady)
    ensures expected == IN_PROGRESS ==> ProgressConfirmed(ready)
  {
    var n := |renewed|;
    assert ready[..n] == checked[..n] == renewed;
    if expected == IN_PROGRESS {
      assert ready[n] == checked[n];
      assert ConfirmsProgress(ready, n);
    }
  }

  lemma ProjectingIsSound(w: Answers, r: Run)
    requires Sound(w, r) && (r.status.Going? ==> IsAhead(r, {}) && r.mission.Some?)
    ensures var s := Projecting(w, r);
            Sound(w, s) && (s.status.Going? ==> IsAhead(s, {ProjectStatus, ProjectReady}) && ProgressConfirmed(s.log))
  {
    RenewingIsSound(w, ProjectStatus, r, {});
    var renewed := Renewing(w, ProjectStatus, r);
    assert {} + {ProjectStatus} == {ProjectStatus};
    RevalidatingIsSound(w, r.item.status, w.sourceHolds, renewed, {ProjectStatus});
    var checked := Revalidating(w, r.item.status, w.sourceHolds, renewed);
    RenewingIsSound(w, ProjectReady, checked, {ProjectStatus});
    var ready := Renewing(w, ProjectReady, checked);
    assert {ProjectStatus} + {ProjectReady} == {ProjectStatus, ProjectReady};
    if ready.status.Going? {
      ReadyIsCleared(renewed.log, checked.log, ready.log, r.item.status);
    }
    SynchronizingIsSound(w, ready, {ProjectStatus, ProjectReady});
  }

  lemma ReadyingIsSound(w: Answers, r: Run)
    requires Sound(w, r)
    requires r.status.Going? ==> IsAhead(r, {ProjectStatus, ProjectReady}) && ProgressConfirmed(r.log)
    ensures var s := Readying(w, r);
            && Sound(w, s)
            && (s.status.Going? ==>
                  IsAhead(s, {ProjectStatus, ProjectReady, MissionLaunch, LaunchReady}) && LaunchIsGuarded(s.log))
  {
    var stages := {ProjectStatus, ProjectReady};
    var third := {ProjectStatus, ProjectReady, MissionLaunch};
    assert stages + {MissionLaunch} == third;
    assert third + {LaunchReady} == {ProjectStatus, ProjectReady, MissionLaunch, LaunchReady};
    RenewingIsSound(w, MissionLaunch, r, stages);
    var renewed := Renewing(w, MissionLaunch, r);
    RevalidatingIsSound(w, IN_PROGRESS, w.sourceStillHolds, renewed, third);
    var checked := Revalidating(w, IN_PROGRESS, w.sourceStillHolds, renewed);
    RenewingIsSound(w, LaunchReady, checked, third);
    var ready := Renewing(w, LaunchReady, checked);
    if ready.status.Going? {
      ConfirmationLasts(r.log, renewed.log);
      ReadyIsGuarded(renewed.log, checked.log, ready.log);
    }
  }

  lemma ReadyIsGuarded(renewed: seq<Event>, checked: seq<Event>, ready: seq<Event>)
    requires HoldsMission(renewed) && PassedRenewal(renewed, MissionLaunch) && ProgressConfirmed(renewed)
    requires checked == renewed + [Revalidate(IN_PROGRESS, true)]
    requires PassedRenewal(ready, LaunchReady) && ready[..|ready| - 1] == checked
    ensures LaunchIsGuarded(ready)
  {
    assert ready[..|ready| - 2] == checked[..|checked| - 1] == renewed;
  }

  lemma StartingIsSound(args: Arguments, w: Answers, r: Run)
    requires Sound(w, r)
    requires r.status.Going? ==> IsAhead(r, {ProjectStatus, ProjectReady}) && ProgressConfirmed(r.log)
    ensures var s := Starting(args, w, r); Sound(w, s) && (s.status.Going? ==> IsLaunched(w, s, {}))
  {
    ReadyingIsSound(w, r);
    LaunchingIsSound(args, w, Readying(w, r), {ProjectStatus, ProjectReady, MissionLaunch, LaunchReady});
  }

  /** In every run, under any answers, each call is justified by the calls before it; a run that goes
      through to the end holds the state and version reported last. */
  lemma EveryCallIsJustified(args: Arguments, w: Answers)
    ensures var r := Trace(args, w);
            && Sound(w, r)
            && (r.status.Going? ==> Version(r.log) == Some(r.version) && KnowsState(r))
  {
    HoldingIsSound(args, w);
    ProjectingIsSound(w, Holding(args, w));
    var r := Starting(args, w, Projecting(w, Holding(args, w)));
    StartingIsSound(args, w, Projecting(w, Holding(args, w)));
    EndingIsSound(w, r);
    AdvancingIsSound(w, Ending(w, r));
    VerifyingIsSound(w, Advancing(w, Ending(w, r)));
  }
}
