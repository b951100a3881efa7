/** The external effects of one controller run (`run` in crates/crony-cli/src/factory.rs), in order,
    under arbitrary answers of the server and of GitHub.  Every call is logged with its answer. */
module RunEffects {
  import opened Prelude

  datatype ItemState =
    | Claimed | MissionCreated | Running | Blocked | AwaitingApproval | VerificationFailed
    | Verified | Publishing | Published | Failed | Cancelled

  datatype MissionStatus = MissionCompleted | MissionFailed | MissionCancelled | MissionOngoing

  datatype Mode = VerifierOnly | CheckpointVerification | SourceCorrection

  /** The four renewals: before and right before the Project update, and likewise the launch. */
  datatype Stage = ProjectStatus | ProjectReady | MissionLaunch | LaunchReady

  /** What a fenced request presents: the claim token and the version it expects. */
  datatype Fence = Fence(token: int, version: int)

  datatype Grant = Grant(token: Option<int>, mission: Option<int>, version: int)
  datatype Upgrade = Upgrade(mission: Option<int>, version: int)
  datatype Creation = Creation(mission: int, version: int)
  datatype Renewal = Renewal(token: int, state: ItemState, version: int)
  datatype Standing = Standing(state: ItemState, version: int)
  datatype Report = Report(
    mission: Option<MissionStatus>, state: Option<ItemState>, version: Option<int>,
    verificationFailed: bool, awaitingApproval: bool, cleanupPending: bool)

  /** A call and its answer; a missing answer is a failed call. */
  datatype Event =
    | Preflight(passed: bool)
    | Revalidate(expected: string, passed: bool)
    | Reconcile(passed: bool)
    | Claim(grant: Option<Grant>)
    | UpgradeSource(fence: Fence, upgrade: Option<Upgrade>)
    | Materialize(fence: Fence, creation: Option<Creation>)
    | Renew(stage: Stage, fence: Fence, renewal: Option<Renewal>)
    | SetInProgress(passed: bool)
    | ReadStatus(status: Option<string>)
    | Launch(linked: int, report: Option<Report>)
    | Recover(mode: Mode, fence: Fence, linked: int, report: Option<Report>)
    | Move(to: ItemState, fence: Fence, standing: Option<Standing>)

  /** `source` stands for the item's id, policy and source revision and the issue's update time. */
  datatype Item = Item(status: string, source: int, persisted: Option<Persisted>)
  datatype Persisted = Persisted(state: ItemState, mission: Option<int>)

  datatype Selection = Unreadable | NothingEligible | Selected(item: Item)

  datatype Checkpoint = Checkpoint(state: ItemState, ready: bool)

  datatype Arguments = Arguments(dryRun: bool, recovery: Option<Mode>)

  /** The answers a run would meet.  A transition to each state is requested at most once. */
  datatype Answers = Answers(
    selection: Selection, preview: bool, refreshed: Option<Item>,
    reconcilable: bool, reconciled: bool, reread: Option<Item>,
    legacy: Option<bool>,                              // whether the policy needs a source upgrade
    preflight: bool, claim: Option<Grant>, reclaim: Option<Grant>,
    upgrade: Option<Upgrade>, creation: Option<Creation>, renewals: Stage -> Option<Renewal>,
    sourceHolds: bool, statusSet: bool, statusRead: Option<string>, sourceStillHolds: bool,
    report: Option<Report>, checkpoint: Option<Checkpoint>, moves: ItemState -> Option<Standing>)

  datatype Status = Going | Stopped | Previewed

  datatype Run = Run(
    log: seq<Event>, status: Status, item: Item, token: int, mission: Option<int>, version: int, state: ItemState)

  const IN_PROGRESS := "In Progress"

  // -------------------------------------------------------------------------
  // The run, stage by stage
  // -------------------------------------------------------------------------

  function Say(r: Run, e: Event, passed: bool): Run {
    r.(log := r.log + [e], status := if passed then r.status else Stopped)
  }

  function FenceOf(r: Run): Fence {
    Fence(r.token, r.version)
  }

  function Idle(status: Status): Run {
    Run([], status, Item("", 0, None), 0, None, 0, Claimed)
  }

  predicate HasMission(item: Item) {
    item.persisted.Some? && item.persisted.value.mission.Some?
  }

  function Selecting(args: Arguments, w: Answers): Run {
    match w.selection
    case Unreadable => Idle(Stopped)
    case NothingEligible => Idle(if args.dryRun then Previewed else Stopped)
    case Selected(item) =>
      if args.dryRun then
        if HasMission(item) then Idle(Previewed) else Say(Idle(Previewed), Preflight(w.preview), w.preview)
      else if w.refreshed.None? then Idle(Stopped)
      else Idle(Going).(item := w.refreshed.value)
  }

  predicate IsCancelled(item: Item) {
    item.persisted.Some? && item.persisted.value.state == Cancelled
  }

  /** What a reconciliation must leave alone. */
  predicate SameWork(item: Item, after: Item) {
    && item.persisted.Some? && after.persisted.Some?
    && after.source == item.source && after.persisted.value.mission == item.persisted.value.mission
  }

  function Reconciling(w: Answers, r: Run): Run {
    if !r.status.Going? || !IsCancelled(r.item) then r
    else
      var checked := Say(r, Revalidate(r.item.status, w.reconcilable), w.reconcilable);
      if !w.reconcilable then checked
      else
        var reconciled := Say(checked, Reconcile(w.reconciled), w.reconciled);
        if !w.reconciled then reconciled
        else if w.reread.None? || !SameWork(r.item, w.reread.value) then reconciled.(status := Stopped)
        else reconciled.(item := w.reread.value)
  }

  function Admitting(w: Answers, r: Run): Run {
    if !r.status.Going? then r
    else if w.legacy.None? then r.(status := Stopped)
    else if HasMission(r.item) then r
    else Say(r, Preflight(w.preflight), w.preflight)
  }

  function Granted(r: Run, grant: Option<Grant>): Run {
    if grant.None? || grant.value.token.None? then Say(r, Claim(grant), false)
    else Say(r, Claim(grant), true).(
        token := grant.value.token.value, mission := grant.value.mission, version := grant.value.version)
  }

  /** A claim that replays without a usable token is made once more. */
  function Claiming(w: Answers, r: Run): Run {
    if !r.status.Going? then r
    else if w.claim.Some? && w.claim.value.token.None? then Granted(Say(r, Claim(w.claim), true), w.reclaim)
    else Granted(r, w.claim)
  }

  function Upgrading(w: Answers, r: Run): Run {
    if !r.status.Going? || w.legacy != Some(true) then r
    else
      var asked := Say(r, UpgradeSource(FenceOf(r), w.upgrade), w.upgrade.Some?);
      if w.upgrade.None? then asked
      else asked.(mission := w.upgrade.value.mission, version := w.upgrade.value.version)
  }

  function Linking(w: Answers, r: Run): Run {
    if !r.status.Going? || r.mission.Some? then r
    else
      var asked := Say(r, Materialize(FenceOf(r), w.creation), w.creation.Some?);
      if w.creation.None? then asked
      else asked.(mission := Some(w.creation.value.mission), version := w.creation.value.version)
  }

  /** The renewal must return the claim token; the state it reports right before the Project update
      is dropped. */
  function Renewing(w: Answers, stage: Stage, r: Run): Run {
    if !r.status.Going? then r
    else
      var renewal := w.renewals(stage);
      var held := renewal.Some? && renewal.value.token == r.token;
      var asked := Say(r, Renew(stage, FenceOf(r), renewal), held);
      if !held then asked
      else asked.(version := renewal.value.version,
                  state := if stage == ProjectReady then r.state else renewal.value.state)
  }

  function Blocking(w: Answers, r: Run): Run {
    if r.state == Blocked then r.(status := Stopped)
    else Say(r, Move(Blocked, FenceOf(r), w.moves(Blocked)), false)
  }

  function Revalidating(w: Answers, expected: string, passed: bool, r: Run): Run {
    if !r.status.Going? then r
    else
      var checked := r.(log := r.log + [Revalidate(expected, passed)]);
      if passed then checked else Blocking(w, checked)
  }

  function Synchronizing(w: Answers, r: Run): Run {
    if !r.status.Going? || r.item.status == IN_PROGRESS then r
    else
      var asked := r.(log := r.log + [SetInProgress(w.statusSet)]);
      if !w.statusSet then Blocking(w, asked)
      else
        var reread := asked.(log := asked.log + [ReadStatus(w.statusRead)]);
        if w.statusRead == Some(IN_PROGRESS) then reread else Blocking(w, reread)
  }

  function LaunchCall(args: Arguments, w: Answers, r: Run): Event {
    var linked := r.mission.UnwrapOr(0);
    match args.recovery
    case Some(mode) => Recover(mode, FenceOf(r), linked, w.report)
    case None => Launch(linked, w.report)
  }

  function Launching(args: Arguments, w: Answers, r: Run): Run {
    if !r.status.Going? then r
    else if args.recovery.Some? && r.item.persisted.None? then r.(status := Stopped)
    else
      var asked := r.(log := r.log + [LaunchCall(args, w, r)]);
      if w.report.None? then
        if args.recovery == Some(CheckpointVerification) then asked.(status := Stopped) else Blocking(w, asked)
      else asked.(state := w.report.value.state.UnwrapOr(r.state),
                  version := w.report.value.version.UnwrapOr(r.version))
  }

  function Moving(w: Answers, to: ItemState, r: Run): Run {
    var standing := w.moves(to);
    var asked := Say(r, Move(to, FenceOf(r), standing), standing.Some?);
    if standing.None? then asked else asked.(state := standing.value.state, version := standing.value.version)
  }

  /** A cancelled mission whose checkpoint is retained leaves a next action, not an outcome. */
  predicate IsRetained(w: Answers, r: Run) {
    && w.report.Some? && w.report.value.mission == Some(MissionCancelled)
    && w.checkpoint == Some(Checkpoint(Running, true)) && r.state == Running
  }

  function TerminalState(report: Report): ItemState {
    if report.mission == Some(MissionCancelled) then Cancelled
    else if report.verificationFailed then VerificationFailed else Failed
  }

  predicate HasEnded(report: Report) {
    report.mission == Some(MissionFailed) || report.mission == Some(MissionCancelled)
  }

  function Ending(w: Answers, r: Run): Run {
    if !r.status.Going? || w.report.None? || !HasEnded(w.report.value) then r
    else
      var report := w.report.value;
      var unread := w.checkpoint.None? || w.checkpoint.value.state != r.state;
      if report.mission == Some(MissionCancelled) && unread then r.(status := Stopped)
      else if IsRetained(w, r) then r
      else if r.state == TerminalState(report) then r.(status := Stopped)
      else Moving(w, TerminalState(report), r).(status := Stopped)
  }

  predicate IsAwaiting(w: Answers, r: Run) {
    w.report.Some? && !IsRetained(w, r) && w.report.value.awaitingApproval
  }

  function Advancing(w: Answers, r: Run): Run {
    if !r.status.Going? || w.report.None? then r
    else if IsAwaiting(w, r) then if r.state == AwaitingApproval then r else Moving(w, AwaitingApproval, r)
    else if w.report.value.mission != Some(MissionCompleted)
            && r.state in {MissionCreated, Blocked, AwaitingApproval} then
      Moving(w, Running, r)
    else r
  }

  predicate CompletionIsReady(completed: bool, cleanupPending: bool, state: ItemState) {
    completed && !cleanupPending && state in {MissionCreated, Running, AwaitingApproval, Blocked}
  }

  function Verifying(w: Answers, r: Run): Run {
    if r.status.Going? && w.report.Some?
       && CompletionIsReady(w.report.value.mission == Some(MissionCompleted), w.report.value.cleanupPending, r.state)
    then Moving(w, Verified, r) else r
  }

  /** Up to a held claim with a linked mission. */
  function Holding(args: Arguments, w: Answers): Run {
    Linking(w, Upgrading(w, Claiming(w, Admitting(w, Reconciling(w, Selecting(args, w))))))
  }

  /** The Project update between its checks. */
  function Projecting(w: Answers, r: Run): Run {
    var checked := Revalidating(w, r.item.status, w.sourceHolds, Renewing(w, ProjectStatus, r));
    Synchronizing(w, Renewing(w, ProjectReady, checked))
  }

  /** The last check and the last renewal before the launch. */
  function Readying(w: Answers, r: Run): Run {
    Renewing(w, LaunchReady, Revalidating(w, IN_PROGRESS, w.sourceStillHolds, Renewing(w, MissionLaunch, r)))
  }

  function Starting(args: Arguments, w: Answers, r: Run): Run {
    Launching(args, w, Readying(w, r))
  }

  function Concluding(w: Answers, r: Run): Run {
    Verifying(w, Advancing(w, Ending(w, r)))
  }

  function Trace(args: Arguments, w: Answers): Run {
    Concluding(w, Starting(args, w, Projecting(w, Holding(args, w))))
  }

  // -------------------------------------------------------------------------
  // The run itself
  // -------------------------------------------------------------------------

  datatype Outcome = Halted | DryRun | Executed(state: ItemState, version: int)

  function OutcomeOf(r: Run): Outcome {
    match r.status
    case Going => Executed(r.state, r.version)
    case Stopped => Halted
    case Previewed => DryRun
  }

  /** The same calls, and the same variables while the run goes on. */
  predicate Matches(r: Run, s: Run) {
    r.log == s.log && r.status == s.status && (r.status.Going? ==> r == s)
  }

  method Select(args: Arguments, w: Answers) returns (log: seq<Event>, status: Status, item: Item)
    ensures Matches(Idle(status).(log := log, item := item), Reconciling(w, Selecting(args, w)))
  {
    log, status, item := [], Stopped, Item("", 0, None);
    if w.selection.Unreadable? {
      return;
    }
    if args.dryRun {
      status := Previewed;
      if w.selection.Selected? && !HasMission(w.selection.item) {
        log := [Preflight(w.preview)];
        if !w.preview {
          status := Stopped;
        }
      }
      return;
    }
    if w.selection.NothingEligible? || w.refreshed.None? {
      return;
    }
    item := w.refreshed.value;
    if IsCancelled(item) {
      log := [Revalidate(item.status, w.reconcilable)];
      if !w.reconcilable {
        return;
      }
      log := log + [Reconcile(w.reconciled)];
      if !w.reconciled || w.reread.None? || !SameWork(item, w.reread.value) {
        return;
      }
      item := w.reread.value;
    }
    status := Going;
  }

  method ClaimItem(w: Answers, item: Item, before: seq<Event>)
    returns (log: seq<Event>, status: Status, token: int, mission: Option<int>, version: int)
    ensures Matches(Run(log, status, item, token, mission, version, Claimed),
                    Claiming(w, Admitting(w, Idle(Going).(log := before, item := item))))
  {
    log, status, token, mission, version := before, Stopped, 0, None, 0;
    if w.legacy.None? {
      return;
    }
    if !HasMission(item) {
      log := log + [Preflight(w.preflight)];
      if !w.preflight {
        return;
      }
    }
    var claim := w.claim;
    log := log + [Claim(claim)];
    if claim.Some? && claim.value.token.None? {
      claim := w.reclaim;
      log := log + [Claim(claim)];
    }
    if claim.None? || claim.value.token.None? {
      return;
    }
    status, token, mission, version := Going, claim.value.token.value, claim.value.mission, claim.value.version;
  }

  method Hold(args: Arguments, w: Answers)
    returns (log: seq<Event>, status: Status, item: Item, token: int, mission: Option<int>, version: int)
    ensures Matches(Run(log, status, item, token, mission, version, Claimed), Holding(args, w))
  {
    log, status, item := Select(args, w);
    token, mission, version := 0, None, 0;
    if !status.Going? {
      return;
    }
    log, status, token, mission, version := ClaimItem(w, item, log);
    if !status.Going? {
      return;
    }
    status := Stopped;
    if w.legacy == Some(true) {
      log := log + [UpgradeSource(Fence(token, version), w.upgrade)];
      if w.upgrade.None? {
        return;
      }
      mission, version := w.upgrade.value.mission, w.upgrade.value.version;
    }
    if mission.None? {
      log := log + [Materialize(Fence(token, version), w.creation)];
      if w.creation.None? {
        return;
      }
      mission, version := Some(w.creation.value.mission), w.creation.value.version;
    }
    status := Going;
  }

  method RenewControl(w: Answers, stage: Stage, log: seq<Event>, token: int, version: int)
    returns (log': seq<Event>, renewal: Option<Standing>)
    ensures log' == log + [Renew(stage, Fence(token, version), w.renewals(stage))]
    ensures renewal.Some? <==> w.renewals(stage).Some? && w.renewals(stage).value.token == token
    ensures renewal.Some? ==> renewal.value == Standing(w.renewals(stage).value.state, w.renewals(stage).value.version)
  {
    var answer := w.renewals(stage);
    log' := log + [Renew(stage, Fence(token, version), answer)];
    if answer.None? || answer.value.token != token {
      return log', None;
    }
    renewal := Some(Standing(answer.value.state, answer.value.version));
  }

  method Block(w: Answers, log: seq<Event>, fence: Fence, state: ItemState) returns (log': seq<Event>)
    ensures log' == if state == Blocked then log else log + [Move(Blocked, fence, w.moves(Blocked))]
  {
    log' := log;
    if state != Blocked {
      log' := log' + [Move(Blocked, fence, w.moves(Blocked))];
    }
  }

  method UpdateProject(w: Answers, before: Run)
    returns (log: seq<Event>, status: Status, version: int, state: ItemState)
    requires before.status.Going?
    ensures Matches(before.(log := log, status := status, version := version, state := state), Projecting(w, before))
  {
    var item, token := before.item, before.token;
    log, status, version, state := before.log, Stopped, before.version, before.state;
    var renewed;
    log, renewed := RenewControl(w, ProjectStatus, log, token, version);
    if renewed.None? {
      return;
    }
    state, version := renewed.value.state, renewed.value.version;
    log := log + [Revalidate(item.status, w.sourceHolds)];
    if !w.sourceHolds {
      log := Block(w, log, Fence(token, version), state);
      return;
    }
    log, renewed := RenewControl(w, ProjectReady, log, token, version);
    if renewed.None? {
      return;
    }
    version := renewed.value.version;
    if item.status != IN_PROGRESS {
      log := log + [SetInProgress(w.statusSet)];
      var updated := w.statusSet;
      if updated {
        log := log + [ReadStatus(w.statusRead)];
        updated := w.statusRead == Some(IN_PROGRESS);
      }
      if !updated {
        log := Block(w, log, Fence(token, version), state);
        return;
      }
    }
    status := Going;
  }

  method LaunchMission(args: Arguments, w: Answers, before: Run)
    returns (log: seq<Event>, status: Status, version: int, state: ItemState)
    requires before.status.Going?
    ensures Matches(before.(log := log, status := status, version := version, state := state),
                    Starting(args, w, before))
  {
    var token := before.token;
    log, status, version, state := before.log, Stopped, before.version, before.state;
    var renewed;
    log, renewed := RenewControl(w, MissionLaunch, log, token, version);
    if renewed.None? {
      return;
    }
    state, version := renewed.value.state, renewed.value.version;
    log := log + [Revalidate(IN_PROGRESS, w.sourceStillHolds)];
    if !w.sourceStillHolds {
      log := Block(w, log, Fence(token, version), state);
      return;
    }
    log, renewed := RenewControl(w, LaunchReady, log, token, version);
    if renewed.None? {
      return;
    }
    state, version := renewed.value.state, renewed.value.version;
    var linked := before.mission.UnwrapOr(0);
    if args.recovery.Some? {
      if before.item.persisted.None? {
        return;
      }
      log := log + [Recover(args.recovery.value, Fence(token, version), linked, w.report)];
    } else {
      log := log + [Launch(linked, w.report)];
    }
    if w.report.None? {
      if args.recovery != Some(CheckpointVerification) {
        log := Block(w, log, Fence(token, version), state);
      }
      return;
    }
    state, version := w.report.value.state.UnwrapOr(state), w.report.value.version.UnwrapOr(version);
    status := Going;
  }

  method Conclude(w: Answers, before: Run) returns (log: seq<Event>, status: Status, version: int, state: ItemState)
    requires before.status.Going? && w.report.Some?
    ensures Matches(before.(log := log, status := status, version := version, state := state), Concluding(w, before))
  {
    var token, report := before.token, w.report.value;
    log, status, version, state := before.log, Stopped, before.version, before.state;
    var checkpoint := false;
    if report.mission == Some(MissionCancelled) {
      if w.checkpoint.None? || w.checkpoint.value.state != state {
        return;
      }
      checkpoint := w.checkpoint.value.ready && state == Running;
    }
    if !checkpoint && HasEnded(report) {
      var terminal := TerminalState(report);
      if state != terminal {
        log := log + [Move(terminal, Fence(token, version), w.moves(terminal))];
      }
      return;
    }
    var awaiting := !checkpoint && report.awaitingApproval;
    if awaiting && state != AwaitingApproval {
      log := log + [Move(AwaitingApproval, Fence(token, version), w.moves(AwaitingApproval))];
      if w.moves(AwaitingApproval).None? {
        return;
      }
      version, state := w.moves(AwaitingApproval).value.version, w.moves(AwaitingApproval).value.state;
    }
    var completed := report.mission == Some(MissionCompleted);
    if !awaiting && !completed && state in {MissionCreated, Blocked, AwaitingApproval} {
      log := log + [Move(Running, Fence(token, version), w.moves(Running))];
      if w.moves(Running).None? {
        return;
      }
      version, state := w.moves(Running).value.version, w.moves(Running).value.state;
    }
    if CompletionIsReady(completed, report.cleanupPending, state) {
      log := log + [Move(Verified, Fence(token, version), w.moves(Verified))];
      if w.moves(Verified).None? {
        return;
      }
      version, state := w.moves(Verified).value.version, w.moves(Verified).value.state;
    }
    status := Going;
  }

  lemma StopsStay(args: Arguments, w: Answers, r: Run)
    requires !r.status.Going?
    ensures Projecting(w, r) == Starting(args, w, r) == Concluding(w, r) == r
  {
  }

  lemma LaunchedRunsReport(args: Arguments, w: Answers, r: Run)
    ensures Starting(args, w, r).status.Going? ==> w.report.Some?
  {
  }

  /** From the held claim on. */
  method Proceed(args: Arguments, w: Answers, held: Run) returns (log: seq<Event>, outcome: Outcome)
    requires held.status.Going?
    ensures var r := Concluding(w, Starting(args, w, Projecting(w, held)));
            log == r.log && outcome == OutcomeOf(r)
  {
    var item, token, mission := held.item, held.token, held.mission;
    var status, version, state;
    outcome := Halted;
    ghost var projected := Projecting(w, held);
    log, status, version, state := UpdateProject(w, held);
    if !status.Going? {
      StopsStay(args, w, projected);
      return;
    }
    ghost var started := Starting(args, w, projected);
    log, status, version, state := LaunchMission(args, w, Run(log, Going, item, token, mission, version, state));
    if !status.Going? {
      StopsStay(args, w, started);
      return;
    }
    LaunchedRunsReport(args, w, projected);
    log, status, version, state := Conclude(w, Run(log, Going, item, token, mission, version, state));
    outcome := if status.Going? then Executed(state, version) else Halted;
  }

  /** One run over the answers it meets: its calls in order, and how it ends. */
  method Execute(args: Arguments, w: Answers) returns (log: seq<Event>, outcome: Outcome)
    ensures log == Trace(args, w).log && outcome == OutcomeOf(Trace(args, w))
  {
    var status, item, token, mission, version;
    log, status, item, token, mission, version := Hold(args, w);
    if !status.Going? {
      StopsStay(args, w, Holding(args, w));
      outcome := if status.Previewed? then DryRun else Halted;
      return;
    }
    log, outcome := Proceed(args, w, Run(log, Going, item, token, mission, version, Claimed));
  }
}
