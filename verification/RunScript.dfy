/** A run against the flat list of calls it means to make: up to its first refused call it makes exactly
    these, with these tokens and versions, and after a launch it records what was reported. */
module RunScript {
  import opened Prelude
  import opened RunEffects
  import opened RunGuards
  import opened RunOutcomes

  // -------------------------------------------------------------------------
  // The list
  // -------------------------------------------------------------------------

  function When(condition: bool, calls: seq<Event>): seq<Event> {
    if condition then calls else []
  }

  function ReconcileCalls(w: Answers): seq<Event>
    requires w.refreshed.Some?
  {
    When(IsCancelled(w.refreshed.value),
         [Revalidate(w.refreshed.value.status, w.reconcilable), Reconcile(w.reconciled)])
  }

  function ClaimCalls(w: Answers): seq<Event> {
    [Claim(w.claim)] + When(w.claim.Some? && w.claim.value.token.None?, [Claim(w.reclaim)])
  }

  /** The versions and missions that the answers before the first renewal hand on. */
  function UpgradedVersion(w: Answers): int
    requires LastClaim(w).Some?
  {
    if w.legacy == Some(true) && w.upgrade.Some? then w.upgrade.value.version else LastClaim(w).value.version
  }

  function UpgradedMission(w: Answers): Option<int>
    requires LastClaim(w).Some?
  {
    if w.legacy == Some(true) && w.upgrade.Some? then w.upgrade.value.mission else LastClaim(w).value.mission
  }

  function LinkedVersion(w: Answers): int
    requires LastClaim(w).Some?
  {
    if UpgradedMission(w).None? && w.creation.Some? then w.creation.value.version else UpgradedVersion(w)
  }

  function LinkedMission(w: Answers): Option<int>
    requires LastClaim(w).Some?
  {
    if UpgradedMission(w).None? && w.creation.Some? then Some(w.creation.value.mission) else UpgradedMission(w)
  }

  function RenewedVersion(w: Answers, stage: Stage, version: int): int {
    if w.renewals(stage).Some? then w.renewals(stage).value.version else version
  }

  /** What the claim and its token are used for first: a source upgrade and the mission. */
  function LinkCalls(w: Answers, token: int): seq<Event>
    requires LastClaim(w).Some?
  {
    When(w.legacy == Some(true), [UpgradeSource(Fence(token, LastClaim(w).value.version), w.upgrade)])
    + When(UpgradedMission(w).None?, [Materialize(Fence(token, UpgradedVersion(w)), w.creation)])
  }

  function AdmittedCalls(w: Answers, item: Item): seq<Event> {
    When(!HasMission(item), [Preflight(w.preflight)])
    + (ClaimCalls(w)
       + if LastClaim(w).None? || LastClaim(w).value.token.None? then []
         else LinkCalls(w, LastClaim(w).value.token.value))
  }

  /** Before the first renewal: reconciliation, preflight, claim, source upgrade, mission. */
  function HoldCalls(w: Answers): seq<Event> {
    if !w.selection.Selected? || w.refreshed.None? then []
    else ReconcileCalls(w) + if !ItemIsReady(w) || w.legacy.None? then [] else AdmittedCalls(w, FinalItem(w))
  }

  function ProjectCalls(w: Answers, item: Item, token: int, version: int): seq<Event> {
    [RenewCall(w, ProjectStatus, token, version), Revalidate(item.status, w.sourceHolds),
     RenewCall(w, ProjectReady, token, RenewedVersion(w, ProjectStatus, version))]
    + When(item.status != IN_PROGRESS, [SetInProgress(w.statusSet), ReadStatus(w.statusRead)])
  }

  function LaunchCallAt(args: Arguments, w: Answers, token: int, version: int, mission: int): Event {
    match args.recovery
    case Some(mode) => Recover(mode, Fence(token, version), mission, w.report)
    case None => Launch(mission, w.report)
  }

  function LaunchCalls(args: Arguments, w: Answers, item: Item, token: int, version: int, mission: int): seq<Event> {
    var renewed := RenewedVersion(w, MissionLaunch, version);
    [RenewCall(w, MissionLaunch, token, version), Revalidate(IN_PROGRESS, w.sourceStillHolds),
     RenewCall(w, LaunchReady, token, renewed)]
    + When(args.recovery.Some? ==> item.persisted.Some?,
           [LaunchCallAt(args, w, token, RenewedVersion(w, LaunchReady, renewed), mission)])
  }

  /** Everything a run means to do up to the launch, whatever is answered. */
  function Script(args: Arguments, w: Answers): seq<Event> {
    if args.dryRun then When(w.selection.Selected? && !HasMission(w.selection.item), [Preflight(w.preview)])
    else
      HoldCalls(w)
      + if !ItemIsReady(w) || !ClaimIsReady(w) then []
        else
          var token, version := LastClaim(w).value.token.value, LinkedVersion(w);
          var updated := RenewedVersion(w, ProjectReady, RenewedVersion(w, ProjectStatus, version));
          ProjectCalls(w, FinalItem(w), token, version)
          + LaunchCalls(args, w, FinalItem(w), token, updated, LinkedMission(w).UnwrapOr(0))
  }

  // -------------------------------------------------------------------------
  // Up to the first refusal
  // -------------------------------------------------------------------------

  /** A refused or failed call: nothing but a request to block follows it. */
  predicate Stops(e: Event) {
    Ends(e) || IsFailure(e)
  }

  predicate RunsThrough(calls: seq<Event>) {
    forall i :: 0 <= i < |calls| ==> !Stops(calls[i])
  }

  function Cut(calls: seq<Event>): seq<Event> {
    if calls == [] then [] else if Stops(calls[0]) then [calls[0]] else [calls[0]] + Cut(calls[1..])
  }

  /** The log without the request to block that ends it. */
  function Unblocked(log: seq<Event>): seq<Event> {
    if log != [] && log[|log| - 1].Move? then log[..|log| - 1] else log
  }

  lemma {:induction false} CutAppend(a: seq<Event>, b: seq<Event>)
    ensures Cut(a + b) == if RunsThrough(a) then a + Cut(b) else Cut(a)
    decreases |a|
  {
    if a == [] {
      assert a + b == b;
    } else {
      assert (a + b)[1..] == a[1..] + b && (a + b)[0] == a[0];
      RunsThroughCons(a);
      CutAppend(a[1..], b);
      AppendAssoc([a[0]], a[1..], Cut(b));
    }
  }

  lemma RunsThroughCons(calls: seq<Event>)
    requires calls != []
    ensures RunsThrough(calls) <==> !Stops(calls[0]) && RunsThrough(calls[1..])
    ensures calls == [calls[0]] + calls[1..]
  {
    if !Stops(calls[0]) && RunsThrough(calls[1..]) {
      assert forall i :: 0 < i < |calls| ==> calls[i] == calls[1..][i - 1];
    }
  }

  lemma CutWhole(calls: seq<Event>)
    requires RunsThrough(calls)
    ensures Cut(calls) == calls
  {
    CutAppend(calls, []);
    assert calls + [] == calls;
  }

  /** `s` has made `calls` after `r`, up to the first refusal. */
  ghost predicate Makes(r: Run, s: Run, calls: seq<Event>) {
    if s.status.Going? then RunsThrough(calls) && s.log == r.log + calls
    else Unblocked(s.log) == r.log + Cut(calls)
  }

  lemma CutOne(e: Event)
    ensures Cut([e]) == [e] && (RunsThrough([e]) <==> !Stops(e))
  {
    assert [e][1..] == [];
  }

  lemma CutTwo(a: Event, b: Event)
    ensures Cut([a, b]) == (if Stops(a) then [a] else [a, b]) && (RunsThrough([a, b]) <==> !Stops(a) && !Stops(b))
  {
    assert [a, b] == [a] + [b];
    CutOne(a);
    CutOne(b);
    CutAppend([a], [b]);
  }

  lemma ThenMakes(r: Run, s: Run, t: Run, a: seq<Event>, b: seq<Event>)
    requires Makes(r, s, a)
    requires if s.status.Going? then Makes(s, t, b) else t == s && (RunsThrough(a) ==> b == [])
    ensures Makes(r, t, a + b)
  {
    CutAppend(a, b);
    if s.status.Going? {
      AppendAssoc(r.log, a, Cut(b));
      AppendAssoc(r.log, a, b);
      RunsThroughBoth(a, b);
    } else if RunsThrough(a) {
      CutWhole(a);
      assert a + b == a;
    }
  }

  lemma RunsThroughBoth(a: seq<Event>, b: seq<Event>)
    ensures RunsThrough(a + b) <==> RunsThrough(a) && RunsThrough(b)
  {
    forall i | 0 <= i < |a| + |b|
      ensures (a + b)[i] == if i < |a| then a[i] else b[i - |a|]
    {
    }
    assert forall i :: 0 <= i < |b| ==> (a + b)[|a| + i] == b[i];
  }

  // -------------------------------------------------------------------------
  // Stage by stage
  // -------------------------------------------------------------------------

  predicate IsQuiet(r: Run) {
    r.status.Going? && (r.log != [] ==> !r.log[|r.log| - 1].Move?)
  }

  lemma NothingMade(r: Run)
    requires r.log != [] ==> !r.log[|r.log| - 1].Move?
    ensures Makes(r, r, [])
  {
    assert r.log + [] == r.log;
  }

  /** One call: the run goes on exactly if it is not refused. */
  lemma OneMade(r: Run, s: Run, e: Event)
    requires !e.Move? && s.log == r.log + [e] && (s.status.Going? <==> !Stops(e))
    ensures Makes(r, s, [e])
  {
    CutOne(e);
  }

  lemma TwoMade(r: Run, s: Run, a: Event, b: Event)
    requires !a.Move? && !b.Move? && s.log == r.log + if Stops(a) then [a] else [a, b]
    requires s.status.Going? ==> !Stops(a) && !Stops(b)
    ensures Makes(r, s, [a, b])
  {
    CutTwo(a, b);
  }

  /** A call that blocks the item when it fails. */
  lemma BlockingMakes(w: Answers, r: Run, e: Event)
    requires !e.Move? && Stops(e)
    ensures Makes(r, Blocking(w, r.(log := r.log + [e])), [e])
  {
    CutOne(e);
    var log := r.log + [e];
    assert (log + [Move(Blocked, FenceOf(r), w.moves(Blocked))])[..|log|] == log;
  }

  lemma ReconcilingMakes(w: Answers, r: Run)
    requires IsQuiet(r) && w.refreshed == Some(r.item)
    ensures Makes(r, Reconciling(w, r), ReconcileCalls(w))
  {
    if IsCancelled(r.item) {
      var check, reconcile := Revalidate(r.item.status, w.reconcilable), Reconcile(w.reconciled);
      assert r.log + [check] + [reconcile] == r.log + [check, reconcile];
      TwoMade(r, Reconciling(w, r), check, reconcile);
    } else {
      NothingMade(r);
    }
  }

  lemma AdmittingMakes(w: Answers, r: Run)
    requires IsQuiet(r) && w.legacy.Some?
    ensures Makes(r, Admitting(w, r), When(!HasMission(r.item), [Preflight(w.preflight)]))
  {
    if HasMission(r.item) {
      NothingMade(r);
    } else {
      OneMade(r, Admitting(w, r), Preflight(w.preflight));
    }
  }

  lemma ClaimingMakes(w: Answers, r: Run)
    requires IsQuiet(r)
    ensures Makes(r, Claiming(w, r), ClaimCalls(w))
  {
    var s := Claiming(w, r);
    if w.claim.Some? && w.claim.value.token.None? {
      assert ClaimCalls(w) == [Claim(w.claim), Claim(w.reclaim)];
      assert r.log + [Claim(w.claim)] + [Claim(w.reclaim)] == r.log + [Claim(w.claim), Claim(w.reclaim)];
      TwoMade(r, s, Claim(w.claim), Claim(w.reclaim));
    } else {
      assert ClaimCalls(w) == [Claim(w.claim)];
      OneMade(r, s, Claim(w.claim));
    }
  }

  lemma UpgradingMakes(w: Answers, r: Run)
    requires IsQuiet(r)
    ensures Makes(r, Upgrading(w, r), When(w.legacy == Some(true), [UpgradeSource(FenceOf(r), w.upgrade)]))
  {
    if w.legacy == Some(true) {
      OneMade(r, Upgrading(w, r), UpgradeSource(FenceOf(r), w.upgrade));
    } else {
      NothingMade(r);
    }
  }

  lemma LinkingMakes(w: Answers, r: Run)
    requires IsQuiet(r)
    ensures Makes(r, Linking(w, r), When(r.mission.None?, [Materialize(FenceOf(r), w.creation)]))
  {
    if r.mission.None? {
      OneMade(r, Linking(w, r), Materialize(FenceOf(r), w.creation));
    } else {
      NothingMade(r);
    }
  }

  lemma RenewingMakes(w: Answers, stage: Stage, r: Run)
    requires IsQuiet(r)
    ensures Makes(r, Renewing(w, stage, r), [Renew(stage, FenceOf(r), w.renewals(stage))])
  {
    OneMade(r, Renewing(w, stage, r), Renew(stage, FenceOf(r), w.renewals(stage)));
  }

  lemma RevalidatingMakes(w: Answers, expected: string, passed: bool, r: Run)
    requires IsQuiet(r)
    ensures Makes(r, Revalidating(w, expected, passed, r), [Revalidate(expected, passed)])
  {
    if passed {
      OneMade(r, Revalidating(w, expected, passed, r), Revalidate(expected, passed));
    } else {
      BlockingMakes(w, r, Revalidate(expected, passed));
    }
  }

  lemma SynchronizingMakes(w: Answers, r: Run)
    requires IsQuiet(r)
    ensures Makes(r, Synchronizing(w, r),
                  When(r.item.status != IN_PROGRESS, [SetInProgress(w.statusSet), ReadStatus(w.statusRead)]))
  {
    if r.item.status == IN_PROGRESS {
      NothingMade(r);
    } else {
      var write, read := SetInProgress(w.statusSet), ReadStatus(w.statusRead);
      CutTwo(write, read);
      if !w.statusSet {
        BlockingMakes(w, r, write);
        CutOne(write);
      } else {
        var asked := r.(log := r.log + [write]);
        assert asked.log + [read] == r.log + [write, read];
        if w.statusRead == Some(IN_PROGRESS) {
          TwoMade(r, Synchronizing(w, r), write, read);
        } else {
          BlockingMakes(w, asked, read);
          CutOne(read);
        }
      }
    }
  }

  lemma LaunchingMakes(args: Arguments, w: Answers, r: Run)
    requires IsQuiet(r)
    ensures Makes(r, Launching(args, w, r),
                  When(args.recovery.Some? ==> r.item.persisted.Some?, [LaunchCall(args, w, r)]))
  {
    var e := LaunchCall(args, w, r);
    if !(args.recovery.Some? ==> r.item.persisted.Some?) {
      NothingMade(r);
    } else if w.report.Some? || args.recovery == Some(CheckpointVerification) {
      OneMade(r, Launching(args, w, r), e);
    } else {
      BlockingMakes(w, r, e);
    }
  }

  // -------------------------------------------------------------------------
  // The whole run
  // -------------------------------------------------------------------------

  lemma LinkedMakes(w: Answers, r: Run)
    requires IsQuiet(r) && LastClaim(w).Some? && r.version == LastClaim(w).value.version
    requires r.mission == LastClaim(w).value.mission
    ensures var s := Linking(w, Upgrading(w, r));
            && Makes(r, s, LinkCalls(w, r.token))
            && (s.status.Going? ==> s.version == LinkedVersion(w) && s.mission == LinkedMission(w) && IsQuiet(s))
  {
    var upgraded := Upgrading(w, r);
    UpgradingMakes(w, r);
    if upgraded.status.Going? {
      LinkingMakes(w, upgraded);
    }
    ThenMakes(r, upgraded, Linking(w, upgraded),
              When(w.legacy == Some(true), [UpgradeSource(FenceOf(r), w.upgrade)]),
              When(UpgradedMission(w).None?, [Materialize(Fence(r.token, UpgradedVersion(w)), w.creation)]));
  }

  lemma ClaimedMakes(w: Answers, r: Run)
    requires IsQuiet(r)
    ensures var s := Linking(w, Upgrading(w, Claiming(w, r)));
            && Makes(r, s, ClaimCalls(w) + if LastClaim(w).None? || LastClaim(w).value.token.None? then []
                                           else LinkCalls(w, LastClaim(w).value.token.value))
            && (s.status.Going? ==>
                  LastClaim(w).Some? && s.version == LinkedVersion(w) && s.mission == LinkedMission(w) && IsQuiet(s))
  {
    var claimed := Claiming(w, r);
    ClaimingMakes(w, r);
    ClaimingSucceeds(w, r);
    var rest := if LastClaim(w).None? || LastClaim(w).value.token.None? then []
                else LinkCalls(w, LastClaim(w).value.token.value);
    if claimed.status.Going? {
      LinkedMakes(w, claimed);
    } else {
      ClaimStops(w, r);
    }
    ThenMakes(r, claimed, Linking(w, Upgrading(w, claimed)), ClaimCalls(w), rest);
  }

  lemma ClaimStops(w: Answers, r: Run)
    requires IsQuiet(r) && !Claiming(w, r).status.Going?
    ensures RunsThrough(ClaimCalls(w)) ==> LastClaim(w).Some? && LastClaim(w).value.token.None?
  {
    assert ClaimCalls(w)[0] == Claim(w.claim);
    if |ClaimCalls(w)| > 1 {
      assert ClaimCalls(w)[1] == Claim(w.reclaim);
    }
  }

  lemma AdmittedMakes(w: Answers, r: Run)
    requires IsQuiet(r) && w.legacy.Some?
    ensures var s := Linking(w, Upgrading(w, Claiming(w, Admitting(w, r))));
            && Makes(r, s, AdmittedCalls(w, r.item))
            && (s.status.Going? ==>
                  LastClaim(w).Some? && s.version == LinkedVersion(w) && s.mission == LinkedMission(w) && IsQuiet(s))
  {
    var admitted := Admitting(w, r);
    AdmittingMakes(w, r);
    var first := When(!HasMission(r.item), [Preflight(w.preflight)]);
    if admitted.status.Going? {
      ClaimedMakes(w, admitted);
    } else {
      assert first == [Preflight(w.preflight)] && Stops(first[0]);
    }
    ThenMakes(r, admitted, Linking(w, Upgrading(w, Claiming(w, admitted))), first,
              ClaimCalls(w) + if LastClaim(w).None? || LastClaim(w).value.token.None? then []
                              else LinkCalls(w, LastClaim(w).value.token.value));
  }

  lemma HoldingMakes(args: Arguments, w: Answers)
    requires !args.dryRun
    ensures var s := Holding(args, w);
            && Makes(Idle(Going), s, HoldCalls(w))
            && (s.status.Going? ==>
                  LastClaim(w).Some? && s.version == LinkedVersion(w) && s.mission == LinkedMission(w) && IsQuiet(s))
  {
    var r := Selecting(args, w);
    if r.status.Going? {
      var reconciled := Reconciling(w, r);
      ReconcilingMakes(w, r);
      ReconcilingSucceeds(w, r);
      var rest := if !ItemIsReady(w) || w.legacy.None? then [] else AdmittedCalls(w, FinalItem(w));
      if reconciled.status.Going? {
        if w.legacy.Some? {
          AdmittedMakes(w, reconciled);
        } else {
          NothingMade(reconciled);
          assert Holding(args, w) == reconciled.(status := Stopped);
        }
      }
      ThenMakes(r, reconciled, Holding(args, w), ReconcileCalls(w), rest);
    } else {
      NothingMade(r);
      assert Holding(args, w) == r;
    }
  }

  /** The run goes on exactly if none of the calls is refused. */
  ghost predicate MakesOrStops(r: Run, s: Run, calls: seq<Event>) {
    Makes(r, s, calls) && (s.status.Going? <==> RunsThrough(calls))
  }

  lemma ThenMakesOrStops(r: Run, s: Run, t: Run, a: seq<Event>, b: seq<Event>)
    requires MakesOrStops(r, s, a) && if s.status.Going? then MakesOrStops(s, t, b) else t == s
    ensures MakesOrStops(r, t, a + b)
  {
    ThenMakesFirst(r, s, t, a, b);
    RunsThroughBoth(a, b);
  }

  lemma ThenMakesFirst(r: Run, s: Run, t: Run, a: seq<Event>, b: seq<Event>)
    requires Makes(r, s, a)
    requires if s.status.Going? then Makes(s, t, b) else t == s && !RunsThrough(a)
    ensures Makes(r, t, a + b)
  {
    ThenMakes(r, s, t, a, b);
  }

  function RenewCall(w: Answers, stage: Stage, token: int, version: int): Event {
    Renew(stage, Fence(token, version), w.renewals(stage))
  }

  lemma RenewingStops(w: Answers, stage: Stage, r: Run)
    requires IsQuiet(r)
    ensures var s := Renewing(w, stage, r);
            && MakesOrStops(r, s, [RenewCall(w, stage, r.token, r.version)])
            && (s.status.Going? ==>
                  && s.version == RenewedVersion(w, stage, r.version) && IsQuiet(s)
                  && s.item == r.item && s.token == r.token && s.mission == r.mission)
  {
    RenewingMakes(w, stage, r);
    CutOne(RenewCall(w, stage, r.token, r.version));
  }

  lemma RevalidatingStops(w: Answers, expected: string, passed: bool, r: Run)
    requires IsQuiet(r)
    ensures var s := Revalidating(w, expected, passed, r);
            && MakesOrStops(r, s, [Revalidate(expected, passed)])
            && (s.status.Going? ==>
                  && s.version == r.version && IsQuiet(s)
                  && s.item == r.item && s.token == r.token && s.mission == r.mission)
  {
    RevalidatingMakes(w, expected, passed, r);
    CutOne(Revalidate(expected, passed));
  }

  /** A renewal, a check and a renewal. */
  lemma CheckedMakes(w: Answers, first: Stage, expected: string, passed: bool, second: Stage, r: Run)
    requires IsQuiet(r)
    ensures var s := Renewing(w, second, Revalidating(w, expected, passed, Renewing(w, first, r)));
            var version := RenewedVersion(w, first, r.version);
            && MakesOrStops(r, s, [RenewCall(w, first, r.token, r.version), Revalidate(expected, passed),
                                   RenewCall(w, second, r.token, version)])
            && (s.status.Going? ==>
                  && s.version == RenewedVersion(w, second, version) && IsQuiet(s)
                  && s.item == r.item && s.token == r.token && s.mission == r.mission)
  {
    var renewed := Renewing(w, first, r);
    var checked := Revalidating(w, expected, passed, renewed);
    var a, b := [RenewCall(w, first, r.token, r.version)], [Revalidate(expected, passed)];
    var c := [RenewCall(w, second, r.token, RenewedVersion(w, first, r.version))];
    RenewingStops(w, first, r);
    if renewed.status.Going? {
      RevalidatingStops(w, expected, passed, renewed);
    }
    ThenMakesOrStops(r, renewed, checked, a, b);
    if checked.status.Going? {
      RenewingStops(w, second, checked);
    }
    ThenMakesOrStops(r, checked, Renewing(w, second, checked), a + b, c);
    assert a + b + c == [a[0], b[0], c[0]];
  }

  lemma SynchronizingStops(w: Answers, r: Run)
    requires IsQuiet(r)
    ensures var s := Synchronizing(w, r);
            && MakesOrStops(r, s, When(r.item.status != IN_PROGRESS,
                                       [SetInProgress(w.statusSet), ReadStatus(w.statusRead)]))
            && (s.status.Going? ==> IsQuiet(s) && s == r.(log := s.log))
  {
    SynchronizingMakes(w, r);
    CutTwo(SetInProgress(w.statusSet), ReadStatus(w.statusRead));
  }

  lemma ProjectingMakes(w: Answers, r: Run)
    requires IsQuiet(r)
    ensures var s := Projecting(w, r);
            && MakesOrStops(r, s, ProjectCalls(w, r.item, r.token, r.version))
            && (s.status.Going? ==>
                  && s.version == RenewedVersion(w, ProjectReady, RenewedVersion(w, ProjectStatus, r.version))
                  && s.item == r.item && s.token == r.token && s.mission == r.mission && IsQuiet(s))
  {
    CheckedMakes(w, ProjectStatus, r.item.status, w.sourceHolds, ProjectReady, r);
    var checked := Revalidating(w, r.item.status, w.sourceHolds, Renewing(w, ProjectStatus, r));
    var ready := Renewing(w, ProjectReady, checked);
    if ready.status.Going? {
      SynchronizingStops(w, ready);
    }
    ThenMakesOrStops(
      r, ready, Projecting(w, r),
      [RenewCall(w, ProjectStatus, r.token, r.version), Revalidate(r.item.status, w.sourceHolds),
       RenewCall(w, ProjectReady, r.token, RenewedVersion(w, ProjectStatus, r.version))],
      When(r.item.status != IN_PROGRESS, [SetInProgress(w.statusSet), ReadStatus(w.statusRead)]));
  }

  lemma StartingMakes(args: Arguments, w: Answers, r: Run)
    requires IsQuiet(r)
    ensures Makes(r, Starting(args, w, r),
                  LaunchCalls(args, w, r.item, r.token, r.version, r.mission.UnwrapOr(0)))
  {
    CheckedMakes(w, MissionLaunch, IN_PROGRESS, w.sourceStillHolds, LaunchReady, r);
    var ready := Readying(w, r);
    if ready.status.Going? {
      LaunchingMakes(args, w, ready);
    }
    var renewed := RenewedVersion(w, MissionLaunch, r.version);
    ThenMakesFirst(
      r, ready, Starting(args, w, r),
      [RenewCall(w, MissionLaunch, r.token, r.version), Revalidate(IN_PROGRESS, w.sourceStillHolds),
       RenewCall(w, LaunchReady, r.token, renewed)],
      When(args.recovery.Some? ==> r.item.persisted.Some?,
           [LaunchCallAt(args, w, r.token, RenewedVersion(w, LaunchReady, renewed), r.mission.UnwrapOr(0))]));
  }

  lemma StoppedIsCut(s: Run, calls: seq<Event>)
    requires Makes(Idle(Going), s, calls) && !s.status.Going?
    ensures Unblocked(s.log) == Cut(calls)
  {
    assert [] + Cut(calls) == Cut(calls);
  }

  lemma WholeIsCut(s: Run, calls: seq<Event>)
    requires Makes(Idle(Going), s, calls) && s.status.Going? && calls != [] && !calls[|calls| - 1].Move?
    ensures Unblocked(s.log) == Cut(calls)
  {
    assert [] + calls == calls;
    CutWhole(calls);
  }

  lemma LastOfBoth(a: seq<Event>, b: seq<Event>)
    requires b != []
    ensures a + b != [] && (a + b)[|a + b| - 1] == b[|b| - 1]
  {
  }

  /** A run that holds its claim and mission. */
  lemma HeldRunsFollow(args: Arguments, w: Answers, held: Run, calls: seq<Event>)
    requires IsQuiet(held) && Makes(Idle(Going), held, calls)
    ensures Unblocked(Starting(args, w, Projecting(w, held)).log) == Cut(calls + HeldCalls(args, w, held))
  {
    var started, more := Starting(args, w, Projecting(w, held)), HeldCalls(args, w, held);
    HeldMakes(args, w, held);
    ThenMakes(Idle(Going), held, started, calls, more);
    if started.status.Going? {
      LastOfBoth(calls, more);
      WholeIsCut(started, calls + more);
    } else {
      StoppedIsCut(started, calls + more);
    }
  }

  lemma ScriptOfHeld(args: Arguments, w: Answers)
    requires !args.dryRun
    ensures var held := Holding(args, w);
            Script(args, w) == HoldCalls(w) + if held.status.Going? then HeldCalls(args, w, held) else []
  {
    HoldingMakes(args, w);
    HoldingSucceeds(args, w);
  }

  /** Up to its launch a run makes exactly the calls of the list up to the first refused one, and after
      a refused one under its claim at most the request to block. */
  lemma RunsFollowTheScript(args: Arguments, w: Answers)
    ensures Unblocked(Starting(args, w, Projecting(w, Holding(args, w))).log) == Cut(Script(args, w))
  {
    if args.dryRun {
      DryRunsFollow(args, w);
    } else {
      var held := Holding(args, w);
      HoldingMakes(args, w);
      ScriptOfHeld(args, w);
      if held.status.Going? {
        HeldRunsFollow(args, w, held, HoldCalls(w));
      } else {
        StopsStay(args, w, held);
        StoppedIsCut(held, HoldCalls(w));
        assert HoldCalls(w) + [] == HoldCalls(w);
      }
    }
  }

  function HeldCalls(args: Arguments, w: Answers, held: Run): seq<Event> {
    ProjectCalls(w, held.item, held.token, held.version)
    + LaunchCalls(args, w, held.item, held.token,
                  RenewedVersion(w, ProjectReady, RenewedVersion(w, ProjectStatus, held.version)),
                  held.mission.UnwrapOr(0))
  }

  lemma HeldMakes(args: Arguments, w: Answers, held: Run)
    requires IsQuiet(held)
    ensures Makes(held, Starting(args, w, Projecting(w, held)), HeldCalls(args, w, held))
    ensures var calls := HeldCalls(args, w, held); calls != [] && !calls[|calls| - 1].Move?
  {
    var projected := Projecting(w, held);
    ProjectingMakes(w, held);
    if projected.status.Going? {
      StartingMakes(args, w, projected);
    } else {
      StopsStay(args, w, projected);
    }
    ThenMakesFirst(held, projected, Starting(args, w, projected),
                   ProjectCalls(w, held.item, held.token, held.version),
                   LaunchCalls(args, w, held.item, held.token,
                               RenewedVersion(w, ProjectReady, RenewedVersion(w, ProjectStatus, held.version)),
                               held.mission.UnwrapOr(0)));
  }

  lemma DryRunsFollow(args: Arguments, w: Answers)
    requires args.dryRun
    ensures Unblocked(Starting(args, w, Projecting(w, Holding(args, w))).log) == Cut(Script(args, w))
  {
    var r := Selecting(args, w);
    assert Holding(args, w) == r;
    StopsStay(args, w, r);
    if w.selection.Selected? && !HasMission(w.selection.item) {
      assert r.log == [Preflight(w.preview)];
      CutOne(Preflight(w.preview));
    } else {
      assert r.log == [] && Script(args, w) == [];
    }
  }

  // -------------------------------------------------------------------------
  // How runs end, and which items they work on
  // -------------------------------------------------------------------------

  /** A dry run previews unless it cannot read or its preflight is refused; no other run previews, and
      one without an eligible item halts without a call. */
  lemma HowRunsEnd(args: Arguments, w: Answers)
    ensures Trace(args, w).status == Previewed <==>
            && args.dryRun && !w.selection.Unreadable?
            && (w.selection.Selected? && !HasMission(w.selection.item) ==> w.preview)
    ensures !args.dryRun && !w.selection.Selected? ==> Trace(args, w).status == Stopped && Trace(args, w).log == []
  {
    var r := Selecting(args, w);
    if !r.status.Going? {
      assert Holding(args, w) == r;
      StopsStay(args, w, r);
    } else {
      NoPreviews(args, w);
    }
  }

  lemma HoldingPreviewsNothing(args: Arguments, w: Answers)
    requires Selecting(args, w).status.Going?
    ensures Holding(args, w).status != Previewed
  {
    var admitted := Admitting(w, Reconciling(w, Selecting(args, w)));
    assert admitted.status != Previewed;
    assert Claiming(w, admitted).status != Previewed;
  }

  lemma ProjectingPreviewsNothing(w: Answers, r: Run)
    requires r.status != Previewed
    ensures Projecting(w, r).status != Previewed
  {
    var checked := Revalidating(w, r.item.status, w.sourceHolds, Renewing(w, ProjectStatus, r));
    assert checked.status != Previewed;
    assert Renewing(w, ProjectReady, checked).status != Previewed;
  }

  lemma StartingPreviewsNothing(args: Arguments, w: Answers, r: Run)
    requires r.status != Previewed
    ensures Starting(args, w, r).status != Previewed
  {
    var checked := Revalidating(w, IN_PROGRESS, w.sourceStillHolds, Renewing(w, MissionLaunch, r));
    assert checked.status != Previewed;
    assert Renewing(w, LaunchReady, checked).status != Previewed;
  }

  lemma ConcludingPreviewsNothing(w: Answers, r: Run)
    requires r.status != Previewed
    ensures Concluding(w, r).status != Previewed
  {
    var ended := Ending(w, r);
    assert ended.status != Previewed;
    assert Advancing(w, ended).status != Previewed;
  }

  lemma NoPreviews(args: Arguments, w: Answers)
    requires Selecting(args, w).status.Going?
    ensures Trace(args, w).status != Previewed
  {
    var held := Holding(args, w);
    HoldingPreviewsNothing(args, w);
    ProjectingPreviewsNothing(w, held);
    StartingPreviewsNothing(args, w, Projecting(w, held));
    ConcludingPreviewsNothing(w, Starting(args, w, Projecting(w, held)));
  }

  /** A run works on the refreshed item; a cancelled one it first reconciles, and then it must find the
      same source and mission again. */
  lemma WhenItemsAreReady(w: Answers)
    ensures ItemIsReady(w) <==>
            && w.selection.Selected? && w.refreshed.Some?
            && var before := w.refreshed.value;
               (before.persisted.Some? && before.persisted.value.state == Cancelled ==>
                  && w.reconcilable && w.reconciled
                  && w.reread.Some? && w.reread.value.source == before.source
                  && w.reread.value.persisted.Some?
                  && w.reread.value.persisted.value.mission == before.persisted.value.mission)
  {
  }

  /** Only work without a mission is preflighted, and only items that are not In Progress are written. */
  lemma WhichCallsAreSpared(w: Answers, item: Item, token: int, version: int)
    ensures Preflight(w.preflight) in AdmittedCalls(w, item) <==>
            item.persisted.None? || item.persisted.value.mission.None?
    ensures SetInProgress(w.statusSet) in ProjectCalls(w, item, token, version) <==> item.status != "In Progress"
  {
    if !HasMission(item) {
      assert AdmittedCalls(w, item)[0] == Preflight(w.preflight);
    }
    var calls := ProjectCalls(w, item, token, version);
    if item.status != IN_PROGRESS {
      assert calls[3] == SetInProgress(w.statusSet);
    }
  }
}
