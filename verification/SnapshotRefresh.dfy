/** The snapshot refresher (apps/web/src/snapshotRefresh.ts): bursts of events are coalesced into
    one refresh in flight and one trailing refresh. The host delivers request, timer, settle and
    dispose steps in any order. */
module SnapshotRefresh {

  /** What the refresher was asked and what it did, oldest first. */
  datatype Event = Requested | Started | Settled | Reported | Disposed

  datatype State = State(disposed: bool, dirty: bool, inFlight: bool, timer: bool, log: seq<Event>)

  datatype Action = Request | TimerFires | Settle(failed: bool) | Dispose

  const INITIAL := State(false, false, false, false, [])

  function Arm(s: State): State {
    if s.disposed || s.inFlight || s.timer || !s.dirty then s else s.(timer := true)
  }

  /** One step of the host. A timer that is not armed cannot fire and a refresh that is not in
      flight cannot settle: those steps change nothing. */
  function Step(s: State, action: Action): State {
    match action
    case Request =>
      var asked := s.(log := s.log + [Requested]);
      if s.disposed then asked else Arm(asked.(dirty := true))
    case TimerFires =>
      if !s.timer then s
      else if s.disposed || !s.dirty then s.(timer := false)
      else s.(timer := false, dirty := false, inFlight := true, log := s.log + [Started])
    case Settle(failed) =>
      if !s.inFlight then s
      else
        var reported := if failed && !s.disposed then s.log + [Settled, Reported] else s.log + [Settled];
        Arm(s.(inFlight := false, log := reported))
    case Dispose =>
      s.(disposed := true, dirty := false, timer := false, log := s.log + [Disposed])
  }

  function Run(actions: seq<Action>): State {
    if actions == [] then INITIAL
    else Step(Run(actions[..|actions| - 1]), actions[|actions| - 1])
  }

  /** The closure variables of `createSnapshotRefresher`; `timer` is whether a handle is held. */
  class Refresher {
    var disposed: bool
    var dirty: bool
    var inFlight: bool
    var timer: bool
    ghost var log: seq<Event>

    ghost function Abs(): State
      reads this
    {
      State(disposed, dirty, inFlight, timer, log)
    }

    constructor ()
      ensures Abs() == INITIAL
    {
      disposed, dirty, inFlight, timer, log := false, false, false, false, [];
    }

    method ArmTimer()
      modifies this
      ensures Abs() == Arm(old(Abs()))
    {
      if disposed || inFlight || timer || !dirty {
        return;
      }
      timer := true;
    }

    /** The timer's callback, up to the call of `refresh`. */
    method BeginFlush()
      requires timer
      modifies this
      ensures Abs() == Step(old(Abs()), TimerFires)
    {
      timer := false;
      if disposed || !dirty {
        return;
      }
      dirty := false;
      inFlight := true;
      log := log + [Started];
    }

    /** The rest of the callback, when the refresh resolves or rejects. */
    method EndFlush(failed: bool) returns (reported: bool)
      requires inFlight
      modifies this
      ensures Abs() == Step(old(Abs()), Settle(failed))
      ensures reported <==> failed && !old(disposed)
    {
      log := log + [Settled];
      reported := failed && !disposed;
      if reported {
        log := log + [Reported];
      }
      inFlight := false;
      ArmTimer();
    }

    method RequestRefresh()
      modifies this
      ensures Abs() == Step(old(Abs()), Request)
    {
      log := log + [Requested];
      if disposed {
        return;
      }
      dirty := true;
      ArmTimer();
    }

    method Dispose()
      modifies this
      ensures Abs() == Step(old(Abs()), Action.Dispose)
    {
      disposed := true;
      dirty := false;
      timer := false;
      log := log + [Disposed];
    }
  }

  // -------------------------------------------------------------------------
  // Every run
  // -------------------------------------------------------------------------

  function Count(e: Event, log: seq<Event>): nat {
    if log == [] then 0 else Count(e, log[..|log| - 1]) + if log[|log| - 1] == e then 1 else 0
  }

  lemma CountPush(e: Event, log: seq<Event>, last: Event)
    ensures Count(e, log + [last]) == Count(e, log) + if last == e then 1 else 0
  {
    assert (log + [last])[..|log|] == log;
  }

  /** After a disposal nothing starts and nothing is reported. */
  ghost predicate QuietAfterDispose(log: seq<Event>) {
    forall i, j :: 0 <= i < j < |log| && log[i] == Disposed ==> log[j] != Started && log[j] != Reported
  }

  /** Position `i` is followed by a start. */
  ghost predicate ServedAfter(log: seq<Event>, i: nat) {
    exists j :: i < j < |log| && log[j] == Started
  }

  ghost predicate RequestBetween(log: seq<Event>, i: nat, j: nat)
    requires j <= |log|
  {
    exists k :: i < k < j && log[k] == Requested
  }

  /** Consecutive or not, two starts have a request between them. */
  ghost predicate StartsAreAskedFor(log: seq<Event>) {
    forall i, j :: 0 <= i < j < |log| && log[i] == Started && log[j] == Started ==> RequestBetween(log, i, j)
  }

  /** At most one of timer and refresh is outstanding, and a pending request has one. */
  ghost predicate FlagsAgree(s: State) {
    && (s.timer ==> s.dirty && !s.inFlight && !s.disposed)
    && (s.dirty ==> !s.disposed && (s.timer || s.inFlight))
  }

  /** One refresh in flight, never more starts than requests. */
  ghost predicate CountsAgree(s: State) {
    && Count(Started, s.log) == Count(Settled, s.log) + (if s.inFlight then 1 else 0)
    && Count(Started, s.log) + (if s.dirty then 1 else 0) <= Count(Requested, s.log)
  }

  /** Nothing after disposal, no start unasked for, no update lost. */
  ghost predicate OrderAgrees(s: State) {
    && (s.disposed <==> Disposed in s.log)
    && QuietAfterDispose(s.log)
    && StartsAreAskedFor(s.log)
    && (s.dirty ==> forall i :: 0 <= i < |s.log| && s.log[i] == Started ==> RequestBetween(s.log, i, |s.log|))
    && (!s.dirty && !s.disposed ==> forall i :: 0 <= i < |s.log| && s.log[i] == Requested ==> ServedAfter(s.log, i))
  }

  ghost predicate Inv(s: State) {
    FlagsAgree(s) && CountsAgree(s) && OrderAgrees(s)
  }

  lemma CountsAfter(log: seq<Event>, last: Event)
    ensures forall e :: Count(e, log + [last]) == Count(e, log) + if last == e then 1 else 0
  {
    forall e {
      CountPush(e, log, last);
    }
  }

  lemma RequestKeepsOrder(log: seq<Event>)
    requires StartsAreAskedFor(log)
    ensures StartsAreAskedFor(log + [Requested])
    ensures forall i :: 0 <= i < |log| && log[i] == Started ==> RequestBetween(log + [Requested], i, |log| + 1)
  {
    var more := log + [Requested];
    assert more[|log|] == Requested;
    forall i, j | 0 <= i < j < |more| && more[i] == Started && more[j] == Started
      ensures RequestBetween(more, i, j)
    {
      assert RequestBetween(log, i, j);
      var k :| i < k < j && log[k] == Requested;
      assert more[k] == Requested;
    }
  }

  lemma RequestKeepsInv(s: State)
    requires Inv(s)
    ensures Inv(Step(s, Request))
  {
    var log := s.log + [Requested];
    CountsAfter(s.log, Requested);
    RequestKeepsOrder(s.log);
    assert log[|s.log|] == Requested;
    assert Step(s, Request).log == log;
  }

  lemma TimerKeepsInv(s: State)
    requires Inv(s)
    ensures Inv(Step(s, TimerFires))
  {
    if s.timer {
      var t := Step(s, TimerFires);
      CountsAfter(s.log, Started);
      assert t.log == s.log + [Started];
      forall i, j | 0 <= i < j < |t.log| && t.log[i] == Started && t.log[j] == Started
        ensures RequestBetween(t.log, i, j)
      {
        var k :| i < k < j && s.log[k] == Requested;
        assert t.log[k] == Requested;
      }
      forall i | 0 <= i < |t.log| && t.log[i] == Requested
        ensures ServedAfter(t.log, i)
      {
        assert t.log[|s.log|] == Started;
      }
    }
  }

  /** Events other than requests and starts keep the log's promises. */
  lemma OtherEventKeepsOrder(log: seq<Event>, last: Event)
    requires last == Settled || last == Reported || last == Disposed
    ensures StartsAreAskedFor(log) ==> StartsAreAskedFor(log + [last])
    ensures forall i :: 0 <= i < |log| && RequestBetween(log, i, |log|) ==> RequestBetween(log + [last], i, |log| + 1)
    ensures forall i: nat :: ServedAfter(log, i) ==> ServedAfter(log + [last], i)
  {
    var more := log + [last];
    forall i, j, k | 0 <= i < k < j <= |log| && log[k] == Requested
      ensures RequestBetween(more, i, j)
    {
      assert more[k] == Requested;
    }
    forall i | 0 <= i < |log| && RequestBetween(log, i, |log|)
      ensures RequestBetween(more, i, |log| + 1)
    {
      var k :| i < k < |log| && log[k] == Requested;
      assert more[k] == Requested;
    }
    forall i: nat | ServedAfter(log, i)
      ensures ServedAfter(more, i)
    {
      var j :| i < j < |log| && log[j] == Started;
      assert more[j] == Started;
    }
  }

  lemma LiveEventKeepsOrder(s: State, last: Event)
    requires OrderAgrees(s) && (last == Settled || (last == Reported && !s.disposed))
    ensures OrderAgrees(s.(log := s.log + [last]))
  {
    OtherEventKeepsOrder(s.log, last);
  }

  lemma SettleKeepsInv(s: State, failed: bool)
    requires Inv(s)
    ensures Inv(Step(s, Settle(failed)))
  {
    if s.inFlight {
      var t := Step(s, Settle(failed));
      var settled := s.(log := s.log + [Settled]);
      CountsAfter(s.log, Settled);
      LiveEventKeepsOrder(s, Settled);
      if failed && !s.disposed {
        CountsAfter(settled.log, Reported);
        LiveEventKeepsOrder(settled, Reported);
        assert settled.log + [Reported] == t.log;
      }
    }
  }

  lemma DisposeKeepsInv(s: State)
    requires Inv(s)
    ensures Inv(Step(s, Action.Dispose))
  {
    CountsAfter(s.log, Disposed);
    OtherEventKeepsOrder(s.log, Disposed);
    var t := Step(s, Action.Dispose);
    assert t.log[|s.log|] == Disposed;
  }

  /** In every interleaving: one refresh at a time, never beside a timer; starts only after
      requests; nothing lost while live; nothing after disposal. */
  lemma {:induction false} EveryRunKeepsInv(actions: seq<Action>)
    ensures Inv(Run(actions))
  {
    if actions == [] {
    } else {
      var s, last := Run(actions[..|actions| - 1]), actions[|actions| - 1];
      EveryRunKeepsInv(actions[..|actions| - 1]);
      match last {
        case Request => RequestKeepsInv(s);
        case TimerFires => TimerKeepsInv(s);
        case Settle(failed) => SettleKeepsInv(s, failed);
        case Dispose => DisposeKeepsInv(s);
      }
    }
  }

  /** An idle live refresher has started a refresh after every request so far. */
  lemma IdleHasServedEverything(actions: seq<Action>)
    ensures var s := Run(actions);
            !s.disposed && !s.timer && !s.inFlight ==>
              forall i :: 0 <= i < |s.log| && s.log[i] == Requested ==> ServedAfter(s.log, i)
  {
    EveryRunKeepsInv(actions);
  }

  /** `n` requests in a row. */
  function Burst(s: State, n: nat): State {
    if n == 0 then s else Step(Burst(s, n - 1), Request)
  }

  lemma RequestMarksDirty(s: State)
    requires !s.disposed
    ensures var t := Step(s, Request); t.dirty && !t.disposed && Count(Started, t.log) == Count(Started, s.log)
  {
    CountPush(Started, s.log, Requested);
  }

  lemma {:induction false} BurstOnlyMarksDirty(s: State, n: nat)
    requires Inv(s) && !s.disposed
    ensures var t := Burst(s, n);
            Inv(t) && !t.disposed && (n > 0 ==> t.dirty) && Count(Started, t.log) == Count(Started, s.log)
  {
    if n > 0 {
      BurstOnlyMarksDirty(s, n - 1);
      RequestKeepsInv(Burst(s, n - 1));
      RequestMarksDirty(Burst(s, n - 1));
    }
  }

  /** The outstanding refresh settles, the timer fires once, and its refresh settles. */
  function Drain(s: State, failed: bool, failed': bool): State {
    Step(Step(Step(s, Settle(failed)), TimerFires), Settle(failed'))
  }

  lemma DrainCostsOneRefresh(s: State, failed: bool, failed': bool)
    requires Inv(s) && s.dirty
    ensures var t := Drain(s, failed, failed');
            && Count(Started, t.log) == Count(Started, s.log) + 1
            && !t.dirty && !t.timer && !t.inFlight && !t.disposed
  {
    var settled := Step(s, Settle(failed));
    SettleStartsNothing(s, failed);
    CountPush(Started, settled.log, Started);
    SettleStartsNothing(Step(settled, TimerFires), failed');
  }

  /** A burst of any size, at any moment of any run, costs exactly one more refresh: after it the
      refresher is idle and everything is served. */
  lemma BurstCostsOneRefresh(actions: seq<Action>, n: nat, failed: bool, failed': bool)
    requires n > 0 && !Run(actions).disposed
    ensures var s := Run(actions);
            var t := Drain(Burst(s, n), failed, failed');
            && Count(Started, t.log) == Count(Started, s.log) + 1
            && !t.dirty && !t.timer && !t.inFlight && !t.disposed
  {
    EveryRunKeepsInv(actions);
    BurstOnlyMarksDirty(Run(actions), n);
    DrainCostsOneRefresh(Burst(Run(actions), n), failed, failed');
  }

  lemma SettleStartsNothing(s: State, failed: bool)
    ensures Count(Started, Step(s, Settle(failed)).log) == Count(Started, s.log)
  {
    CountPush(Started, s.log, Settled);
    CountPush(Started, s.log + [Settled], Reported);
    assert s.log + [Settled] + [Reported] == s.log + [Settled, Reported];
  }

  /** Runs take every step in order, from the initial state. */
  lemma RunsTakeEveryStep(actions: seq<Action>, action: Action)
    ensures Run([]) == State(false, false, false, false, [])
    ensures Run(actions + [action]) == Step(Run(actions), action)
  {
    assert (actions + [action])[..|actions|] == actions;
  }
}
