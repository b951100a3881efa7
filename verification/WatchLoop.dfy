/** The factory watch loop (`watch` in crates/crony-cli/src/factory.rs) and the store's heartbeat
    (crates/crony-store/src/factory_controller.rs). Each tick collects a finished cycle, reads a
    snapshot, heartbeats, and may spawn the next cycle; any read or heartbeat may fail. */
module WatchLoop {
  import opened Prelude

  datatype Outcome = Succeeded | Failed

  /** A controller record: the requested and the completed reconcile generation. */
  datatype View = View(pending: int, completed: int, paused: bool)

  /** What the loop saw and did, oldest first. */
  datatype Event =
    | Finished(outcome: Outcome)
    | Observed(view: View)
    | Sent(generation: int, outcome: Outcome)          // reported in a heartbeat, answered or not
    | Acknowledged(generation: int, outcome: Outcome)  // the heartbeat's answer arrived
    | Spawned(forced: Option<int>)

  /** The loop's variables. */
  datatype State = State(
    cycle: bool, cycleGeneration: Option<int>, lastResult: Option<Outcome>, controller: View, log: seq<Event>)

  datatype Snapshot = Unavailable | Read(controller: Option<View>)

  /** The answers one tick meets: whether the cycle has finished, the snapshot, the heartbeat's
      answer, whether the GitHub budget admits a cycle, and whether the periodic one is due. */
  datatype Tick = Tick(
    done: Option<Outcome>, snapshot: Snapshot, heartbeat: Option<View>, budget: bool, due: bool)

  function Start(controller: View): State {
    State(false, None, None, controller, [])
  }

  function Collect(s: State, done: Option<Outcome>): State {
    if s.cycle && done.Some? then s.(cycle := false, lastResult := done, log := s.log + [Finished(done.value)])
    else s
  }

  function Observe(s: State, controller: Option<View>): State {
    var view := controller.UnwrapOr(s.controller);
    s.(controller := view, log := s.log + [Observed(view)])
  }

  /** The generation reported with a result, if a finished cycle's result is still unreported. */
  function FinishedGeneration(s: State): Option<int> {
    if !s.cycle && s.lastResult.Some? then Some(s.cycleGeneration.UnwrapOr(s.controller.completed)) else None
  }

  /** The report leaves the loop before its answer is known. */
  function Send(s: State): State {
    match FinishedGeneration(s)
    case Some(g) => s.(log := s.log + [Sent(g, s.lastResult.value)])
    case None => s
  }

  function Answered(s: State, response: View): State {
    match FinishedGeneration(s)
    case Some(g) => s.(controller := response, cycleGeneration := None, lastResult := None,
                       log := s.log + [Acknowledged(g, s.lastResult.value)])
    case None => s.(controller := response)
  }

  /** `view` is what the tick read before its heartbeat was answered. */
  function MaybeSpawn(s: State, view: View, budget: bool, due: bool): State {
    var forced := view.pending > view.completed;
    if !s.cycle && !s.controller.paused && budget && (forced || due) then
      var generation := if forced then Some(view.pending) else None;
      s.(cycle := true, cycleGeneration := generation, log := s.log + [Spawned(generation)])
    else s
  }

  function Step(s: State, tick: Tick): State {
    var collected := Collect(s, tick.done);
    if tick.snapshot.Unavailable? then collected
    else
      var observed := Observe(collected, tick.snapshot.controller);
      var sent := Send(observed);
      if tick.heartbeat.None? then sent
      else MaybeSpawn(Answered(sent, tick.heartbeat.value), observed.controller, tick.budget, tick.due)
  }

  function Run(start: View, ticks: seq<Tick>): State {
    if ticks == [] then Start(start) else Step(Run(start, ticks[..|ticks| - 1]), ticks[|ticks| - 1])
  }

  /** The loop itself, over the answers it meets. */
  method Watch(configured: View, ticks: seq<Tick>) returns (ghost log: seq<Event>, working: bool)
    ensures log == Run(configured, ticks).log && working == Run(configured, ticks).cycle
  {
    var controller := configured;
    var cycle := false;
    var cycleGeneration: Option<int> := None;
    var lastResult: Option<Outcome> := None;
    log := [];
    for i := 0 to |ticks|
      invariant State(cycle, cycleGeneration, lastResult, controller, log) == Run(configured, ticks[..i])
    {
      var tick := ticks[i];
      ghost var before := Run(configured, ticks[..i]);
      assert ticks[..i + 1][..i] == ticks[..i];
      assert Run(configured, ticks[..i + 1]) == Step(before, tick);
      if cycle && tick.done.Some? {
        cycle := false;
        lastResult := tick.done;
        log := log + [Finished(tick.done.value)];
      }
      if tick.snapshot.Unavailable? {
        continue;
      }
      if tick.snapshot.controller.Some? {
        controller := tick.snapshot.controller.value;
      }
      log := log + [Observed(controller)];
      var pendingGeneration, completedGeneration := controller.pending, controller.completed;
      var finishedGeneration: Option<int> := None;
      if !cycle && lastResult.Some? {
        finishedGeneration := Some(cycleGeneration.UnwrapOr(completedGeneration));
        log := log + [Sent(finishedGeneration.value, lastResult.value)];
      }
      if tick.heartbeat.None? {
        continue;
      }
      controller := tick.heartbeat.value;
      if finishedGeneration.Some? {
        log := log + [Acknowledged(finishedGeneration.value, lastResult.value)];
        cycleGeneration := None;
        lastResult := None;
      }
      var forced := pendingGeneration > completedGeneration;
      if !cycle && !controller.paused && tick.budget && (forced || tick.due) {
        cycleGeneration := if forced then Some(pendingGeneration) else None;
        cycle := true;
        log := log + [Spawned(cycleGeneration)];
      }
    }
    assert ticks[..|ticks|] == ticks;
    working := cycle;
  }

  // -------------------------------------------------------------------------
  // Whatever the server answers
  // -------------------------------------------------------------------------

  function Count(p: Event -> bool, log: seq<Event>): nat {
    |Filter(p, log)|
  }

  predicate IsSpawn(e: Event) { e.Spawned? }

  predicate IsFinish(e: Event) { e.Finished? }

  /** The results of the finished cycles, in order. */
  function FinishedOutcomes(log: seq<Event>): seq<Outcome> {
    if log == [] then []
    else FinishedOutcomes(log[..|log| - 1]) + if log[|log| - 1].Finished? then [log[|log| - 1].outcome] else []
  }

  /** The results whose report was answered, in order. */
  function AcknowledgedOutcomes(log: seq<Event>): seq<Outcome> {
    if log == [] then []
    else AcknowledgedOutcomes(log[..|log| - 1]) + if log[|log| - 1].Acknowledged? then [log[|log| - 1].outcome] else []
  }

  function OptionSeq<T>(o: Option<T>): seq<T> {
    match o case Some(x) => [x] case None => []
  }

  /** Before position `k`, `g` was observed as requested. */
  ghost predicate ObservedBefore(log: seq<Event>, k: nat, g: int) {
    exists o :: 0 <= o < k && o < |log| && log[o].Observed? && log[o].view.pending == g
  }

  /** Before position `k`, a forced cycle for `g` was spawned after `g` was observed. */
  ghost predicate SpawnedBefore(log: seq<Event>, k: nat, g: int) {
    exists s :: 0 <= s < k && s < |log| && log[s] == Spawned(Some(g)) && ObservedBefore(log, s, g)
  }

  /** Before position `k`, such a cycle has finished with the outcome. */
  ghost predicate FinishedFor(log: seq<Event>, k: nat, g: int, outcome: Outcome) {
    exists f :: 0 <= f < k && f < |log| && log[f] == Finished(outcome) && SpawnedBefore(log, f, g)
  }

  /** The tick at position `k` read `g` as already completed. */
  ghost predicate ReadAsCompleted(log: seq<Event>, k: nat, g: int)
    requires k <= |log|
  {
    0 < k && log[k - 1].Observed? && log[k - 1].view.completed == g
  }

  ghost predicate ReportsAreEarned(log: seq<Event>) {
    forall k :: 0 <= k < |log| && log[k].Sent? ==>
      FinishedFor(log, k, log[k].generation, log[k].outcome) || ReadAsCompleted(log, k, log[k].generation)
  }

  /** At most one live cycle, none over an unreported result, no result lost or repeated. */
  ghost predicate CyclesAgree(s: State) {
    && (s.cycle ==> s.lastResult.None?)
    && Count(IsSpawn, s.log) == Count(IsFinish, s.log) + (if s.cycle then 1 else 0)
    && FinishedOutcomes(s.log) == AcknowledgedOutcomes(s.log) + OptionSeq(s.lastResult)
  }

  /** The outstanding forced generation belongs to the live cycle or to the unreported result. */
  ghost predicate GenerationIsEarned(s: State) {
    s.cycleGeneration.Some? ==>
      var g := s.cycleGeneration.value;
      if s.cycle then SpawnedBefore(s.log, |s.log|, g)
      else s.lastResult.Some? && FinishedFor(s.log, |s.log|, g, s.lastResult.value)
  }

  ghost predicate Inv(s: State) {
    CyclesAgree(s) && GenerationIsEarned(s) && ReportsAreEarned(s.log)
  }

  lemma Push(log: seq<Event>, e: Event)
    ensures Count(IsSpawn, log + [e]) == Count(IsSpawn, log) + if e.Spawned? then 1 else 0
    ensures Count(IsFinish, log + [e]) == Count(IsFinish, log) + if e.Finished? then 1 else 0
    ensures FinishedOutcomes(log + [e]) == FinishedOutcomes(log) + if e.Finished? then [e.outcome] else []
    ensures AcknowledgedOutcomes(log + [e]) == AcknowledgedOutcomes(log) + if e.Acknowledged? then [e.outcome] else []
  {
    FilterAppend(IsSpawn, log, [e]);
    FilterAppend(IsFinish, log, [e]);
    assert [e][1..] == [];
    assert (log + [e])[..|log|] == log;
  }

  lemma ObservedGrows(log: seq<Event>, k: nat, more: seq<Event>, k': nat, g: int)
    requires log <= more && k <= k' && ObservedBefore(log, k, g)
    ensures ObservedBefore(more, k', g)
  {
    var o :| 0 <= o < k && o < |log| && log[o].Observed? && log[o].view.pending == g;
    assert more[o] == log[o];
  }

  lemma SpawnedGrows(log: seq<Event>, k: nat, more: seq<Event>, k': nat, g: int)
    requires log <= more && k <= k' && SpawnedBefore(log, k, g)
    ensures SpawnedBefore(more, k', g)
  {
    var s :| 0 <= s < k && s < |log| && log[s] == Spawned(Some(g)) && ObservedBefore(log, s, g);
    ObservedGrows(log, s, more, s, g);
    assert more[s] == log[s];
  }

  lemma FinishedForGrows(log: seq<Event>, k: nat, more: seq<Event>, k': nat, g: int, outcome: Outcome)
    requires log <= more && k <= k' && FinishedFor(log, k, g, outcome)
    ensures FinishedFor(more, k', g, outcome)
  {
    var f :| 0 <= f < k && f < |log| && log[f] == Finished(outcome) && SpawnedBefore(log, f, g);
    SpawnedGrows(log, f, more, f, g);
    assert more[f] == log[f];
  }

  lemma EarnedReportsGrow(log: seq<Event>, e: Event)
    requires ReportsAreEarned(log)
    requires e.Sent? ==> FinishedFor(log, |log|, e.generation, e.outcome) || ReadAsCompleted(log, |log|, e.generation)
    ensures ReportsAreEarned(log + [e])
  {
    var more := log + [e];
    forall k | 0 <= k < |more| && more[k].Sent?
      ensures FinishedFor(more, k, more[k].generation, more[k].outcome) || ReadAsCompleted(more, k, more[k].generation)
    {
      var g, outcome := more[k].generation, more[k].outcome;
      if FinishedFor(log, k, g, outcome) {
        FinishedForGrows(log, k, more, k, g, outcome);
      } else {
        assert ReadAsCompleted(log, k, g);
        assert more[k - 1] == log[k - 1];
      }
    }
  }

  /** Logging what neither starts, finishes nor acknowledges anything. */
  lemma LoggingKeepsInv(s: State, e: Event)
    requires Inv(s) && (e.Observed? || e.Sent?)
    requires e.Sent? ==>
      FinishedFor(s.log, |s.log|, e.generation, e.outcome) || ReadAsCompleted(s.log, |s.log|, e.generation)
    ensures Inv(s.(log := s.log + [e]))
  {
    var more := s.log + [e];
    Push(s.log, e);
    EarnedReportsGrow(s.log, e);
    if s.cycleGeneration.Some? {
      if s.cycle {
        SpawnedGrows(s.log, |s.log|, more, |more|, s.cycleGeneration.value);
      } else {
        FinishedForGrows(s.log, |s.log|, more, |more|, s.cycleGeneration.value, s.lastResult.value);
      }
    }
  }

  lemma CollectKeepsInv(s: State, done: Option<Outcome>)
    requires Inv(s)
    ensures Inv(Collect(s, done))
  {
    if s.cycle && done.Some? {
      var t := Collect(s, done);
      Push(s.log, Finished(done.value));
      EarnedReportsGrow(s.log, Finished(done.value));
      if s.cycleGeneration.Some? {
        SpawnedGrows(s.log, |s.log|, t.log, |s.log|, s.cycleGeneration.value);
        assert t.log[|s.log|] == Finished(done.value);
      }
    }
  }

  lemma ObserveKeepsInv(s: State, controller: Option<View>)
    requires Inv(s)
    ensures Inv(Observe(s, controller))
  {
    var view := Observe(s, controller).controller;
    LoggingKeepsInv(s.(controller := view), Observed(view));
    assert Observe(s, controller) == s.(controller := view, log := s.log + [Observed(view)]);
  }

  lemma SendKeepsInv(s: State)
    requires Inv(s) && s.log != [] && s.log[|s.log| - 1] == Observed(s.controller)
    ensures Inv(Send(s))
  {
    var generation := FinishedGeneration(s);
    if generation.Some? {
      var report := Sent(generation.value, s.lastResult.value);
      LoggingKeepsInv(s, report);
      assert Send(s) == s.(log := s.log + [report]);
    } else {
      assert Send(s) == s;
    }
  }

  lemma AnsweredKeepsInv(s: State, response: View)
    requires Inv(s)
    ensures Inv(Answered(s, response))
    ensures !s.cycle ==> Answered(s, response).lastResult.None? && Answered(s, response).cycleGeneration.None?
  {
    if FinishedGeneration(s).Some? {
      var answer := Acknowledged(FinishedGeneration(s).value, s.lastResult.value);
      Push(s.log, answer);
      EarnedReportsGrow(s.log, answer);
    }
  }

  lemma SpawnKeepsInv(s: State, view: View, budget: bool, due: bool)
    requires Inv(s) && (!s.cycle ==> s.lastResult.None?) && Observed(view) in s.log
    ensures Inv(MaybeSpawn(s, view, budget, due))
  {
    var t := MaybeSpawn(s, view, budget, due);
    if t != s {
      Push(s.log, Spawned(t.cycleGeneration));
      EarnedReportsGrow(s.log, Spawned(t.cycleGeneration));
      if t.cycleGeneration.Some? {
        var o :| 0 <= o < |s.log| && s.log[o] == Observed(view);
        assert t.log[o] == Observed(view) && t.log[|s.log|] == Spawned(t.cycleGeneration);
        assert ObservedBefore(t.log, |s.log|, view.pending);
      }
    }
  }

  lemma StepKeepsInv(s: State, tick: Tick)
    requires Inv(s)
    ensures Inv(Step(s, tick))
  {
    var collected := Collect(s, tick.done);
    CollectKeepsInv(s, tick.done);
    if tick.snapshot.Unavailable? {
      assert Step(s, tick) == collected;
    } else {
      var observed := Observe(collected, tick.snapshot.controller);
      ObserveKeepsInv(collected, tick.snapshot.controller);
      var sent := Send(observed);
      SendKeepsInv(observed);
      if tick.heartbeat.None? {
        assert Step(s, tick) == sent;
      } else {
        var answered := Answered(sent, tick.heartbeat.value);
        AnsweredKeepsInv(sent, tick.heartbeat.value);
        ObservationIsKept(observed, tick.heartbeat.value);
        SpawnKeepsInv(answered, observed.controller, tick.budget, tick.due);
        assert Step(s, tick) == MaybeSpawn(answered, observed.controller, tick.budget, tick.due);
      }
    }
  }

  lemma ObservationIsKept(s: State, response: View)
    requires s.log != [] && s.log[|s.log| - 1] == Observed(s.controller)
    ensures Observed(s.controller) in Answered(Send(s), response).log
  {
    var t := Answered(Send(s), response);
    assert t.log[|s.log| - 1] == Observed(s.controller);
  }

  /** In every run, under any answers: at most one cycle is live and none starts over an unreported
      result; the answered reports are the finished results in order, without loss or repetition,
      but for one still unreported; and a reported generation was read as completed in that very
      tick or has a finished cycle that started after the generation was observed. */
  lemma {:induction false} EveryRunKeepsInv(start: View, ticks: seq<Tick>)
    ensures Inv(Run(start, ticks))
  {
    if ticks != [] {
      EveryRunKeepsInv(start, ticks[..|ticks| - 1]);
      StepKeepsInv(Run(start, ticks[..|ticks| - 1]), ticks[|ticks| - 1]);
    }
  }

  predicate IsLost(tick: Tick) {
    tick.snapshot.Unavailable? || tick.heartbeat.None?
  }

  function RunFrom(s: State, ticks: seq<Tick>): State
    decreases |ticks|
  {
    if ticks == [] then s else RunFrom(Step(s, ticks[0]), ticks[1..])
  }

  /** Runs take every tick, in order. */
  lemma {:induction false} RunsTakeEveryTick(start: View, ticks: seq<Tick>, more: seq<Tick>)
    ensures Run(start, []) == Start(start) && forall tick :: Run(start, ticks + [tick]) == Step(Run(start, ticks), tick)
    ensures RunFrom(Run(start, ticks), more) == Run(start, ticks + more)
    decreases |more|
  {
    forall tick
      ensures Run(start, ticks + [tick]) == Step(Run(start, ticks), tick)
    {
      assert (ticks + [tick])[..|ticks|] == ticks;
    }
    if more == [] {
      assert ticks + more == ticks;
    } else {
      RunsTakeEveryTick(start, ticks + [more[0]], more[1..]);
      assert ticks + [more[0]] + more[1..] == ticks + more;
    }
  }

  /** An unreported result survives any number of failed snapshots and heartbeats. */
  lemma {:induction false} ResultSurvivesLostTicks(s: State, ticks: seq<Tick>)
    requires !s.cycle && s.lastResult.Some? && forall i :: 0 <= i < |ticks| ==> IsLost(ticks[i])
    ensures var t := RunFrom(s, ticks);
            !t.cycle && t.lastResult == s.lastResult && t.cycleGeneration == s.cycleGeneration
    decreases |ticks|
  {
    if ticks != [] {
      ResultSurvivesLostTicks(Step(s, ticks[0]), ticks[1..]);
    }
  }

  // -------------------------------------------------------------------------
  // What one tick must do
  // -------------------------------------------------------------------------

  /** The controller record that a tick decides on: the snapshot's, or else the one held before. */
  function ReadView(s: State, tick: Tick): View
    requires tick.snapshot.Read?
  {
    tick.snapshot.controller.UnwrapOr(s.controller)
  }

  /** No cycle is live when the tick has collected what finished. */
  predicate IsIdle(s: State, tick: Tick) {
    !s.cycle || tick.done.Some?
  }

  /** The tick starts a cycle. */
  predicate Starts(s: State, tick: Tick) {
    && IsIdle(s, tick) && !IsLost(tick)
    && !tick.heartbeat.value.paused && tick.budget
    && (ReadView(s, tick).pending > ReadView(s, tick).completed || tick.due)
  }

  /** The generation of a cycle that starts: the pending one if it forces the cycle, none if it is
      only due. */
  function StartedGeneration(view: View): Option<int> {
    if view.pending > view.completed then Some(view.pending) else None
  }

  /** After a tick a cycle is live exactly if one still runs or the tick starts one; a started cycle
      is logged last, and an unread or unanswered tick starts none. */
  lemma WhenCyclesStart(s: State, tick: Tick)
    ensures var t := Step(s, tick);
            && (t.cycle <==> !IsIdle(s, tick) || Starts(s, tick))
            && (Starts(s, tick) ==>
                  var generation := StartedGeneration(ReadView(s, tick));
                  t.cycleGeneration == generation && t.log != [] && t.log[|t.log| - 1] == Spawned(generation))
            && Count(IsSpawn, t.log) == Count(IsSpawn, s.log) + if Starts(s, tick) then 1 else 0
  {
    TickLogs(s, tick);
    StartsAreLogged(s, tick);
  }

  /** What is collected, and with what generation it is reported. */
  function Unreported(s: State, tick: Tick): Option<Outcome> {
    if !IsIdle(s, tick) then None else if s.cycle then tick.done else s.lastResult
  }

  /** The tick's log: a finish, what was read, the report and its answer, and a start. */
  function TickEvents(s: State, tick: Tick): seq<Event> {
    if tick.snapshot.Unavailable? then if s.cycle && tick.done.Some? then [Finished(tick.done.value)] else []
    else
      EventsBeforeAnswer(s, tick)
      + (match Unreported(s, tick)
         case None => []
         case Some(outcome) =>
           if IsLost(tick) then []
           else [Acknowledged(s.cycleGeneration.UnwrapOr(ReadView(s, tick).completed), outcome)])
      + if Starts(s, tick) then [Spawned(StartedGeneration(ReadView(s, tick)))] else []
  }

  lemma TickLogs(s: State, tick: Tick)
    ensures Step(s, tick).log == s.log + TickEvents(s, tick)
  {
    if tick.snapshot.Read? {
      var observed := Observe(Collect(s, tick.done), tick.snapshot.controller);
      var sent := Send(observed);
      SentLogs(s, tick);
      if tick.heartbeat.None? {
        assert Step(s, tick) == sent;
      } else {
        var answered := Answered(sent, tick.heartbeat.value);
        AnsweredLogs(s, tick);
        assert Step(s, tick) == MaybeSpawn(answered, observed.controller, tick.budget, tick.due);
      }
    }
  }

  /** The first two and the third part of a tick's log. */
  function EventsBeforeAnswer(s: State, tick: Tick): seq<Event>
    requires tick.snapshot.Read?
  {
    (if s.cycle && tick.done.Some? then [Finished(tick.done.value)] else [])
    + [Observed(ReadView(s, tick))]
    + match Unreported(s, tick)
      case None => []
      case Some(outcome) => [Sent(s.cycleGeneration.UnwrapOr(ReadView(s, tick).completed), outcome)]
  }

  lemma SentLogs(s: State, tick: Tick)
    requires tick.snapshot.Read?
    ensures var sent := Send(Observe(Collect(s, tick.done), tick.snapshot.controller));
            && sent.log == s.log + EventsBeforeAnswer(s, tick)
            && sent.cycle == !IsIdle(s, tick)
            && (IsIdle(s, tick) ==> sent.lastResult == Unreported(s, tick))
  {
  }

  lemma AnsweredLogs(s: State, tick: Tick)
    requires !IsLost(tick)
    ensures var sent := Send(Observe(Collect(s, tick.done), tick.snapshot.controller));
            var answered := Answered(sent, tick.heartbeat.value);
            && answered.log == s.log + EventsBeforeAnswer(s, tick)
                 + (match Unreported(s, tick)
                    case None => []
                    case Some(outcome) =>
                      [Acknowledged(s.cycleGeneration.UnwrapOr(ReadView(s, tick).completed), outcome)])
            && answered.cycle == !IsIdle(s, tick) && answered.controller == tick.heartbeat.value
  {
    SentLogs(s, tick);
  }

  /** An answered heartbeat clears a reported result and replaces the controller record; without an
      answer the result stays, and the record is the last one read. */
  lemma WhatATickKeeps(s: State, tick: Tick)
    ensures var t := Step(s, tick);
            && t.controller == (if IsLost(tick) then if tick.snapshot.Read? then ReadView(s, tick) else s.controller
                                else tick.heartbeat.value)
            && (IsLost(tick) && IsIdle(s, tick) ==>
                  t.lastResult == Unreported(s, tick) && t.cycleGeneration == s.cycleGeneration)
            && (!IsLost(tick) && IsIdle(s, tick) ==> t.lastResult.None?)
            && (!IsIdle(s, tick) ==> t.lastResult == s.lastResult && t.cycleGeneration == s.cycleGeneration)
  {
  }

  lemma StartsAreLogged(s: State, tick: Tick)
    ensures Count(IsSpawn, s.log + TickEvents(s, tick)) == Count(IsSpawn, s.log) + if Starts(s, tick) then 1 else 0
  {
    FilterAppend(IsSpawn, s.log, TickEvents(s, tick));
    var events := TickEvents(s, tick);
    var quiet := if Starts(s, tick) then events[..|events| - 1] else events;
    FilterNone(IsSpawn, quiet);
    if Starts(s, tick) {
      assert events == quiet + [events[|events| - 1]];
      FilterAppend(IsSpawn, quiet, [events[|events| - 1]]);
      FilterSingle(IsSpawn, [events[|events| - 1]]);
    }
  }
}
