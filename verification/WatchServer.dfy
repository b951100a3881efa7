/** The watch loop against the store's controller record (heartbeat and control operations in
    crates/crony-store/src/factory_controller.rs): reads are fresh, an accepted completion is
    stored, operators may act between a snapshot and its heartbeat, and answers may be lost. */
module WatchServer {
  import opened Prelude
  import opened WatchLoop

  datatype Server = Server(generation: int, completed: int, paused: bool)

  datatype Control = Pause | Resume | Reconcile

  /** `NotDelivered` loses the heartbeat, `ResponseLost` only its answer. */
  datatype Fate = NotDelivered | ResponseLost | Delivered

  datatype Round = Round(
    before: seq<Control>, done: Option<Outcome>, readable: bool, between: seq<Control>, fate: Fate,
    budget: bool, due: bool)

  datatype World = World(server: Server, watch: State)

  function Apply(server: Server, control: Control): Server {
    match control
    case Pause => server.(paused := true)
    case Resume => server.(paused := false, generation := server.generation + 1)
    case Reconcile => server.(generation := server.generation + 1)
  }

  function Controlled(server: Server, controls: seq<Control>): (r: Server)
    ensures r.completed == server.completed && r.generation >= server.generation
    decreases |controls|
  {
    if controls == [] then server else Controlled(Apply(server, controls[0]), controls[1..])
  }

  function ViewOf(server: Server): View {
    View(server.generation, server.completed, server.paused)
  }

  /** The store refuses a completion outside the authorised generations. */
  predicate Accepts(server: Server, finished: Option<int>) {
    server.completed <= finished.UnwrapOr(server.completed) <= server.generation
  }

  function Stored(server: Server, finished: Option<int>): Server {
    server.(completed := finished.UnwrapOr(server.completed))
  }

  /** The server's state at the snapshot, and at the heartbeat. */
  function AtSnapshot(w: World, round: Round): Server {
    Controlled(w.server, round.before)
  }

  function AtHeartbeat(w: World, round: Round): Server {
    Controlled(AtSnapshot(w, round), round.between)
  }

  /** The generation that the round's heartbeat reports. */
  function Reported(w: World, round: Round): Option<int> {
    FinishedGeneration(Observe(Collect(w.watch, round.done), Some(ViewOf(AtSnapshot(w, round)))))
  }

  predicate Reaches(w: World, round: Round) {
    round.readable && round.fate != NotDelivered && Accepts(AtHeartbeat(w, round), Reported(w, round))
  }

  function ServerAfter(w: World, round: Round): Server {
    if Reaches(w, round) then Stored(AtHeartbeat(w, round), Reported(w, round)) else AtHeartbeat(w, round)
  }

  function TickOf(w: World, round: Round): Tick {
    Tick(round.done,
         if round.readable then Read(Some(ViewOf(AtSnapshot(w, round)))) else Unavailable,
         if Reaches(w, round) && round.fate == Delivered then Some(ViewOf(ServerAfter(w, round))) else None,
         round.budget, round.due)
  }

  function RoundStep(w: World, round: Round): World {
    World(ServerAfter(w, round), Step(w.watch, TickOf(w, round)))
  }

  function Connect(server: Server): World {
    World(server, Start(ViewOf(server)))
  }

  function RunRounds(server: Server, rounds: seq<Round>): World {
    if rounds == [] then Connect(server)
    else RoundStep(RunRounds(server, rounds[..|rounds| - 1]), rounds[|rounds| - 1])
  }

  function ForcedSpawns(g: int, log: seq<Event>): nat {
    if log == [] then 0
    else ForcedSpawns(g, log[..|log| - 1]) + if log[|log| - 1] == Spawned(Some(g)) then 1 else 0
  }

  lemma PushSpawns(g: int, log: seq<Event>, e: Event)
    ensures ForcedSpawns(g, log + [e]) == ForcedSpawns(g, log) + if e == Spawned(Some(g)) then 1 else 0
  {
    assert (log + [e])[..|log|] == log;
  }

  /** A completion beyond the one the loop connected with has a finished cycle behind it. */
  ghost predicate CompletionIsEarned(w: World, connected: int) {
    || w.server.completed == connected
    || exists outcome :: FinishedFor(w.watch.log, |w.watch.log|, w.server.completed, outcome)
  }

  /** The outstanding forced generation lies between what is completed and what is requested. */
  ghost predicate GenerationsAgree(w: World) {
    && w.server.completed <= w.server.generation
    && (w.watch.cycleGeneration.Some? ==>
          w.server.completed <= w.watch.cycleGeneration.value <= w.server.generation)
  }

  /** How often `g` can have been spawned, given what is completed and outstanding. */
  ghost predicate SpawnsAgree(w: World, g: int) {
    var n := ForcedSpawns(g, w.watch.log);
    && n <= 2
    && (n >= 1 ==> w.server.completed >= g || w.watch.cycleGeneration == Some(g))
    && (n == 2 ==> w.server.completed >= g)
  }

  ghost predicate WorldInv(w: World, connected: int, g: int) {
    Inv(w.watch) && GenerationsAgree(w) && SpawnsAgree(w, g) && CompletionIsEarned(w, connected)
  }

  /** The reported generation is always one the store accepts. */
  lemma ReportIsAcceptable(w: World, round: Round)
    requires Inv(w.watch) && GenerationsAgree(w)
    ensures Accepts(AtHeartbeat(w, round), Reported(w, round))
  {
  }

  /** Collecting and observing spawn nothing and keep the outstanding generation. */
  lemma QuietPrefix(w: World, round: Round, g: int)
    ensures var collected := Collect(w.watch, round.done);
            var observed := Observe(collected, Some(ViewOf(AtSnapshot(w, round))));
            && ForcedSpawns(g, collected.log) == ForcedSpawns(g, w.watch.log)
            && ForcedSpawns(g, Send(observed).log) == ForcedSpawns(g, w.watch.log)
            && Send(observed).cycleGeneration == collected.cycleGeneration == w.watch.cycleGeneration
  {
    var collected := Collect(w.watch, round.done);
    var observed := Observe(collected, Some(ViewOf(AtSnapshot(w, round))));
    if w.watch.cycle && round.done.Some? {
      PushSpawns(g, w.watch.log, Finished(round.done.value));
    }
    PushSpawns(g, collected.log, Observed(observed.controller));
    if FinishedGeneration(observed).Some? {
      PushSpawns(g, observed.log, Sent(FinishedGeneration(observed).value, observed.lastResult.value));
    }
  }

  lemma AnswerSpawnsNothing(s: State, response: View, g: int)
    ensures ForcedSpawns(g, Answered(s, response).log) == ForcedSpawns(g, s.log)
  {
    if FinishedGeneration(s).Some? {
      PushSpawns(g, s.log, Acknowledged(FinishedGeneration(s).value, s.lastResult.value));
    }
  }

  /** The state the heartbeat's answer leaves, before the tick may spawn. */
  function AfterAnswer(w: World, round: Round): State {
    Answered(Send(Observe(Collect(w.watch, round.done), Some(ViewOf(AtSnapshot(w, round))))),
             ViewOf(ServerAfter(w, round)))
  }

  /** The answer acknowledges the outstanding generation, unless its cycle still runs. */
  lemma AfterAnswerAgrees(w: World, round: Round, g: int)
    requires Inv(w.watch) && GenerationsAgree(w) && SpawnsAgree(w, g) && Reaches(w, round)
    ensures var after := World(ServerAfter(w, round), AfterAnswer(w, round));
            && GenerationsAgree(after) && SpawnsAgree(after, g)
            && (!after.watch.cycle ==> after.watch.cycleGeneration.None?)
            && ForcedSpawns(g, after.watch.log) == ForcedSpawns(g, w.watch.log)
  {
    var collected := Collect(w.watch, round.done);
    var sent := Send(Observe(collected, Some(ViewOf(AtSnapshot(w, round)))));
    QuietPrefix(w, round, g);
    AnswerSpawnsNothing(sent, ViewOf(ServerAfter(w, round)), g);
    CollectKeepsInv(w.watch, round.done);
  }

  lemma SpawnAgrees(w: World, view: View, budget: bool, due: bool, g: int)
    requires GenerationsAgree(w) && SpawnsAgree(w, g) && (!w.watch.cycle ==> w.watch.cycleGeneration.None?)
    requires w.server.completed <= view.pending <= w.server.generation
    requires ForcedSpawns(g, w.watch.log) == 2 ==> view.completed >= g
    ensures var after := World(w.server, MaybeSpawn(w.watch, view, budget, due));
            GenerationsAgree(after) && SpawnsAgree(after, g)
  {
    var spawned := MaybeSpawn(w.watch, view, budget, due);
    if spawned != w.watch {
      PushSpawns(g, w.watch.log, Spawned(spawned.cycleGeneration));
    }
  }

  lemma SpawnsStep(w: World, round: Round, g: int)
    requires Inv(w.watch) && GenerationsAgree(w) && SpawnsAgree(w, g)
    ensures GenerationsAgree(RoundStep(w, round)) && SpawnsAgree(RoundStep(w, round), g)
  {
    var tick := TickOf(w, round);
    ReportIsAcceptable(w, round);
    QuietPrefix(w, round, g);
    if tick.snapshot.Unavailable? {
      assert Step(w.watch, tick) == Collect(w.watch, round.done);
    } else if tick.heartbeat.None? {
      var observed := Observe(Collect(w.watch, round.done), Some(ViewOf(AtSnapshot(w, round))));
      assert Step(w.watch, tick) == Send(observed);
      UnansweredAgrees(w, round, g);
    } else {
      var view := ViewOf(AtSnapshot(w, round));
      AfterAnswerAgrees(w, round, g);
      SpawnAgrees(World(ServerAfter(w, round), AfterAnswer(w, round)), view, round.budget, round.due, g);
      assert Step(w.watch, tick) == MaybeSpawn(AfterAnswer(w, round), view, round.budget, round.due);
    }
  }

  lemma UnansweredAgrees(w: World, round: Round, g: int)
    requires Inv(w.watch) && GenerationsAgree(w) && SpawnsAgree(w, g)
    ensures var sent := Send(Observe(Collect(w.watch, round.done), Some(ViewOf(AtSnapshot(w, round)))));
            GenerationsAgree(World(ServerAfter(w, round), sent)) && SpawnsAgree(World(ServerAfter(w, round), sent), g)
  {
    ReportIsAcceptable(w, round);
    QuietPrefix(w, round, g);
  }

  lemma StepOnlyAppends(s: State, tick: Tick)
    ensures s.log <= Step(s, tick).log
    ensures Collect(s, tick.done).log <= Step(s, tick).log
  {
  }

  lemma EarnedStep(w: World, round: Round, connected: int)
    requires Inv(w.watch) && CompletionIsEarned(w, connected)
    ensures CompletionIsEarned(RoundStep(w, round), connected)
  {
    var after := RoundStep(w, round);
    var collected := Collect(w.watch, round.done);
    CollectKeepsInv(w.watch, round.done);
    StepOnlyAppends(w.watch, TickOf(w, round));
    if after.server.completed == w.server.completed {
      if w.server.completed != connected {
        var outcome :| FinishedFor(w.watch.log, |w.watch.log|, w.server.completed, outcome);
        FinishedForGrows(w.watch.log, |w.watch.log|, after.watch.log, |after.watch.log|, w.server.completed, outcome);
      }
    } else {
      var g, outcome := collected.cycleGeneration.value, collected.lastResult.value;
      FinishedForGrows(collected.log, |collected.log|, after.watch.log, |after.watch.log|, g, outcome);
    }
  }

  lemma {:induction false} EveryRunKeepsWorldInv(server: Server, rounds: seq<Round>, g: int)
    requires server.completed <= server.generation
    ensures WorldInv(RunRounds(server, rounds), server.completed, g)
  {
    if rounds != [] {
      var w, last := RunRounds(server, rounds[..|rounds| - 1]), rounds[|rounds| - 1];
      EveryRunKeepsWorldInv(server, rounds[..|rounds| - 1], g);
      StepKeepsInv(w.watch, TickOf(w, last));
      SpawnsStep(w, last, g);
      EarnedStep(w, last, server.completed);
    }
  }

  /** With fresh reads and stored completions, whatever is lost on the way: no generation is forced
      more than twice, no heartbeat is refused, and a generation the store holds as completed was
      so at the start or has a finished cycle that began after it was requested. */
  lemma GenerationsAreForcedAtMostTwice(server: Server, rounds: seq<Round>, next: Round, g: int)
    requires server.completed <= server.generation
    ensures var w := RunRounds(server, rounds);
            && ForcedSpawns(g, w.watch.log) <= 2
            && Accepts(AtHeartbeat(w, next), Reported(w, next))
            && CompletionIsEarned(w, server.completed)
  {
    EveryRunKeepsWorldInv(server, rounds, g);
    ReportIsAcceptable(RunRounds(server, rounds), next);
  }

  /** The tick `round` spawns `g`, which it has read as requested and not completed, just after its
      heartbeat acknowledged the cycle that was spawned for `g`. */
  predicate ForcesAgain(w: World, round: Round, g: int) {
    && !Collect(w.watch, round.done).cycle && w.watch.cycleGeneration == Some(g)
    && round.readable && round.fate == Delivered
    && AtSnapshot(w, round).generation == g && AtSnapshot(w, round).completed < g
    && !AtHeartbeat(w, round).paused && round.budget
  }

  /** Exactly when a generation is forced a second time, in any run. */
  lemma WhenGenerationsAreForcedAgain(server: Server, rounds: seq<Round>, round: Round, g: int)
    requires server.completed <= server.generation && ForcedSpawns(g, RunRounds(server, rounds).watch.log) == 1
    ensures var w := RunRounds(server, rounds);
            ForcedSpawns(g, RoundStep(w, round).watch.log) == 2 <==> ForcesAgain(w, round, g)
  {
    var w := RunRounds(server, rounds);
    EveryRunKeepsWorldInv(server, rounds, g);
    StepForcesAgain(w, round, g);
  }

  lemma SpawnForces(s: State, view: View, budget: bool, due: bool, g: int)
    ensures ForcedSpawns(g, MaybeSpawn(s, view, budget, due).log) == ForcedSpawns(g, s.log)
              + if !s.cycle && !s.controller.paused && budget && view.completed < view.pending == g then 1 else 0
  {
    var spawned := MaybeSpawn(s, view, budget, due);
    if spawned != s {
      PushSpawns(g, s.log, Spawned(spawned.cycleGeneration));
    }
  }

  lemma StepForcesAgain(w: World, round: Round, g: int)
    requires Inv(w.watch) && GenerationsAgree(w) && SpawnsAgree(w, g) && ForcedSpawns(g, w.watch.log) == 1
    ensures ForcedSpawns(g, RoundStep(w, round).watch.log) == 2 <==> ForcesAgain(w, round, g)
  {
    var tick, view := TickOf(w, round), ViewOf(AtSnapshot(w, round));
    ReportIsAcceptable(w, round);
    QuietPrefix(w, round, g);
    if tick.snapshot.Unavailable? {
      assert Step(w.watch, tick) == Collect(w.watch, round.done);
    } else if tick.heartbeat.None? {
      assert Step(w.watch, tick) == Send(Observe(Collect(w.watch, round.done), Some(view)));
    } else {
      AfterAnswerAgrees(w, round, g);
      SpawnForces(AfterAnswer(w, round), view, round.budget, round.due, g);
      assert Step(w.watch, tick) == MaybeSpawn(AfterAnswer(w, round), view, round.budget, round.due);
    }
  }

  /** It does happen: the tick that acknowledges a generation still compares the values it read
      before, and spawns the generation again. */
  lemma AcknowledgingTickForcesAgain()
    ensures var first := Round([], None, true, [], Delivered, true, false);
            var second := first.(done := Some(Succeeded));
            var w := RunRounds(Server(1, 0, false), [first, second]);
            && w.server.completed == 1 && w.watch.cycle
            && w.watch.log == [Observed(View(1, 0, false)), Spawned(Some(1)), Finished(Succeeded),
                               Observed(View(1, 0, false)), Sent(1, Succeeded), Acknowledged(1, Succeeded),
                               Spawned(Some(1))]
  {
    var server := Server(1, 0, false);
    var first := Round([], None, true, [], Delivered, true, false);
    var second := first.(done := Some(Succeeded));
    assert [first, second][..1] == [first];
    assert [first][..0] == [];
    var w1 := RoundStep(Connect(server), first);
    assert RunRounds(server, [first]) == w1;
    assert w1 == World(server, State(true, Some(1), None, View(1, 0, false),
                                     [Observed(View(1, 0, false)), Spawned(Some(1))]));
    assert RunRounds(server, [first, second]) == RoundStep(w1, second);
  }

  function Requests(controls: seq<Control>): nat {
    if controls == [] then 0
    else Requests(controls[..|controls| - 1]) + if controls[|controls| - 1] == Pause then 0 else 1
  }

  /** Operators' controls in order: every resume and reconcile requests a generation, and the last
      pause or resume decides whether the controller is paused. */
  lemma {:induction false} ControlsAddUp(server: Server, controls: seq<Control>, last: Control)
    ensures Controlled(server, controls).generation == server.generation + Requests(controls)
    ensures Controlled(server, controls + [last]).paused ==
              if last == Reconcile then Controlled(server, controls).paused else last == Pause
    ensures Controlled(server, []) == server
    decreases |controls|
  {
    ControlsAppend(server, controls, [last]);
    if controls != [] {
      var front := controls[..|controls| - 1];
      ControlsAddUp(server, front, controls[|controls| - 1]);
      ControlsAppend(server, front, [controls[|controls| - 1]]);
      assert controls == front + [controls[|controls| - 1]];
    }
  }

  lemma {:induction false} ControlsAppend(server: Server, a: seq<Control>, b: seq<Control>)
    ensures Controlled(server, a + b) == Controlled(Controlled(server, a), b)
    decreases |a|
  {
    if a == [] {
      assert a + b == b;
    } else {
      assert (a + b)[0] == a[0] && (a + b)[1..] == a[1..] + b;
      ControlsAppend(Apply(server, a[0]), a[1..], b);
    }
  }

  /** Rounds follow each other from the connection on. */
  lemma RoundsFollow(server: Server, rounds: seq<Round>, round: Round)
    ensures RunRounds(server, []) == Connect(server)
    ensures RunRounds(server, rounds + [round]) == RoundStep(RunRounds(server, rounds), round)
  {
    assert (rounds + [round])[..|rounds|] == rounds;
  }

  /** What a round does to the store's record and what the loop learns of it: the controls apply, a
      reported generation is stored whenever the heartbeat arrives, and the answer comes back only if
      nothing is lost. */
  lemma WhatARoundDoes(w: World, round: Round)
    requires Inv(w.watch) && GenerationsAgree(w)
    ensures var after := RoundStep(w, round).server;
            var heard := round.readable && round.fate != NotDelivered;
            && after.generation == Controlled(Controlled(w.server, round.before), round.between).generation
            && after.paused == Controlled(Controlled(w.server, round.before), round.between).paused
            && after.completed == (if heard && Reported(w, round).Some? then Reported(w, round).value
                                   else w.server.completed)
            && (TickOf(w, round).heartbeat.Some? <==> round.readable && round.fate == Delivered)
            && (TickOf(w, round).snapshot.Read? <==> round.readable)
            && (round.readable ==>
                  TickOf(w, round).snapshot.controller == Some(ViewOf(Controlled(w.server, round.before))))
            && (round.readable && round.fate == Delivered ==> TickOf(w, round).heartbeat == Some(ViewOf(after)))
  {
    ReportIsAcceptable(w, round);
  }
}
