/** The one-shot origin and result reads of a mission view and the view that shows their loads
    (apps/web/src/missionOriginContext.ts, apps/web/src/missionResultContext.ts and the hooks over
    them). A scope object's identity is a number: reopening the same mission makes a new one. */
module MissionReaders {
  import opened Prelude

  datatype Load<+C> =
    | Pending(scope: nat)
    | Unavailable(scope: nat)
    | Ready(scope: nat, context: C)

  /** Where the promise chain of a read is. */
  datatype Phase = Queued | Asked | Done

  datatype Reader<+C> = Reader(scope: nat, active: bool, timer: bool, phase: Phase, published: seq<Load<C>>)

  /** `Answer(Some(c))` is a response that `readContext` accepts; `Answer(None)` is a rejection, a
      thrown request or a malformed response. */
  datatype Action<+C> = Begin | TimeoutFires | Answer(context: Option<C>) | Cancel

  function Start<C>(scope: nat): Reader<C> {
    Reader(scope, true, true, Queued, [Pending(scope)])
  }

  function Finish<C>(r: Reader<C>, load: Load<C>): Reader<C> {
    if !r.active then r else r.(active := false, timer := false, published := r.published + [load])
  }

  function AnswerLoad<C>(scope: nat, context: Option<C>): Load<C> {
    match context case Some(c) => Ready(scope, c) case None => Unavailable(scope)
  }

  /** One callback of a read. A cleared timer does not fire; a request that was not sent is not
      answered. */
  function Step<C>(r: Reader<C>, action: Action<C>): Reader<C> {
    match action
    case Begin =>
      if r.phase != Queued then r else if r.active then r.(phase := Asked) else r.(phase := Done)
    case TimeoutFires =>
      if !r.timer then r else if !r.active then r.(timer := false) else Finish(r.(timer := false), Unavailable(r.scope))
    case Answer(context) =>
      if r.phase != Asked then r else Finish(r.(phase := Done), AnswerLoad(r.scope, context))
    case Cancel => r.(active := false, timer := false)
  }

  function Run<C>(scope: nat, actions: seq<Action<C>>): Reader<C> {
    if actions == [] then Start(scope)
    else Step(Run(scope, actions[..|actions| - 1]), actions[|actions| - 1])
  }

  /** The closure of `startMissionOriginRead` and `startMissionResultRead`. Every method returns
      the load it publishes, if any. */
  class Read<C> {
    const scope: nat
    var active: bool
    var timer: bool
    var phase: Phase
    ghost var published: seq<Load<C>>

    ghost function Abs(): Reader<C>
      reads this
    {
      Reader(scope, active, timer, phase, published)
    }

    constructor (scope: nat)
      ensures this.scope == scope && Abs() == Start(scope)
    {
      this.scope := scope;
      active, timer, phase := true, true, Queued;
      published := [Pending(scope)];
    }

    method FinishWith(load: Load<C>) returns (out: Option<Load<C>>)
      modifies this
      ensures Abs() == Finish(old(Abs()), load)
      ensures out == if old(active) then Some(load) else None
    {
      if !active {
        return None;
      }
      active := false;
      timer := false;
      published := published + [load];
      return Some(load);
    }

    method OnMicrotask() returns (sendsRequest: bool)
      requires phase == Queued
      modifies this
      ensures Abs() == Step(old(Abs()), Begin)
      ensures sendsRequest <==> old(active)
    {
      sendsRequest := active;
      phase := if active then Asked else Done;
    }

    method OnTimeout() returns (out: Option<Load<C>>)
      requires timer
      modifies this
      ensures Abs() == Step(old(Abs()), TimeoutFires)
      ensures out == if old(active) then Some(Unavailable(scope)) else None
      ensures published == old(published) + match out case Some(load) => [load] case None => []
    {
      timer := false;
      if !active {
        return None;
      }
      out := FinishWith(Unavailable(scope));
    }

    method OnAnswer(context: Option<C>) returns (out: Option<Load<C>>)
      requires phase == Asked
      modifies this
      ensures Abs() == Step(old(Abs()), Answer(context))
      ensures !old(active) ==> out == None
      ensures old(active) && context.Some? ==> out == Some(Ready(scope, context.value))
      ensures old(active) && context.None? ==> out == Some(Unavailable(scope))
      ensures published == old(published) + match out case Some(load) => [load] case None => []
    {
      phase := Done;
      out := FinishWith(AnswerLoad(scope, context));
    }

    method OnCancel()
      modifies this
      ensures Abs() == Step(old(Abs()), Cancel)
    {
      active := false;
      timer := false;
    }
  }

  // -------------------------------------------------------------------------
  // One read
  // -------------------------------------------------------------------------

  /** What a sequence of callbacks amounts to, read front to back: the first cancellation, timeout
      or answered request decides, and nothing after it matters. */
  function Verdict<C>(scope: nat, actions: seq<Action<C>>, asked: bool): Option<Load<C>> {
    if actions == [] then None
    else match actions[0]
      case Begin => Verdict(scope, actions[1..], true)
      case TimeoutFires => Some(Unavailable(scope))
      case Cancel => None
      case Answer(context) =>
        if asked then Some(AnswerLoad(scope, context)) else Verdict(scope, actions[1..], asked)
  }

  function RunFrom<C>(r: Reader<C>, actions: seq<Action<C>>): Reader<C>
    decreases |actions|
  {
    if actions == [] then r else RunFrom(Step(r, actions[0]), actions[1..])
  }

  lemma {:induction false} RunsAgree<C>(scope: nat, actions: seq<Action<C>>, more: seq<Action<C>>)
    ensures RunFrom(Run(scope, actions), more) == Run(scope, actions + more)
    decreases |more|
  {
    if more == [] {
      assert actions + more == actions;
    } else {
      var next := actions + [more[0]];
      assert next[..|next| - 1] == actions;
      RunsAgree(scope, next, more[1..]);
      assert next + more[1..] == actions + more;
    }
  }

  lemma {:induction false} InactiveStaysSilent<C>(r: Reader<C>, actions: seq<Action<C>>)
    requires !r.active
    ensures !RunFrom(r, actions).active && RunFrom(r, actions).published == r.published
    decreases |actions|
  {
    if actions != [] {
      InactiveStaysSilent(Step(r, actions[0]), actions[1..]);
    }
  }

  lemma {:induction false} ActiveFollowsVerdict<C>(r: Reader<C>, actions: seq<Action<C>>)
    requires r.active && r.timer && r.phase != Done
    ensures var verdict := Verdict(r.scope, actions, r.phase == Asked);
            RunFrom(r, actions).published == r.published + match verdict case Some(load) => [load] case None => []
    decreases |actions|
  {
    if actions != [] {
      var next := Step(r, actions[0]);
      if next.active {
        ActiveFollowsVerdict(next, actions[1..]);
      } else {
        InactiveStaysSilent(next, actions[1..]);
      }
    }
  }

  /** In every order of callbacks a read publishes `pending` and then at most one load, the one
      of the first decisive callback. */
  lemma ReadPublishesItsVerdict<C>(scope: nat, actions: seq<Action<C>>)
    ensures Run(scope, actions).published ==
            [Pending(scope)] + match Verdict(scope, actions, false) case Some(load) => [load] case None => []
  {
    ActiveFollowsVerdict(Start<C>(scope), actions);
    RunsAgree<C>(scope, [], actions);
    assert [] + actions == actions;
  }

  /** Exactly one load follows `pending` when the read is never cancelled and its timeout fires. */
  lemma {:induction false} TimeoutDecides<C>(scope: nat, actions: seq<Action<C>>, asked: bool)
    requires Cancel !in actions && TimeoutFires in actions
    ensures Verdict(scope, actions, asked).Some?
  {
    if actions[0] != TimeoutFires {
      assert TimeoutFires in actions[1..];
      TimeoutDecides(scope, actions[1..], true);
      TimeoutDecides(scope, actions[1..], asked);
    }
  }

  /** Or when the request is sent and then answered. */
  lemma {:induction false} AnswerDecides<C>(scope: nat, actions: seq<Action<C>>, sent: nat, answered: nat, asked: bool)
    requires Cancel !in actions && answered < |actions| && actions[answered].Answer?
    requires asked || (sent < answered && actions[sent] == Begin)
    ensures Verdict(scope, actions, asked).Some?
  {
    if answered > 0 {
      if actions[0] == Begin {
        AnswerDecides(scope, actions[1..], 0, answered - 1, true);
      } else if actions[0].Answer? && !asked {
        AnswerDecides(scope, actions[1..], sent - 1, answered - 1, asked);
      }
    }
  }

  /** And none when it is cancelled before anything decided. */
  lemma {:induction false} CancelSilences<C>(scope: nat, before: seq<Action<C>>, after: seq<Action<C>>, asked: bool)
    requires Verdict(scope, before, asked).None?
    ensures Verdict(scope, before + [Cancel] + after, asked).None?
  {
    var all := before + [Cancel] + after;
    if before == [] {
      assert all[0] == Cancel;
    } else {
      assert all[1..] == before[1..] + [Cancel] + after;
      match before[0] {
        case Begin => CancelSilences(scope, before[1..], after, true);
        case TimeoutFires =>
        case Cancel =>
        case Answer(_) =>
          if !asked {
            CancelSilences(scope, before[1..], after, asked);
          }
      }
    }
  }

  /** The callback at position `i` decides, if none did before: a cancellation, the timeout, or an
      answer to a request that was sent. */
  ghost predicate IsDecisive<C>(actions: seq<Action<C>>, asked: bool, i: nat)
    requires i < |actions|
  {
    || actions[i].Cancel? || actions[i].TimeoutFires?
    || (actions[i].Answer? && (asked || exists k :: 0 <= k < i && actions[k] == Begin))
  }

  /** No callback before position `i` decides. */
  ghost predicate IsUndecided<C>(actions: seq<Action<C>>, asked: bool, i: nat)
    requires i <= |actions|
  {
    forall k :: 0 <= k < i ==> !IsDecisive(actions, asked, k)
  }

  ghost predicate DecidesAt<C>(actions: seq<Action<C>>, asked: bool, i: nat) {
    i < |actions| && IsDecisive(actions, asked, i) && IsUndecided(actions, asked, i)
  }

  lemma DecisiveShifts<C>(actions: seq<Action<C>>, asked: bool, i: nat)
    requires 0 < i < |actions|
    ensures IsDecisive(actions, asked, i) <==> IsDecisive(actions[1..], asked || actions[0] == Begin, i - 1)
  {
    if k :| 0 <= k < i && actions[k] == Begin {
      assert k > 0 ==> actions[1..][k - 1] == Begin;
    }
    if k :| 0 <= k < i - 1 && actions[1..][k] == Begin {
      assert actions[k + 1] == Begin;
    }
  }

  lemma NothingShifts<C>(actions: seq<Action<C>>, asked: bool, i: nat)
    requires 0 < i <= |actions| && IsUndecided(actions, asked, i)
    ensures IsUndecided(actions[1..], asked || actions[0] == Begin, i - 1)
  {
    var rest, asked' := actions[1..], asked || actions[0] == Begin;
    forall k | 0 <= k < i - 1
      ensures !IsDecisive(rest, asked', k)
    {
      DecisiveShifts(actions, asked, k + 1);
    }
  }

  /** The load a read ends with is the first decisive callback's: the accepted context is ready; a
      rejected answer and the timeout are unavailable; a cancellation publishes nothing. */
  lemma {:induction false} FirstDecisiveDecides<C>(scope: nat, actions: seq<Action<C>>, asked: bool, i: nat)
    requires DecidesAt(actions, asked, i)
    ensures Verdict(scope, actions, asked) ==
            match actions[i]
            case Cancel => None
            case Answer(Some(context)) => Some(Ready(scope, context))
            case _ => Some(Unavailable(scope))
  {
    if i > 0 {
      assert !IsDecisive(actions, asked, 0);
      DecisiveShifts(actions, asked, i);
      NothingShifts(actions, asked, i);
      FirstDecisiveDecides(scope, actions[1..], asked || actions[0] == Begin, i - 1);
    }
  }

  /** And without a decisive callback it publishes none. */
  lemma {:induction false} NothingDecides<C>(scope: nat, actions: seq<Action<C>>, asked: bool)
    requires IsUndecided(actions, asked, |actions|)
    ensures Verdict(scope, actions, asked).None?
  {
    if actions != [] {
      assert !IsDecisive(actions, asked, 0);
      NothingShifts(actions, asked, |actions|);
      NothingDecides(scope, actions[1..], asked || actions[0] == Begin);
    }
  }

  // -------------------------------------------------------------------------
  // A view that switches scopes
  // -------------------------------------------------------------------------

  /** `current` is the scope of the last render, `live` the read that the last effect started. */
  datatype View<+C> = View(
    nextScope: nat, current: Option<nat>, live: Option<nat>, readers: seq<Reader<C>>, slot: Option<Load<C>>)

  datatype ViewAction<+C> =
    | Render(selected: bool)              // a new scope object, or no scope
    | Commit                              // effect cleanup, then the effect of the rendered scope
    | Deliver(reader: nat, action: Action<C>)  // a callback of any read, old or new

  function Closed<C>(): View<C> {
    View(0, None, None, [], None)
  }

  function CancelLive<C>(v: View<C>): View<C> {
    if v.live.Some? && v.live.value < |v.readers| then
      v.(readers := v.readers[v.live.value := Step(v.readers[v.live.value], Cancel)])
    else v
  }

  function ViewStep<C>(v: View<C>, action: ViewAction<C>): View<C> {
    match action
    case Render(selected) =>
      if selected then v.(current := Some(v.nextScope), nextScope := v.nextScope + 1) else v.(current := None)
    case Commit =>
      var cleaned := CancelLive(v);
      if v.current.None? then cleaned.(live := None)
      else cleaned.(live := Some(|v.readers|), readers := cleaned.readers + [Start(v.current.value)],
                    slot := Some(Pending(v.current.value)))
    case Deliver(i, callback) =>
      if i >= |v.readers| || callback == Cancel then v
      else
        var before, after := v.readers[i], Step(v.readers[i], callback);
        v.(readers := v.readers[i := after],
           slot := if |after.published| > |before.published| then Some(after.published[|after.published| - 1])
                   else v.slot)
  }

  function RunView<C>(actions: seq<ViewAction<C>>): View<C> {
    if actions == [] then Closed() else ViewStep(RunView(actions[..|actions| - 1]), actions[|actions| - 1])
  }

  /** `currentMissionOrigin`, `currentMissionResult`: the stored load, if its scope is the current one. */
  function Current<C>(scope: Option<nat>, load: Option<Load<C>>): Option<Load<C>> {
    if scope.Some? && load.Some? && load.value.scope == scope.value then load else None
  }

  ghost predicate ReaderInv<C>(r: Reader<C>) {
    && 0 < |r.published| <= 2
    && (r.active ==> |r.published| == 1)
    && (forall i :: 0 <= i < |r.published| ==> r.published[i].scope == r.scope)
  }

  ghost predicate ViewInv<C>(v: View<C>) {
    && (forall i :: 0 <= i < |v.readers| ==> ReaderInv(v.readers[i]) && v.readers[i].scope < v.nextScope)
    && (v.current.Some? ==> v.current.value < v.nextScope)
    && (v.live.Some? ==> v.live.value < |v.readers|)
    && (forall i :: 0 <= i < |v.readers| && v.readers[i].active ==> v.live == Some(i))
    && (v.live.Some? ==>
          var r := v.readers[v.live.value]; v.slot == Some(r.published[|r.published| - 1]))
    && (v.slot.Some? ==> exists i :: 0 <= i < |v.readers| && v.slot.value in v.readers[i].published)
  }

  lemma StepKeepsReaderInv<C>(r: Reader<C>, action: Action<C>)
    requires ReaderInv(r)
    ensures ReaderInv(Step(r, action)) && Step(r, action).scope == r.scope
    ensures r.published <= Step(r, action).published
    ensures !r.active ==> !Step(r, action).active && Step(r, action).published == r.published
  {
  }

  lemma CommitKeepsInv<C>(v: View<C>)
    requires ViewInv(v)
    ensures ViewInv(ViewStep(v, Commit))
  {
    var cleaned := CancelLive(v);
    if v.live.Some? {
      StepKeepsReaderInv(v.readers[v.live.value], Cancel);
    }
    var w := ViewStep(v, Commit);
    assert forall i :: 0 <= i < |v.readers| ==> cleaned.readers[i].published == v.readers[i].published
                                                && !cleaned.readers[i].active;
    if v.current.Some? {
      assert w.readers[|v.readers|].published[0] == Pending(v.current.value);
    } else if v.slot.Some? {
      var i :| 0 <= i < |v.readers| && v.slot.value in v.readers[i].published;
      assert w.slot.value in w.readers[i].published;
    }
  }

  lemma DeliverKeepsInv<C>(v: View<C>, i: nat, callback: Action<C>)
    requires ViewInv(v)
    ensures ViewInv(ViewStep(v, Deliver(i, callback)))
  {
    if i < |v.readers| && callback != Cancel {
      var before, after := v.readers[i], Step(v.readers[i], callback);
      StepKeepsReaderInv(before, callback);
      var w := ViewStep(v, Deliver(i, callback));
      assert w.readers[i] == after;
      if |after.published| > |before.published| {
        assert w.slot.value in w.readers[i].published;
      } else {
        assert after.published == before.published;
        if v.slot.Some? {
          var k :| 0 <= k < |v.readers| && v.slot.value in v.readers[k].published;
          assert w.slot.value in w.readers[k].published;
        }
      }
    }
  }

  lemma {:induction false} EveryViewKeepsInv<C>(actions: seq<ViewAction<C>>)
    ensures ViewInv(RunView(actions))
  {
    if actions != [] {
      EveryViewKeepsInv(actions[..|actions| - 1]);
      var v := RunView(actions[..|actions| - 1]);
      match actions[|actions| - 1] {
        case Render(selected) =>
          if v.slot.Some? {
            var w := ViewStep(v, Render(selected));
            assert w.readers == v.readers;
          }
        case Commit => CommitKeepsInv(v);
        case Deliver(i, callback) => DeliverKeepsInv(v, i, callback);
      }
    }
  }

  /** Whatever reads were started, cancelled late or answered late: a load shown as current was
      published by a read started for the scope object of the last render. */
  lemma ShownLoadIsOfThisScope<C>(actions: seq<ViewAction<C>>)
    ensures var v := RunView(actions);
            var shown := Current(v.current, v.slot);
            shown.Some? ==> exists i :: 0 <= i < |v.readers| && v.readers[i].scope == v.current.value
                                        && shown.value in v.readers[i].published
  {
    EveryViewKeepsInv(actions);
    var v := RunView(actions);
    if Current(v.current, v.slot).Some? {
      var i :| 0 <= i < |v.readers| && v.slot.value in v.readers[i].published;
      var k :| 0 <= k < |v.readers[i].published| && v.readers[i].published[k] == v.slot.value;
      assert v.readers[i].scope == v.current.value;
    }
  }

  /** Once the effect of the rendered scope has run, no late callback of an older read can hide or
      replace what its own read published last. */
  lemma CommittedViewShowsItsRead<C>(actions: seq<ViewAction<C>>)
    ensures var v := RunView(actions);
            v.live.Some? && v.live.value < |v.readers| && v.current == Some(v.readers[v.live.value].scope) ==>
              var r := v.readers[v.live.value];
              r.published != [] && Current(v.current, v.slot) == Some(r.published[|r.published| - 1])
  {
    EveryViewKeepsInv(actions);
  }

  /** A selection renders a scope object that was never rendered or read for before; no selection
      renders none. Neither touches a read or what is stored. */
  lemma RendersAreFresh<C>(actions: seq<ViewAction<C>>, selected: bool)
    ensures var v := RunView(actions);
            var next := ViewStep(v, Render(selected));
            && (selected ==> next.current == Some(v.nextScope) && next.current != v.current)
            && (!selected ==> next.current == None)
            && (forall i :: 0 <= i < |v.readers| ==> next.current != Some(v.readers[i].scope) || !selected)
            && next.readers == v.readers && next.slot == v.slot && next.live == v.live
  {
    EveryViewKeepsInv(actions);
  }

  /** Committing cancels the read before, and starts one for the rendered scope, whose `pending` is shown. */
  lemma CommitsStartTheRead<C>(v: View<C>)
    requires v.live.Some? ==> v.live.value < |v.readers|
    ensures var next := ViewStep(v, Commit);
            && (v.live.Some? ==> !next.readers[v.live.value].active && !next.readers[v.live.value].timer)
            && (v.current.None? ==> next.live.None? && next.slot == v.slot && |next.readers| == |v.readers|)
            && (v.current.Some? ==>
                  && next.live == Some(|v.readers|) && |next.readers| == |v.readers| + 1
                  && next.readers[|v.readers|] == Start(v.current.value)
                  && Current(next.current, next.slot) == Some(Pending(v.current.value)))
  {
  }

  /** Views take every action in order, from a closed one. */
  lemma ViewsTakeEveryAction<C>(actions: seq<ViewAction<C>>, action: ViewAction<C>)
    ensures RunView<C>([]) == Closed()
    ensures RunView(actions + [action]) == ViewStep(RunView(actions), action)
  {
    assert (actions + [action])[..|actions|] == actions;
  }

  /** A read holds its timer exactly while it is active. */
  lemma {:induction false} TimersAreHeldWhileActive<C>(scope: nat, actions: seq<Action<C>>)
    ensures Run(scope, actions).timer <==> Run(scope, actions).active
  {
    if actions != [] {
      TimersAreHeldWhileActive(scope, actions[..|actions| - 1]);
    }
  }
}
