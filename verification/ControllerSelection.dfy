/** Which factory controller a view shows (apps/web/src/factoryControllerSelection.ts): a running
    maximum over the controllers of the same source. */
module ControllerSelection {
  import opened Prelude

  const MAX_SAFE_INTEGER := 9007199254740991

  /** A JavaScript string compares by its UTF-16 code units. */
  type Id = seq<nat>

  datatype Source = Source(corp: string, owner: string, project: int, repositoryOwner: string, repositoryName: string)

  datatype Item = Item(id: Id, source: Source)

  /** `lastHeartbeat` is the parsed timestamp, if it parses to a finite one. */
  datatype Controller = Controller(
    id: Id, source: Source, running: bool, status: string, activeItem: Option<Id>, lastHeartbeat: Option<int>)

  const LIVE_STATES := {"watching", "working", "blocked", "needs_decision", "backing_off"}

  /** `norm` stands for trimming and lower-casing a GitHub name. */
  predicate ValidSource(source: Source, norm: string -> string) {
    && 0 < source.project <= MAX_SAFE_INTEGER
    && norm(source.owner) != "" && norm(source.repositoryOwner) != "" && norm(source.repositoryName) != ""
  }

  predicate SameSource(a: Source, b: Source, norm: string -> string) {
    && a.project == b.project
    && norm(a.owner) == norm(b.owner)
    && norm(a.repositoryOwner) == norm(b.repositoryOwner)
    && norm(a.repositoryName) == norm(b.repositoryName)
  }

  predicate IsLive(c: Controller) {
    c.status in LIVE_STATES
  }

  predicate OnItem(c: Controller, item: Option<Item>) {
    item.Some? && c.activeItem == Some(item.value.id)
  }

  predicate IsWorking(c: Controller) {
    c.status == "working"
  }

  function Weight(holds: bool, weight: nat): nat {
    if holds then weight else 0
  }

  function Relevance(c: Controller, item: Option<Item>): nat {
    Weight(IsLive(c), 8) + Weight(OnItem(c, item), 4) + Weight(c.running, 2) + Weight(IsWorking(c), 1)
  }

  /** Less-than on heartbeats; an unreadable one is before all others. */
  predicate HeartbeatLess(a: Option<int>, b: Option<int>) {
    b.Some? && (a.None? || a.value < b.value)
  }

  /** JavaScript's `<` on strings. */
  predicate IdLess(a: Id, b: Id) {
    b != [] && (a == [] || a[0] < b[0] || (a[0] == b[0] && IdLess(a[1..], b[1..])))
  }

  predicate Replaces(candidate: Controller, selected: Controller, item: Option<Item>) {
    var candidateRank, selectedRank := Relevance(candidate, item), Relevance(selected, item);
    || candidateRank > selectedRank
    || (candidateRank == selectedRank
        && (|| HeartbeatLess(selected.lastHeartbeat, candidate.lastHeartbeat)
            || (candidate.lastHeartbeat == selected.lastHeartbeat && IdLess(candidate.id, selected.id))))
  }

  predicate IsCandidate(c: Controller, item: Option<Item>, corp: string, norm: string -> string) {
    && c.source.corp == corp && ValidSource(c.source, norm)
    && (item.Some? ==> SameSource(c.source, item.value.source, norm))
  }

  /** Whether the view's own arguments admit a selection. */
  predicate IsSelectable(item: Option<Item>, corp: string, itemId: Option<Id>, norm: string -> string) {
    && corp != ""
    && (itemId.Some? ==> item.Some? && item.value.id == itemId.value)
    && (item.Some? ==> item.value.source.corp == corp && ValidSource(item.value.source, norm))
  }

  // -------------------------------------------------------------------------
  // The order that the ranks and tie-breakers realise
  // -------------------------------------------------------------------------

  /** `a` comes before `b` in the reading order of the comparison: live before not live, then on
      this item, then running, then working, then the later heartbeat, then the smaller id. */
  predicate Better(a: Controller, b: Controller, item: Option<Item>) {
    if IsLive(a) != IsLive(b) then IsLive(a)
    else if OnItem(a, item) != OnItem(b, item) then OnItem(a, item)
    else if a.running != b.running then a.running
    else if IsWorking(a) != IsWorking(b) then IsWorking(a)
    else if a.lastHeartbeat != b.lastHeartbeat then HeartbeatLess(b.lastHeartbeat, a.lastHeartbeat)
    else IdLess(a.id, b.id)
  }

  /** The 8/4/2/1 weights realise the lexicographic order. */
  lemma WeightsAreLexicographic(a: Controller, b: Controller, item: Option<Item>)
    ensures Replaces(a, b, item) <==> Better(a, b, item)
  {
  }

  lemma {:induction false} IdLessIsTotal(a: Id, b: Id)
    ensures !(IdLess(a, b) && IdLess(b, a))
    ensures !IdLess(a, b) && !IdLess(b, a) <==> a == b
  {
    if a != [] && b != [] {
      IdLessIsTotal(a[1..], b[1..]);
      assert a == [a[0]] + a[1..] && b == [b[0]] + b[1..];
    }
  }

  lemma {:induction false} IdLessIsTransitive(a: Id, b: Id, c: Id)
    requires IdLess(a, b) && IdLess(b, c)
    ensures IdLess(a, c)
  {
    if a != [] && b != [] && c != [] && a[0] == b[0] && b[0] == c[0] {
      IdLessIsTransitive(a[1..], b[1..], c[1..]);
    }
  }

  lemma BetterIsStrictOrder(a: Controller, b: Controller, c: Controller, item: Option<Item>)
    ensures !(Better(a, b, item) && Better(b, a, item))
    ensures a.id != b.id ==> Better(a, b, item) || Better(b, a, item)
    ensures Better(a, b, item) && Better(b, c, item) ==> Better(a, c, item)
  {
    IdLessIsTotal(a.id, b.id);
    if IdLess(a.id, b.id) && IdLess(b.id, c.id) {
      IdLessIsTransitive(a.id, b.id, c.id);
    }
  }

  // -------------------------------------------------------------------------
  // The selection loop
  // -------------------------------------------------------------------------

  /** `best` is a candidate of the list that no candidate is better than. */
  ghost predicate IsBest(best: Controller, controllers: seq<Controller>, item: Option<Item>, corp: string,
                         norm: string -> string)
  {
    && best in controllers && IsCandidate(best, item, corp, norm)
    && forall c :: c in controllers && IsCandidate(c, item, corp, norm) ==> !Better(c, best, item)
  }

  ghost predicate HasCandidate(controllers: seq<Controller>, item: Option<Item>, corp: string, norm: string -> string) {
    exists c :: c in controllers && IsCandidate(c, item, corp, norm)
  }

  /** What the view's arguments and the list determine: nothing, or a best candidate. */
  ghost predicate IsSelection(selected: Option<Controller>, controllers: seq<Controller>, item: Option<Item>,
                              corp: string, itemId: Option<Id>, norm: string -> string)
  {
    && (selected.Some? <==> IsSelectable(item, corp, itemId, norm) && HasCandidate(controllers, item, corp, norm))
    && (selected.Some? ==> IsBest(selected.value, controllers, item, corp, norm))
  }

  method SelectFactoryController(controllers: seq<Controller>, item: Option<Item>, corp: string,
                                 itemId: Option<Id>, norm: string -> string) returns (selected: Option<Controller>)
    ensures IsSelection(selected, controllers, item, corp, itemId, norm)
  {
    if corp == "" || (itemId.Some? && !(item.Some? && item.value.id == itemId.value)) {
      return None;
    }
    if item.Some? && (item.value.source.corp != corp || !ValidSource(item.value.source, norm)) {
      return None;
    }
    selected := None;
    for i := 0 to |controllers|
      invariant selected.None? ==> !HasCandidate(controllers[..i], item, corp, norm)
      invariant selected.Some? ==> IsBest(selected.value, controllers[..i], item, corp, norm)
    {
      var candidate := controllers[i];
      assert controllers[..i + 1] == controllers[..i] + [candidate];
      if candidate.source.corp != corp || !ValidSource(candidate.source, norm) {
        continue;
      }
      if item.Some? && !SameSource(candidate.source, item.value.source, norm) {
        continue;
      }
      if selected.None? {
        selected := Some(candidate);
        BetterIsStrictOrder(candidate, candidate, candidate, item);
        continue;
      }
      WeightsAreLexicographic(candidate, selected.value, item);
      if Replaces(candidate, selected.value, item) {
        ReplacementIsBest(controllers[..i], candidate, selected.value, item, corp, norm);
        selected := Some(candidate);
      }
    }
    assert controllers[..|controllers|] == controllers;
  }

  lemma ReplacementIsBest(before: seq<Controller>, candidate: Controller, selected: Controller, item: Option<Item>,
                          corp: string, norm: string -> string)
    requires IsBest(selected, before, item, corp, norm) && IsCandidate(candidate, item, corp, norm)
    requires Better(candidate, selected, item)
    ensures IsBest(candidate, before + [candidate], item, corp, norm)
  {
    forall c | c in before + [candidate] && IsCandidate(c, item, corp, norm)
      ensures !Better(c, candidate, item)
    {
      BetterIsStrictOrder(c, candidate, selected, item);
      BetterIsStrictOrder(candidate, candidate, selected, item);
      if c in before {
        assert !Better(c, selected, item);
      }
    }
  }

  ghost predicate DistinctIds(controllers: seq<Controller>) {
    forall i, j :: 0 <= i < j < |controllers| ==> controllers[i].id != controllers[j].id
  }

  /** With distinct ids the best controller is unique, whatever the order of the list. */
  lemma BestIsIndependentOfOrder(controllers: seq<Controller>, permuted: seq<Controller>, best: Controller,
                                 best': Controller, item: Option<Item>, corp: string, norm: string -> string)
    requires DistinctIds(controllers) && multiset(controllers) == multiset(permuted)
    requires IsBest(best, controllers, item, corp, norm) && IsBest(best', permuted, item, corp, norm)
    ensures best == best'
    ensures forall c :: c in controllers && c != best && IsCandidate(c, item, corp, norm) ==> Better(best, c, item)
  {
    assert best in multiset(permuted) && best' in multiset(controllers);
    forall c | c in controllers && c != best && IsCandidate(c, item, corp, norm)
      ensures Better(best, c, item)
    {
      assert c.id != best.id;
      BetterIsStrictOrder(best, c, c, item);
    }
  }

  lemma CandidatesIgnoreOrder(controllers: seq<Controller>, permuted: seq<Controller>, item: Option<Item>,
                              corp: string, norm: string -> string)
    requires multiset(controllers) == multiset(permuted)
    ensures HasCandidate(controllers, item, corp, norm) <==> HasCandidate(permuted, item, corp, norm)
  {
    assert forall c :: c in controllers <==> c in multiset(controllers);
    assert forall c :: c in permuted <==> c in multiset(permuted);
  }

  /** With distinct ids every permutation of the list gives the same selection, and it is strictly
      better than every other candidate. */
  lemma SelectionIgnoresOrder(controllers: seq<Controller>, permuted: seq<Controller>, selected: Option<Controller>,
                              selected': Option<Controller>, item: Option<Item>, corp: string, itemId: Option<Id>,
                              norm: string -> string)
    requires DistinctIds(controllers) && multiset(controllers) == multiset(permuted)
    requires IsSelection(selected, controllers, item, corp, itemId, norm)
    requires IsSelection(selected', permuted, item, corp, itemId, norm)
    ensures selected == selected'
    ensures selected.Some? ==> forall c :: c in controllers && c != selected.value && IsCandidate(c, item, corp, norm)
                                 ==> Better(selected.value, c, item)
  {
    CandidatesIgnoreOrder(controllers, permuted, item, corp, norm);
    if selected.Some? {
      BestIsIndependentOfOrder(controllers, permuted, selected.value, selected'.value, item, corp, norm);
    }
  }

  /** Two controllers that rank alike for the item. */
  predicate RankAlike(a: Controller, b: Controller, item: Option<Item>) {
    && IsLive(a) == IsLive(b) && OnItem(a, item) == OnItem(b, item)
    && a.running == b.running && IsWorking(a) == IsWorking(b)
  }

  /** A controller is on the item exactly if it names it as its active one. */
  lemma WhoIsOnTheItem(c: Controller, id: Id, item: Item)
    ensures OnItem(c.(activeItem := Some(id)), Some(item)) <==> id == item.id
    ensures !OnItem(c.(activeItem := None), Some(item)) && !OnItem(c, None)
  {
  }

  /** The best controller is live if any candidate is; among those that rank like it none has a later
      heartbeat, none but unreadable ones stand behind an unreadable one, and none with the same
      heartbeat has a smaller id. */
  lemma BestIsLatest(best: Controller, c: Controller, controllers: seq<Controller>, item: Option<Item>, corp: string,
                     norm: string -> string)
    requires IsBest(best, controllers, item, corp, norm) && c in controllers && IsCandidate(c, item, corp, norm)
    ensures IsLive(c) ==> IsLive(best)
    ensures IsLive(c) == IsLive(best) && OnItem(c, item) ==> OnItem(best, item)
    ensures RankAlike(best, c, item) && c.lastHeartbeat.Some? ==>
              best.lastHeartbeat.Some? && best.lastHeartbeat.value >= c.lastHeartbeat.value
    ensures RankAlike(best, c, item) && best.lastHeartbeat == c.lastHeartbeat ==> !IdLess(c.id, best.id)
  {
  }

  /** The source is complete: a positive safe project number and three names that are not blank. */
  predicate IsComplete(source: Source, norm: string -> string) {
    && 0 < source.project <= 9_007_199_254_740_991
    && norm(source.owner) != "" && norm(source.repositoryOwner) != "" && norm(source.repositoryName) != ""
  }

  /** Something differs between the controller's source and the item's, beyond case and blanks. */
  predicate Differs(c: Controller, item: Item, norm: string -> string) {
    || c.source.project != item.source.project
    || norm(c.source.owner) != norm(item.source.owner)
    || norm(c.source.repositoryOwner) != norm(item.source.repositoryOwner)
    || norm(c.source.repositoryName) != norm(item.source.repositoryName)
  }

  /** A controller of another corp, with an incomplete source, or of another source than the item's
      makes no difference; any other controller makes a selection possible. */
  lemma ForeignControllersDoNotMatter(controllers: seq<Controller>, c: Controller, item: Option<Item>, corp: string,
                                      norm: string -> string)
    ensures c.source.corp != corp || !IsComplete(c.source, norm) || (item.Some? && Differs(c, item.value, norm)) ==>
              forall best :: IsBest(best, controllers + [c], item, corp, norm) <==>
                             IsBest(best, controllers, item, corp, norm)
    ensures c.source.corp == corp && IsComplete(c.source, norm) && (item.Some? ==> !Differs(c, item.value, norm)) ==>
              HasCandidate(controllers + [c], item, corp, norm)
  {
    var more := controllers + [c];
    assert more[|controllers|] == c;
    assert forall x :: x in more <==> x in controllers || x == c;
    if IsCandidate(c, item, corp, norm) {
      assert c in more;
    }
  }

  /** Nothing is selected without a corp, for another item than the one named, or for an item of
      another corp or with an incomplete source; otherwise a candidate is, if there is one. */
  lemma WhenNothingIsSelected(selected: Option<Controller>, controllers: seq<Controller>, item: Option<Item>,
                              corp: string, itemId: Option<Id>, norm: string -> string)
    requires IsSelection(selected, controllers, item, corp, itemId, norm)
    ensures selected.None? <==>
            || corp == "" || (itemId.Some? && (item.None? || item.value.id != itemId.value))
            || (item.Some? && (item.value.source.corp != corp || !IsComplete(item.value.source, norm)))
            || !HasCandidate(controllers, item, corp, norm)
  {
  }

  /** Live are the controllers that watch, work, wait, or are blocked; and only work counts as working. */
  lemma WhoIsLive(c: Controller)
    ensures IsLive(c) <==>
            || c.status == "watching" || c.status == "working" || c.status == "blocked"
            || c.status == "needs_decision" || c.status == "backing_off"
    ensures (IsWorking(c) <==> c.status == "working") && (IsWorking(c) ==> IsLive(c))
  {
  }
}
