/** The mission discussion (apps/web/src/workflowContext.ts): which messages belong to a mission,
    directly by their link or by descending from such a message through replies and threads. */
module Discussion {
  import opened Prelude

  datatype LinkKind = MissionLink | TaskLink | RunLink | ArtifactLink

  datatype WorkLink = WorkLink(kind: LinkKind, id: string)

  datatype Mission = Mission(id: string, room: Option<string>)
  datatype Task = Task(id: string, mission: string)
  datatype Run = Run(id: string, task: string, artifact: Option<string>)

  datatype Message = Message(
    id: string, room: string, link: Option<WorkLink>,
    replyTo: Option<string>, threadRoot: Option<string>)

  datatype Context = Context(missions: seq<Mission>, tasks: seq<Task>, runs: seq<Run>)

  /** A present, non-empty string: what JavaScript's `&&` lets through. */
  predicate Truthy(value: Option<string>) {
    value.Some? && value.value != ""
  }

  function KindName(kind: LinkKind): string {
    match kind
    case MissionLink => "mission"
    case TaskLink => "task"
    case RunLink => "run"
    case ArtifactLink => "artifact"
  }

  /** The `kind:id` text under which the source compares links. */
  function LinkKey(link: WorkLink): string {
    KindName(link.kind) + ":" + link.id
  }

  lemma LinkKeyIsInjective(a: WorkLink, b: WorkLink)
    requires LinkKey(a) == LinkKey(b)
    ensures a == b
  {
    assert LinkKey(a)[0] == KindName(a.kind)[0] && LinkKey(b)[0] == KindName(b.kind)[0];
    assert KindName(a.kind) == KindName(b.kind);
    var n := |KindName(a.kind)| + 1;
    assert LinkKey(a)[n..] == a.id && LinkKey(b)[n..] == b.id;
  }

  function TaskIds(tasks: seq<Task>, missionId: string): set<string> {
    set t | t in tasks && t.mission == missionId :: t.id
  }

  /** The keys of everything that is the mission's own work. */
  function LinkedKeys(missionId: string, tasks: seq<Task>, runs: seq<Run>): set<string> {
    var taskIds := TaskIds(tasks, missionId);
    {LinkKey(WorkLink(MissionLink, missionId))}
    + (set id | id in taskIds :: LinkKey(WorkLink(TaskLink, id)))
    + (set r | r in runs && r.task in taskIds :: LinkKey(WorkLink(RunLink, r.id)))
    + (set r | r in runs && r.task in taskIds && Truthy(r.artifact) ::
         LinkKey(WorkLink(ArtifactLink, r.artifact.value)))
  }

  /** The link names the mission, one of its tasks, or a run or artifact of such a task. */
  ghost predicate IsOwnWork(link: WorkLink, missionId: string, tasks: seq<Task>, runs: seq<Run>) {
    match link.kind
    case MissionLink => link.id == missionId
    case TaskLink => exists t :: t in tasks && t.mission == missionId && t.id == link.id
    case RunLink => exists r, t :: r in runs && t in tasks && t.mission == missionId && r.task == t.id
                      && r.id == link.id
    case ArtifactLink => exists r, t :: r in runs && t in tasks && t.mission == missionId && r.task == t.id
                           && r.artifact == Some(link.id) && link.id != ""
  }

  lemma LinkedKeysAreOwnWork(link: WorkLink, missionId: string, tasks: seq<Task>, runs: seq<Run>)
    ensures LinkKey(link) in LinkedKeys(missionId, tasks, runs) <==> IsOwnWork(link, missionId, tasks, runs)
  {
    var taskIds := TaskIds(tasks, missionId);
    if LinkKey(link) in LinkedKeys(missionId, tasks, runs) {
      if LinkKey(link) == LinkKey(WorkLink(MissionLink, missionId)) {
        LinkKeyIsInjective(link, WorkLink(MissionLink, missionId));
      } else if id :| id in taskIds && LinkKey(link) == LinkKey(WorkLink(TaskLink, id)) {
        LinkKeyIsInjective(link, WorkLink(TaskLink, id));
      } else if r :| r in runs && r.task in taskIds && LinkKey(link) == LinkKey(WorkLink(RunLink, r.id)) {
        LinkKeyIsInjective(link, WorkLink(RunLink, r.id));
      } else {
        var r :| r in runs && r.task in taskIds && Truthy(r.artifact)
                 && LinkKey(link) == LinkKey(WorkLink(ArtifactLink, r.artifact.value));
        LinkKeyIsInjective(link, WorkLink(ArtifactLink, r.artifact.value));
      }
    }
    if IsOwnWork(link, missionId, tasks, runs) {
      match link.kind {
        case MissionLink =>
        case TaskLink => assert link.id in taskIds;
        case RunLink =>
          var r, t :| r in runs && t in tasks && t.mission == missionId && r.task == t.id && r.id == link.id;
          assert r.task in taskIds;
        case ArtifactLink =>
          var r, t :| r in runs && t in tasks && t.mission == missionId && r.task == t.id
                      && r.artifact == Some(link.id);
          assert r.task in taskIds;
      }
    }
  }

  // -------------------------------------------------------------------------
  // Least reachability
  // -------------------------------------------------------------------------

  predicate IsSeed(message: Message, linked: set<string>) {
    message.link.Some? && LinkKey(message.link.value) in linked
  }

  /** The message answers, or is threaded under, an included one. */
  predicate Follows(message: Message, included: set<string>) {
    || (Truthy(message.replyTo) && message.replyTo.value in included)
    || (Truthy(message.threadRoot) && message.threadRoot.value in included)
  }

  ghost predicate HasSeeds(messages: seq<Message>, linked: set<string>, ids: set<string>) {
    forall m :: m in messages && IsSeed(m, linked) ==> m.id in ids
  }

  ghost predicate IsClosed(messages: seq<Message>, ids: set<string>) {
    forall m :: m in messages && Follows(m, ids) ==> m.id in ids
  }

  /** `ids` is the least set that holds the seeds and is closed under replies and threads. */
  ghost predicate IsLeastDiscussion(messages: seq<Message>, linked: set<string>, ids: set<string>) {
    && HasSeeds(messages, linked, ids)
    && IsClosed(messages, ids)
    && IsBelowClosed(messages, linked, ids)
  }

  function Ids(messages: seq<Message>): set<string> {
    set m | m in messages :: m.id
  }

  /** The least set is unique, and depends on which messages there are, not on their order. */
  lemma LeastDiscussionIgnoresOrder(messages: seq<Message>, permuted: seq<Message>, linked: set<string>,
                                    ids: set<string>, ids': set<string>)
    requires forall m :: m in messages <==> m in permuted
    requires IsLeastDiscussion(messages, linked, ids) && IsLeastDiscussion(permuted, linked, ids')
    ensures ids == ids'
  {
    assert HasSeeds(messages, linked, ids') && IsClosed(messages, ids');
    assert HasSeeds(permuted, linked, ids) && IsClosed(permuted, ids);
  }

  // -------------------------------------------------------------------------
  // The same set by thread chains
  // -------------------------------------------------------------------------

  /** `chain` starts at a directly linked message, and every next message answers or is threaded
      under the one before it. */
  ghost predicate IsChain(messages: seq<Message>, linked: set<string>, chain: seq<Message>) {
    && chain != []
    && (forall i :: 0 <= i < |chain| ==> chain[i] in messages)
    && IsSeed(chain[0], linked)
    && (forall i :: 0 < i < |chain| ==> Follows(chain[i], {chain[i - 1].id}))
  }

  ghost predicate EndsChain(messages: seq<Message>, linked: set<string>, id: string) {
    exists chain: seq<Message> :: IsChain(messages, linked, chain) && chain[|chain| - 1].id == id
  }

  lemma {:induction false} ChainStaysInClosedSet(messages: seq<Message>, linked: set<string>,
                                                 chain: seq<Message>, ids: set<string>)
    requires IsChain(messages, linked, chain) && HasSeeds(messages, linked, ids) && IsClosed(messages, ids)
    ensures chain[|chain| - 1].id in ids
    decreases |chain|
  {
    if |chain| > 1 {
      ChainStaysInClosedSet(messages, linked, chain[..|chain| - 1], ids);
      var last := chain[|chain| - 1];
      assert Follows(last, {chain[|chain| - 2].id});
      assert Follows(last, ids);
    }
  }

  lemma ChainExtends(messages: seq<Message>, linked: set<string>, before: string, m: Message)
    requires EndsChain(messages, linked, before) && m in messages && Follows(m, {before})
    ensures EndsChain(messages, linked, m.id)
  {
    var chain: seq<Message> :| IsChain(messages, linked, chain) && chain[|chain| - 1].id == before;
    var longer := chain + [m];
    assert longer[|chain|] == m && longer[|chain| - 1].id == before;
    assert IsChain(messages, linked, longer);
  }

  ghost function ChainSet(messages: seq<Message>, linked: set<string>): set<string> {
    set m | m in messages && EndsChain(messages, linked, m.id) :: m.id
  }

  lemma ChainSetHoldsTheDiscussion(messages: seq<Message>, linked: set<string>)
    ensures HasSeeds(messages, linked, ChainSet(messages, linked))
    ensures IsClosed(messages, ChainSet(messages, linked))
  {
    var reached := ChainSet(messages, linked);
    forall m | m in messages && IsSeed(m, linked)
      ensures m.id in reached
    {
      assert IsChain(messages, linked, [m]);
      assert [m][|[m]| - 1].id == m.id;
    }
    forall m | m in messages && Follows(m, reached)
      ensures m.id in reached
    {
      if Truthy(m.replyTo) && m.replyTo.value in reached {
        ChainExtends(messages, linked, m.replyTo.value, m);
      } else {
        ChainExtends(messages, linked, m.threadRoot.value, m);
      }
    }
  }

  /** An id is in the least set exactly when a thread chain leads to it from a linked message. */
  lemma LeastDiscussionIsByChains(messages: seq<Message>, linked: set<string>, ids: set<string>, id: string)
    requires IsLeastDiscussion(messages, linked, ids)
    ensures id in ids <==> EndsChain(messages, linked, id)
  {
    ChainSetHoldsTheDiscussion(messages, linked);
    assert ids <= ChainSet(messages, linked);
    if EndsChain(messages, linked, id) {
      var chain: seq<Message> :| IsChain(messages, linked, chain) && chain[|chain| - 1].id == id;
      ChainStaysInClosedSet(messages, linked, chain, ids);
    }
  }

  /** The mission's discussion, in input order: the messages that end a thread chain. */
  ghost function MissionMessages(messages: seq<Message>, missionId: string, tasks: seq<Task>, runs: seq<Run>)
    : seq<Message>
  {
    Filter((m: Message) => EndsChain(messages, LinkedKeys(missionId, tasks, runs), m.id), messages)
  }

  /** Every set that holds the seeds and is closed contains `ids`. */
  ghost predicate IsBelowClosed(messages: seq<Message>, linked: set<string>, ids: set<string>) {
    forall other: set<string> :: HasSeeds(messages, linked, other) && IsClosed(messages, other) ==> ids <= other
  }

  lemma FollowerStaysBelow(messages: seq<Message>, linked: set<string>, ids: set<string>, m: Message)
    requires IsBelowClosed(messages, linked, ids) && m in messages && Follows(m, ids)
    ensures IsBelowClosed(messages, linked, ids + {m.id})
  {
    forall other: set<string> | HasSeeds(messages, linked, other) && IsClosed(messages, other)
      ensures ids + {m.id} <= other
    {
      assert ids <= other;
      assert Follows(m, other);
    }
  }

  lemma LeastIsMissionMessages(messages: seq<Message>, missionId: string, tasks: seq<Task>, runs: seq<Run>,
                               ids: set<string>)
    requires IsLeastDiscussion(messages, LinkedKeys(missionId, tasks, runs), ids)
    ensures Filter((m: Message) => m.id in ids, messages) == MissionMessages(messages, missionId, tasks, runs)
  {
    var linked := LinkedKeys(missionId, tasks, runs);
    forall m | m in messages
      ensures m.id in ids <==> EndsChain(messages, linked, m.id)
    {
      LeastDiscussionIsByChains(messages, linked, ids, m.id);
    }
    FilterCongruent((m: Message) => m.id in ids, (m: Message) => EndsChain(messages, linked, m.id), messages);
  }

  /** The fixpoint loop: it ends, and returns in input order the messages of the least set. */
  method MessagesForMission(messages: seq<Message>, missionId: string, tasks: seq<Task>, runs: seq<Run>)
    returns (result: seq<Message>, ghost ids: set<string>)
    ensures IsLeastDiscussion(messages, LinkedKeys(missionId, tasks, runs), ids)
    ensures result == Filter((m: Message) => m.id in ids, messages)
    ensures result == MissionMessages(messages, missionId, tasks, runs)
  {
    var linked := LinkedKeys(missionId, tasks, runs);
    var included := set m | m in messages && IsSeed(m, linked) :: m.id;
    var changed := true;
    while changed
      invariant HasSeeds(messages, linked, included) && included <= Ids(messages)
      invariant IsBelowClosed(messages, linked, included)
      invariant !changed ==> IsClosed(messages, included)
      decreases Ids(messages) - included, changed
    {
      changed := false;
      ghost var before := included;
      for i := 0 to |messages|
        invariant before <= included <= Ids(messages)
        invariant IsBelowClosed(messages, linked, included)
        invariant changed ==> before < included
        invariant !changed ==> included == before
        invariant !changed ==> forall k :: 0 <= k < i && Follows(messages[k], included) ==> messages[k].id in included
      {
        var message := messages[i];
        if message.id in included {
          continue;
        }
        if Follows(message, included) {
          FollowerStaysBelow(messages, linked, included, message);
          included := included + {message.id};
          changed := true;
        }
      }
    }
    ids := included;
    result := Filter((m: Message) => m.id in included, messages);
    LeastIsMissionMessages(messages, missionId, tasks, runs, ids);
  }

  lemma ShownEndsChain(messages: seq<Message>, missionId: string, tasks: seq<Task>, runs: seq<Run>, m: Message)
    ensures m in MissionMessages(messages, missionId, tasks, runs) <==>
            m in messages && EndsChain(messages, LinkedKeys(missionId, tasks, runs), m.id)
  {
    var linked := LinkedKeys(missionId, tasks, runs);
    FilterMembers((x: Message) => EndsChain(messages, linked, x.id), messages);
  }

  /** Whatever is linked to the mission's own work is shown, and so is every reply to a shown message and
      every message of its thread. */
  lemma RepliesAreShown(messages: seq<Message>, missionId: string, tasks: seq<Task>, runs: seq<Run>, m: Message,
                        parent: Message)
    requires m in messages
    ensures m.link.Some? && IsOwnWork(m.link.value, missionId, tasks, runs) ==>
              m in MissionMessages(messages, missionId, tasks, runs)
    ensures parent in MissionMessages(messages, missionId, tasks, runs) && parent.id != ""
            && (m.replyTo == Some(parent.id) || m.threadRoot == Some(parent.id)) ==>
              m in MissionMessages(messages, missionId, tasks, runs)
  {
    var linked := LinkedKeys(missionId, tasks, runs);
    ShownEndsChain(messages, missionId, tasks, runs, m);
    ShownEndsChain(messages, missionId, tasks, runs, parent);
    if m.link.Some? && IsOwnWork(m.link.value, missionId, tasks, runs) {
      LinkedKeysAreOwnWork(m.link.value, missionId, tasks, runs);
      assert IsChain(messages, linked, [m]);
      assert [m][|[m]| - 1].id == m.id;
    }
    if parent in MissionMessages(messages, missionId, tasks, runs) && Follows(m, {parent.id}) {
      ChainExtends(messages, linked, parent.id, m);
    }
  }

  /** And nothing else is: a shown message shares its id with one that is linked itself, or that answers
      or is threaded under a shown message. */
  lemma ShownMessagesAreAnchored(messages: seq<Message>, missionId: string, tasks: seq<Task>, runs: seq<Run>,
                                 m: Message)
    requires m in MissionMessages(messages, missionId, tasks, runs)
    ensures exists x :: x in messages && x.id == m.id
              && (|| (x.link.Some? && IsOwnWork(x.link.value, missionId, tasks, runs))
                  || exists parent :: parent in MissionMessages(messages, missionId, tasks, runs) && parent.id != ""
                                      && (x.replyTo == Some(parent.id) || x.threadRoot == Some(parent.id)))
  {
    var linked := LinkedKeys(missionId, tasks, runs);
    ShownEndsChain(messages, missionId, tasks, runs, m);
    var chain: seq<Message> :| IsChain(messages, linked, chain) && chain[|chain| - 1].id == m.id;
    var last := chain[|chain| - 1];
    assert last in messages;
    if |chain| == 1 {
      LinkedKeysAreOwnWork(last.link.value, missionId, tasks, runs);
    } else {
      var parent := ChainHasParent(messages, linked, chain);
      ShownEndsChain(messages, missionId, tasks, runs, parent);
    }
  }

  /** The last message of a longer chain answers, or is threaded under, one that ends a chain. */
  lemma ChainHasParent(messages: seq<Message>, linked: set<string>, chain: seq<Message>)
    returns (parent: Message)
    requires IsChain(messages, linked, chain) && |chain| > 1
    ensures parent in messages && EndsChain(messages, linked, parent.id) && parent.id != ""
    ensures var last := chain[|chain| - 1];
            last.replyTo == Some(parent.id) || last.threadRoot == Some(parent.id)
  {
    var front := chain[..|chain| - 1];
    parent := chain[|chain| - 2];
    assert IsChain(messages, linked, front) && front[|front| - 1].id == parent.id;
    assert Follows(chain[|chain| - 1], {parent.id});
  }
}
