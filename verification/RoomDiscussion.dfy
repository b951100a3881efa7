/** The room view of a mission's discussion and the admission of posts into it
    (apps/web/src/missionProjection.ts). */
module RoomDiscussion {
  import opened Prelude
  import opened Discussion

  /** `missionIdForLink` (apps/web/src/workflowContext.ts). */
  function MissionIdForLink(link: WorkLink, context: Context): Option<string> {
    if link.kind == MissionLink then
      if exists m :: m in context.missions && m.id == link.id then Some(link.id) else None
    else
      match TaskIdForLink(link, context)
      case None => None
      case Some(taskId) =>
        match FindFirst((t: Task) => t.id == taskId, context.tasks)
        case None => None
        case Some(task) =>
          if task.mission != "" && exists m :: m in context.missions && m.id == task.mission
          then Some(task.mission) else None
  }

  function LinkedRun(link: WorkLink, runs: seq<Run>): Option<Run> {
    FindFirst((r: Run) => if link.kind == RunLink then r.id == link.id else r.artifact == Some(link.id), runs)
  }

  function TaskIdForLink(link: WorkLink, context: Context): Option<string> {
    if link.kind == TaskLink then Some(link.id)
    else match LinkedRun(link, context.runs) case Some(r) => Some(r.task) case None => None
  }

  function ResolveDiscussionRoom(rooms: seq<string>, missions: seq<Mission>, missionId: Option<string>,
                                 roomId: Option<string>): Option<string>
  {
    if missionId.Some? then
      match FindFirst((m: Mission) => m.id == missionId.value, missions)
      case None => None
      case Some(mission) =>
        if Truthy(mission.room) then FindFirst(r => r == mission.room.value, rooms) else None
    else if roomId.Some? then FindFirst(r => r == roomId.value, rooms)
    else if rooms != [] then Some(rooms[0]) else None
  }

  function RoomMissions(missions: seq<Mission>, roomId: Option<string>, missionId: Option<string>): (r: seq<Mission>)
    ensures forall m :: m in r <==>
              m in missions && Truthy(roomId) && m.room == roomId && (missionId.None? || m.id == missionId.value)
  {
    var selected := (m: Mission) => Truthy(roomId) && m.room == roomId && (missionId.None? || m.id == missionId.value);
    FilterMembers(selected, missions);
    Filter(selected, missions)
  }

  function RoomWorkContext(context: Context, roomId: Option<string>, missionId: Option<string>): Context {
    var missions := RoomMissions(context.missions, roomId, missionId);
    var missionIds := set m | m in missions :: m.id;
    var tasks := Filter((t: Task) => t.mission in missionIds, context.tasks);
    var taskIds := set t | t in tasks :: t.id;
    Context(missions, tasks, Filter((r: Run) => r.task in taskIds, context.runs))
  }

  /** The room's messages that carry no link to other work. */
  function ScopedMessages(messages: seq<Message>, roomId: string, missionId: string, context: Context)
    : (r: seq<Message>)
    ensures forall m :: m in r <==>
              m in messages && m.room == roomId
              && (m.link.None? || MissionIdForLink(m.link.value, context) == Some(missionId))
  {
    var inRoom := (m: Message) => m.room == roomId;
    var ownLink := (m: Message) => m.link.None? || MissionIdForLink(m.link.value, context) == Some(missionId);
    FilterMembers(inRoom, messages);
    FilterMembers(ownLink, Filter(inRoom, messages));
    Filter(ownLink, Filter(inRoom, messages))
  }

  ghost function RoomDiscussionMessages(messages: seq<Message>, roomId: Option<string>, missionId: Option<string>,
                                        context: Context): seq<Message>
  {
    if !Truthy(roomId) then []
    else if missionId.None? then Filter((m: Message) => m.room == roomId.value, messages)
    else if !exists m :: m in context.missions && m.id == missionId.value then []
    else MissionMessages(ScopedMessages(messages, roomId.value, missionId.value, context),
                         missionId.value, context.tasks, context.runs)
  }

  /** A view scope; `identity` is the object the app retains across refreshes. */
  datatype Scope = Scope(identity: nat, corp: string, actor: string, room: Option<string>, mission: Option<string>)

  datatype Snapshot = Snapshot(corp: string, work: Context, rooms: seq<string>, messages: seq<Message>)

  datatype Post = Post(room: string, replyTo: Option<string>, link: Option<WorkLink>)

  ghost predicate CanPostRoomMessage(snapshot: Snapshot, current: Scope, submitted: Scope, input: Post) {
    if current.corp == "" || current.actor == "" || !Truthy(current.room)
       || snapshot.corp != current.corp
       || current != submitted
       || Some(input.room) != current.room
    then false
    else
      var room := ResolveDiscussionRoom(snapshot.rooms, snapshot.work.missions, current.mission, current.room);
      if room.None? || room != current.room then false
      else
        var context := RoomWorkContext(snapshot.work, room, current.mission);
        if input.link.Some? && !Truthy(MissionIdForLink(input.link.value, context)) then false
        else if input.replyTo.Some?
                && !exists m :: m in RoomDiscussionMessages(snapshot.messages, room, current.mission, context)
                                && m.id == input.replyTo.value
        then false
        else current.mission.None? || input.link.Some? || input.replyTo.Some?
  }

  // -------------------------------------------------------------------------
  // A mission's discussion stays in its room and on its work
  // -------------------------------------------------------------------------

  /** A link that resolves to the mission is the mission's own work, unless it names an artifact
      by the empty id, which the discussion does not count as a link. */
  lemma ResolvedLinkIsOwnWork(link: WorkLink, missionId: string, context: Context)
    requires MissionIdForLink(link, context) == Some(missionId)
    ensures IsOwnWork(link, missionId, context.tasks, context.runs) <==> !(link.kind == ArtifactLink && link.id == "")
  {
    if link.kind == RunLink || link.kind == ArtifactLink {
      var run := LinkedRun(link, context.runs).value;
      var task := FindFirst((t: Task) => t.id == run.task, context.tasks).value;
      assert run in context.runs && task in context.tasks && run.task == task.id && task.mission == missionId;
    }
  }

  /** Every message a selected mission shows is in the room, links to no other work, and has a
      thread chain, inside the room and the mission's work, from a message linked to the mission. */
  lemma DiscussionIsScoped(snapshot: Snapshot, roomId: string, missionId: string, m: Message)
    returns (chain: seq<Message>)
    requires m in RoomDiscussionMessages(snapshot.messages, Some(roomId), Some(missionId),
                                         RoomWorkContext(snapshot.work, Some(roomId), Some(missionId)))
    ensures m in snapshot.messages
    ensures var context := RoomWorkContext(snapshot.work, Some(roomId), Some(missionId));
            && chain != [] && chain[|chain| - 1].id == m.id
            && (forall x :: x == m || x in chain ==>
                  x in snapshot.messages && x.room == roomId
                  && (x.link.Some? ==> MissionIdForLink(x.link.value, context) == Some(missionId)))
            && (forall i :: 0 < i < |chain| ==> Follows(chain[i], {chain[i - 1].id}))
            && chain[0].link.Some? && IsOwnWork(chain[0].link.value, missionId, context.tasks, context.runs)
    ensures exists mission ::
      mission in snapshot.work.missions && mission.id == missionId && mission.room == Some(roomId)
  {
    var context := RoomWorkContext(snapshot.work, Some(roomId), Some(missionId));
    var scoped := ScopedMessages(snapshot.messages, roomId, missionId, context);
    var linked := LinkedKeys(missionId, context.tasks, context.runs);
    FilterMembers((x: Message) => EndsChain(scoped, linked, x.id), scoped);
    chain :| IsChain(scoped, linked, chain) && chain[|chain| - 1].id == m.id;
    LinkedKeysAreOwnWork(chain[0].link.value, missionId, context.tasks, context.runs);
  }

  // -------------------------------------------------------------------------
  // Accepted posts
  // -------------------------------------------------------------------------

  lemma ResolvedMissionIsInContext(link: WorkLink, context: Context)
    requires MissionIdForLink(link, context).Some?
    ensures exists m :: m in context.missions && m.id == MissionIdForLink(link, context).value
  {
  }

  /** An accepted post for a selected mission is anchored in that very discussion. */
  lemma AcceptedPostIsAnchored(snapshot: Snapshot, current: Scope, submitted: Scope, input: Post)
    requires CanPostRoomMessage(snapshot, current, submitted, input) && current.mission.Some?
    ensures submitted.identity == current.identity && Some(input.room) == current.room
    ensures var context := RoomWorkContext(snapshot.work, current.room, current.mission);
            && (input.link.Some? || input.replyTo.Some?)
            && (input.link.Some? ==> MissionIdForLink(input.link.value, context) == current.mission)
            && (input.replyTo.Some? ==> exists m ::
                  m in RoomDiscussionMessages(snapshot.messages, current.room, current.mission, context)
                  && m.id == input.replyTo.value)
  {
    var context := RoomWorkContext(snapshot.work, current.room, current.mission);
    if input.link.Some? {
      ResolvedMissionIsInContext(input.link.value, context);
    }
  }

  /** The last message of a chain is linked itself, or answers or is threaded under another. */
  lemma ChainEndIsAnchored(messages: seq<Message>, linked: set<string>, id: string) returns (last: Message)
    requires EndsChain(messages, linked, id)
    ensures last in messages && last.id == id
    ensures IsSeed(last, linked) || Truthy(last.replyTo) || Truthy(last.threadRoot)
  {
    var chain: seq<Message> :| IsChain(messages, linked, chain) && chain[|chain| - 1].id == id;
    last := chain[|chain| - 1];
    if |chain| > 1 {
      assert Follows(last, {chain[|chain| - 2].id});
    }
  }

  lemma ChainsSurviveGrowth(before: seq<Message>, after: seq<Message>, linked: set<string>, id: string)
    requires EndsChain(before, linked, id) && forall m :: m in before ==> m in after
    ensures EndsChain(after, linked, id)
  {
    var chain: seq<Message> :| IsChain(before, linked, chain) && chain[|chain| - 1].id == id;
    assert IsChain(after, linked, chain);
  }

  lemma SeedIsOnChain(messages: seq<Message>, linked: set<string>, m: Message)
    requires m in messages && IsSeed(m, linked)
    ensures EndsChain(messages, linked, m.id)
  {
    assert IsChain(messages, linked, [m]);
    assert [m][|[m]| - 1].id == m.id;
  }

  /** A new message joins the discussion by its own link or through its reply target. */
  lemma NewMessageJoins(before: seq<Message>, after: seq<Message>, linked: set<string>, posted: Message)
    requires posted in after && (forall m :: m in before ==> m in after)
    requires forall m :: m in after && m.id == posted.id ==> m == posted
    requires Truthy(posted.threadRoot) ==> Truthy(posted.replyTo)
    requires Truthy(posted.replyTo) ==> EndsChain(before, linked, posted.replyTo.value)
    ensures EndsChain(after, linked, posted.id) <==> IsSeed(posted, linked) || Truthy(posted.replyTo)
  {
    if IsSeed(posted, linked) {
      SeedIsOnChain(after, linked, posted);
    } else if Truthy(posted.replyTo) {
      ChainsSurviveGrowth(before, after, linked, posted.replyTo.value);
      ChainExtends(after, linked, posted.replyTo.value, posted);
    } else if EndsChain(after, linked, posted.id) {
      var last := ChainEndIsAnchored(after, linked, posted.id);
    }
  }

  lemma ShownIsOnChain(messages: seq<Message>, missionId: string, context: Context, m: Message)
    ensures m in MissionMessages(messages, missionId, context.tasks, context.runs) <==>
            m in messages && EndsChain(messages, LinkedKeys(missionId, context.tasks, context.runs), m.id)
  {
    FilterMembers(
      (x: Message) => EndsChain(messages, LinkedKeys(missionId, context.tasks, context.runs), x.id), messages);
  }

  /** `posted` is what the server stores for the post, under a fresh id. */
  predicate StoresPost(snapshot: Snapshot, input: Post, posted: Message) {
    && posted.room == input.room && posted.link == input.link && posted.replyTo == input.replyTo
    && (Truthy(posted.threadRoot) ==> Truthy(posted.replyTo))
    && forall m :: m in snapshot.messages ==> m.id != posted.id
  }

  /** The post names a message it answers, or links work by an id the discussion counts. */
  predicate IsCounted(input: Post) {
    (input.link.Some? && input.link.value != WorkLink(ArtifactLink, "")) || Truthy(input.replyTo)
  }

  lemma AcceptedPostSeeds(snapshot: Snapshot, current: Scope, submitted: Scope, input: Post, posted: Message)
    requires CanPostRoomMessage(snapshot, current, submitted, input) && current.mission.Some?
    requires posted.link == input.link
    ensures var context := RoomWorkContext(snapshot.work, current.room, current.mission);
            IsSeed(posted, LinkedKeys(current.mission.value, context.tasks, context.runs)) <==>
            input.link.Some? && input.link.value != WorkLink(ArtifactLink, "")
  {
    var context := RoomWorkContext(snapshot.work, current.room, current.mission);
    AcceptedPostIsAnchored(snapshot, current, submitted, input);
    if input.link.Some? {
      ResolvedLinkIsOwnWork(input.link.value, current.mission.value, context);
      LinkedKeysAreOwnWork(input.link.value, current.mission.value, context.tasks, context.runs);
    }
  }

  lemma AcceptedReplyIsOnChain(snapshot: Snapshot, current: Scope, submitted: Scope, input: Post)
    requires CanPostRoomMessage(snapshot, current, submitted, input) && current.mission.Some?
    requires input.replyTo.Some?
    ensures var context := RoomWorkContext(snapshot.work, current.room, current.mission);
            EndsChain(ScopedMessages(snapshot.messages, current.room.value, current.mission.value, context),
                      LinkedKeys(current.mission.value, context.tasks, context.runs), input.replyTo.value)
  {
    var room, mission := current.room.value, current.mission.value;
    var context := RoomWorkContext(snapshot.work, current.room, current.mission);
    var before := ScopedMessages(snapshot.messages, room, mission, context);
    AcceptedPostIsAnchored(snapshot, current, submitted, input);
    var target :| target in RoomDiscussionMessages(snapshot.messages, current.room, current.mission, context)
                  && target.id == input.replyTo.value;
    ShownIsOnChain(before, mission, context, target);
  }

  /** Once stored under a fresh id, an accepted post is part of the discussion it was written in,
      exactly when its link or its reply target has an id the discussion counts. */
  lemma AcceptedPostIsShown(snapshot: Snapshot, current: Scope, submitted: Scope, input: Post, posted: Message)
    requires CanPostRoomMessage(snapshot, current, submitted, input) && current.mission.Some?
    requires StoresPost(snapshot, input, posted)
    ensures var context := RoomWorkContext(snapshot.work, current.room, current.mission);
            posted in RoomDiscussionMessages(snapshot.messages + [posted], current.room, current.mission, context)
            <==> IsCounted(input)
  {
    AcceptedPostIsAnchored(snapshot, current, submitted, input);
    SelectedMissionIsInContext(snapshot, current, submitted, input);
    var room, mission := current.room.value, current.mission.value;
    var context := RoomWorkContext(snapshot.work, current.room, current.mission);
    var linked := LinkedKeys(mission, context.tasks, context.runs);
    var before := ScopedMessages(snapshot.messages, room, mission, context);
    var after := ScopedMessages(snapshot.messages + [posted], room, mission, context);
    AcceptedPostSeeds(snapshot, current, submitted, input, posted);
    if Truthy(input.replyTo) {
      AcceptedReplyIsOnChain(snapshot, current, submitted, input);
    }
    NewMessageJoins(before, after, linked, posted);
    ShownIsOnChain(after, mission, context, posted);
  }

  lemma OnlyWorkIsInContext(work: Context, roomId: Option<string>, missionId: Option<string>)
    requires |work.missions| == |work.tasks| == |work.runs| == 1
    requires Truthy(roomId) && work.missions[0].room == roomId && Some(work.missions[0].id) == missionId
    requires work.tasks[0].mission == work.missions[0].id && work.runs[0].task == work.tasks[0].id
    ensures RoomWorkContext(work, roomId, missionId) == work
  {
    var missions := RoomMissions(work.missions, roomId, missionId);
    var selected := (m: Mission) => Truthy(roomId) && m.room == roomId && (missionId.None? || m.id == missionId.value);
    FilterSingle(selected, work.missions);
    var missionIds := set m | m in missions :: m.id;
    FilterSingle((t: Task) => t.mission in missionIds, work.tasks);
    var tasks := Filter((t: Task) => t.mission in missionIds, work.tasks);
    var taskIds := set t | t in tasks :: t.id;
    FilterSingle((r: Run) => r.task in taskIds, work.runs);
  }

  /** A run that carries the empty artifact id: a post that links it is accepted and not shown. */
  lemma EmptyArtifactIsAcceptedUnseen()
    ensures var link := Some(WorkLink(ArtifactLink, ""));
            var work := Context([Mission("m", Some("r"))], [Task("t", "m")], [Run("x", "t", Some(""))]);
            var snapshot := Snapshot("c", work, ["r"], []);
            var scope := Scope(0, "c", "a", Some("r"), Some("m"));
            var posted := Message("p", "r", link, None, None);
            && CanPostRoomMessage(snapshot, scope, scope, Post("r", None, link))
            && posted !in RoomDiscussionMessages([posted], scope.room, scope.mission,
                                                 RoomWorkContext(work, scope.room, scope.mission))
  {
    var mission, task, run := Mission("m", Some("r")), Task("t", "m"), Run("x", "t", Some(""));
    var link := WorkLink(ArtifactLink, "");
    var work := Context([mission], [task], [run]);
    var snapshot := Snapshot("c", work, ["r"], []);
    var scope := Scope(0, "c", "a", Some("r"), Some("m"));
    var posted := Message("p", "r", Some(link), None, None);
    var context := RoomWorkContext(work, scope.room, scope.mission);
    OnlyWorkIsInContext(work, scope.room, scope.mission);
    assert MissionIdForLink(link, context) == Some("m");
    assert [] + [posted] == [posted];
    AcceptedPostIsShown(snapshot, scope, scope, Post("r", None, Some(link)), posted);
  }

  /** A post is only accepted while the mission is still in the room. */
  lemma SelectedMissionIsInContext(snapshot: Snapshot, current: Scope, submitted: Scope, input: Post)
    requires CanPostRoomMessage(snapshot, current, submitted, input) && current.mission.Some?
    ensures exists m :: m in RoomWorkContext(snapshot.work, current.room, current.mission).missions
                        && m.id == current.mission.value
  {
    var mission := FindFirst((m: Mission) => m.id == current.mission.value, snapshot.work.missions).value;
    assert mission.room == current.room;
  }

  // -------------------------------------------------------------------------
  // Exactly which posts are accepted
  // -------------------------------------------------------------------------

  /** The view's own scope is complete, belongs to the snapshot, is the one submitted under, and its
      room is the post's. */
  predicate ScopeIsCurrent(snapshot: Snapshot, current: Scope, submitted: Scope, input: Post) {
    && current.corp != "" && current.actor != "" && Truthy(current.room)
    && snapshot.corp == current.corp && current == submitted && Some(input.room) == current.room
  }

  /** Without a selected mission a post is accepted exactly if its room exists, its link, if any, leads
      to a mission of the room, and its reply target, if any, is a message of the room. */
  lemma WhenRoomPostsAreAccepted(snapshot: Snapshot, current: Scope, submitted: Scope, input: Post)
    requires current.mission.None?
    ensures CanPostRoomMessage(snapshot, current, submitted, input) <==>
            && ScopeIsCurrent(snapshot, current, submitted, input) && input.room in snapshot.rooms
            && (input.link.Some? ==>
                  Truthy(MissionIdForLink(input.link.value, RoomWorkContext(snapshot.work, current.room, None))))
            && (input.replyTo.Some? ==>
                  exists m :: m in snapshot.messages && m.room == input.room && m.id == input.replyTo.value)
  {
    if ScopeIsCurrent(snapshot, current, submitted, input) {
      FilterMembers((m: Message) => m.room == current.room.value, snapshot.messages);
    }
  }

  /** With a selected mission it is accepted exactly if the mission is in that room, and the post links
      work that leads to the mission or answers a message of its discussion. */
  lemma WhenMissionPostsAreAccepted(snapshot: Snapshot, current: Scope, submitted: Scope, input: Post)
    requires current.mission.Some? && current.mission.value != ""
    ensures CanPostRoomMessage(snapshot, current, submitted, input) <==>
            && ScopeIsCurrent(snapshot, current, submitted, input)
            && current.room == ResolveDiscussionRoom(
                                 snapshot.rooms, snapshot.work.missions, current.mission, current.room)
            && (input.link.Some? || input.replyTo.Some?)
            && var context := RoomWorkContext(snapshot.work, current.room, current.mission);
               && (input.link.Some? ==> MissionIdForLink(input.link.value, context) == current.mission)
               && (input.replyTo.Some? ==>
                     exists m :: m in RoomDiscussionMessages(snapshot.messages, current.room, current.mission, context)
                                 && m.id == input.replyTo.value)
  {
    var context := RoomWorkContext(snapshot.work, current.room, current.mission);
    if input.link.Some? && MissionIdForLink(input.link.value, context).Some? {
      ResolvedMissionIsInContext(input.link.value, context);
    }
  }

  /** A selected mission resolves to its own room, if that is visible; never to another one. */
  lemma SelectedMissionsKeepTheirRoom(snapshot: Snapshot, missionId: string, roomId: Option<string>, room: string)
    ensures ResolveDiscussionRoom(snapshot.rooms, snapshot.work.missions, Some(missionId), roomId) == Some(room) ==>
              room in snapshot.rooms && room != ""
              && exists m :: m in snapshot.work.missions && m.id == missionId && m.room == Some(room)
    ensures ResolveDiscussionRoom(snapshot.rooms, snapshot.work.missions, None, Some(room)) ==
              if room in snapshot.rooms then Some(room) else None
    ensures ResolveDiscussionRoom(snapshot.rooms, snapshot.work.missions, None, None) ==
              if snapshot.rooms == [] then None else Some(snapshot.rooms[0])
  {
  }

  /** A room's work is its missions, or the selected one of them, with their tasks and those tasks' runs. */
  lemma RoomWorkIsOfItsMissions(work: Context, roomId: Option<string>, missionId: Option<string>)
    ensures var context := RoomWorkContext(work, roomId, missionId);
            && (forall m :: m in context.missions <==>
                  && m in work.missions && Truthy(roomId) && m.room == roomId
                  && (missionId.Some? ==> missionId == Some(m.id)))
            && (forall t :: t in context.tasks <==>
                  t in work.tasks && exists m :: m in context.missions && m.id == t.mission)
            && (forall r :: r in context.runs <==>
                  r in work.runs && exists t :: t in context.tasks && t.id == r.task)
  {
    var missions := RoomMissions(work.missions, roomId, missionId);
    var missionIds := set m | m in missions :: m.id;
    FilterMembers((t: Task) => t.mission in missionIds, work.tasks);
    var tasks := Filter((t: Task) => t.mission in missionIds, work.tasks);
    var taskIds := set t | t in tasks :: t.id;
    FilterMembers((r: Run) => r.task in taskIds, work.runs);
  }

  /** `x` is the first element that satisfies the predicate. */
  ghost predicate IsFirstSuch<T>(p: T -> bool, s: seq<T>, x: T) {
    exists i :: 0 <= i < |s| && s[i] == x && p(x) && forall k :: 0 <= k < i ==> !p(s[k])
  }

  lemma {:induction false} FindFirstIsFirst<T>(p: T -> bool, s: seq<T>)
    ensures FindFirst(p, s).Some? ==> IsFirstSuch(p, s, FindFirst(p, s).value)
  {
    if s != [] && p(s[0]) {
      assert s[0] == FindFirst(p, s).value;
    } else if s != [] {
      FindFirstIsFirst(p, s[1..]);
      if FindFirst(p, s).Some? {
        var x := FindFirst(p, s).value;
        var i :| 0 <= i < |s[1..]| && s[1..][i] == x && p(x) && forall k :: 0 <= k < i ==> !p(s[1..][k]);
        assert s[i + 1] == x;
        assert forall k :: 0 < k < i + 1 ==> s[k] == s[1..][k - 1];
      }
    }
  }

  /** A link leads to a mission of the context: the one it names, or the one of the first task that it
      names, directly or through the first run of that id or artifact. */
  lemma WhereLinksLead(link: WorkLink, context: Context, missionId: string)
    ensures MissionIdForLink(link, context) == Some(missionId) <==>
            && (exists m :: m in context.missions && m.id == missionId)
            && match link.kind
               case MissionLink => link.id == missionId
               case TaskLink => LeadsByTask(link.id, context, missionId)
               case RunLink =>
                 var run := FindFirst((r: Run) => r.id == link.id, context.runs);
                 run.Some? && LeadsByTask(run.value.task, context, missionId)
               case ArtifactLink =>
                 var run := FindFirst((r: Run) => r.artifact == Some(link.id), context.runs);
                 run.Some? && LeadsByTask(run.value.task, context, missionId)
  {
    SameRunIsFound(link, context.runs);
  }

  predicate LeadsByTask(taskId: string, context: Context, missionId: string) {
    var task := FindFirst((t: Task) => t.id == taskId, context.tasks);
    task.Some? && task.value.mission == missionId && missionId != ""
  }

  lemma SameRunIsFound(link: WorkLink, runs: seq<Run>)
    ensures link.kind == RunLink ==> LinkedRun(link, runs) == FindFirst((r: Run) => r.id == link.id, runs)
    ensures link.kind == ArtifactLink ==>
              LinkedRun(link, runs) == FindFirst((r: Run) => r.artifact == Some(link.id), runs)
  {
    if runs != [] {
      SameRunIsFound(link, runs[1..]);
    }
  }
}
