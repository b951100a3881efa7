/** Outcome classification of a task-graph plan (crates/crony-domain/src/lib.rs). Plans are
    arbitrary: keys may repeat, dependencies may be unknown or cyclic. */
module TaskGraph {
  import opened Prelude

  const DETERMINISTIC_ADAPTER := "fake-process"

  datatype PlannedTask = PlannedTask(key: string, requiredAdapter: string, dependsOn: seq<string>)

  type Plan = seq<PlannedTask>

  /** `tasks.iter().find(|task| task.key == key)`: the first task of that key. */
  function FindTask(tasks: Plan, key: string): (r: Option<PlannedTask>)
    ensures r.Some? ==> r.value in tasks && r.value.key == key
    ensures r.None? <==> forall t :: t in tasks ==> t.key != key
  {
    if tasks == [] then None
    else if tasks[0].key == key then Some(tasks[0])
    else FindTask(tasks[1..], key)
  }

  function DependencyKeys(tasks: Plan): (r: set<string>)
    ensures forall k :: k in r <==> exists t :: t in tasks && k in t.dependsOn
  {
    set t, k | t in tasks && k in t.dependsOn :: k
  }

  function TerminalTaskKeys(tasks: Plan): (r: set<string>)
    ensures forall k :: k in r <==>
      (exists t :: t in tasks && t.key == k) && (forall t :: t in tasks ==> k !in t.dependsOn)
  {
    set t | t in tasks && t.key !in DependencyKeys(tasks) :: t.key
  }

  /** The edge the search follows: from a key to the dependencies of its first task. */
  predicate Edge(tasks: Plan, from: string, to: string) {
    var t := FindTask(tasks, from);
    t.Some? && to in t.value.dependsOn
  }

  /** `path` leads from its first to its last key through `depends_on`. */
  ghost predicate IsPath(tasks: Plan, path: seq<string>) {
    path != [] && forall i :: 0 <= i < |path| - 1 ==> Edge(tasks, path[i], path[i + 1])
  }

  ghost predicate Reaches(tasks: Plan, from: string, to: string) {
    exists path :: IsPath(tasks, path) && path[0] == from && path[|path| - 1] == to
  }

  predicate IsProvider(tasks: Plan, key: string) {
    var t := FindTask(tasks, key);
    t.Some? && t.value.requiredAdapter != DETERMINISTIC_ADAPTER
  }

  /** Provider work lies somewhere in the dependency cone of `key`. */
  ghost predicate ProviderBacked(tasks: Plan, key: string) {
    exists k :: Reaches(tasks, key, k) && IsProvider(tasks, k)
  }

  lemma ReachesSelf(tasks: Plan, key: string)
    ensures Reaches(tasks, key, key)
  {
    assert IsPath(tasks, [key]);
  }

  lemma ReachesStep(tasks: Plan, from: string, mid: string, to: string)
    requires Reaches(tasks, from, mid) && Edge(tasks, mid, to)
    ensures Reaches(tasks, from, to)
  {
    var path :| IsPath(tasks, path) && path[0] == from && path[|path| - 1] == mid;
    assert IsPath(tasks, path + [to]);
    assert (path + [to])[|path|] == to;
  }

  lemma EdgeReaches(tasks: Plan, from: string, mid: string, to: string)
    requires Edge(tasks, from, mid) && Reaches(tasks, mid, to)
    ensures Reaches(tasks, from, to)
  {
    var path :| IsPath(tasks, path) && path[0] == mid && path[|path| - 1] == to;
    var p := [from] + path;
    forall i | 0 <= i < |p| - 1
      ensures Edge(tasks, p[i], p[i + 1])
    {
      assert p[i + 1] == path[i] && (i > 0 ==> p[i] == path[i - 1]);
    }
    assert IsPath(tasks, p) && p[|p| - 1] == path[|path| - 1];
  }

  /** A set that contains a path's start and is closed under edges contains its end. */
  lemma {:induction false} PathStaysInClosedSet(tasks: Plan, path: seq<string>, closed: set<string>)
    requires IsPath(tasks, path) && path[0] in closed
    requires forall k, d :: k in closed && Edge(tasks, k, d) ==> d in closed
    ensures path[|path| - 1] in closed
  {
    if |path| > 1 {
      assert Edge(tasks, path[0], path[1]);
      PathStaysInClosedSet(tasks, path[1..], closed);
    }
  }

  function MentionedKeys(tasks: Plan): set<string> {
    (set t | t in tasks :: t.key) + DependencyKeys(tasks)
  }

  /** The worklist search from one outcome: it ends on every plan, and answers whether a
      provider task can be reached. */
  method SearchProvider(tasks: Plan, start: string) returns (found: bool)
    ensures found <==> ProviderBacked(tasks, start)
  {
    var remaining := [start];
    var visited: set<string> := {};
    ghost var universe := MentionedKeys(tasks) + {start};
    ReachesSelf(tasks, start);
    while remaining != []
      invariant visited <= universe && forall k :: k in remaining ==> k in universe
      invariant start in visited || start in remaining
      invariant forall k :: k in visited || k in remaining ==> Reaches(tasks, start, k)
      invariant forall k :: k in visited ==> !IsProvider(tasks, k)
      invariant forall k, d :: k in visited && Edge(tasks, k, d) ==> d in visited || d in remaining
      decreases universe - visited, |remaining|
    {
      var key := remaining[|remaining| - 1];
      ghost var before := remaining;
      remaining := remaining[..|remaining| - 1];
      assert before == remaining + [key];
      if key in visited {
        continue;
      }
      visited := visited + {key};
      var task := FindTask(tasks, key);
      if task.None? {
        continue;
      }
      if task.value.requiredAdapter != DETERMINISTIC_ADAPTER {
        assert IsProvider(tasks, key);
        return true;
      }
      forall d | d in task.value.dependsOn
        ensures Reaches(tasks, start, d)
      {
        ReachesStep(tasks, start, key, d);
      }
      remaining := remaining + task.value.dependsOn;
    }
    forall k | Reaches(tasks, start, k)
      ensures !IsProvider(tasks, k)
    {
      var path :| IsPath(tasks, path) && path[0] == start && path[|path| - 1] == k;
      PathStaysInClosedSet(tasks, path, visited);
    }
    return false;
  }

  /** The outcome keys: the terminal keys whose dependency cone holds provider work. */
  method ProviderBackedOutcomeKeys(tasks: Plan) returns (keys: set<string>)
    ensures forall k :: k in keys <==> k in TerminalTaskKeys(tasks) && ProviderBacked(tasks, k)
  {
    var outcomes := TerminalTaskKeys(tasks);
    keys := {};
    for i := 0 to |tasks|
      invariant forall k :: k in keys <==>
        k in outcomes && ProviderBacked(tasks, k) && exists t :: t in tasks[..i] && t.key == k
    {
      ghost var before := keys;
      if tasks[i].key in outcomes {
        var found := SearchProvider(tasks, tasks[i].key);
        if found {
          keys := keys + {tasks[i].key};
        }
      }
      assert tasks[..i + 1] == tasks[..i] + [tasks[i]];
    }
    assert tasks[..|tasks|] == tasks;
  }

  // -------------------------------------------------------------------------
  // A deterministic leaf cannot hide provider work
  // -------------------------------------------------------------------------

  ghost predicate UniqueKeys(tasks: Plan) {
    forall i, j :: 0 <= i < j < |tasks| ==> tasks[i].key != tasks[j].key
  }

  /** No dependency is lost behind an earlier task of the same key. */
  ghost predicate NothingShadowed(tasks: Plan) {
    forall t, d :: t in tasks && d in t.dependsOn ==> Edge(tasks, t.key, d)
  }

  /** No provider task is lost behind an earlier deterministic task of the same key. */
  ghost predicate ProvidersResolve(tasks: Plan) {
    forall t :: t in tasks && t.requiredAdapter != DETERMINISTIC_ADAPTER ==> IsProvider(tasks, t.key)
  }

  /** No task depends on itself, directly or through others. */
  ghost predicate Acyclic(tasks: Plan) {
    forall a, b :: Edge(tasks, a, b) ==> !Reaches(tasks, b, a)
  }

  /** Nothing reaches `key` but what it reaches itself: it heads the plan, alone or in a cycle. */
  ghost predicate IsRoot(tasks: Plan, key: string) {
    FindTask(tasks, key).Some? && forall a :: Reaches(tasks, a, key) ==> Reaches(tasks, key, a)
  }

  ghost predicate RootsAreTerminal(tasks: Plan) {
    forall key :: IsRoot(tasks, key) ==> key in TerminalTaskKeys(tasks)
  }

  ghost predicate IsCovered(tasks: Plan, key: string) {
    exists outcome :: outcome in TerminalTaskKeys(tasks) && Reaches(tasks, outcome, key)
  }

  lemma FindIsTheTask(tasks: Plan, t: PlannedTask)
    requires UniqueKeys(tasks) && t in tasks
    ensures FindTask(tasks, t.key) == Some(t)
  {
    if tasks[0] != t {
      assert t in tasks[1..];
      var j :| 1 <= j < |tasks| && tasks[j] == t;
      FindIsTheTask(tasks[1..], t);
    }
  }

  lemma ReachesTransitive(tasks: Plan, a: string, b: string, c: string)
    requires Reaches(tasks, a, b) && Reaches(tasks, b, c)
    ensures Reaches(tasks, a, c)
  {
    var p :| IsPath(tasks, p) && p[0] == a && p[|p| - 1] == b;
    var q :| IsPath(tasks, q) && q[0] == b && q[|q| - 1] == c;
    var r := p + q[1..];
    forall i | 0 <= i < |r| - 1
      ensures Edge(tasks, r[i], r[i + 1])
    {
      if i >= |p| - 1 {
        assert r[i] == q[i - |p| + 1] && r[i + 1] == q[i - |p| + 2];
      }
    }
    assert IsPath(tasks, r) && r[|r| - 1] == c;
  }

  /** The task keys that reach `key`. */
  ghost function Ancestors(tasks: Plan, key: string): set<string> {
    set t | t in tasks && Reaches(tasks, t.key, key) :: t.key
  }

  lemma AncestorsAreTasks(tasks: Plan, a: string, key: string)
    requires Reaches(tasks, a, key) && FindTask(tasks, key).Some?
    ensures FindTask(tasks, a).Some? && a in Ancestors(tasks, key)
  {
    var path :| IsPath(tasks, path) && path[0] == a && path[|path| - 1] == key;
    if |path| > 1 {
      assert Edge(tasks, path[0], path[1]);
    }
    assert FindTask(tasks, a).value in tasks;
  }

  /** What reaches `key` without being reached from it has fewer ancestors. */
  lemma AncestorsShrink(tasks: Plan, a: string, key: string)
    requires FindTask(tasks, key).Some? && Reaches(tasks, a, key) && !Reaches(tasks, key, a)
    ensures FindTask(tasks, a).Some? && Ancestors(tasks, a) < Ancestors(tasks, key)
  {
    AncestorsAreTasks(tasks, a, key);
    forall k | k in Ancestors(tasks, a)
      ensures k in Ancestors(tasks, key)
    {
      ReachesTransitive(tasks, k, a, key);
    }
    ReachesSelf(tasks, key);
    AncestorsAreTasks(tasks, key, key);
  }

  /** Above every task there is a root. */
  lemma {:induction false} SomeRootReaches(tasks: Plan, key: string) returns (root: string)
    requires FindTask(tasks, key).Some?
    ensures IsRoot(tasks, root) && Reaches(tasks, root, key)
    decreases Ancestors(tasks, key)
  {
    ReachesSelf(tasks, key);
    if IsRoot(tasks, key) {
      return key;
    }
    var a :| Reaches(tasks, a, key) && !Reaches(tasks, key, a);
    AncestorsShrink(tasks, a, key);
    root := SomeRootReaches(tasks, a);
    ReachesTransitive(tasks, root, a, key);
  }

  lemma EdgesMeetNoTerminal(tasks: Plan, from: string, to: string)
    requires Edge(tasks, from, to)
    ensures to !in TerminalTaskKeys(tasks)
  {
    assert FindTask(tasks, from).value in tasks;
  }

  lemma TerminalsAreNotReached(tasks: Plan, key: string, terminal: string)
    requires terminal in TerminalTaskKeys(tasks) && Reaches(tasks, key, terminal)
    ensures key == terminal
  {
    var path :| IsPath(tasks, path) && path[0] == key && path[|path| - 1] == terminal;
    if |path| > 1 {
      EdgesMeetNoTerminal(tasks, path[|path| - 2], path[|path| - 1]);
    }
  }

  /** If every root is a terminal task, every task lies in the cone of a terminal task. */
  lemma SomeOutcomeReaches(tasks: Plan, key: string) returns (outcome: string)
    requires RootsAreTerminal(tasks) && FindTask(tasks, key).Some?
    ensures outcome in TerminalTaskKeys(tasks) && Reaches(tasks, outcome, key)
  {
    outcome := SomeRootReaches(tasks, key);
  }

  /** Exactly when no task at all can be hidden: every task is in the cone of an outcome if and only if
      every root of the plan is a terminal task, whatever the adapters. */
  lemma CoverageIsByRoots(tasks: Plan)
    ensures (forall key :: FindTask(tasks, key).Some? ==> IsCovered(tasks, key)) <==> RootsAreTerminal(tasks)
  {
    if RootsAreTerminal(tasks) {
      forall key | FindTask(tasks, key).Some?
        ensures IsCovered(tasks, key)
      {
        var outcome := SomeOutcomeReaches(tasks, key);
      }
    }
    forall key | IsRoot(tasks, key) && IsCovered(tasks, key)
      ensures key in TerminalTaskKeys(tasks)
    {
      var outcome :| outcome in TerminalTaskKeys(tasks) && Reaches(tasks, outcome, key);
      TerminalsAreNotReached(tasks, key, outcome);
    }
  }

  lemma RootIsUnmentioned(tasks: Plan, key: string, t: PlannedTask)
    requires NothingShadowed(tasks) && Acyclic(tasks) && IsRoot(tasks, key) && t in tasks
    ensures key !in t.dependsOn
  {
    ReachesSelf(tasks, key);
    if key in t.dependsOn {
      EdgeReaches(tasks, t.key, key, key);
    }
  }

  /** Plans without cycles and shadowed dependencies are such plans. */
  lemma AcyclicRootsAreTerminal(tasks: Plan)
    requires NothingShadowed(tasks) && Acyclic(tasks)
    ensures RootsAreTerminal(tasks)
  {
    forall key | IsRoot(tasks, key)
      ensures key in TerminalTaskKeys(tasks)
    {
      assert FindTask(tasks, key).value in tasks;
      forall t | t in tasks
        ensures key !in t.dependsOn
      {
        RootIsUnmentioned(tasks, key, t);
      }
    }
  }

  lemma UniqueKeysShadowNothing(tasks: Plan)
    requires UniqueKeys(tasks)
    ensures NothingShadowed(tasks) && ProvidersResolve(tasks)
  {
    forall t | t in tasks
      ensures FindTask(tasks, t.key) == Some(t)
    {
      FindIsTheTask(tasks, t);
    }
  }

  /** Every provider-backed task is in the dependency cone of a reported outcome, if all roots are
      terminal tasks and no provider task is lost behind another task of its key. */
  lemma NoHiddenProvider(tasks: Plan, t: PlannedTask)
    requires RootsAreTerminal(tasks) && ProvidersResolve(tasks)
    requires t in tasks && t.requiredAdapter != DETERMINISTIC_ADAPTER
    ensures exists outcome ::
      outcome in TerminalTaskKeys(tasks) && ProviderBacked(tasks, outcome) && Reaches(tasks, outcome, t.key)
  {
    var outcome := SomeOutcomeReaches(tasks, t.key);
    assert ProviderBacked(tasks, outcome);
  }

  /** Then some outcome is reported exactly if some key resolves to a provider task. */
  lemma ProviderWorkHasAnOutcome(tasks: Plan, keys: set<string>)
    requires RootsAreTerminal(tasks)
    requires forall k :: k in keys <==> k in TerminalTaskKeys(tasks) && ProviderBacked(tasks, k)
    ensures keys != {} <==> exists k :: IsProvider(tasks, k)
  {
    if k :| IsProvider(tasks, k) {
      var outcome := SomeOutcomeReaches(tasks, k);
      assert ProviderBacked(tasks, outcome);
    }
    if k :| k in keys {
      var provider :| Reaches(tasks, k, provider) && IsProvider(tasks, provider);
    }
  }

  /** For plans with unique keys and no cycle: exactly if there is a provider task. */
  lemma ValidPlansShowProviders(tasks: Plan, keys: set<string>)
    requires UniqueKeys(tasks) && Acyclic(tasks)
    requires forall k :: k in keys <==> k in TerminalTaskKeys(tasks) && ProviderBacked(tasks, k)
    ensures keys != {} <==> exists t :: t in tasks && t.requiredAdapter != DETERMINISTIC_ADAPTER
  {
    UniqueKeysShadowNothing(tasks);
    AcyclicRootsAreTerminal(tasks);
    ProviderWorkHasAnOutcome(tasks, keys);
    if t :| t in tasks && t.requiredAdapter != DETERMINISTIC_ADAPTER {
      assert IsProvider(tasks, t.key);
    }
    if k :| IsProvider(tasks, k) {
      assert FindTask(tasks, k).value in tasks;
    }
  }

  /** A plan that is one cycle has provider tasks and no outcome at all. */
  lemma CycleHidesProvider()
    ensures var tasks := [PlannedTask("a", "codex", ["b"]), PlannedTask("b", "codex", ["a"])];
            UniqueKeys(tasks) && !Acyclic(tasks) && IsProvider(tasks, "a") && TerminalTaskKeys(tasks) == {}
  {
    var a, b := PlannedTask("a", "codex", ["b"]), PlannedTask("b", "codex", ["a"]);
    var tasks := [a, b];
    assert tasks[0] == a && tasks[1] == b && "b" in a.dependsOn && "a" in b.dependsOn;
    assert FindTask(tasks, "a") == Some(a);
    assert tasks[1..] == [b];
    assert FindTask(tasks, "b") == Some(b);
    ReachesSelf(tasks, "a");
    EdgeReaches(tasks, "b", "a", "a");
    assert Edge(tasks, "a", "b");
    assert TerminalTaskKeys(tasks) == {};
  }

  /** A repeated key shadows the dependencies of every task but the first of that key. */
  lemma RepeatedKeyHidesProvider()
    ensures var tasks := [PlannedTask("a", "fake-process", []), PlannedTask("a", "fake-process", ["b"]),
                          PlannedTask("b", "codex", [])];
            Acyclic(tasks) && !NothingShadowed(tasks) && IsProvider(tasks, "b") && !ProviderBacked(tasks, "a")
            && TerminalTaskKeys(tasks) == {"a"}
  {
    var a, a' := PlannedTask("a", "fake-process", []), PlannedTask("a", "fake-process", ["b"]);
    var b := PlannedTask("b", "codex", []);
    var tasks := [a, a', b];
    assert tasks[0] == a && tasks[1] == a' && tasks[2] == b && "b" in a'.dependsOn;
    assert tasks[1..] == [a', b] && tasks[1..][1..] == [b];
    assert FindTask(tasks, "a") == Some(a) && FindTask(tasks[1..][1..], "b") == Some(b);
    assert FindTask(tasks, "b") == Some(b);
    forall x, y
      ensures !Edge(tasks, x, y)
    {
      assert x != "a" && x != "b" ==> FindTask(tasks, x).None?;
    }
    forall k | Reaches(tasks, "a", k)
      ensures k == "a"
    {
      var path :| IsPath(tasks, path) && path[0] == "a" && path[|path| - 1] == k;
      PathStaysInClosedSet(tasks, path, {"a"});
    }
    assert a' in tasks && !Edge(tasks, a'.key, "b");
    assert TerminalTaskKeys(tasks) == {"a"};
  }

  /** And it shadows their adapters: a provider task behind a deterministic one of its key. */
  lemma RepeatedKeyHidesAdapter()
    ensures var tasks := [PlannedTask("a", "fake-process", []), PlannedTask("a", "codex", [])];
            && Acyclic(tasks) && NothingShadowed(tasks) && RootsAreTerminal(tasks) && !ProvidersResolve(tasks)
            && TerminalTaskKeys(tasks) == {"a"} && forall k :: !ProviderBacked(tasks, k)
  {
    var a, a' := PlannedTask("a", "fake-process", []), PlannedTask("a", "codex", []);
    var tasks := [a, a'];
    assert tasks[0] == a && tasks[1] == a';
    assert forall t :: t in tasks ==> t.dependsOn == [];
    forall k
      ensures !IsProvider(tasks, k)
    {
      assert k == "a" ==> FindTask(tasks, k) == Some(a);
    }
    assert a' in tasks && !IsProvider(tasks, a'.key);
    AcyclicRootsAreTerminal(tasks);
    assert TerminalTaskKeys(tasks) == {"a"};
  }
}
