/** The project dependency graph: construction with cycle detection, the reverse
    index, readiness, and the projects a newly live project makes ready. */
module DependencyGraph {
  import opened Wrappers
  import S = SessionTracker

  type Graph = map<string, seq<string>>

  function Deps(g: Graph, project: string): seq<string> {
    if project in g then g[project] else []
  }

  predicate Edge(g: Graph, from: string, to: string) {
    to in Deps(g, from)
  }

  /** Every configured project and everything depended on. */
  ghost function Projects(g: Graph): set<string> {
    g.Keys + set p, d | p in g && d in g[p] :: d
  }

  ghost predicate IsWalk(g: Graph, walk: seq<string>) {
    forall i, j :: 0 <= i && j == i + 1 && j < |walk| ==> Edge(g, walk[i], walk[j])
  }

  /** A walk along dependency edges that returns to where it started; a self-loop is [p, p]. */
  ghost predicate ClosedWalk(g: Graph, walk: seq<string>) {
    |walk| >= 2 && walk[0] == walk[|walk| - 1] && IsWalk(g, walk)
  }

  ghost predicate Acyclic(g: Graph) {
    forall walk :: !ClosedWalk(g, walk)
  }

  /** Each listed project once, after everything it depends on. */
  ghost predicate DependenciesFirst(g: Graph, order: seq<string>) {
    && (forall i, j :: 0 <= i < j < |order| ==> order[i] != order[j])
    && (forall i, d :: 0 <= i < |order| && d in Deps(g, order[i]) ==> d in order[..i])
  }

  ghost predicate IsSchedule(g: Graph, order: seq<string>) {
    DependenciesFirst(g, order) && forall p :: p in Projects(g) <==> p in order
  }

  /** The graphs the constructor accepts. */
  ghost predicate Accepted(g: Graph) {
    exists order :: IsSchedule(g, order)
  }

  ghost function Position(order: seq<string>, p: string): nat
    requires p in order
    ensures Position(order, p) < |order| && order[Position(order, p)] == p
  {
    var i :| 0 <= i < |order| && order[i] == p;
    i
  }

  lemma EdgeGoesBack(g: Graph, order: seq<string>, from: string, to: string)
    requires DependenciesFirst(g, order) && from in order && Edge(g, from, to)
    ensures to in order && Position(order, to) < Position(order, from)
  {
    var i := Position(order, from);
    var j :| 0 <= j < i && order[..i][j] == to;
    assert order[j] == to;
  }

  lemma {:induction false} WalkGoesBack(g: Graph, order: seq<string>, walk: seq<string>)
    requires DependenciesFirst(g, order) && |walk| >= 2 && walk[0] in order
    requires IsWalk(g, walk)
    ensures walk[|walk| - 1] in order && Position(order, walk[|walk| - 1]) < Position(order, walk[0])
  {
    EdgeGoesBack(g, order, walk[0], walk[1]);
    if |walk| > 2 {
      var rest := walk[1..];
      forall i | 0 <= i < |rest| - 1
        ensures Edge(g, rest[i], rest[i + 1])
      {
        assert rest[i] == walk[i + 1];
      }
      WalkGoesBack(g, order, rest);
    }
  }

  /** A graph with a schedule has no closed walk. */
  lemma ScheduleMeansAcyclic(g: Graph)
    requires Accepted(g)
    ensures Acyclic(g)
  {
    var order :| IsSchedule(g, order);
    forall walk
      ensures !ClosedWalk(g, walk)
    {
      if ClosedWalk(g, walk) {
        assert Edge(g, walk[0], walk[1]);
        assert walk[0] in Projects(g);
        WalkGoesBack(g, order, walk);
      }
    }
  }

  lemma FinishedExtends(g: Graph, finished: seq<string>, node: string)
    requires DependenciesFirst(g, finished) && node !in finished
    requires forall d :: d in Deps(g, node) ==> d in finished
    ensures DependenciesFirst(g, finished + [node])
  {
    var longer := finished + [node];
    forall i, d | 0 <= i < |longer| && d in Deps(g, longer[i])
      ensures d in longer[..i]
    {
      if i < |finished| {
        assert longer[..i] == finished[..i];
      } else {
        assert longer[..i] == finished;
      }
    }
  }

  lemma BackEdgeClosesWalk(g: Graph, path: seq<string>, start: nat)
    requires IsWalk(g, path) && start < |path| && Edge(g, path[|path| - 1], path[start])
    ensures ClosedWalk(g, path[start..] + [path[start]])
  {
    var walk := path[start..] + [path[start]];
    forall i | 0 <= i < |walk| - 1
      ensures Edge(g, walk[i], walk[i + 1])
    {
      assert walk[i] == path[start + i];
    }
  }

  // ----- Reverse index

  /** How often x occurs in s. */
  ghost function Count(s: seq<string>, x: string): nat {
    if s == [] then 0 else Count(s[..|s| - 1], x) + (if s[|s| - 1] == x then 1 else 0)
  }

  lemma CountAppend(s: seq<string>, y: string, x: string)
    ensures Count(s + [y], x) == Count(s, x) + (if y == x then 1 else 0)
  {
    assert (s + [y])[..|s|] == s;
  }

  lemma {:induction false} MemberByCount(s: seq<string>, x: string)
    ensures x in s <==> Count(s, x) > 0
  {
    if s != [] {
      MemberByCount(s[..|s| - 1], x);
      assert s == s[..|s| - 1] + [s[|s| - 1]];
    }
  }

  function AddDependent(reverse: Graph, dep: string, project: string): Graph {
    reverse[dep := Deps(reverse, dep) + [project]]
  }

  lemma AddDependentCounts(reverse: Graph, dep: string, project: string, d: string, p: string)
    ensures Count(Deps(AddDependent(reverse, dep, project), d), p)
            == Count(Deps(reverse, d), p) + (if d == dep && p == project then 1 else 0)
  {
    if d == dep {
      CountAppend(Deps(reverse, dep), project, p);
    }
  }

  /** `reverse` indexes the edges out of `done`, with their multiplicities. */
  ghost predicate Indexes(reverse: Graph, g: Graph, done: set<string>) {
    forall p, d :: Count(Deps(reverse, d), p) == if p in done then Count(Deps(g, p), d) else 0
  }

  lemma DependentsAreReverse(g: Graph, reverse: Graph, p: string, d: string)
    requires Count(Deps(reverse, d), p) == Count(Deps(g, p), d)
    ensures p in Deps(reverse, d) <==> Edge(g, p, d)
  {
    MemberByCount(Deps(reverse, d), p);
    MemberByCount(Deps(g, p), d);
  }

  // ----- Readiness

  type Sessions = map<string, S.Session>

  predicate IsLive(session: S.Session) {
    session.status != S.ERROR && session.status != S.UNREACHABLE
  }

  /** The projects of the graph that have a live session. */
  ghost function LiveProjects(g: Graph, sessions: Sessions): set<string> {
    set p | p in Projects(g) && HasLive(sessions, p)
  }

  ghost predicate HasLive(sessions: Sessions, project: string) {
    exists id :: id in sessions && sessions[id].project == project && IsLive(sessions[id])
  }

  ghost predicate Ready(g: Graph, project: string, live: set<string>) {
    forall d :: d in Deps(g, project) ==> d in live
  }

  /** What a trigger for `project` may start: its dependents all of whose dependencies are live.
      A trigger for the empty name is refused, so it starts nothing. */
  ghost function TriggeredBy(g: Graph, project: string, live: set<string>): set<string> {
    if project == "" then {} else set q | q in g && Edge(g, q, project) && Ready(g, q, live)
  }

  /** A project is live without the given node: some session elsewhere is neither in error nor unreachable. */
  ghost predicate LiveElsewhere(sessions: Sessions, project: string, nodeId: string) {
    exists id :: id in sessions && sessions[id].project == project && sessions[id].nodeId != nodeId
                 && sessions[id].status != "error" && sessions[id].status != "unreachable"
  }

  /** When a node is lost a project stays live exactly when it has a live session elsewhere. */
  lemma LostNodeIff(s: S.Store, nodeId: string, project: string)
    ensures HasLive(S.AfterMarkUnreachable(s, nodeId, true).cache, project) <==> LiveElsewhere(s.cache, project, nodeId)
  {
    var t := S.AfterMarkUnreachable(s, nodeId, true);
    if id :| id in s.cache && s.cache[id].project == project && s.cache[id].nodeId != nodeId
             && s.cache[id].status != "error" && s.cache[id].status != "unreachable" {
      S.MarkSilencesNode(s, nodeId, id);
      assert id in t.cache && t.cache[id].project == project && IsLive(t.cache[id]);
    }
    if id :| id in t.cache && t.cache[id].project == project && IsLive(t.cache[id]) {
      S.MarkSilencesNode(s, nodeId, id);
      assert id in s.cache;
    }
  }

  /** Losing a node readies no project, and leaves ready exactly those whose dependencies all live elsewhere. */
  lemma LostNodeReadyIff(g: Graph, s: S.Store, nodeId: string, project: string)
    ensures var t := S.AfterMarkUnreachable(s, nodeId, true);
            && (Ready(g, project, LiveProjects(g, t.cache)) <==>
                forall d :: d in Deps(g, project) ==> LiveElsewhere(s.cache, d, nodeId))
            && (Ready(g, project, LiveProjects(g, t.cache)) ==> Ready(g, project, LiveProjects(g, s.cache)))
  {
    var t := S.AfterMarkUnreachable(s, nodeId, true);
    forall d | d in Deps(g, project)
      ensures d in LiveProjects(g, t.cache) <==> LiveElsewhere(s.cache, d, nodeId)
      ensures d in LiveProjects(g, t.cache) ==> d in LiveProjects(g, s.cache)
    {
      LostNodeIff(s, nodeId, d);
      assert d in Projects(g);
      if LiveElsewhere(s.cache, d, nodeId) {
        var id :| id in s.cache && s.cache[id].project == d && s.cache[id].nodeId != nodeId
                  && s.cache[id].status != "error" && s.cache[id].status != "unreachable";
        assert IsLive(s.cache[id]);
      }
    }
  }

  ghost function SessionsOf(tracker: S.SessionTracker?): Sessions
    reads tracker
  {
    if tracker == null then map[] else tracker.sessions
  }

  /** The marks of one validation, shared by all recursive calls of the search. */
  class Marks {
    var visited: set<string>
    var inStack: set<string>
    // Finished projects, in the order they were finished.
    ghost var finished: seq<string>

    constructor ()
      ensures visited == inStack == {} && finished == []
    {
      visited, inStack, finished := {}, {}, [];
    }

    /** `path` is the walk of the projects in progress; the finished ones are ordered dependencies first. */
    ghost predicate Tracks(g: Graph, path: seq<string>)
      reads this
    {
      && (forall p :: p in inStack <==> p in path)
      && (forall p :: p in visited <==> p in path || p in finished)
      && (forall p :: p in path ==> p !in finished)
      && DependenciesFirst(g, finished)
      && IsWalk(g, path)
    }

    method Enter(g: Graph, path: seq<string>, node: string)
      requires Tracks(g, path) && node !in visited
      requires path != [] ==> Edge(g, path[|path| - 1], node)
      modifies this`visited, this`inStack
      ensures Tracks(g, path + [node])
      ensures visited == old(visited) + {node}
    {
      visited := visited + {node};
      inStack := inStack + {node};
    }

    /** Finishing a project whose dependencies are all finished extends the order. */
    method Leave(g: Graph, path: seq<string>, node: string)
      requires Tracks(g, path + [node]) && node !in path
      requires forall d :: d in Deps(g, node) ==> d in finished
      modifies this`inStack, this`finished
      ensures Tracks(g, path) && finished == old(finished) + [node]
    {
      var here := path + [node];
      assert node in here && node in inStack;
      forall i | 0 <= i < |path| - 1
        ensures Edge(g, path[i], path[i + 1])
      {
        assert here[i] == path[i] && here[i + 1] == path[i + 1];
      }
      FinishedExtends(g, finished, node);
      inStack := inStack - {node};
      finished := finished + [node];
    }
  }

  class DependencyGraph {
    var graph: Graph
    var reverseGraph: Graph
    var allProjects: set<string>

    /** The project set is complete and the reverse index lists each dependent as often as it names the project. */
    ghost predicate Valid()
      reads this
    {
      && allProjects == Projects(graph)
      && forall p, d :: Count(Deps(reverseGraph, d), p) == Count(Deps(graph, p), d)
    }

    constructor ()
      ensures graph == reverseGraph == map[] && allProjects == {}
    {
      graph, reverseGraph, allProjects := map[], map[], {};
    }

    method DetectCycleDFS(node: string, marks: Marks, path: seq<string>) returns (cycle: seq<string>)
      requires allProjects == Projects(graph) && node in allProjects && node !in marks.visited
      requires marks.Tracks(graph, path) && marks.visited <= allProjects
      requires path != [] ==> Edge(graph, path[|path| - 1], node)
      modifies marks
      ensures cycle != [] ==> ClosedWalk(graph, cycle)
      ensures cycle == [] ==> marks.Tracks(graph, path) && node in marks.finished
      ensures cycle == [] ==> old(marks.finished) <= marks.finished && marks.visited <= allProjects
      decreases allProjects - marks.visited, 0
    {
      marks.Enter(graph, path, node);
      cycle := ExploreAll(node, marks, path + [node]);
      if cycle != [] {
        return;
      }
      marks.Leave(graph, path, node);
    }

    /** The loop over the neighbours of the last project on the path. */
    method ExploreAll(node: string, marks: Marks, here: seq<string>) returns (cycle: seq<string>)
      requires allProjects == Projects(graph) && marks.Tracks(graph, here) && marks.visited <= allProjects
      requires here != [] && here[|here| - 1] == node
      modifies marks
      ensures cycle != [] ==> ClosedWalk(graph, cycle)
      ensures cycle == [] ==> marks.Tracks(graph, here) && marks.visited <= allProjects
      ensures cycle == [] ==> forall d :: d in Deps(graph, node) ==> d in marks.finished
      ensures cycle == [] ==> old(marks.finished) <= marks.finished
      decreases allProjects - marks.visited, 2
    {
      var deps := Deps(graph, node);
      cycle := [];
      for i := 0 to |deps|
        invariant marks.Tracks(graph, here) && marks.visited <= allProjects && cycle == []
        invariant old(marks.visited) <= marks.visited && old(marks.finished) <= marks.finished
        invariant forall j :: 0 <= j < i ==> deps[j] in marks.finished
      {
        assert Edge(graph, node, deps[i]);
        cycle := Explore(deps[i], marks, here);
        if cycle != [] {
          return;
        }
      }
    }

    /** One neighbour of the last project on the path: searched when new, a cycle when in progress. */
    method Explore(neighbor: string, marks: Marks, here: seq<string>) returns (cycle: seq<string>)
      requires allProjects == Projects(graph) && marks.Tracks(graph, here) && marks.visited <= allProjects
      requires here != [] && Edge(graph, here[|here| - 1], neighbor)
      modifies marks
      ensures cycle != [] ==> ClosedWalk(graph, cycle)
      ensures cycle == [] ==> marks.Tracks(graph, here) && neighbor in marks.finished
      ensures cycle == [] ==> marks.visited <= allProjects
      ensures cycle == [] ==> old(marks.finished) <= marks.finished && old(marks.visited) <= marks.visited
      decreases allProjects - marks.visited, 1
    {
      cycle := [];
      if neighbor !in marks.visited {
        cycle := DetectCycleDFS(neighbor, marks, here);
      } else if neighbor in marks.inStack {
        cycle := CycleOf(here, neighbor);
      }
    }

    /** The part of the path from the neighbour's first place on it, closed by the neighbour. */
    method CycleOf(path: seq<string>, neighbor: string) returns (cycle: seq<string>)
      requires neighbor in path && IsWalk(graph, path) && Edge(graph, path[|path| - 1], neighbor)
      ensures cycle != [] && ClosedWalk(graph, cycle)
    {
      var cycleStart := FirstIndex(path, neighbor);
      BackEdgeClosesWalk(graph, path, cycleStart);
      cycle := path[cycleStart..] + [neighbor];
    }

    method Validate() returns (cycle: seq<string>)
      requires allProjects == Projects(graph)
      ensures cycle != [] ==> ClosedWalk(graph, cycle)
      ensures cycle == [] ==> Accepted(graph)
    {
      var marks := new Marks();
      var path: seq<string> := [];
      var todo := allProjects;
      while todo != {}
        invariant todo <= allProjects == Projects(graph)
        invariant marks.Tracks(graph, path) && marks.visited <= allProjects
        invariant forall p :: p in allProjects && p !in todo ==> p in marks.finished
        decreases todo
      {
        var project :| project in todo;
        todo := todo - {project};
        if project !in marks.visited {
          cycle := DetectCycleDFS(project, marks, path);
          if cycle != [] {
            return;
          }
        }
      }
      assert IsSchedule(graph, marks.finished);
      return [];
    }

    method GetDependencies(project: string) returns (deps: seq<string>)
      ensures deps == Deps(graph, project)
    {
      return if project in graph then graph[project] else [];
    }

    method GetDependents(project: string) returns (dependents: seq<string>)
      requires Valid()
      ensures dependents == Deps(reverseGraph, project)
      ensures forall q :: q in dependents <==> Edge(graph, q, project)
    {
      forall q
        ensures q in Deps(reverseGraph, project) <==> Edge(graph, q, project)
      {
        DependentsAreReverse(graph, reverseGraph, q, project);
      }
      return if project in reverseGraph then reverseGraph[project] else [];
    }

    method HasCompletedSession(project: string, tracker: S.SessionTracker?) returns (live: bool)
      ensures live <==> HasLive(SessionsOf(tracker), project)
    {
      if tracker == null {
        return false;
      }
      var sessions := tracker.GetSessionsByProject(project);
      for i := 0 to |sessions|
        invariant forall j :: 0 <= j < i ==> !IsLive(sessions[j])
      {
        assert sessions[i] in sessions;
        if sessions[i].status != S.ERROR && sessions[i].status != S.UNREACHABLE {
          return true;
        }
      }
      return false;
    }

    method IsReady(project: string, tracker: S.SessionTracker?) returns (ready: bool)
      ensures ready <==> Ready(graph, project, LiveProjects(graph, SessionsOf(tracker)))
    {
      var deps := GetDependencies(project);
      if |deps| == 0 {
        return true;
      }
      for i := 0 to |deps|
        invariant forall j :: 0 <= j < i ==> deps[j] in LiveProjects(graph, SessionsOf(tracker))
      {
        assert deps[i] in Deps(graph, project);
        var live := HasCompletedSession(deps[i], tracker);
        if !live {
          return false;
        }
      }
      return true;
    }

    method TriggerDependents(project: string, tracker: S.SessionTracker?) returns (r: Result<seq<string>, string>)
      requires Valid()
      ensures r.Err? <==> project == ""
      ensures r.Ok? ==> (set q | q in r.value) == TriggeredBy(graph, project, LiveProjects(graph, SessionsOf(tracker)))
    {
      if project == "" {
        return Err("project name cannot be empty");
      }
      var dependents := GetDependents(project);
      ghost var live := LiveProjects(graph, SessionsOf(tracker));
      var ready: seq<string> := [];
      for i := 0 to |dependents|
        invariant forall q :: q in ready <==> q in dependents[..i] && Ready(graph, q, live)
      {
        assert dependents[..i + 1] == dependents[..i] + [dependents[i]];
        var isReady := IsReady(dependents[i], tracker);
        if isReady {
          ready := ready + [dependents[i]];
        }
      }
      assert dependents[..|dependents|] == dependents;
      return Ok(ready);
    }
  }

  /** Builds and validates a graph; a nil configuration is the empty one. The verdict is
      that of the edge relation alone, whatever the iteration orders. */
  method NewDependencyGraph(config: Graph) returns (dg: DependencyGraph?, cycle: seq<string>)
    ensures dg != null <==> Acyclic(config)
    ensures dg != null ==> fresh(dg) && dg.Valid() && dg.graph == config && Accepted(config)
    ensures dg == null ==> ClosedWalk(config, cycle)
  {
    dg := new DependencyGraph();
    FillGraph(dg, config);
    FillReverse(dg);
    cycle := dg.Validate();
    if cycle != [] {
      dg := null;
    } else {
      ScheduleMeansAcyclic(config);
    }
  }

  lemma ProjectsExtend(g: Graph, project: string, deps: seq<string>)
    requires project !in g
    ensures Projects(g[project := deps]) == Projects(g) + {project} + set d | d in deps
  {
    var g' := g[project := deps];
    forall d | d in deps
      ensures d in Projects(g')
    {
      assert project in g' && d in g'[project];
    }
    forall p, d | p in g && d in g[p]
      ensures d in Projects(g')
    {
      assert p in g' && d in g'[p];
    }
  }

  method FillGraph(dg: DependencyGraph, config: Graph)
    requires dg.graph == dg.reverseGraph == map[] && dg.allProjects == {}
    modifies dg
    ensures dg.graph == config && dg.allProjects == Projects(config) && dg.reverseGraph == map[]
  {
    var todo := config.Keys;
    while todo != {}
      invariant todo <= config.Keys && dg.reverseGraph == map[]
      invariant dg.graph == map p | p in config && p !in todo :: config[p]
      invariant dg.allProjects == Projects(dg.graph)
    {
      var project :| project in todo;
      todo := todo - {project};
      ghost var before := dg.graph;
      var deps := config[project];
      dg.allProjects := dg.allProjects + {project};
      dg.graph := dg.graph[project := deps];
      for i := 0 to |deps|
        invariant dg.reverseGraph == map[] && dg.graph == before[project := deps]
        invariant dg.allProjects == Projects(before) + {project} + set d | d in deps[..i]
      {
        assert deps[..i + 1] == deps[..i] + [deps[i]];
        dg.allProjects := dg.allProjects + {deps[i]};
      }
      assert deps[..|deps|] == deps;
      ProjectsExtend(before, project, deps);
    }
    assert dg.graph == config;
  }

  method FillReverse(dg: DependencyGraph)
    requires dg.reverseGraph == map[]
    modifies dg`reverseGraph
    ensures Indexes(dg.reverseGraph, dg.graph, dg.graph.Keys)
  {
    var todo := dg.graph.Keys;
    ghost var done: set<string> := {};
    while todo != {}
      invariant done == dg.graph.Keys - todo && todo <= dg.graph.Keys
      invariant Indexes(dg.reverseGraph, dg.graph, done)
    {
      var project :| project in todo;
      todo := todo - {project};
      IndexProject(dg, project, done);
      done := done + {project};
    }
    assert done == dg.graph.Keys;
  }

  /** As Indexes, with only the first `upTo` dependencies of `project` indexed. */
  ghost predicate IndexesPart(reverse: Graph, g: Graph, done: set<string>, project: string, upTo: seq<string>) {
    forall p, d :: Count(Deps(reverse, d), p)
                   == if p == project then Count(upTo, d) else if p in done then Count(Deps(g, p), d) else 0
  }

  lemma IndexOneMore(reverse: Graph, g: Graph, done: set<string>, project: string, upTo: seq<string>, dep: string)
    requires IndexesPart(reverse, g, done, project, upTo)
    ensures IndexesPart(AddDependent(reverse, dep, project), g, done, project, upTo + [dep])
  {
    var reverse' := AddDependent(reverse, dep, project);
    forall p, d
      ensures Count(Deps(reverse', d), p)
              == if p == project then Count(upTo + [dep], d) else if p in done then Count(Deps(g, p), d) else 0
    {
      AddDependentCounts(reverse, dep, project, d, p);
      CountAppend(upTo, dep, d);
    }
  }

  method IndexProject(dg: DependencyGraph, project: string, ghost done: set<string>)
    requires project in dg.graph && project !in done && Indexes(dg.reverseGraph, dg.graph, done)
    modifies dg`reverseGraph
    ensures Indexes(dg.reverseGraph, dg.graph, done + {project})
  {
    var deps := dg.graph[project];
    for i := 0 to |deps|
      invariant IndexesPart(dg.reverseGraph, dg.graph, done, project, deps[..i])
    {
      assert deps[..i + 1] == deps[..i] + [deps[i]];
      IndexOneMore(dg.reverseGraph, dg.graph, done, project, deps[..i], deps[i]);
      dg.reverseGraph := AddDependent(dg.reverseGraph, deps[i], project);
    }
    assert deps[..|deps|] == deps;
  }

  method FirstIndex(path: seq<string>, project: string) returns (start: nat)
    requires project in path
    ensures start < |path| && path[start] == project && project !in path[..start]
  {
    start := 0;
    while path[start] != project
      invariant start < |path| && project !in path[..start] && project in path[start..]
      decreases |path| - start
    {
      assert path[start..] == [path[start]] + path[start + 1..];
      start := start + 1;
    }
  }
}
