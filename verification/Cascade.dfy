/** The readiness cascade over an accepted dependency graph: start the projects
    without dependencies, then, after each start, whatever the trigger for the
    newly started project returns. */
module Cascade {
  import opened DependencyGraph

  // ----- Acyclic graphs are exactly the schedulable ones

  lemma {:induction false} NoRepeatsFit(s: seq<string>, within: set<string>)
    requires forall i, j :: 0 <= i < j < |s| ==> s[i] != s[j]
    requires forall x :: x in s ==> x in within
    ensures |s| <= |within|
  {
    if s != [] {
      var last, init := s[|s| - 1], s[..|s| - 1];
      assert forall x :: x in init ==> x in s && x != last;
      NoRepeatsFit(init, within - {last});
    }
  }

  ghost predicate DependsInto(g: Graph, p: string, within: set<string>) {
    exists d :: d in within && Edge(g, p, d)
  }

  ghost function SomeDep(g: Graph, p: string, within: set<string>): (d: string)
    requires DependsInto(g, p, within)
    ensures d in within && Edge(g, p, d)
  {
    var d :| d in within && Edge(g, p, d);
    d
  }

  ghost predicate AllDependInto(g: Graph, within: set<string>) {
    forall p {:trigger DependsInto(g, p, within)} :: p in within ==> DependsInto(g, p, within)
  }

  lemma PrependWalk(g: Graph, from: string, rest: seq<string>)
    requires IsWalk(g, rest) && rest != [] && Edge(g, from, rest[0])
    ensures IsWalk(g, [from] + rest)
  {
    var walk := [from] + rest;
    forall i, j | 0 <= i && j == i + 1 && j < |walk|
      ensures Edge(g, walk[i], walk[j])
    {
      assert walk[j] == rest[i];
      assert i > 0 ==> walk[i] == rest[i - 1];
    }
  }

  lemma SelfLoopCloses(g: Graph, p: string)
    requires Edge(g, p, p)
    ensures ClosedWalk(g, [p, p])
  {
  }

  /** When every project of a set depends on one of the set, walks inside it can be made as long as one likes. */
  lemma {:induction false} LongWalk(g: Graph, within: set<string>, from: string, length: nat)
    returns (walk: seq<string>)
    requires AllDependInto(g, within) && from in within
    ensures |walk| == length + 1 && walk[0] == from && IsWalk(g, walk)
    ensures forall x :: x in walk ==> x in within
    decreases length
  {
    if length == 0 {
      walk := [from];
    } else {
      assert DependsInto(g, from, within);
      var rest := LongWalk(g, within, SomeDep(g, from, within), length - 1);
      walk := [from] + rest;
      PrependWalk(g, from, rest);
    }
  }

  ghost predicate HasRepeat(s: seq<string>) {
    exists i, j :: 0 <= i < j < |s| && s[i] == s[j]
  }

  lemma RepeatClosesWalk(g: Graph, walk: seq<string>)
    requires IsWalk(g, walk) && HasRepeat(walk)
    ensures !Acyclic(g)
  {
    var i, j :| 0 <= i < j < |walk| && walk[i] == walk[j];
    var loop := walk[i..j + 1];
    forall k | 0 <= k < |loop| - 1
      ensures Edge(g, loop[k], loop[k + 1])
    {
      assert loop[k] == walk[i + k] && loop[k + 1] == walk[i + k + 1];
    }
    assert ClosedWalk(g, loop);
  }

  lemma SomeoneDependsOutside(g: Graph, within: set<string>)
    requires Acyclic(g) && within != {}
    ensures exists p :: p in within && !DependsInto(g, p, within)
  {
    if AllDependInto(g, within) {
      var from :| from in within;
      var walk := LongWalk(g, within, from, |within|);
      if !HasRepeat(walk) {
        NoRepeatsFit(walk, within);
      }
      RepeatClosesWalk(g, walk);
    }
  }

  lemma {:induction false} ExtendSchedule(g: Graph, order: seq<string>)
    requires Acyclic(g) && DependenciesFirst(g, order) && forall p :: p in order ==> p in Projects(g)
    ensures Accepted(g)
    decreases Projects(g) - set p | p in order
  {
    var left := Projects(g) - set p | p in order;
    if left == {} {
      assert forall p :: p in Projects(g) && p !in order ==> p in left;
      assert IsSchedule(g, order);
    } else {
      SomeoneDependsOutside(g, left);
      var p :| p in left && !DependsInto(g, p, left);
      forall d | d in Deps(g, p)
        ensures d in order
      {
        assert Edge(g, p, d) && d in Projects(g);
      }
      FinishedExtends(g, order, p);
      assert p in order + [p];
      ExtendSchedule(g, order + [p]);
    }
  }

  lemma AcceptedIffAcyclic(g: Graph)
    ensures Accepted(g) <==> Acyclic(g)
  {
    if Accepted(g) {
      ScheduleMeansAcyclic(g);
    } else if Acyclic(g) {
      ExtendSchedule(g, []);
    }
  }

  // ----- The scheduler cannot deadlock

  /** While some project has no live session, one such project is ready. */
  lemma SomeoneIsReady(g: Graph, live: set<string>)
    requires Acyclic(g) && !(Projects(g) <= live)
    ensures exists p :: p in Projects(g) && p !in live && Ready(g, p, live)
  {
    var idle := Projects(g) - live;
    var q :| q in Projects(g) && q !in live;
    assert q in idle;
    SomeoneDependsOutside(g, idle);
    var p :| p in idle && !DependsInto(g, p, idle);
    forall d | d in Deps(g, p)
      ensures d in live
    {
      assert Edge(g, p, d) && d in Projects(g);
    }
  }

  /** A project that a new session for d makes ready is among those the trigger for d returns. */
  lemma TurnedReadyIsTriggered(g: Graph, live: set<string>, d: string, q: string)
    requires d != "" && !Ready(g, q, live) && Ready(g, q, live + {d})
    ensures q in TriggeredBy(g, d, live + {d})
  {
    var e :| e in Deps(g, q) && e !in live;
    assert e == d;
  }

  // ----- Runs of the cascade

  datatype Sched = Sched(started: set<string>, agenda: set<string>)

  ghost function Begin(g: Graph): Sched {
    Sched({}, set p | p in Projects(g) && Deps(g, p) == [])
  }

  /** Starts a project from the agenda and puts what its trigger returns on the agenda. */
  ghost function Start(g: Graph, s: Sched, p: string): Sched
    requires p in s.agenda
  {
    var started := s.started + {p};
    Sched(started, s.agenda - {p} + (TriggeredBy(g, p, started) - started))
  }

  /** The state after choosing projects in the given order; a choice that is not on the agenda does not happen. */
  ghost function After(g: Graph, picks: seq<string>): Sched {
    if picks == [] then Begin(g)
    else
      var s := After(g, picks[..|picks| - 1]);
      if picks[|picks| - 1] in s.agenda then Start(g, s, picks[|picks| - 1]) else s
  }

  /** Started and scheduled projects are ready, and every ready project is started or scheduled
      unless it depends on "". */
  ghost predicate Inv(g: Graph, s: Sched) {
    && s.started + s.agenda <= Projects(g) && s.started !! s.agenda
    && (forall q :: q in s.started + s.agenda ==> Ready(g, q, s.started))
    && (forall q :: q in Projects(g) && Ready(g, q, s.started) && !Edge(g, q, "") ==> q in s.started + s.agenda)
  }

  lemma StartKeeps(g: Graph, s: Sched, p: string)
    requires Inv(g, s) && p in s.agenda
    ensures Inv(g, Start(g, s, p))
  {
    var t := Start(g, s, p);
    forall q | q in Projects(g) && Ready(g, q, t.started) && !Edge(g, q, "")
      ensures q in t.started + t.agenda
    {
      if !Ready(g, q, s.started) {
        var e :| e in Deps(g, q) && e !in s.started;
        assert e == p && p != "";
        TurnedReadyIsTriggered(g, s.started, p, q);
      }
    }
  }

  lemma {:induction false} AfterKeeps(g: Graph, picks: seq<string>)
    ensures Inv(g, After(g, picks))
  {
    if picks != [] {
      var before := picks[..|picks| - 1];
      AfterKeeps(g, before);
      if picks[|picks| - 1] in After(g, before).agenda {
        StartKeeps(g, After(g, before), picks[|picks| - 1]);
      }
    } else {
      forall q | q in Projects(g) && Deps(g, q) != []
        ensures !Ready(g, q, {})
      {
        assert Deps(g, q)[0] in Deps(g, q);
      }
    }
  }

  /** Continues a run, never choosing "", until nothing else is on the agenda. */
  lemma {:induction false} DrainOthers(g: Graph, picks: seq<string>) returns (more: seq<string>)
    requires "" !in After(g, picks).started
    ensures "" !in After(g, more).started && After(g, more).agenda <= {""}
    decreases Projects(g) - After(g, picks).started
  {
    AfterKeeps(g, picks);
    var s := After(g, picks);
    if s.agenda <= {""} {
      more := picks;
    } else {
      var p :| p in s.agenda && p != "";
      assert (picks + [p])[..|picks|] == picks;
      more := DrainOthers(g, picks + [p]);
    }
  }

  /** Each pick is on the agenda when it is chosen. */
  ghost predicate Proper(g: Graph, picks: seq<string>) {
    picks != [] ==>
      var before := picks[..|picks| - 1];
      Proper(g, before) && picks[|picks| - 1] in After(g, before).agenda
  }

  /** Every pick starts one more project, so a cascade makes at most as many as there are projects. */
  lemma {:induction false} EachPickStartsOne(g: Graph, picks: seq<string>)
    requires Proper(g, picks)
    ensures |After(g, picks).started| == |picks| <= |Projects(g)|
  {
    AfterKeeps(g, picks);
    if picks != [] {
      var before, p := picks[..|picks| - 1], picks[|picks| - 1];
      EachPickStartsOne(g, before);
      AfterKeeps(g, before);
      assert p !in After(g, before).started;
    }
    SubsetSmaller(After(g, picks).started, Projects(g));
  }

  lemma SubsetSmaller(a: set<string>, b: set<string>)
    requires a <= b
    ensures |a| <= |b|
  {
    assert b == a + (b - a);
  }

  /** From any point, picking on while something is on the agenda comes to an end, whatever is picked. */
  lemma {:induction false} CascadeFinishes(g: Graph, picks: seq<string>) returns (all: seq<string>)
    requires Proper(g, picks)
    ensures picks <= all && Proper(g, all) && After(g, all).agenda == {}
    decreases |Projects(g)| - |picks|
  {
    all := picks;
    if p :| p in After(g, picks).agenda {
      var more := picks + [p];
      assert more[..|picks|] == picks;
      EachPickStartsOne(g, more);
      all := CascadeFinishes(g, more);
    }
  }

  /** When no project depends on the empty name, every cascade, continued from any point, has started every
      project after exactly as many picks as there are projects. */
  lemma EveryProjectStarts(g: Graph, picks: seq<string>)
    requires Acyclic(g) && Proper(g, picks) && forall p :: !Edge(g, p, "")
    ensures |picks| <= |Projects(g)|
    ensures After(g, picks).started == Projects(g) <==> |picks| == |Projects(g)|
    ensures |picks| < |Projects(g)| ==> After(g, picks).agenda != {}
  {
    EachPickStartsOne(g, picks);
    AfterKeeps(g, picks);
    CascadeStartsAllIff(g);
    assert StartsAll(g, picks);
    if |picks| == |Projects(g)| {
      SameSizeSame(After(g, picks).started, Projects(g));
    }
  }

  lemma SameSizeSame(a: set<string>, b: set<string>)
    requires a <= b && |a| == |b|
    ensures a == b
  {
    assert b == a + (b - a) && |b| == |a| + |b - a|;
  }

  ghost predicate StartsAll(g: Graph, picks: seq<string>) {
    After(g, picks).agenda == {} ==> After(g, picks).started == Projects(g)
  }

  /** When a project depends on "", leaving "" to the end gives a finished run that never starts it. */
  lemma EmptyNameStrands(g: Graph, p: string) returns (picks: seq<string>)
    requires Acyclic(g) && Edge(g, p, "")
    ensures After(g, picks).agenda == {} && p in Projects(g) - After(g, picks).started
  {
    var most := DrainOthers(g, []);
    AfterKeeps(g, most);
    var s := After(g, most);
    assert p != "" by {
      if p == "" {
        SelfLoopCloses(g, p);
      }
    }
    if "" in s.agenda {
      picks := most + [""];
      assert picks[..|most|] == most;
    } else {
      picks := most;
    }
  }

  /** Every finished run of the cascade has started every project exactly when no project depends on
      the empty name, whose trigger is refused. */
  lemma CascadeStartsAllIff(g: Graph)
    requires Acyclic(g)
    ensures (forall picks :: StartsAll(g, picks)) <==> (forall p :: !Edge(g, p, ""))
  {
    if p :| Edge(g, p, "") {
      var picks := EmptyNameStrands(g, p);
      assert !StartsAll(g, picks);
    } else {
      forall picks
        ensures StartsAll(g, picks)
      {
        AfterKeeps(g, picks);
        if !(Projects(g) <= After(g, picks).started) {
          SomeoneIsReady(g, After(g, picks).started);
        }
      }
    }
  }
}
