/** The bounded queue between the pipeline and the database as a state machine.
    Releasing a batch happens under the pipeline's lock, enqueueing its events one by one
    does not, so producers for different agents and the worker interleave
    freely between those steps. Calls for one agent are serialised. */
module PersistQueue {
  import opened EventStream
  import opened PipelineRuns
  import P = EventPipeline

  datatype Tagged = Tagged(agent: string, event: Event)

  datatype Worker = Serving | Draining | Exited

  /** `inHand` holds each agent's released events not yet offered to the queue;
      `late` counts offers made after the worker has exited. */
  datatype Queueing = Queueing(
    streams: Streams, inHand: map<string, seq<Event>>,
    queue: seq<Tagged>, attempted: seq<Tagged>, dropped: seq<Tagged>,
    stopRequested: bool, worker: Worker, late: nat)

  const INITIAL := Queueing(map[], map[], [], [], [], false, Serving, 0)

  datatype Step =
    | Release(agent: string, event: Event)
    | Offer(agent: string)
    | Persist
    | RequestStop
    | NoticeStop
    | WorkerReturns

  function Hand(s: Queueing, agent: string): seq<Event> {
    if agent in s.inHand then s.inHand[agent] else []
  }

  predicate Enabled(s: Queueing, step: Step) {
    match step
    case Release(agent, event) => Hand(s, agent) == [] && event.num > 0
    case Offer(agent) => Hand(s, agent) != []
    case Persist => s.worker != Exited && s.queue != []
    case RequestStop => true
    case NoticeStop => s.worker == Serving && s.stopRequested
    case WorkerReturns => s.worker == Draining && s.queue == []
  }

  function Next(s: Queueing, step: Step): Queueing
    requires Enabled(s, step)
  {
    match step
    case Release(agent, event) =>
      var before := StreamAt(s.streams, agent);
      var after := Accept(before, event);
      s.(streams := s.streams[agent := after],
         inHand := s.inHand[agent := if |before.released| <= |after.released|
                                     then after.released[|before.released|..] else []])
    case Offer(agent) =>
      var item := Tagged(agent, Hand(s, agent)[0]);
      var rest := s.(inHand := s.inHand[agent := Hand(s, agent)[1..]],
                     late := if s.worker == Exited then s.late + 1 else s.late);
      if |s.queue| < P.PERSIST_QUEUE_SIZE
      then rest.(queue := s.queue + [item])
      else rest.(dropped := s.dropped + [item])
    case Persist => s.(attempted := s.attempted + [s.queue[0]], queue := s.queue[1..])
    case RequestStop => s.(stopRequested := true)
    case NoticeStop => s.(worker := Draining)
    case WorkerReturns => s.(worker := Exited)
  }

  /** The state after a run; steps that are not enabled when their turn comes do not happen. */
  function After(steps: seq<Step>): Queueing {
    if steps == [] then INITIAL
    else
      var s := After(steps[..|steps| - 1]);
      var step := steps[|steps| - 1];
      if Enabled(s, step) then Next(s, step) else s
  }

  function OnlyFor(items: seq<Tagged>, agent: string): seq<Event> {
    if items == [] then []
    else
      var last := items[|items| - 1];
      OnlyFor(items[..|items| - 1], agent) + (if last.agent == agent then [last.event] else [])
  }

  lemma {:induction false} OnlyForConcat(a: seq<Tagged>, b: seq<Tagged>, agent: string)
    ensures OnlyFor(a + b, agent) == OnlyFor(a, agent) + OnlyFor(b, agent)
  {
    if b == [] {
      assert a + b == a;
    } else {
      OnlyForConcat(a, b[..|b| - 1], agent);
      assert (a + b)[..|a + b| - 1] == a + b[..|b| - 1];
    }
  }

  lemma OnlyForOne(items: seq<Tagged>, item: Tagged, agent: string)
    ensures OnlyFor(items + [item], agent)
            == OnlyFor(items, agent) + (if item.agent == agent then [item.event] else [])
  {
    assert (items + [item])[..|items|] == items;
  }

  /** `all` is an interleaving of `a` and `b`: every element comes from exactly one of them, in order. */
  ghost predicate Shuffle(a: seq<Event>, b: seq<Event>, all: seq<Event>)
    decreases all
  {
    if all == [] then a == [] && b == []
    else
      var e, rest := all[|all| - 1], all[..|all| - 1];
      || (a != [] && a[|a| - 1] == e && Shuffle(a[..|a| - 1], b, rest))
      || (b != [] && b[|b| - 1] == e && Shuffle(a, b[..|b| - 1], rest))
  }

  lemma ShuffleExtends(a: seq<Event>, b: seq<Event>, all: seq<Event>, e: Event)
    requires Shuffle(a, b, all)
    ensures Shuffle(a + [e], b, all + [e]) && Shuffle(a, b + [e], all + [e])
  {
    assert (a + [e])[..|a|] == a && (b + [e])[..|b|] == b && (all + [e])[..|all|] == all;
  }

  function Offered(stream: Stream, hand: seq<Event>): seq<Event> {
    if |hand| <= |stream.released| then stream.released[..|stream.released| - |hand|] else []
  }

  function Through(s: Queueing, agent: string): seq<Event> {
    OnlyFor(s.attempted + s.queue, agent)
  }

  function Lost(s: Queueing, agent: string): seq<Event> {
    OnlyFor(s.dropped, agent)
  }

  /** The batch in hand is the tail of what the agent released; what was offered before it is
      an interleaving of what went through the queue (attempted, then queued) and what was dropped. */
  ghost predicate Accounted(s: Queueing, agent: string) {
    var stream, hand := StreamAt(s.streams, agent), Hand(s, agent);
    && stream.released == Offered(stream, hand) + hand
    && Shuffle(Through(s, agent), Lost(s, agent), Offered(stream, hand))
  }

  /** An offer moves the head of the hand either through the queue or to the dropped events. */
  lemma OfferEffect(s: Queueing, agent: string)
    requires Enabled(s, Offer(agent))
    ensures var t, e := Next(s, Offer(agent)), Hand(s, agent)[0];
            || (Through(t, agent) == Through(s, agent) + [e] && Lost(t, agent) == Lost(s, agent))
            || (Through(t, agent) == Through(s, agent) && Lost(t, agent) == Lost(s, agent) + [e])
  {
    var item := Tagged(agent, Hand(s, agent)[0]);
    if |s.queue| < P.PERSIST_QUEUE_SIZE {
      OnlyForOne(s.attempted + s.queue, item, agent);
      assert s.attempted + (s.queue + [item]) == (s.attempted + s.queue) + [item];
    } else {
      OnlyForOne(s.dropped, item, agent);
    }
  }

  /** An offer for one agent changes nothing of another's account. */
  lemma OfferFrame(s: Queueing, who: string, agent: string)
    requires Enabled(s, Offer(who)) && who != agent
    ensures var t := Next(s, Offer(who));
            && Through(t, agent) == Through(s, agent) && Lost(t, agent) == Lost(s, agent)
            && t.streams == s.streams && Hand(t, agent) == Hand(s, agent)
  {
    var item := Tagged(who, Hand(s, who)[0]);
    if |s.queue| < P.PERSIST_QUEUE_SIZE {
      OnlyForOne(s.attempted + s.queue, item, agent);
      assert s.attempted + (s.queue + [item]) == (s.attempted + s.queue) + [item];
      assert Through(s, agent) + [] == Through(s, agent);
    } else {
      OnlyForOne(s.dropped, item, agent);
      assert Lost(s, agent) + [] == Lost(s, agent);
    }
  }

  lemma OwnOfferKeepsAccounts(s: Queueing, agent: string)
    requires Enabled(s, Offer(agent)) && Accounted(s, agent)
    ensures Accounted(Next(s, Offer(agent)), agent)
  {
    var stream, hand, t := StreamAt(s.streams, agent), Hand(s, agent), Next(s, Offer(agent));
    var offered := Offered(stream, hand);
    OfferEffect(s, agent);
    ShuffleExtends(Through(s, agent), Lost(s, agent), offered, hand[0]);
    assert Hand(t, agent) == hand[1..];
    assert hand == [hand[0]] + hand[1..];
    assert stream.released == (offered + [hand[0]]) + hand[1..];
    assert Offered(stream, hand[1..]) == offered + [hand[0]];
  }

  lemma OtherOfferKeepsAccounts(s: Queueing, who: string, agent: string)
    requires Enabled(s, Offer(who)) && who != agent && Accounted(s, agent)
    ensures Accounted(Next(s, Offer(who)), agent)
  {
    OfferFrame(s, who, agent);
    SameParts(s, Next(s, Offer(who)), agent);
  }

  /** An account depends on the agent's stream, hand, through and lost events alone. */
  lemma SameParts(s: Queueing, t: Queueing, agent: string)
    requires Accounted(s, agent)
    requires StreamAt(t.streams, agent) == StreamAt(s.streams, agent) && Hand(t, agent) == Hand(s, agent)
    requires Through(t, agent) == Through(s, agent) && Lost(t, agent) == Lost(s, agent)
    ensures Accounted(t, agent)
  {
  }

  /** A release by the agent itself: its hand was empty, and is now what was newly released. */
  lemma OwnReleaseKeepsAccounts(s: Queueing, event: Event, agent: string)
    requires Enabled(s, Release(agent, event)) && Accounted(s, agent) && WellFormed(StreamAt(s.streams, agent))
    ensures Accounted(Next(s, Release(agent, event)), agent)
  {
    var before, t := StreamAt(s.streams, agent), Next(s, Release(agent, event));
    AcceptKeeps(before, event);
    var after := Accept(before, event);
    var hand := after.released[|before.released|..];
    assert StreamAt(t.streams, agent) == after && Hand(t, agent) == hand;
    assert Offered(before, []) == before.released;
    assert Offered(after, hand) == after.released[..|before.released|] == before.released;
    assert after.released == before.released + hand;
  }

  lemma ReleaseKeepsAccounts(s: Queueing, who: string, event: Event, agent: string)
    requires Enabled(s, Release(who, event)) && Accounted(s, agent)
    requires WellFormed(StreamAt(s.streams, agent))
    ensures Accounted(Next(s, Release(who, event)), agent)
  {
    if who == agent {
      OwnReleaseKeepsAccounts(s, event, agent);
    } else {
      SameParts(s, Next(s, Release(who, event)), agent);
    }
  }

  /** Steps that only move an event from the queue to the attempted ones, or none at all. */
  lemma SameAccounts(s: Queueing, t: Queueing, agent: string)
    requires Accounted(s, agent) && t.streams == s.streams && t.inHand == s.inHand && t.dropped == s.dropped
    requires t.attempted + t.queue == s.attempted + s.queue
    ensures Accounted(t, agent)
  {
    SameParts(s, t, agent);
  }

  lemma WorkerKeepsAccounts(s: Queueing, step: Step, agent: string)
    requires Enabled(s, step) && Accounted(s, agent) && !step.Release? && !step.Offer?
    ensures Accounted(Next(s, step), agent)
  {
    if step.Persist? {
      assert (s.attempted + [s.queue[0]]) + s.queue[1..] == s.attempted + s.queue;
    }
    SameAccounts(s, Next(s, step), agent);
  }

  lemma OfferKeepsAccounts(s: Queueing, who: string, agent: string)
    requires Enabled(s, Offer(who)) && Accounted(s, agent)
    ensures Accounted(Next(s, Offer(who)), agent)
  {
    if who == agent {
      OwnOfferKeepsAccounts(s, agent);
    } else {
      OtherOfferKeepsAccounts(s, who, agent);
    }
  }

  lemma StepKeepsAccounts(s: Queueing, step: Step, agent: string)
    requires Enabled(s, step) && Accounted(s, agent) && WellFormed(StreamAt(s.streams, agent))
    ensures Accounted(Next(s, step), agent)
  {
    if step.Release? {
      ReleaseKeepsAccounts(s, step.agent, step.event, agent);
    } else if step.Offer? {
      OfferKeepsAccounts(s, step.agent, agent);
    } else {
      WorkerKeepsAccounts(s, step, agent);
    }
  }

  lemma StepKeepsStream(s: Queueing, step: Step, agent: string)
    requires Enabled(s, step) && WellFormed(StreamAt(s.streams, agent))
    ensures WellFormed(StreamAt(Next(s, step).streams, agent))
  {
    if step.Release? && step.agent == agent {
      AcceptKeeps(StreamAt(s.streams, step.agent), step.event);
    }
  }

  /** Over every interleaving, every agent's released events are at all times in hand, or
      an exact interleaving of attempted-then-queued and dropped ones. */
  lemma {:induction false} AlwaysAccounted(steps: seq<Step>, agent: string)
    ensures Accounted(After(steps), agent)
    ensures WellFormed(StreamAt(After(steps).streams, agent))
  {
    if steps != [] {
      var before, step := steps[..|steps| - 1], steps[|steps| - 1];
      AlwaysAccounted(before, agent);
      if Enabled(After(before), step) {
        StepKeepsAccounts(After(before), step, agent);
        StepKeepsStream(After(before), step, agent);
      }
    }
  }

  ghost predicate Increasing(events: seq<Event>) {
    forall i, j :: 0 <= i < j < |events| ==> events[i].num < events[j].num
  }

  lemma {:induction false} ShuffleSwaps(a: seq<Event>, b: seq<Event>, all: seq<Event>)
    requires Shuffle(a, b, all)
    ensures Shuffle(b, a, all)
    decreases all
  {
    if all != [] {
      var e, rest := all[|all| - 1], all[..|all| - 1];
      if a != [] && a[|a| - 1] == e && Shuffle(a[..|a| - 1], b, rest) {
        ShuffleSwaps(a[..|a| - 1], b, rest);
      } else {
        ShuffleSwaps(a, b[..|b| - 1], rest);
      }
    }
  }

  lemma {:induction false} ShuffleMembers(a: seq<Event>, b: seq<Event>, all: seq<Event>)
    requires Shuffle(a, b, all)
    ensures |a| + |b| == |all|
    ensures forall e :: e in a || e in b <==> e in all
    decreases all
  {
    if all != [] {
      var e, rest := all[|all| - 1], all[..|all| - 1];
      assert all == rest + [e];
      if a != [] && a[|a| - 1] == e && Shuffle(a[..|a| - 1], b, rest) {
        ShuffleMembers(a[..|a| - 1], b, rest);
        assert a == a[..|a| - 1] + [e];
      } else {
        ShuffleMembers(a, b[..|b| - 1], rest);
        assert b == b[..|b| - 1] + [e];
      }
    }
  }

  ghost predicate Numbered(all: seq<Event>) {
    forall i :: 0 <= i < |all| ==> all[i].num == i + 1
  }

  /** In a stream numbered 1, 2, ..., each part of an interleaving is strictly
      increasing, and no event is in both parts. */
  lemma {:induction false} ShuffleSelects(a: seq<Event>, b: seq<Event>, all: seq<Event>)
    requires Shuffle(a, b, all) && Numbered(all)
    ensures Increasing(a)
    ensures forall e :: e in a ==> e !in b
    decreases all
  {
    if all != [] {
      var e, rest := all[|all| - 1], all[..|all| - 1];
      if a != [] && a[|a| - 1] == e && Shuffle(a[..|a| - 1], b, rest) {
        var init := a[..|a| - 1];
        ShuffleSelects(init, b, rest);
        ShuffleMembers(init, b, rest);
        assert a == init + [e];
        assert forall i :: 0 <= i < |init| ==> init[i] in rest;
      } else {
        var init := b[..|b| - 1];
        ShuffleSelects(a, init, rest);
        ShuffleMembers(a, init, rest);
        assert b == init + [e];
      }
    }
  }

  lemma {:induction false} ShuffleWithNothing(a: seq<Event>, all: seq<Event>)
    requires Shuffle(a, [], all)
    ensures a == all
    decreases all
  {
    if all != [] {
      ShuffleWithNothing(a[..|a| - 1], all[..|all| - 1]);
      assert a == a[..|a| - 1] + [a[|a| - 1]];
    }
  }

  /** The attempted stream of an agent is a strictly increasing selection from its
      released stream, disjoint from the queued and from the dropped events. */
  lemma AttemptedInOrder(steps: seq<Step>, agent: string)
    ensures var s := After(steps);
            var attempted, queued, lost := OnlyFor(s.attempted, agent), OnlyFor(s.queue, agent), Lost(s, agent);
            var released := StreamAt(s.streams, agent).released;
            && Increasing(attempted + queued) && Increasing(lost)
            && (forall e :: e in attempted || e in queued || e in lost || e in Hand(s, agent) <==> e in released)
            && (forall e :: !(e in attempted + queued && e in lost))
            && |attempted| + |queued| + |lost| + |Hand(s, agent)| == |released|
  {
    AlwaysAccounted(steps, agent);
    var s := After(steps);
    var stream := StreamAt(s.streams, agent);
    var offered := Offered(stream, Hand(s, agent));
    OnlyForConcat(s.attempted, s.queue, agent);
    assert Numbered(offered);
    ShuffleMembers(Through(s, agent), Lost(s, agent), offered);
    ShuffleSelects(Through(s, agent), Lost(s, agent), offered);
    ShuffleSwaps(Through(s, agent), Lost(s, agent), offered);
    ShuffleSelects(Lost(s, agent), Through(s, agent), offered);
  }

  lemma {:induction false} ExitedQueueStaysEmpty(steps: seq<Step>)
    ensures After(steps).worker == Exited && After(steps).late == 0 ==> After(steps).queue == []
  {
    if steps != [] {
      ExitedQueueStaysEmpty(steps[..|steps| - 1]);
    }
  }

  /** Once the worker has returned with no later producer, an agent with nothing dropped and no batch
      in hand has had every released event attempted, in order, exactly once. */
  lemma CloseFlushesEverything(steps: seq<Step>, agent: string)
    requires var s := After(steps); s.worker == Exited && s.late == 0
    requires var s := After(steps); Hand(s, agent) == [] && Lost(s, agent) == []
    ensures var s := After(steps); OnlyFor(s.attempted, agent) == StreamAt(s.streams, agent).released
  {
    AlwaysAccounted(steps, agent);
    ExitedQueueStaysEmpty(steps);
    var s := After(steps);
    assert s.attempted + s.queue == s.attempted;
    ShuffleWithNothing(Through(s, agent), Offered(StreamAt(s.streams, agent), []));
  }

  // ----- When events are dropped

  lemma {:induction false} QueueBounded(steps: seq<Step>)
    ensures |After(steps).queue| <= 1024
  {
    if steps != [] {
      QueueBounded(steps[..|steps| - 1]);
    }
  }

  lemma AfterSnoc(steps: seq<Step>, step: Step)
    ensures After(steps + [step])
            == if Enabled(After(steps), step) then Next(After(steps), step) else After(steps)
  {
    assert (steps + [step])[..|steps|] == steps;
  }

  /** Over every run an event is dropped only by an offer to a queue that holds 1024 events; an offer to a
      shorter queue puts the event at its end. */
  lemma DroppedOnlyWhenFull(steps: seq<Step>, step: Step)
    ensures var (s, t) := (After(steps), After(steps + [step]));
            && (t.dropped != s.dropped ==>
                  step.Offer? && Hand(s, step.agent) != [] && |s.queue| == 1024 && t.queue == s.queue
                  && t.dropped == s.dropped + [Tagged(step.agent, Hand(s, step.agent)[0])])
            && (step.Offer? && Hand(s, step.agent) != [] && |s.queue| < 1024 ==>
                  t.queue == s.queue + [Tagged(step.agent, Hand(s, step.agent)[0])] && t.dropped == s.dropped)
            && (step.Offer? && Hand(s, step.agent) != [] ==> Hand(t, step.agent) == Hand(s, step.agent)[1..])
  {
    QueueBounded(steps);
    AfterSnoc(steps, step);
  }
}
