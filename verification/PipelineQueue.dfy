/** The pipeline object as one interleaving of the queue machine: what the object queues, drops and attempts
    is what the machine does when every batch is offered at once, whatever the worker's turns in between. */
module PipelineQueue {
  import opened Wrappers
  import opened EventStream
  import opened EventDedup
  import opened PipelineRuns
  import P = EventPipeline
  import Q = PersistQueue

  function Untag(items: seq<Q.Tagged>): seq<Event> {
    seq(|items|, i requires 0 <= i < |items| => items[i].event)
  }

  function Buffer(s: Q.Queueing): P.PersistBuffer {
    P.PersistBuffer(Untag(s.queue), Untag(s.dropped))
  }

  /** t differs from s in the agent's hand, the queue and the dropped events alone. */
  ghost predicate SameBeside(s: Q.Queueing, t: Q.Queueing, agent: string) {
    && t.streams == s.streams && t.attempted == s.attempted
    && t.stopRequested == s.stopRequested && t.worker == s.worker
    && (s.worker != Q.Exited ==> t.late == s.late)
    && (forall a :: a != agent ==> Q.Hand(t, a) == Q.Hand(s, a))
  }

  lemma OfferIsEnqueue(s: Q.Queueing, agent: string)
    requires Q.Hand(s, agent) != []
    ensures var t := Q.Next(s, Q.Offer(agent));
            && Buffer(t) == P.Enqueue(Buffer(s), Q.Hand(s, agent)[0])
            && Q.Hand(t, agent) == Q.Hand(s, agent)[1..] && SameBeside(s, t, agent)
  {
    var item := Q.Tagged(agent, Q.Hand(s, agent)[0]);
    assert Untag(s.queue + [item]) == Untag(s.queue) + [item.event];
    assert Untag(s.dropped + [item]) == Untag(s.dropped) + [item.event];
  }

  function OfferSteps(agent: string, n: nat): seq<Q.Step> {
    if n == 0 then [] else OfferSteps(agent, n - 1) + [Q.Offer(agent)]
  }

  /** After the first n events of the agent's hand have been offered. */
  ghost predicate Offered(s: Q.Queueing, t: Q.Queueing, agent: string, n: nat) {
    && n <= |Q.Hand(s, agent)| && Q.Hand(t, agent) == Q.Hand(s, agent)[n..] && SameBeside(s, t, agent)
    && Buffer(t) == P.EnqueueAll(Buffer(s), Q.Hand(s, agent)[..n])
  }

  lemma OneMoreOffer(s: Q.Queueing, t: Q.Queueing, agent: string, n: nat)
    requires Offered(s, t, agent, n) && n < |Q.Hand(s, agent)|
    ensures Q.Enabled(t, Q.Offer(agent)) && Offered(s, Q.Next(t, Q.Offer(agent)), agent, n + 1)
  {
    var hand := Q.Hand(s, agent);
    OfferIsEnqueue(t, agent);
    assert hand[..n + 1][..n] == hand[..n];
  }

  lemma NoOffers(s: Q.Queueing, agent: string)
    ensures Offered(s, s, agent, 0)
  {
  }

  lemma OneOfferFurther(steps: seq<Q.Step>, agent: string, n: nat)
    ensures var t := Q.After(steps + OfferSteps(agent, n));
            Q.After(steps + OfferSteps(agent, n + 1))
            == if Q.Enabled(t, Q.Offer(agent)) then Q.Next(t, Q.Offer(agent)) else t
  {
    var before := steps + OfferSteps(agent, n);
    Q.AfterSnoc(before, Q.Offer(agent));
    assert steps + OfferSteps(agent, n + 1) == before + [Q.Offer(agent)];
  }

  lemma OffersEnqueueAll(steps: seq<Q.Step>, agent: string, n: nat)
    requires n <= |Q.Hand(Q.After(steps), agent)|
    ensures Offered(Q.After(steps), Q.After(steps + OfferSteps(agent, n)), agent, n)
  {
    var s := Q.After(steps);
    var t := s;
    NoOffers(s, agent);
    assert steps + OfferSteps(agent, 0) == steps;
    for k := 0 to n
      invariant t == Q.After(steps + OfferSteps(agent, k)) && Offered(s, t, agent, k)
    {
      OneMoreOffer(s, t, agent, k);
      OneOfferFurther(steps, agent, k);
      t := Q.Next(t, Q.Offer(agent));
    }
  }

  /** Between two calls no batch is in hand. */
  ghost predicate Between(s: Q.Queueing) {
    s.worker == Q.Serving && !s.stopRequested && s.late == 0 && forall a :: Q.Hand(s, a) == []
  }

  /** The events that an arrival adds to its agent's released ones. */
  function Batch(s: Q.Queueing, x: Input): seq<Event> {
    var before := StreamAt(s.streams, x.agent);
    var after := Accept(before, x.event);
    if |before.released| <= |after.released| then after.released[|before.released|..] else []
  }

  /** A call past the checks and the dedup cache: the release, then one offer per released event. */
  function CallSteps(s: Q.Queueing, x: Input): seq<Q.Step> {
    [Q.Release(x.agent, x.event)] + OfferSteps(x.agent, |Batch(s, x)|)
  }

  /** A call on s leaves the streams with the arrival accepted and the batch enqueued, and nothing in hand. */
  ghost predicate CallDone(s: Q.Queueing, t: Q.Queueing, x: Input) {
    && Between(t) && Buffer(t) == P.EnqueueAll(Buffer(s), Batch(s, x)) && t.attempted == s.attempted
    && t.streams == s.streams[x.agent := Accept(StreamAt(s.streams, x.agent), x.event)]
  }

  lemma ReleaseThenOffers(s: Q.Queueing, t: Q.Queueing, x: Input)
    requires Between(s) && x.event.num > 0
    requires var held := Q.Next(s, Q.Release(x.agent, x.event));
             SameBeside(held, t, x.agent) && Buffer(t) == P.EnqueueAll(Buffer(held), Batch(s, x))
             && Q.Hand(t, x.agent) == []
    ensures CallDone(s, t, x)
  {
    var held := Q.Next(s, Q.Release(x.agent, x.event));
    forall a
      ensures Q.Hand(t, a) == []
    {
      if a != x.agent {
        assert Q.Hand(t, a) == Q.Hand(held, a) == Q.Hand(s, a);
      }
    }
  }

  lemma CallEnqueuesBatch(steps: seq<Q.Step>, x: Input)
    requires Between(Q.After(steps)) && x.event.num > 0
    ensures CallDone(Q.After(steps), Q.After(steps + CallSteps(Q.After(steps), x)), x)
  {
    var s, release := Q.After(steps), Q.Release(x.agent, x.event);
    var n := |Batch(s, x)|;
    var released, all := steps + [release], steps + CallSteps(s, x);
    assert all == released + OfferSteps(x.agent, n);
    Q.AfterSnoc(steps, release);
    assert Q.Hand(Q.After(released), x.agent) == Batch(s, x);
    OffersEnqueueAll(released, x.agent, n);
    assert Batch(s, x)[..n] == Batch(s, x);
    ReleaseThenOffers(s, Q.After(all), x);
  }

  lemma PersistTakesOldest(steps: seq<Q.Step>)
    requires Between(Q.After(steps)) && Q.After(steps).queue != []
    ensures var (s, t) := (Q.After(steps), Q.After(steps + [Q.Persist]));
            && Between(t) && t.streams == s.streams
            && Untag(t.attempted) == Untag(s.attempted) + [Untag(s.queue)[0]]
            && Buffer(t) == P.PersistBuffer(Untag(s.queue)[1..], Untag(s.dropped))
  {
    Q.AfterSnoc(steps, Q.Persist);
    var s, t := Q.After(steps), Q.After(steps + [Q.Persist]);
    assert forall a :: Q.Hand(t, a) == Q.Hand(s, a);
  }

  /** The object's streams, queue, attempted and dropped events are those of the machine. */
  ghost predicate Matches(p: P.EventPipeline, s: Q.Queueing)
    reads p
  {
    && (forall a :: p.StreamOf(a) == StreamAt(s.streams, a))
    && p.Persisting() == Buffer(s) && p.attempted == Untag(s.attempted)
  }

  // ----- Runs of the object

  datatype Action = Arrive(input: Input) | WorkerTurn

  function InputOf(action: Action): seq<Input> {
    if action.Arrive? then [action.input] else []
  }

  /** The inputs among the first n actions. */
  ghost function InputsOf(actions: seq<Action>, n: nat): seq<Input>
    requires n <= |actions|
  {
    if n == 0 then []
    else InputsOf(actions, n - 1) + InputOf(actions[n - 1])
  }

  predicate PastChecks(x: Input) {
    HasIds(x) && x.event.num > 0
  }

  /** The call gets past the argument checks and the dedup cache. */
  predicate IsNew(x: Input, windows: Windows) {
    PastChecks(x) && !IsDuplicate(windows, KeyOf(x))
  }

  /** What one action adds to the machine's run; a worker's turn on an empty queue takes nothing. */
  ghost function StepsOfOne(s: Q.Queueing, windows: Windows, action: Action): seq<Q.Step> {
    match action
    case WorkerTurn => if s.queue == [] then [] else [Q.Persist]
    case Arrive(x) => if IsNew(x, windows) then CallSteps(s, x) else []
  }

  /** The machine's run for the first n actions of a run of the object. */
  ghost function StepsOf(actions: seq<Action>, n: nat, cap: nat): seq<Q.Step>
    requires n <= |actions|
  {
    if n == 0 then []
    else
      var steps := StepsOf(actions, n - 1, cap);
      steps + StepsOfOne(Q.After(steps), RunDedup(InputsOf(actions, n - 1), cap).windows, actions[n - 1])
  }

  ghost predicate Follows(p: P.EventPipeline, steps: seq<Q.Step>, inputs: seq<Input>)
    reads p, p.dedup
  {
    && p.Valid() && Between(Q.After(steps)) && Matches(p, Q.After(steps))
    && RunDedup(inputs, p.dedup.cacheSize) == State(p.dedup.caches, Q.After(steps).streams)
  }

  lemma OneMoreInput(inputs: seq<Input>, x: Input, cap: nat)
    ensures RunDedup(inputs + [x], cap) == Process(RunDedup(inputs, cap), x, cap)
  {
    assert (inputs + [x])[..|inputs|] == inputs;
  }

  lemma BatchIs(s: Q.Queueing, x: Input, before: Stream, after: Stream)
    requires before == StreamAt(s.streams, x.agent) && after == Accept(before, x.event)
    requires before.released <= after.released
    ensures Batch(s, x) == after.released[|before.released|..]
  {
  }

  /** One call of the object moves it from s to t, where t has the call's batch enqueued or is s itself. */
  method ProcessOne(p: P.EventPipeline, x: Input, ghost s: Q.Queueing, ghost t: Q.Queueing)
    requires p.Valid() && Matches(p, s) && if IsNew(x, p.dedup.caches) then CallDone(s, t, x) else t == s
    modifies p, p.dedup
    ensures p.Valid() && Matches(p, t)
    ensures p.dedup.caches == if HasIds(x) then Recorded(old(p.dedup.caches), KeyOf(x), p.dedup.cacheSize)
                              else old(p.dedup.caches)
  {
    ghost var isNew, before := IsNew(x, p.dedup.caches), p.StreamOf(x.agent);
    var _ := p.ProcessEvent(x.agent, x.event);
    if isNew {
      BatchIs(s, x, before, p.StreamOf(x.agent));
    }
  }

  method TakeArrival(p: P.EventPipeline, x: Input, ghost steps: seq<Q.Step>, ghost inputs: seq<Input>)
    requires Follows(p, steps, inputs)
    modifies p, p.dedup
    ensures Follows(p, steps + old(StepsOfOne(Q.After(steps), p.dedup.caches, Arrive(x))), inputs + [x])
  {
    ghost var all := steps + StepsOfOne(Q.After(steps), p.dedup.caches, Arrive(x));
    OneMoreInput(inputs, x, p.dedup.cacheSize);
    if IsNew(x, p.dedup.caches) {
      CallEnqueuesBatch(steps, x);
    } else {
      assert all == steps;
    }
    ProcessOne(p, x, Q.After(steps), Q.After(all));
  }

  method TakeTurn(p: P.EventPipeline, ghost steps: seq<Q.Step>, ghost inputs: seq<Input>)
    requires Follows(p, steps, inputs)
    modifies p
    ensures Follows(p, steps + old(StepsOfOne(Q.After(steps), p.dedup.caches, WorkerTurn)), inputs)
  {
    assert steps + [] == steps;
    if p.persistQueue != [] {
      PersistTakesOldest(steps);
      p.PersistNext();
    }
  }

  /** The object is where the machine's run for the first n actions is. */
  ghost predicate Driven(p: P.EventPipeline, actions: seq<Action>, n: nat)
    requires n <= |actions|
    reads p, p.dedup
  {
    Follows(p, StepsOf(actions, n, p.dedup.cacheSize), InputsOf(actions, n))
  }

  method TakeAction(p: P.EventPipeline, actions: seq<Action>, n: nat)
    requires n < |actions| && Driven(p, actions, n)
    modifies p, p.dedup
    ensures Driven(p, actions, n + 1)
  {
    ghost var steps, inputs := StepsOf(actions, n, p.dedup.cacheSize), InputsOf(actions, n);
    assert inputs + [] == inputs;
    match actions[n] {
      case Arrive(x) => TakeArrival(p, x, steps, inputs);
      case WorkerTurn => TakeTurn(p, steps, inputs);
    }
  }

  /** Any mix of calls and worker turns leaves the object in the state of the machine's run. */
  method Drive(p: P.EventPipeline, actions: seq<Action>)
    requires Driven(p, actions, 0)
    modifies p, p.dedup
    ensures Driven(p, actions, |actions|)
  {
    for i := 0 to |actions|
      invariant Driven(p, actions, i)
    {
      TakeAction(p, actions, i);
    }
  }

  // ----- Closing

  /** Between two calls, with nothing dropped, an agent's attempted and queued events are its released ones in order. */
  lemma NothingDroppedNothingMissing(steps: seq<Q.Step>, agent: string)
    requires Between(Q.After(steps)) && Q.After(steps).dropped == []
    ensures var s := Q.After(steps);
            Q.OnlyFor(s.attempted + s.queue, agent) == StreamAt(s.streams, agent).released
  {
    Q.AlwaysAccounted(steps, agent);
    var s := Q.After(steps);
    assert Q.Hand(s, agent) == [];
    Q.ShuffleWithNothing(Q.Through(s, agent), Q.Offered(StreamAt(s.streams, agent), []));
  }

  ghost predicate AllInOrder(all: seq<Q.Tagged>, streams: Streams) {
    forall a :: Q.OnlyFor(all, a) == StreamAt(streams, a).released
  }

  lemma AllFlushed(steps: seq<Q.Step>)
    requires Between(Q.After(steps)) && Q.After(steps).dropped == []
    ensures var s := Q.After(steps); AllInOrder(s.attempted + s.queue, s.streams)
  {
    forall a
      ensures Q.OnlyFor(Q.After(steps).attempted + Q.After(steps).queue, a)
              == StreamAt(Q.After(steps).streams, a).released
    {
      NothingDroppedNothingMissing(steps, a);
    }
  }

  /** What the worker's last loop leaves: `attempted` with the agents written in, in order when nothing was dropped. */
  ghost predicate Ended(attempted: seq<Event>, dropped: seq<Event>, tagged: seq<Q.Tagged>, streams: Streams) {
    attempted == Untag(tagged) && (dropped == [] ==> AllInOrder(tagged, streams))
  }

  lemma EndOfRun(steps: seq<Q.Step>)
    requires Between(Q.After(steps))
    ensures var s := Q.After(steps);
            Ended(Untag(s.attempted) + Untag(s.queue), Untag(s.dropped), s.attempted + s.queue, s.streams)
  {
    var s := Q.After(steps);
    assert Untag(s.attempted + s.queue) == Untag(s.attempted) + Untag(s.queue);
    assert |Untag(s.dropped)| == |s.dropped|;
    if s.dropped == [] {
      AllFlushed(steps);
    }
  }

  method CloseDriven(p: P.EventPipeline, ghost steps: seq<Q.Step>, ghost inputs: seq<Input>)
    requires Follows(p, steps, inputs)
    modifies p`persistQueue, p`attempted
    ensures p.persistQueue == []
    ensures var s := Q.After(steps); Ended(p.attempted, p.dropped, s.attempted + s.queue, s.streams)
  {
    EndOfRun(steps);
    p.Close();
  }

  method DriveNew(hasReplaySender: bool, actions: seq<Action>) returns (p: P.EventPipeline)
    ensures fresh(p) && p.dedup.cacheSize == 1000 && Driven(p, actions, |actions|)
  {
    p := new P.EventPipeline(hasReplaySender);
    Drive(p, actions);
  }

  /** A new pipeline after any mix of calls and worker turns and a Close: the queue is empty, and when it never
      overflowed every agent's released events have been attempted in order, each once. `tagged` is the
      object's list with the agents written in. */
  method RunAndClose(hasReplaySender: bool, actions: seq<Action>)
    returns (p: P.EventPipeline, ghost tagged: seq<Q.Tagged>)
    ensures p.persistQueue == []
    ensures Ended(p.attempted, p.dropped, tagged, RunDedup(InputsOf(actions, |actions|), 1000).streams)
  {
    p := DriveNew(hasReplaySender, actions);
    ghost var steps := StepsOf(actions, |actions|, 1000);
    CloseDriven(p, steps, InputsOf(actions, |actions|));
    tagged := Q.After(steps).attempted + Q.After(steps).queue;
  }
}
