/** Delivery and the persist queue in one run: from a client's sends, over the
    lossy wire and the pipeline, to the events the worker takes to the database. */
module DeliveryPersisted {
  import opened Wrappers
  import opened EventStream
  import opened EventDedup
  import opened PipelineRuns
  import opened Delivery
  import DeliveryProgress
  import Q = PersistQueue

  /** A run of the delivery protocol and the steps that the persist queue has made beside it. */
  datatype Joint = Joint(states: seq<Net>, steps: seq<Step>, queueSteps: seq<Q.Step>)

  datatype JointStep = OnNet(step: Step) | OnQueue(queueStep: Q.Step)

  /** What a step of the protocol gives to the pipeline. */
  function Fed(n: Net, step: Step): Option<Input> {
    match step
    case Deliver => if n.wire == [] then None else Some(Input(n.node, n.wire[0]))
    case DeliverStale(i) => if i < |n.stale| then Some(Input(n.node, n.stale[i])) else None
    case Other(x) => Some(x)
    case _ => None
  }

  /** An input that gets past the argument checks and the dedup cache releases events into its agent's hand. */
  function ReleaseOf(w: World, n: Net, fed: Option<Input>): seq<Q.Step> {
    match fed
    case None => []
    case Some(x) =>
      if HasIds(x) && x.event.num > 0 && !IsDuplicate(RunDedup(n.inputs, w.cap).windows, KeyOf(x))
      then [Q.Release(x.agent, x.event)] else []
  }

  ghost function Latest(j: Joint): Net
    requires j.states != []
  {
    j.states[|j.states| - 1]
  }

  /** ProcessEvent calls for one agent follow one another: an agent's next input waits until its hand is empty. */
  ghost predicate CanMove(w: World, j: Joint, s: JointStep)
    requires j.states != []
  {
    match s
    case OnNet(step) =>
      && Enabled(w, Latest(j), step)
      && (Fed(Latest(j), step).Some? ==> Q.Hand(Q.After(j.queueSteps), Fed(Latest(j), step).value.agent) == [])
    case OnQueue(queueStep) => !queueStep.Release?
  }

  ghost function Move(w: World, j: Joint, s: JointStep): (r: Joint)
    requires j.states != []
    ensures r.states != []
  {
    if !CanMove(w, j, s) then j
    else
      match s
      case OnNet(step) =>
        var n := Latest(j);
        Joint(j.states + [Next(w, n, step)], j.steps + [step], j.queueSteps + ReleaseOf(w, n, Fed(n, step)))
      case OnQueue(queueStep) => j.(queueSteps := j.queueSteps + [queueStep])
  }

  /** A joint run; steps that cannot be made when their turn comes do not happen. */
  ghost function JointAfter(w: World, node: string, steps: seq<JointStep>): (r: Joint)
    ensures r.states != []
  {
    if steps == [] then Joint([Initial(node)], [], [])
    else Move(w, JointAfter(w, node, steps[..|steps| - 1]), steps[|steps| - 1])
  }

  /** The queue's producers hold exactly the pipeline's streams. */
  ghost predicate SameStreams(w: World, n: Net, q: Q.Queueing) {
    forall a :: StreamAt(q.streams, a) == StreamAt(RunDedup(n.inputs, w.cap).streams, a)
  }

  ghost predicate JointOk(w: World, node: string, j: Joint) {
    && j.states != [] && IsRun(w, node, j.states, j.steps)
    && SameStreams(w, Latest(j), Q.After(j.queueSteps))
  }

  lemma NextInputs(w: World, n: Net, step: Step)
    requires Enabled(w, n, step)
    ensures Next(w, n, step).inputs == n.inputs + match Fed(n, step) case None => [] case Some(x) => [x]
  {
  }

  lemma QueueSnoc(steps: seq<Q.Step>, step: Q.Step)
    ensures Q.After(steps + [step])
            == if Q.Enabled(Q.After(steps), step) then Q.Next(Q.After(steps), step) else Q.After(steps)
  {
    assert (steps + [step])[..|steps|] == steps;
  }

  /** An input moves the pipeline's stream and the queue's producer alike. */
  lemma FedKeepsStreams(w: World, n: Net, t: Net, queueSteps: seq<Q.Step>, fed: Option<Input>)
    requires SameStreams(w, n, Q.After(queueSteps))
    requires fed.Some? ==> Q.Hand(Q.After(queueSteps), fed.value.agent) == []
    requires t.inputs == n.inputs + match fed case None => [] case Some(x) => [x]
    ensures SameStreams(w, t, Q.After(queueSteps + ReleaseOf(w, n, fed)))
  {
    if fed.None? {
      assert t.inputs == n.inputs && queueSteps + [] == queueSteps;
    } else {
      var x := fed.value;
      assert (n.inputs + [x])[..|n.inputs|] == n.inputs;
      assert RunDedup(t.inputs, w.cap) == Process(RunDedup(n.inputs, w.cap), x, w.cap);
      if ReleaseOf(w, n, fed) == [] {
        assert queueSteps + [] == queueSteps;
      } else {
        var q := Q.After(queueSteps);
        QueueSnoc(queueSteps, Q.Release(x.agent, x.event));
        assert ReleaseOf(w, n, fed) == [Q.Release(x.agent, x.event)];
        var q' := Q.Next(q, Q.Release(x.agent, x.event));
        assert q'.streams == q.streams[x.agent := Accept(StreamAt(q.streams, x.agent), x.event)];
        var was := RunDedup(n.inputs, w.cap).streams;
        assert RunDedup(t.inputs, w.cap).streams == ProcessPlain(was, x);
        assert Q.After(queueSteps + ReleaseOf(w, n, fed)) == q';
        forall a
          ensures StreamAt(q'.streams, a) == StreamAt(ProcessPlain(was, x), a)
        {
          assert StreamAt(q.streams, a) == StreamAt(was, a);
          assert StreamAt(q.streams, x.agent) == StreamAt(was, x.agent);
        }
      }
    }
  }

  lemma MoveKeeps(w: World, node: string, j: Joint, s: JointStep)
    requires JointOk(w, node, j)
    ensures JointOk(w, node, Move(w, j, s))
  {
    if CanMove(w, j, s) {
      if s.OnNet? {
        NextInputs(w, Latest(j), s.step);
        DeliveryProgress.AppendStep(w, node, j.states, j.steps, s.step);
        FedKeepsStreams(w, Latest(j), Next(w, Latest(j), s.step), j.queueSteps, Fed(Latest(j), s.step));
      } else {
        QueueSnoc(j.queueSteps, s.queueStep);
      }
    }
  }

  lemma {:induction false} JointRunKeeps(w: World, node: string, steps: seq<JointStep>)
    ensures JointOk(w, node, JointAfter(w, node, steps))
  {
    if steps != [] {
      JointRunKeeps(w, node, steps[..|steps| - 1]);
      MoveKeeps(w, node, JointAfter(w, node, steps[..|steps| - 1]), steps[|steps| - 1]);
    } else {
      assert RunDedup([], w.cap).streams == map[];
    }
  }

  /** The events of the node that the worker has taken to the database, in order. */
  ghost function AttemptedOf(j: Joint, node: string): seq<Event> {
    Q.OnlyFor(Q.After(j.queueSteps).attempted, node)
  }

  /** Over every joint run, the events attempted for a node are a subsequence of what its client sent: each is
      the sent event of its number, and the numbers strictly increase. */
  lemma AttemptedIsSubsequenceOfSent(w: World, node: string, steps: seq<JointStep>)
    requires Deployed(w, node)
    ensures var j := JointAfter(w, node, steps); var (sent, attempted) := (Latest(j).sent, AttemptedOf(j, node));
            && Q.Increasing(attempted)
            && forall e :: e in attempted ==> 1 <= e.num <= |sent| && sent[e.num - 1] == e
  {
    var j := JointAfter(w, node, steps);
    JointRunKeeps(w, node, steps);
    var n := Latest(j);
    RunKeeps(w, node, j.states, j.steps);
    DeliverySafety(w, node, j.states, j.steps);
    AttemptedIncreasing(j.queueSteps, node);
    var released := Received(w, n).released;
    forall e | e in AttemptedOf(j, node)
      ensures 1 <= e.num <= |n.sent| && n.sent[e.num - 1] == e
    {
      AttemptedReleased(j.queueSteps, node, e);
      var i :| 0 <= i < |released| && released[i] == e;
      assert n.sent[i] == e;
    }
  }

  lemma AttemptedReleased(queueSteps: seq<Q.Step>, node: string, e: Event)
    requires e in Q.OnlyFor(Q.After(queueSteps).attempted, node)
    ensures e in StreamAt(Q.After(queueSteps).streams, node).released
  {
    Q.AttemptedInOrder(queueSteps, node);
  }

  lemma AttemptedIncreasing(queueSteps: seq<Q.Step>, node: string)
    ensures Q.Increasing(Q.OnlyFor(Q.After(queueSteps).attempted, node))
  {
    Q.AttemptedInOrder(queueSteps, node);
    var q := Q.After(queueSteps);
    var (attempted, queued) := (Q.OnlyFor(q.attempted, node), Q.OnlyFor(q.queue, node));
    assert forall i :: 0 <= i < |attempted| ==> attempted[i] == (attempted + queued)[i];
  }

  /** Once a sound connection has finished its resend and its wire is empty, the queue holds nothing of the node,
      none of its events is in hand and none was dropped, the attempted events are exactly what the client
      sent, in order. */
  lemma AttemptedIsSent(w: World, node: string, steps: seq<JointStep>)
    requires Deployed(w, node)
    requires var n := Latest(JointAfter(w, node, steps));
             n.conn == Up(false, true, []) && n.wire == [] && n.hand == None
    requires var q := Q.After(JointAfter(w, node, steps).queueSteps);
             Q.OnlyFor(q.queue, node) == [] && Q.Hand(q, node) == [] && Q.Lost(q, node) == []
    ensures var j := JointAfter(w, node, steps); AttemptedOf(j, node) == Latest(j).sent
  {
    var j := JointAfter(w, node, steps);
    JointRunKeeps(w, node, steps);
    DeliveryCompletes(w, node, j.states, j.steps);
    NothingMissing(j.queueSteps, node);
    assert StreamAt(Q.After(j.queueSteps).streams, node) == Received(w, Latest(j)) by {
      RunKeeps(w, node, j.states, j.steps);
    }
  }

  lemma NothingMissing(queueSteps: seq<Q.Step>, node: string)
    requires var q := Q.After(queueSteps);
             Q.OnlyFor(q.queue, node) == [] && Q.Hand(q, node) == [] && Q.Lost(q, node) == []
    ensures var q := Q.After(queueSteps); Q.OnlyFor(q.attempted, node) == StreamAt(q.streams, node).released
  {
    var q := Q.After(queueSteps);
    Q.AlwaysAccounted(queueSteps, node);
    Q.OnlyForConcat(q.attempted, q.queue, node);
    var released := StreamAt(q.streams, node).released;
    assert Q.Offered(StreamAt(q.streams, node), []) == released;
    Q.ShuffleWithNothing(Q.Through(q, node), released);
    assert Q.OnlyFor(q.attempted, node) + [] == Q.OnlyFor(q.attempted, node);
  }
}
