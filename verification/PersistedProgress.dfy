/** The joint protocol is never stuck either: while the worker runs and nothing was dropped,
    some continuation brings everything sent to the database. */
module PersistedProgress {
  import opened Wrappers
  import opened EventStream
  import opened PipelineRuns
  import opened Delivery
  import opened DeliveryPersisted
  import Q = PersistQueue

  ghost function NetOf(w: World, node: string, steps: seq<JointStep>): Net {
    Latest(JointAfter(w, node, steps))
  }

  ghost function QueueOf(w: World, node: string, steps: seq<JointStep>): Q.Queueing {
    Q.After(JointAfter(w, node, steps).queueSteps)
  }

  /** The worker still serves and nothing of the node was dropped. */
  ghost predicate Healthy(w: World, node: string, steps: seq<JointStep>) {
    QueueOf(w, node, steps).worker != Q.Exited && Q.Lost(QueueOf(w, node, steps), node) == []
  }

  /** Besides, nothing is queued and nothing of the node is in hand. */
  ghost predicate Quiet(w: World, node: string, steps: seq<JointStep>) {
    && Healthy(w, node, steps)
    && QueueOf(w, node, steps).queue == [] && Q.Hand(QueueOf(w, node, steps), node) == []
  }

  lemma OneMove(w: World, node: string, steps: seq<JointStep>, s: JointStep)
    ensures JointAfter(w, node, steps + [s]) == Move(w, JointAfter(w, node, steps), s)
  {
    assert (steps + [s])[..|steps|] == steps;
  }

  /** A step of the queue that is enabled. */
  lemma QueueMove(w: World, node: string, steps: seq<JointStep>, step: Q.Step)
    requires !step.Release? && Q.Enabled(QueueOf(w, node, steps), step)
    ensures NetOf(w, node, steps + [OnQueue(step)]) == NetOf(w, node, steps)
    ensures QueueOf(w, node, steps + [OnQueue(step)]) == Q.Next(QueueOf(w, node, steps), step)
  {
    OneMove(w, node, steps, OnQueue(step));
    QueueSnoc(JointAfter(w, node, steps).queueSteps, step);
  }

  /** Lets the worker take what is queued and offers what is in hand, until nothing is left. */
  lemma {:induction false} Quieten(w: World, node: string, steps: seq<JointStep>) returns (more: seq<JointStep>)
    requires Healthy(w, node, steps)
    ensures steps <= more && Quiet(w, node, more) && NetOf(w, node, more) == NetOf(w, node, steps)
    decreases 2 * |Q.Hand(QueueOf(w, node, steps), node)| + |QueueOf(w, node, steps).queue|
  {
    var q := QueueOf(w, node, steps);
    if q.queue != [] {
      QueueMove(w, node, steps, Q.Persist);
      more := Quieten(w, node, steps + [OnQueue(Q.Persist)]);
    } else if Q.Hand(q, node) != [] {
      QueueMove(w, node, steps, Q.Offer(node));
      more := Quieten(w, node, steps + [OnQueue(Q.Offer(node))]);
    } else {
      more := steps;
    }
  }

  /** What a release leaves alone. */
  lemma ReleaseStaysHealthy(q: Q.Queueing, agent: string, event: Event, node: string)
    requires Q.Enabled(q, Q.Release(agent, event))
    ensures var t := Q.Next(q, Q.Release(agent, event)); t.worker == q.worker && Q.Lost(t, node) == Q.Lost(q, node)
  {
  }

  /** A step of the protocol that feeds at most the node itself, after which the queue is quiet again. */
  lemma NetMove(w: World, node: string, steps: seq<JointStep>, step: Step) returns (more: seq<JointStep>)
    requires Quiet(w, node, steps) && Enabled(w, NetOf(w, node, steps), step)
    requires Fed(NetOf(w, node, steps), step).Some? ==> Fed(NetOf(w, node, steps), step).value.agent == node
    ensures steps <= more && Quiet(w, node, more)
    ensures NetOf(w, node, more) == Next(w, NetOf(w, node, steps), step)
  {
    var j, n := JointAfter(w, node, steps), NetOf(w, node, steps);
    OneMove(w, node, steps, OnNet(step));
    var release := ReleaseOf(w, n, Fed(n, step));
    if release == [] {
      assert j.queueSteps + [] == j.queueSteps;
    } else {
      QueueSnoc(j.queueSteps, release[0]);
      ReleaseStaysHealthy(Q.After(j.queueSteps), release[0].agent, release[0].event, node);
    }
    more := Quieten(w, node, steps + [OnNet(step)]);
  }

  lemma {:induction false} NodeStays(w: World, node: string, steps: seq<JointStep>)
    requires Deployed(w, node)
    ensures NetOf(w, node, steps).node == node
  {
    JointRunKeeps(w, node, steps);
    var j := JointAfter(w, node, steps);
    RunKeeps(w, node, j.states, j.steps);
  }

  /** `more` continues `steps`, sends nothing new, and leaves the queue quiet. */
  ghost predicate CarriesOn(w: World, node: string, steps: seq<JointStep>, more: seq<JointStep>) {
    steps <= more && Quiet(w, node, more) && NetOf(w, node, more).sent == NetOf(w, node, steps).sent
  }

  /** Nothing in the sender's hand and a fresh connection whose resend has copied the buffer. */
  lemma Reconnect(w: World, node: string, steps: seq<JointStep>) returns (more: seq<JointStep>)
    requires Quiet(w, node, steps)
    ensures CarriesOn(w, node, steps, more)
    ensures var n := NetOf(w, node, more); n.hand == None && n.conn.Up? && !n.conn.broken && n.conn.snapshot
  {
    more := steps;
    if NetOf(w, node, more).hand.Some? {
      more := NetMove(w, node, more, Write(true));
    }
    if NetOf(w, node, more).conn.Up? {
      more := NetMove(w, node, more, Disconnect);
    }
    more := NetMove(w, node, more, Dial);
    more := NetMove(w, node, more, Snapshot);
  }

  lemma {:induction false} ResendRest(w: World, node: string, steps: seq<JointStep>) returns (more: seq<JointStep>)
    requires Quiet(w, node, steps)
    requires var n := NetOf(w, node, steps); n.hand == None && n.conn.Up? && !n.conn.broken && n.conn.snapshot
    ensures CarriesOn(w, node, steps, more)
    ensures NetOf(w, node, more).conn == Up(false, true, []) && NetOf(w, node, more).hand == None
    decreases var n := NetOf(w, node, steps); if n.conn.Up? then |n.conn.todo| else 0
  {
    more := steps;
    if NetOf(w, node, steps).conn.todo != [] {
      more := NetMove(w, node, steps, Resend(true));
      more := ResendRest(w, node, more);
    }
  }

  lemma {:induction false} DrainRest(w: World, node: string, steps: seq<JointStep>) returns (more: seq<JointStep>)
    requires Deployed(w, node) && Quiet(w, node, steps)
    ensures CarriesOn(w, node, steps, more) && NetOf(w, node, more).wire == []
    ensures NetOf(w, node, more).conn == NetOf(w, node, steps).conn
    ensures NetOf(w, node, more).hand == NetOf(w, node, steps).hand
    decreases |NetOf(w, node, steps).wire|
  {
    more := steps;
    if NetOf(w, node, steps).wire != [] {
      NodeStays(w, node, steps);
      more := NetMove(w, node, steps, Deliver);
      more := DrainRest(w, node, more);
    }
  }

  /** After every joint run with the worker still serving and nothing of the node dropped, some continuation that sends
      nothing new ends with everything the client sent taken to the database, once and in order. */
  lemma CanAlwaysPersist(w: World, node: string, steps: seq<JointStep>) returns (more: seq<JointStep>)
    requires Deployed(w, node) && Healthy(w, node, steps)
    ensures steps <= more && NetOf(w, node, more).sent == NetOf(w, node, steps).sent
    ensures AttemptedOf(JointAfter(w, node, more), node) == NetOf(w, node, steps).sent
  {
    more := Quieten(w, node, steps);
    more := Reconnect(w, node, more);
    more := ResendRest(w, node, more);
    more := DrainRest(w, node, more);
    AttemptedIsSent(w, node, more);
  }
}
