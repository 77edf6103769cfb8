/** One agent's client and the supervisor's pipeline joined by connections that
    lose, delay and duplicate. The client numbers, buffers and writes events and
    resends its buffer after every dial; the pipeline dedups and reorders them
    among the inputs of all agents. */
module Delivery {
  import opened Wrappers
  import opened EventStream
  import opened PipelineRuns
  import opened WsClient
  import Decimal

  /** The forwarder's event id: the node id, a dash and the number padded to six digits. */
  function EventId(node: string, num: nat): string {
    node + "-" + Decimal.Pad(Decimal.Digits(num), 6)
  }

  lemma EventIdInjective(node: string, m: nat, n: nat)
    requires EventId(node, m) == EventId(node, n)
    ensures m == n
  {
    var prefix := node + "-";
    assert EventId(node, m)[|prefix|..] == Decimal.Pad(Decimal.Digits(m), 6);
    assert EventId(node, n)[|prefix|..] == Decimal.Pad(Decimal.Digits(n), 6);
    Decimal.PaddedInjective(m, n, 6);
  }

  /** `snapshot` tells whether the resend of this connection has copied the buffer; `todo`
      is what it still has to write. A failed write leaves the connection broken. */
  datatype Conn = Down | Up(broken: bool, snapshot: bool, todo: seq<Pending<Event>>)

  /** `hand` is the event a sender has buffered but not yet written. `wire` is the live
      connection; `stale` holds what earlier connections may still deliver, in any order.
      `inputs` is everything the pipeline was given, `heard` this node's events among it. */
  datatype Net = Net(
    node: string, sent: seq<Event>, sender: Sender<Event>, eventSeq: nat, hand: Option<Event>,
    conn: Conn, wire: seq<Event>, stale: seq<Event>, inputs: seq<Input>, heard: seq<Event>)

  function Initial(node: string): Net {
    Net(node, [], AfterOps([]), 0, None, Down, [], [], [], [])
  }

  datatype Step =
    | Emit(sessionId: string, kind: string, data: string, timestamp: int)
    | Write(ok: bool)
    | Dial
    | Snapshot
    | Resend(ok: bool)
    | Acknowledge(upTo: int)
    | Deliver
    | DeliverStale(i: nat)
    | LoseStale(i: nat)
    | Disconnect
    | Other(input: Input)

  /** The deployment: every agent id in use, and the capacity of a dedup window. */
  datatype World = World(agents: set<string>, cap: nat)

  /** What the pipeline, with dedup and with every agent's inputs, has made of this node's events. */
  function Received(w: World, n: Net): Stream {
    StreamAt(RunDedup(n.inputs, w.cap).streams, n.node)
  }

  /** An acknowledgement never covers a number that is not released yet; other agents pair their ids and numbers. */
  ghost predicate Enabled(w: World, n: Net, step: Step) {
    match step
    case Emit(_, _, _, _) => n.hand.None?
    case Write(_) => n.hand.Some?
    case Dial => n.conn.Down?
    case Snapshot => n.conn.Up? && !n.conn.snapshot
    case Resend(_) => n.conn.Up? && n.conn.todo != []
    case Acknowledge(upTo) => upTo <= Received(w, n).last
    case Deliver => n.wire != []
    case DeliverStale(i) => i < |n.stale|
    case LoseStale(i) => i < |n.stale|
    case Disconnect => n.conn.Up?
    case Other(x) => x.agent != n.node && x.agent in w.agents && Paired(n.inputs + [x])
  }

  function Without(s: seq<Event>, i: nat): seq<Event>
    requires i < |s|
  {
    s[..i] + s[i + 1..]
  }

  function Hear(n: Net, e: Event): Net {
    n.(inputs := n.inputs + [Input(n.node, e)], heard := n.heard + [e])
  }

  function Next(w: World, n: Net, step: Step): Net
    requires Enabled(w, n, step)
  {
    match step
    case Emit(sessionId, kind, data, timestamp) =>
      var num := n.eventSeq + 1;
      var e := Event(EventId(n.node, num), sessionId, kind, data, timestamp, num);
      n.(eventSeq := num, sent := n.sent + [e], sender := AfterOp(n.sender, Send(e)), hand := Some(e))
    case Write(ok) =>
      var rest := n.(hand := None);
      if n.conn.Down? then rest
      else if ok && !n.conn.broken then rest.(wire := n.wire + [n.hand.value])
      else rest.(conn := n.conn.(broken := true), stale := n.stale + [n.hand.value])
    case Dial => n.(conn := Up(false, false, []))
    case Snapshot => n.(conn := n.conn.(snapshot := true, todo := n.sender.pending))
    case Resend(ok) =>
      var e := n.conn.todo[0].env;
      if ok && !n.conn.broken
      then n.(wire := n.wire + [e], conn := n.conn.(todo := n.conn.todo[1..]))
      else n.(conn := Down, stale := n.stale + n.wire + [e], wire := [])
    case Acknowledge(upTo) => n.(sender := AfterOp(n.sender, Ack(upTo)))
    case Deliver => Hear(n, n.wire[0]).(wire := n.wire[1..])
    case DeliverStale(i) => Hear(n, n.stale[i]).(stale := Without(n.stale, i))
    case LoseStale(i) => n.(stale := Without(n.stale, i))
    case Disconnect => n.(conn := Down, stale := n.stale + n.wire, wire := [])
    case Other(x) => n.(inputs := n.inputs + [x])
  }

  /** A run: consecutive states joined by enabled steps, from the initial state. */
  ghost predicate IsRun(w: World, node: string, states: seq<Net>, steps: seq<Step>) {
    && |states| == |steps| + 1 && states[0] == Initial(node)
    && forall i :: 0 <= i < |steps| ==>
         Enabled(w, states[i], steps[i]) && states[i + 1] == Next(w, states[i], steps[i])
  }

  // ----- Invariant

  ghost predicate Genuine(e: Event, sent: seq<Event>) {
    1 <= e.num <= |sent| && sent[e.num - 1] == e
  }

  ghost predicate AllGenuine(events: seq<Event>, sent: seq<Event>) {
    forall e :: e in events ==> Genuine(e, sent)
  }

  function Acked(n: Net): int {
    |n.sent| - |n.sender.pending|
  }

  function Todo(n: Net): seq<Event> {
    if n.conn.Up? then Envelopes(n.conn.todo) else []
  }

  function Hand(n: Net): seq<Event> {
    if n.hand.Some? then [n.hand.value] else []
  }

  /** The client side: numbering, ids, and the buffer as a consecutive run. */
  ghost predicate ClientOk(n: Net) {
    && |n.sent| == n.eventSeq == n.sender.nextSeq - 1
    && (forall i :: 0 <= i < |n.sent| ==> n.sent[i].num == i + 1 && n.sent[i].id == EventId(n.node, i + 1))
    && ConsecutiveRun(n.sender.pending, Acked(n), n.sent)
    && (n.conn.Down? ==> n.wire == [])
  }

  /** Everything in transit or received is an event that was sent. */
  ghost predicate TrafficOk(n: Net) {
    && AllGenuine(n.wire, n.sent) && AllGenuine(n.stale, n.sent) && AllGenuine(Todo(n), n.sent)
    && AllGenuine(Hand(n), n.sent) && AllGenuine(n.heard, n.sent)
  }

  /** The node's inputs are sent events; the pipeline's inputs stay paired and among the known agents. */
  ghost predicate InputsOk(w: World, n: Net) {
    && n.heard == ArrivalsOf(n.inputs, n.node)
    && AgentsAmong(n.inputs, w.agents) && Paired(n.inputs)
    && forall x :: x in n.inputs && x.agent == n.node ==> Genuine(x.event, n.sent)
  }

  /** The pipeline has been given the event with this number. */
  ghost predicate IsHeard(n: Net, num: nat) {
    1 <= num <= |n.sent| && n.sent[num - 1] in n.heard
  }

  /** The event with this number is heard, on the live wire, or about to be written to it. */
  ghost predicate Underway(n: Net, num: nat) {
    1 <= num <= |n.sent| && n.sent[num - 1] in n.heard + n.wire + Todo(n) + Hand(n)
  }

  /** Numbers discarded from the buffer were heard; once a sound connection has copied
      the buffer, none of the others is forgotten. */
  ghost predicate ProgressOk(n: Net) {
    && (forall num: nat :: 1 <= num <= Acked(n) ==> IsHeard(n, num))
    && (n.conn.Up? && n.conn.snapshot && !n.conn.broken ==>
          forall num: nat :: Acked(n) < num <= |n.sent| ==> Underway(n, num))
  }

  ghost predicate Deployed(w: World, node: string) {
    Separated(w.agents) && node in w.agents && node != ""
  }

  ghost predicate Inv(w: World, n: Net) {
    ClientOk(n) && TrafficOk(n) && InputsOk(w, n) && ProgressOk(n)
  }

  /** The pipeline's stream for the node is the plain run of the node's own arrivals. */
  lemma ReceivedIsOwnRun(w: World, n: Net)
    requires Deployed(w, n.node) && InputsOk(w, n)
    ensures Received(w, n) == Run(n.heard)
  {
    DedupTransparent(n.inputs, w.cap, w.agents);
    StreamIsOwnRun(n.inputs, n.node);
  }

  /** A run over genuine arrivals has released a prefix of what was sent and buffers only sent events. */
  lemma RunOfGenuine(arrivals: seq<Event>, sent: seq<Event>)
    requires AllGenuine(arrivals, sent)
    ensures var s := Run(arrivals);
            && s.last <= |sent| && s.released == sent[..s.last]
            && (forall k :: k in s.pending ==> 1 <= k <= |sent| && s.pending[k] == sent[k - 1])
  {
    RunReleasesGenuine(arrivals, sent);
    RunHoldsWhatArrived(arrivals);
    var s := Run(arrivals);
    forall k | k in s.pending
      ensures 1 <= k <= |sent| && s.pending[k] == sent[k - 1]
    {
      assert Holds(s, k) && Held(s, k) == s.pending[k];
      assert Genuine(s.pending[k], sent);
    }
  }

  lemma RunReleasesGenuine(arrivals: seq<Event>, sent: seq<Event>)
    requires AllGenuine(arrivals, sent)
    ensures var s := Run(arrivals); s.last <= |sent| && s.released == sent[..s.last]
  {
    RunIsLargestPrefix(arrivals);
    var s := Run(arrivals);
    forall i | 0 <= i < s.last
      ensures i < |sent| && s.released[i] == sent[i]
    {
      assert s.released[i] in arrivals && Genuine(s.released[i], sent);
    }
    if s.last > 0 {
      assert s.released[s.last - 1] in arrivals && Genuine(s.released[s.last - 1], sent);
    }
  }

  // ----- Every step keeps the invariant

  /** Hearing a sent event, new or repeated, keeps the pipeline's inputs paired. */
  lemma HearKeepsInputs(w: World, n: Net, e: Event)
    requires Deployed(w, n.node) && ClientOk(n) && InputsOk(w, n) && Genuine(e, n.sent)
    ensures InputsOk(w, Hear(n, e))
  {
    var x := Input(n.node, e);
    var after := n.inputs + [x];
    assert after[..|n.inputs|] == n.inputs;
    assert e.id == EventId(n.node, e.num) != "";
    forall y | y in n.inputs && HasIds(y) && y.agent == n.node
      ensures y.event.id == e.id || y.event.num == e.num > 0 ==> y.event == e
    {
      assert Genuine(y.event, n.sent);
      if y.event.id == e.id {
        EventIdInjective(n.node, y.event.num, e.num);
      }
    }
  }

  /** Moving events along the way wire-to-pipeline, or losing stale ones, keeps progress. */
  lemma ProgressMoves(n: Net, t: Net)
    requires ProgressOk(n)
    requires t.sent == n.sent && t.sender == n.sender
    requires forall e :: e in n.heard ==> e in t.heard
    requires t.conn.Up? && t.conn.snapshot && !t.conn.broken ==>
               && n.conn.Up? && n.conn.snapshot && !n.conn.broken
               && forall e :: e in n.heard + n.wire + Todo(n) + Hand(n) ==> e in t.heard + t.wire + Todo(t) + Hand(t)
    ensures ProgressOk(t)
  {
    forall num: nat | 1 <= num <= Acked(t)
      ensures IsHeard(t, num)
    {
      assert IsHeard(n, num);
    }
    if t.conn.Up? && t.conn.snapshot && !t.conn.broken {
      forall num: nat | Acked(t) < num <= |t.sent|
        ensures Underway(t, num)
      {
        assert Underway(n, num);
      }
    }
  }

  lemma DeliverKeeps(w: World, n: Net)
    requires Deployed(w, n.node) && Inv(w, n) && n.wire != []
    ensures Inv(w, Next(w, n, Deliver))
  {
    var e, t := n.wire[0], Next(w, n, Deliver);
    HearKeepsInputs(w, n, e);
    DeliverMovesOn(w, n);
    ProgressMoves(n, t);
  }

  lemma DeliverMovesOn(w: World, n: Net)
    requires n.wire != []
    ensures var t := Next(w, n, Deliver);
            forall e :: e in n.heard + n.wire + Todo(n) + Hand(n) ==> e in t.heard + t.wire + Todo(t) + Hand(t)
  {
    var t := Next(w, n, Deliver);
    assert n.wire == [n.wire[0]] + t.wire;
  }

  lemma DeliverStaleKeeps(w: World, n: Net, i: nat)
    requires Deployed(w, n.node) && Inv(w, n) && i < |n.stale|
    ensures Inv(w, Next(w, n, DeliverStale(i)))
  {
    var t := Next(w, n, DeliverStale(i));
    HearKeepsInputs(w, n, n.stale[i]);
    ProgressMoves(n, t);
  }

  lemma LoseStaleKeeps(w: World, n: Net, i: nat)
    requires Inv(w, n) && i < |n.stale|
    ensures Inv(w, Next(w, n, LoseStale(i)))
  {
    ProgressMoves(n, Next(w, n, LoseStale(i)));
  }

  lemma EmitKeeps(w: World, n: Net, step: Step)
    requires Inv(w, n) && step.Emit? && Enabled(w, n, step)
    ensures Inv(w, Next(w, n, step))
  {
    var t := Next(w, n, step);
    var e := t.hand.value;
    assert forall f :: Genuine(f, n.sent) ==> Genuine(f, t.sent);
    assert Genuine(e, t.sent);
    forall num: nat | 1 <= num <= Acked(t)
      ensures IsHeard(t, num)
    {
      assert IsHeard(n, num);
    }
    if t.conn.Up? && t.conn.snapshot && !t.conn.broken {
      forall num: nat | Acked(t) < num <= |t.sent|
        ensures Underway(t, num)
      {
        if num <= |n.sent| {
          assert Underway(n, num);
        }
      }
    }
  }

  lemma WriteKeeps(w: World, n: Net, ok: bool)
    requires Inv(w, n) && n.hand.Some?
    ensures Inv(w, Next(w, n, Write(ok)))
  {
    assert n.hand.value in Hand(n);
    ProgressMoves(n, Next(w, n, Write(ok)));
  }

  /** Copying the buffer puts every unacknowledged event underway. */
  lemma SnapshotKeeps(w: World, n: Net)
    requires Inv(w, n) && n.conn.Up? && !n.conn.snapshot
    ensures Inv(w, Next(w, n, Snapshot))
  {
    var t := Next(w, n, Snapshot);
    var pending := n.sender.pending;
    forall num: nat | 1 <= num <= Acked(t)
      ensures IsHeard(t, num)
    {
      assert IsHeard(n, num);
    }
    forall num: nat | Acked(n) < num <= |n.sent|
      ensures Underway(t, num)
    {
      assert Todo(t)[num - 1 - Acked(n)] == pending[num - 1 - Acked(n)].env;
    }
    PendingIsGenuine(n);
  }

  lemma PendingIsGenuine(n: Net)
    requires ClientOk(n)
    ensures AllGenuine(Envelopes(n.sender.pending), n.sent)
  {
    var pending := n.sender.pending;
    forall e | e in Envelopes(pending)
      ensures Genuine(e, n.sent)
    {
      var i :| 0 <= i < |pending| && Envelopes(pending)[i] == e;
      assert pending[i].env == n.sent[Acked(n) + i];
    }
  }

  lemma ResendKeeps(w: World, n: Net, ok: bool)
    requires Inv(w, n) && n.conn.Up? && n.conn.todo != []
    ensures Inv(w, Next(w, n, Resend(ok)))
  {
    var t := Next(w, n, Resend(ok));
    TodoSplits(n.conn.todo);
    if ok && !n.conn.broken {
      ResentMovesOn(w, n);
    }
    ProgressMoves(n, t);
  }

  lemma TodoSplits(todo: seq<Pending<Event>>)
    requires todo != []
    ensures Envelopes(todo) == [todo[0].env] + Envelopes(todo[1..])
  {
  }

  lemma ResentMovesOn(w: World, n: Net)
    requires n.conn.Up? && n.conn.todo != [] && !n.conn.broken
    ensures var t := Next(w, n, Resend(true));
            forall e :: e in n.heard + n.wire + Todo(n) + Hand(n) ==> e in t.heard + t.wire + Todo(t) + Hand(t)
  {
    TodoSplits(n.conn.todo);
  }

  /** A sound acknowledgement only shortens the buffer by numbers already released. */
  lemma AcknowledgeKeeps(w: World, n: Net, upTo: int)
    requires Deployed(w, n.node) && Inv(w, n) && Enabled(w, n, Acknowledge(upTo))
    ensures Inv(w, Next(w, n, Acknowledge(upTo)))
  {
    var t := Next(w, n, Acknowledge(upTo));
    AckedIsHeard(w, n, upTo);
    AckTrimsRun(n.sender.pending, Acked(n), n.sent, upTo);
    assert Acked(t) == Max(Acked(n), upTo);
    forall num: nat | 1 <= num <= Acked(t)
      ensures IsHeard(t, num)
    {
      assert IsHeard(n, num);
    }
    forall num: nat | Acked(t) < num <= |t.sent| && Underway(n, num)
      ensures Underway(t, num)
    {
    }
  }

  /** What an acknowledgement covers was heard. */
  lemma AckedIsHeard(w: World, n: Net, upTo: int)
    requires Deployed(w, n.node) && Inv(w, n) && Enabled(w, n, Acknowledge(upTo))
    ensures upTo <= |n.sent| && forall num: nat :: 1 <= num <= Max(Acked(n), upTo) ==> IsHeard(n, num)
  {
    ReceivedIsOwnRun(w, n);
    RunReleasesGenuine(n.heard, n.sent);
    RunIsLargestPrefix(n.heard);
    var released := Run(n.heard).released;
    forall num: nat | Acked(n) < num <= upTo
      ensures IsHeard(n, num)
    {
      assert released[num - 1] == n.sent[num - 1] && released[num - 1] in n.heard;
    }
  }

  lemma OtherKeeps(w: World, n: Net, x: Input)
    requires Inv(w, n) && Enabled(w, n, Other(x))
    ensures Inv(w, Next(w, n, Other(x)))
  {
    OtherKeepsInputs(w, n, x);
    ProgressMoves(n, Next(w, n, Other(x)));
  }

  lemma OtherKeepsInputs(w: World, n: Net, x: Input)
    requires InputsOk(w, n) && Enabled(w, n, Other(x))
    ensures InputsOk(w, Next(w, n, Other(x)))
  {
    OtherIsNoArrival(n.inputs, x, n.node);
    forall y | y in n.inputs + [x] && y.agent == n.node
      ensures Genuine(y.event, n.sent)
    {
      assert y in n.inputs;
    }
  }

  lemma OtherIsNoArrival(inputs: seq<Input>, x: Input, agent: string)
    requires x.agent != agent
    ensures ArrivalsOf(inputs + [x], agent) == ArrivalsOf(inputs, agent)
  {
    assert (inputs + [x])[..|inputs|] == inputs;
    assert ArrivalsOf(inputs, agent) + [] == ArrivalsOf(inputs, agent);
  }

  lemma StepKeeps(w: World, n: Net, step: Step)
    requires Deployed(w, n.node) && Inv(w, n) && Enabled(w, n, step)
    ensures Inv(w, Next(w, n, step))
  {
    match step
    case Emit(_, _, _, _) => EmitKeeps(w, n, step);
    case Write(ok) => WriteKeeps(w, n, ok);
    case Dial => ProgressMoves(n, Next(w, n, step));
    case Snapshot => SnapshotKeeps(w, n);
    case Resend(ok) => ResendKeeps(w, n, ok);
    case Acknowledge(upTo) => AcknowledgeKeeps(w, n, upTo);
    case Deliver => DeliverKeeps(w, n);
    case DeliverStale(i) => DeliverStaleKeeps(w, n, i);
    case LoseStale(i) => LoseStaleKeeps(w, n, i);
    case Disconnect => ProgressMoves(n, Next(w, n, step));
    case Other(x) => OtherKeeps(w, n, x);
  }

  lemma {:induction false} RunKeeps(w: World, node: string, states: seq<Net>, steps: seq<Step>)
    requires Deployed(w, node) && IsRun(w, node, states, steps)
    ensures states[|steps|].node == node && Inv(w, states[|steps|])
  {
    if steps == [] {
      assert ConsecutiveRun(Initial(node).sender.pending, 0, []);
    } else {
      var k := |steps| - 1;
      RunKeeps(w, node, states[..k + 1], steps[..k]);
      assert states[..k + 1][k] == states[k];
      StepKeeps(w, states[k], steps[k]);
    }
  }

  // ----- Main theorems

  /** In order, exactly once, nothing lost, after every run of sends, writes, failures, disconnects, dials,
      resends, acknowledgements, late deliveries and other agents' traffic: the released stream is
      a prefix of the sent one, and every sent event is released, buffered at the
      receiver under its own number, or still in the sender's buffer. */
  lemma DeliverySafety(w: World, node: string, states: seq<Net>, steps: seq<Step>)
    requires Deployed(w, node) && IsRun(w, node, states, steps)
    ensures var n := states[|steps|]; var s := Received(w, n);
            && s.released <= n.sent && s.last == |s.released|
            && (forall k :: k in s.pending ==> s.last + 2 <= k <= |n.sent| && s.pending[k] == n.sent[k - 1])
            && (forall i :: 0 <= i < |n.sent| ==>
                  n.sent[i] in s.released || i + 1 in s.pending || Pending(i + 1, n.sent[i]) in n.sender.pending)
  {
    RunKeeps(w, node, states, steps);
    var n := states[|steps|];
    ReceivedIsOwnRun(w, n);
    RunOfGenuine(n.heard, n.sent);
    RunIsLargestPrefix(n.heard);
    var s := Received(w, n);
    forall i | 0 <= i < |n.sent|
      ensures i + 1 in Numbers(n.heard) || Pending(i + 1, n.sent[i]) in n.sender.pending
    {
      if i < Acked(n) {
        assert IsHeard(n, i + 1);
      } else {
        assert n.sender.pending[i - Acked(n)] == Pending(i + 1, n.sent[i]);
      }
    }
    assert forall i :: 0 <= i < s.last ==> n.sent[i] == s.released[i];
  }

  /** Once a connection that has not failed a write has finished its resend and its wire has
      drained, everything sent has been released, once and in order, and the gap buffer is empty. */
  lemma DeliveryCompletes(w: World, node: string, states: seq<Net>, steps: seq<Step>)
    requires Deployed(w, node) && IsRun(w, node, states, steps)
    requires var n := states[|steps|];
             n.conn == Up(false, true, []) && n.wire == [] && n.hand == None
    ensures var n := states[|steps|]; Received(w, n) == Stream(|n.sent|, map[], n.sent)
  {
    RunKeeps(w, node, states, steps);
    var n := states[|steps|];
    ReceivedIsOwnRun(w, n);
    RunOfGenuine(n.heard, n.sent);
    RunIsLargestPrefix(n.heard);
    var s := Received(w, n);
    forall num: nat | 1 <= num <= |n.sent|
      ensures num in Numbers(n.heard)
    {
      assert IsHeard(n, num) || Underway(n, num);
    }
    assert s.last == |n.sent|;
    assert n.sent[..|n.sent|] == n.sent;
    assert s.pending.Keys == {};
  }
}
