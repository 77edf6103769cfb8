/** The agent's websocket client: sequence numbers, the buffer of unacknowledged
    events, acknowledgement by in-place compaction, and resend on reconnect. */
module WsClient {

  datatype Pending<E> = Pending(num: int, env: E)

  /** The entries an acknowledgement up to `upTo` leaves, in order. */
  function Unacked<E>(pending: seq<Pending<E>>, upTo: int): seq<Pending<E>> {
    if pending == [] then []
    else
      var last := pending[|pending| - 1];
      Unacked(pending[..|pending| - 1], upTo) + (if last.num > upTo then [last] else [])
  }

  function UnackedAll<E>(pending: seq<Pending<E>>, acks: seq<int>): seq<Pending<E>> {
    if acks == [] then pending else Unacked(UnackedAll(pending, acks[..|acks| - 1]), acks[|acks| - 1])
  }

  function Envelopes<E>(pending: seq<Pending<E>>): (r: seq<E>)
    ensures |r| == |pending| && forall i :: 0 <= i < |r| ==> r[i] == pending[i].env
  {
    if pending == [] then [] else Envelopes(pending[..|pending| - 1]) + [pending[|pending| - 1].env]
  }

  lemma TakeSnoc<T>(s: seq<T>, n: nat)
    requires n < |s|
    ensures s[..n + 1] == s[..n] + [s[n]]
  {
  }

  /** What the first n acknowledgements, if there are that many, leave of a buffer. */
  function AckedBy<E>(pending: seq<Pending<E>>, acks: seq<int>, n: nat): seq<Pending<E>> {
    UnackedAll(pending, if n < |acks| then acks[..n] else acks)
  }

  lemma OneMoreAck<E>(pending: seq<Pending<E>>, acks: seq<int>, n: nat)
    ensures AckedBy(pending, acks, n + 1)
            == if n < |acks| then Unacked(AckedBy(pending, acks, n), acks[n]) else AckedBy(pending, acks, n)
  {
    if n < |acks| {
      assert acks[..n + 1][..n] == acks[..n];
      assert n + 1 == |acks| ==> acks[..n + 1] == acks;
    }
  }

  datatype Op<E> = Send(env: E) | Ack(upTo: int)

  datatype Sender<E> = Sender(nextSeq: int, lastAckedSeq: int, pending: seq<Pending<E>>)

  function AfterOp<E>(s: Sender<E>, op: Op<E>): Sender<E> {
    match op
    case Send(env) => Sender(s.nextSeq + 1, s.lastAckedSeq, s.pending + [Pending(s.nextSeq, env)])
    case Ack(upTo) => Sender(s.nextSeq, upTo, Unacked(s.pending, upTo))
  }

  function AfterOps<E>(ops: seq<Op<E>>): Sender<E> {
    if ops == [] then Sender(1, 0, []) else AfterOp(AfterOps(ops[..|ops| - 1]), ops[|ops| - 1])
  }

  /** The envelopes sent so far; the n-th one carries number n. */
  ghost function Sent<E>(ops: seq<Op<E>>): seq<E> {
    if ops == [] then []
    else
      var op := ops[|ops| - 1];
      Sent(ops[..|ops| - 1]) + (if op.Send? then [op.env] else [])
  }

  function Max(a: int, b: int): int { if a < b then b else a }

  function Min(a: int, b: int): int { if a < b then a else b }

  /** The highest acknowledgement so far, an ack of unsent numbers counting only up to the last sent one. */
  ghost function Floor<E>(ops: seq<Op<E>>): int {
    if ops == [] then 0
    else
      var before, op := ops[..|ops| - 1], ops[|ops| - 1];
      if op.Send? then Floor(before) else Max(Floor(before), Min(op.upTo, |Sent(before)|))
  }

  ghost function HighestAck<E>(ops: seq<Op<E>>): int {
    if ops == [] then 0
    else
      var before, op := ops[..|ops| - 1], ops[|ops| - 1];
      if op.Send? then HighestAck(before) else Max(HighestAck(before), op.upTo)
  }

  ghost predicate AcksBelowNext<E>(ops: seq<Op<E>>) {
    ops != [] ==>
      var before, op := ops[..|ops| - 1], ops[|ops| - 1];
      AcksBelowNext(before) && (op.Ack? ==> op.upTo < AfterOps(before).nextSeq)
  }

  /** `pending` holds exactly the numbers floor+1 .. |sent| in order, each with its own envelope. */
  ghost predicate ConsecutiveRun<E>(pending: seq<Pending<E>>, floor: int, sent: seq<E>) {
    && 0 <= floor <= |sent|
    && |pending| == |sent| - floor
    && forall i :: 0 <= i < |pending| ==> pending[i] == Pending(floor + 1 + i, sent[floor + i])
  }

  lemma RunInit<E>(pending: seq<Pending<E>>, floor: int, sent: seq<E>)
    requires ConsecutiveRun(pending, floor, sent) && pending != []
    ensures ConsecutiveRun(pending[..|pending| - 1], floor, sent[..|sent| - 1])
    ensures pending[|pending| - 1] == Pending(|sent|, sent[|sent| - 1])
  {
  }

  lemma RunExtends<E>(pending: seq<Pending<E>>, floor: int, sent: seq<E>)
    requires sent != [] && ConsecutiveRun(pending, floor, sent[..|sent| - 1])
    ensures ConsecutiveRun(pending + [Pending(|sent|, sent[|sent| - 1])], floor, sent)
  {
  }

  /** An acknowledgement leaves the run above it. */
  lemma {:induction false} AckTrimsRun<E>(pending: seq<Pending<E>>, floor: int, sent: seq<E>, upTo: int)
    requires ConsecutiveRun(pending, floor, sent)
    ensures ConsecutiveRun(Unacked(pending, upTo), Max(floor, Min(upTo, |sent|)), sent)
    decreases |pending|
  {
    if pending != [] {
      var init, shorter := pending[..|pending| - 1], sent[..|sent| - 1];
      RunInit(pending, floor, sent);
      AckTrimsRun(init, floor, shorter, upTo);
      if upTo < |sent| {
        RunExtends(Unacked(init, upTo), Max(floor, upTo), sent);
      }
    }
  }

  /** Over every run of sends and acks, whatever the acks: the buffer is the consecutive run from
      the highest effective ack plus one to the last number sent, in order. */
  lemma {:induction false} BufferIsConsecutiveRun<E>(ops: seq<Op<E>>)
    ensures AfterOps(ops).nextSeq == |Sent(ops)| + 1
    ensures ConsecutiveRun(AfterOps(ops).pending, Floor(ops), Sent(ops))
  {
    if ops != [] {
      var before, op := ops[..|ops| - 1], ops[|ops| - 1];
      BufferIsConsecutiveRun(before);
      match op
      case Send(env) =>
      case Ack(upTo) =>
        AckTrimsRun(AfterOps(before).pending, Floor(before), Sent(before), upTo);
        assert Sent(ops) == Sent(before);
    }
  }

  /** With every ack below the next number, the effective ack is simply the highest one. */
  lemma {:induction false} FloorIsHighestAck<E>(ops: seq<Op<E>>)
    requires AcksBelowNext(ops)
    ensures Floor(ops) == HighestAck(ops)
  {
    if ops != [] {
      BufferIsConsecutiveRun(ops[..|ops| - 1]);
      FloorIsHighestAck(ops[..|ops| - 1]);
    }
  }

  /** The stored acknowledgement is the last one received, even when an earlier one was higher. */
  lemma {:induction false} StoredAckIsLast<E>(ops: seq<Op<E>>, i: nat)
    requires i < |ops| && ops[i].Ack? && forall j :: i < j < |ops| ==> ops[j].Send?
    ensures AfterOps(ops).lastAckedSeq == ops[i].upTo
  {
    if i < |ops| - 1 {
      StoredAckIsLast(ops[..|ops| - 1], i);
    }
  }

  class WSClient<E(0)> {
    var nextSeq: int
    var lastAckedSeq: int
    // The slice `pendingEvents`: the first `count` cells of its backing array.
    var backing: array<Pending<E>>
    var count: nat
    var connected: bool
    // What was written to the current connection.
    var written: seq<E>

    ghost predicate Valid()
      reads this
    {
      count <= backing.Length
    }

    ghost function PendingEvents(): seq<Pending<E>>
      requires Valid()
      reads this, backing
    {
      backing[..count]
    }

    ghost function State(): Sender<E>
      requires Valid()
      reads this, backing
    {
      Sender(nextSeq, lastAckedSeq, PendingEvents())
    }

    constructor ()
      ensures Valid() && fresh(backing) && State() == AfterOps([]) && !connected && written == []
    {
      nextSeq, lastAckedSeq, count, connected, written := 1, 0, 0, false, [];
      backing := new Pending<E>[0];
    }

    /** `writeOk` says whether the connection takes the message. */
    method SendEnvelope(env: E, writeOk: bool) returns (ok: bool)
      modifies this`written
      ensures ok == (connected && writeOk)
      ensures written == if ok then old(written) + [env] else old(written)
    {
      if !connected {
        return false;
      }
      if writeOk {
        written := written + [env];
      }
      return writeOk;
    }

    method AppendPending(entry: Pending<E>)
      requires Valid()
      modifies this`backing, this`count, backing
      ensures Valid() && (backing == old(backing) || fresh(backing))
      ensures PendingEvents() == old(PendingEvents()) + [entry]
    {
      if count == backing.Length {
        var grown := new Pending<E>[2 * count + 1](_ => entry);
        for i := 0 to count
          invariant backing == old(backing) && count == old(count) && grown.Length > count == backing.Length
          invariant backing[..count] == old(backing[..count])
          invariant grown[..i] == backing[..i]
        {
          grown[i] := backing[i];
        }
        backing := grown;
      }
      backing[count] := entry;
      count := count + 1;
    }

    /** The event is buffered before the write, so a failed write loses nothing. */
    method SendEvent(env: E, writeOk: bool) returns (num: int, ok: bool)
      requires Valid()
      modifies this, backing
      ensures Valid() && (backing == old(backing) || fresh(backing))
      ensures State() == old(AfterOp(State(), Send(env))) && num == old(nextSeq)
      ensures connected == old(connected) && ok == (connected && writeOk)
      ensures written == if ok then old(written) + [env] else old(written)
    {
      num := nextSeq;
      nextSeq := nextSeq + 1;
      AppendPending(Pending(num, env));
      ok := SendEnvelope(env, writeOk);
    }

    /** Keeps the unacknowledged entries by moving them to the front of the same array. */
    method AcknowledgeSeq(upTo: int)
      requires Valid()
      modifies this`lastAckedSeq, this`count, backing
      ensures Valid() && State() == old(AfterOp(State(), Ack(upTo)))
    {
      lastAckedSeq := upTo;
      count := Compact(upTo);
    }

    method Compact(upTo: int) returns (kept: nat)
      requires Valid()
      modifies backing
      ensures kept <= count && backing[..kept] == Unacked(old(backing[..count]), upTo)
    {
      kept := 0;
      for i := 0 to count
        invariant kept <= i
        invariant backing[..kept] == Unacked(old(backing[..i]), upTo)
        invariant backing[i..] == old(backing[i..])
      {
        assert old(backing[..i + 1])[..i] == old(backing[..i]);
        var entry := backing[i];
        assert entry == backing[i..][0] == old(backing[i]);
        if entry.num > upTo {
          backing[kept] := entry;
          kept := kept + 1;
        }
        assert backing[i + 1..] == old(backing[i + 1..]) by {
          assert old(backing[i..])[1..] == old(backing[i + 1..]);
        }
      }
    }

    method SnapshotPending() returns (events: array<Pending<E>>)
      requires Valid()
      ensures fresh(events) && events[..] == PendingEvents()
    {
      events := new Pending<E>[count];
      for i := 0 to count
        invariant events[..i] == backing[..i]
      {
        events[i] := backing[i];
      }
    }

    /** The turn of one resent entry: perhaps an acknowledgement comes in, then the entry is written. */
    method ResendOne(env: E, acks: seq<int>, i: nat, writeOk: bool) returns (ok: bool)
      requires Valid()
      modifies this`lastAckedSeq, this`count, this`written, backing
      ensures Valid() && ok == (connected && writeOk)
      ensures PendingEvents() == if i < |acks| then Unacked(old(PendingEvents()), acks[i]) else old(PendingEvents())
      ensures written == if ok then old(written) + [env] else old(written)
    {
      if i < |acks| {
        AcknowledgeSeq(acks[i]);
      }
      ok := SendEnvelope(env, writeOk);
    }

    /** Resends a private copy of the buffer. `acks[i]`, when present, is an acknowledgement that
        arrives while the i-th entry is being sent; `failAt` is the write that fails, if any.
        The copy is not disturbed: what is written is the buffer as it was at the start. */
    method ResendPendingEvents(acks: seq<int>, failAt: nat) returns (ok: bool, sent: nat)
      requires Valid()
      modifies this`lastAckedSeq, this`count, this`written, backing
      ensures Valid()
      ensures sent == if connected then Min(failAt, old(|PendingEvents()|)) else 0
      ensures ok <==> sent == old(|PendingEvents()|)
      ensures written == old(written) + old(Envelopes(PendingEvents()))[..sent]
      ensures PendingEvents() == AckedBy(old(PendingEvents()), acks, if ok then sent else sent + 1)
    {
      var events := SnapshotPending();
      ghost var was := PendingEvents();
      assert AckedBy(was, acks, 0) == was;
      sent := 0;
      while sent < events.Length
        invariant Valid() && sent <= events.Length && events[..] == was
        invariant sent > 0 ==> connected && sent <= failAt
        invariant PendingEvents() == AckedBy(was, acks, sent)
        invariant written == old(written) + Envelopes(was)[..sent]
      {
        TakeSnoc(Envelopes(was), sent);
        ok := ResendNth(events, was, acks, failAt, sent);
        if !ok {
          return false, sent;
        }
        sent := sent + 1;
      }
      return true, sent;
    }

    /** The turn of the i-th copied entry. */
    method ResendNth(events: array<Pending<E>>, ghost was: seq<Pending<E>>, acks: seq<int>, failAt: nat, i: nat)
      returns (ok: bool)
      requires Valid() && i < events.Length && events[..] == was && events != backing
      requires PendingEvents() == AckedBy(was, acks, i)
      modifies this`lastAckedSeq, this`count, this`written, backing
      ensures Valid() && ok == (connected && i != failAt)
      ensures PendingEvents() == AckedBy(was, acks, i + 1)
      ensures written == if ok then old(written) + [was[i].env] else old(written)
    {
      OneMoreAck(was, acks, i);
      assert events[i] == events[..][i];
      ok := ResendOne(events[i].env, acks, i, i != failAt);
    }
  }
}
