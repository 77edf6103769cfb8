/** The supervisor's event pipeline: dedup, per-agent sequencing with a gap
    buffer and replay requests, and a bounded queue towards the database. */
module EventPipeline {
  import opened Wrappers
  import opened EventStream
  import opened EventDedup

  const PERSIST_QUEUE_SIZE: nat := 1024

  datatype PersistBuffer = PersistBuffer(queue: seq<Event>, dropped: seq<Event>)

  /** A full queue drops the event. */
  function Enqueue(b: PersistBuffer, e: Event): PersistBuffer {
    if |b.queue| < PERSIST_QUEUE_SIZE then b.(queue := b.queue + [e]) else b.(dropped := b.dropped + [e])
  }

  function EnqueueAll(b: PersistBuffer, events: seq<Event>): PersistBuffer {
    if events == [] then b else Enqueue(EnqueueAll(b, events[..|events| - 1]), events[|events| - 1])
  }

  /** A batch goes into the queue as far as there is room, and exactly the overflow is dropped. */
  lemma {:induction false} DropsOnlyOverflow(b: PersistBuffer, events: seq<Event>)
    requires |b.queue| <= 1024
    ensures var room := 1024 - |b.queue|;
            EnqueueAll(b, events)
            == if |events| <= room then PersistBuffer(b.queue + events, b.dropped)
               else PersistBuffer(b.queue + events[..room], b.dropped + events[room..])
  {
    if events == [] {
      assert b.queue + [] == b.queue;
    } else {
      var before, e := events[..|events| - 1], events[|events| - 1];
      DropsOnlyOverflow(b, before);
      var room := 1024 - |b.queue|;
      if |events| <= room {
        assert b.queue + before + [e] == b.queue + events;
      } else if |before| <= room {
        assert before == events[..room] && events[room..] == [e];
        assert b.dropped + [e] == b.dropped + events[room..];
      } else {
        assert before[..room] == events[..room] && before[room..] + [e] == events[room..];
        assert b.dropped + before[room..] + [e] == b.dropped + events[room..];
      }
    }
  }

  datatype SequenceStatus = Match | Old | Gap

  class EventPipeline {
    const dedup: EventDedupCache
    const hasReplaySender: bool

    var agentSequences: map<string, nat>
    var pendingEvents: map<string, map<nat, Event>>
    var persistQueue: seq<Event>

    // What the pipeline hands to its surroundings: replay requests and database inserts.
    var replayRequests: seq<(string, EventRange)>
    var attempted: seq<Event>

    // Logs that the specification speaks about.
    ghost var released: map<string, seq<Event>>
    ghost var dropped: seq<Event>

    ghost predicate Valid()
      reads this
    {
      && agentSequences.Keys == released.Keys
      && (forall a :: a in pendingEvents ==> pendingEvents[a] != map[])
    }

    ghost function StreamOf(agentID: string): Stream
      reads this`agentSequences, this`pendingEvents, this`released
    {
      Stream(if agentID in agentSequences then agentSequences[agentID] else 0,
             if agentID in pendingEvents then pendingEvents[agentID] else map[],
             if agentID in released then released[agentID] else [])
    }

    ghost function Persisting(): PersistBuffer
      reads this
    {
      PersistBuffer(persistQueue, dropped)
    }

    constructor (hasReplaySender: bool)
      ensures Valid() && fresh(dedup) && dedup.caches == map[]
      ensures dedup.cacheSize == DEDUP_CACHE_SIZE_PER_AGENT && this.hasReplaySender == hasReplaySender
      ensures forall a :: StreamOf(a) == EMPTY
      ensures persistQueue == attempted == dropped == [] && replayRequests == []
    {
      this.hasReplaySender := hasReplaySender;
      dedup := new EventDedupCache(DEDUP_CACHE_SIZE_PER_AGENT);
      agentSequences, pendingEvents, released := map[], map[], map[];
      persistQueue, attempted, dropped, replayRequests := [], [], [], [];
    }

    method ProcessEvent(agentID: string, event: Event) returns (r: Result<(), string>)
      requires Valid()
      modifies this, dedup
      ensures Valid()
      ensures agentID == "" || event.id == "" ==> r.Err? && unchanged(this) && unchanged(dedup)
      ensures agentID != "" && event.id != "" ==>
                dedup.caches == old(Recorded(dedup.caches, Key(agentID, event.id), dedup.cacheSize))
      ensures agentID != "" && event.id != "" && old(IsDuplicate(dedup.caches, Key(agentID, event.id)))
              ==> r.Ok? && unchanged(this)
      ensures agentID != "" && event.id != "" && !old(IsDuplicate(dedup.caches, Key(agentID, event.id)))
              ==> if event.num == 0 then r.Err? && unchanged(this)
                  else
                    && r.Ok?
                    && StreamOf(agentID) == old(Accept(StreamOf(agentID), event))
                    && (forall a :: a != agentID ==> StreamOf(a) == old(StreamOf(a)))
                    && attempted == old(attempted)
                    && replayRequests == old(replayRequests)
                         + (if old(IsGap(StreamOf(agentID), event)) && hasReplaySender
                            then [(agentID, old(ReplayRequest(StreamOf(agentID), event)))] else [])
                    && old(StreamOf(agentID).released) <= StreamOf(agentID).released
                    && Persisting() == EnqueueAll(old(Persisting()),
                                                  StreamOf(agentID).released[|old(StreamOf(agentID).released)|..])
    {
      if agentID == "" {
        return Err("agent id is required");
      }
      if event.id == "" {
        return Err("event id is required");
      }
      var duplicate := dedup.Seen(agentID + ":" + event.id);
      if duplicate {
        return Ok(());
      }
      if event.num == 0 {
        return Err("event sequence must be positive");
      }
      SequenceEvent(agentID, event);
      return Ok(());
    }

    /** The part of ProcessEvent past the dedup cache, for a positive sequence number. */
    method SequenceEvent(agentID: string, event: Event)
      requires Valid() && event.num > 0
      modifies this
      ensures Valid()
      ensures StreamOf(agentID) == old(Accept(StreamOf(agentID), event))
      ensures forall a :: a != agentID ==> StreamOf(a) == old(StreamOf(a))
      ensures attempted == old(attempted)
      ensures replayRequests == old(replayRequests)
                + (if old(IsGap(StreamOf(agentID), event)) && hasReplaySender
                   then [(agentID, old(ReplayRequest(StreamOf(agentID), event)))] else [])
      ensures old(StreamOf(agentID).released) <= StreamOf(agentID).released
      ensures Persisting() == EnqueueAll(old(Persisting()),
                                         StreamOf(agentID).released[|old(StreamOf(agentID).released)|..])
    {
      var status := ValidateSequence(agentID, event);
      match status {
        case Old =>
        case Gap =>
          HandleGap(agentID, event);
        case Match =>
          var ordered := ConsumeInOrder(agentID, event);
          EnqueueOrdered(ordered);
      }
    }

    method ValidateSequence(agentID: string, event: Event) returns (status: SequenceStatus)
      requires event.num > 0
      ensures status.Old? <==> event.num <= StreamOf(agentID).last
      ensures status.Gap? <==> IsGap(StreamOf(agentID), event)
    {
      var lastSeq := if agentID in agentSequences then agentSequences[agentID] else 0;
      var expected := lastSeq + 1;
      if event.num < expected {
        return Old;
      }
      if event.num > expected {
        return Gap;
      }
      return Match;
    }

    method HandleGap(agentID: string, event: Event)
      requires Valid() && IsGap(StreamOf(agentID), event)
      modifies this`pendingEvents, this`replayRequests
      ensures Valid()
      ensures StreamOf(agentID) == old(Accept(StreamOf(agentID), event))
      ensures forall a :: a != agentID ==> StreamOf(a) == old(StreamOf(a))
      ensures replayRequests == old(replayRequests)
                + (if hasReplaySender then [(agentID, old(ReplayRequest(StreamOf(agentID), event)))] else [])
    {
      var lastSeq := if agentID in agentSequences then agentSequences[agentID] else 0;
      var expected := lastSeq + 1;
      var pending := if agentID in pendingEvents then pendingEvents[agentID] else map[];
      pending := pending[event.num := event];
      assert event.num in pending;
      pendingEvents := pendingEvents[agentID := pending];
      if hasReplaySender {
        replayRequests := replayRequests + [(agentID, EventRange(expected, event.num - 1))];
      }
    }

    method ConsumeInOrder(agentID: string, first: Event) returns (events: seq<Event>)
      requires Valid() && first.num == StreamOf(agentID).last + 1
      modifies this`agentSequences, this`pendingEvents, this`released
      ensures Valid()
      ensures StreamOf(agentID) == old(Accept(StreamOf(agentID), first))
      ensures forall a :: a != agentID ==> StreamOf(a) == old(StreamOf(a))
      ensures StreamOf(agentID).released == old(StreamOf(agentID).released) + events
    {
      ghost var before := StreamOf(agentID).released;
      agentSequences := agentSequences[agentID := first.num];
      var pending := if agentID in pendingEvents then pendingEvents[agentID] else map[];
      events, pending := TakeReady(agentID, first, pending, before);
      released := released[agentID := before + events];
      pendingEvents := if pending == map[] then pendingEvents - {agentID} else pendingEvents[agentID := pending];
    }

    /** The drain loop of ConsumeInOrder; `before` only serves the specification. */
    method TakeReady(agentID: string, first: Event, buffered: map<nat, Event>, ghost before: seq<Event>)
      returns (events: seq<Event>, pending: map<nat, Event>)
      requires agentID in agentSequences && agentSequences[agentID] == first.num
      modifies this`agentSequences
      ensures agentID in agentSequences
      ensures agentSequences == old(agentSequences)[agentID := agentSequences[agentID]]
      ensures Stream(agentSequences[agentID], pending, before + events)
              == Drain(Stream(first.num, buffered, before + [first]))
    {
      events, pending := [first], buffered;
      while agentSequences[agentID] + 1 in pending
        invariant agentID in agentSequences
        invariant agentSequences == old(agentSequences)[agentID := agentSequences[agentID]]
        invariant Drain(Stream(agentSequences[agentID], pending, before + events))
                  == Drain(Stream(first.num, buffered, before + [first]))
        decreases pending.Keys
      {
        var nextSeq := agentSequences[agentID] + 1;
        var nextEvent := pending[nextSeq];
        pending := pending - {nextSeq};
        assert before + (events + [nextEvent]) == (before + events) + [nextEvent];
        events := events + [nextEvent];
        agentSequences := agentSequences[agentID := nextEvent.num];
      }
    }

    method EnqueueOrdered(ordered: seq<Event>)
      modifies this`persistQueue, this`dropped
      ensures Persisting() == EnqueueAll(old(Persisting()), ordered)
    {
      for i := 0 to |ordered|
        invariant Persisting() == EnqueueAll(old(Persisting()), ordered[..i])
      {
        assert ordered[..i + 1][..i] == ordered[..i];
        EnqueuePersist(ordered[i]);
      }
      assert ordered[..|ordered|] == ordered;
    }

    method EnqueuePersist(event: Event)
      modifies this`persistQueue, this`dropped
      ensures Persisting() == old(Enqueue(Persisting(), event))
    {
      if |persistQueue| < PERSIST_QUEUE_SIZE {
        persistQueue := persistQueue + [event];
      } else {
        dropped := dropped + [event];
      }
    }

    /** One turn of the worker: takes the oldest queued event to the database, whether or not the insert succeeds. */
    method PersistNext()
      requires persistQueue != []
      modifies this`persistQueue, this`attempted
      ensures attempted == old(attempted) + [old(persistQueue[0])] && persistQueue == old(persistQueue[1..])
      ensures attempted + persistQueue == old(attempted + persistQueue)
    {
      attempted := attempted + [persistQueue[0]];
      persistQueue := persistQueue[1..];
    }

    /** The worker's last loop once the stop channel is closed: it returns when the queue is empty. */
    method Close()
      modifies this`persistQueue, this`attempted
      ensures persistQueue == [] && attempted == old(attempted + persistQueue)
    {
      while persistQueue != []
        invariant attempted + persistQueue == old(attempted + persistQueue)
        decreases |persistQueue|
      {
        PersistNext();
      }
    }

    method LastSequence(agentID: string) returns (last: nat)
      ensures last == StreamOf(agentID).last
    {
      last := if agentID in agentSequences then agentSequences[agentID] else 0;
    }

    method PendingCount(agentID: string) returns (count: nat)
      ensures count == |StreamOf(agentID).pending|
    {
      count := if agentID in pendingEvents then |pendingEvents[agentID]| else 0;
    }
  }
}
