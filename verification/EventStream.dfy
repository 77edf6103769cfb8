/** One agent's event stream as the supervisor reorders it: the last sequence
    number released in order, the early arrivals buffered behind a gap, and the
    log of what was released. */
module EventStream {

  /** `num` is the sequence number (`seq` is a Dafny keyword). */
  datatype Event = Event(id: string, sessionId: string, kind: string, data: string, timestamp: int, num: nat)

  datatype Stream = Stream(last: nat, pending: map<nat, Event>, released: seq<Event>)

  const EMPTY := Stream(0, map[], [])

  /** Releases buffered events for as long as the next number is present. */
  function Drain(s: Stream): Stream
    decreases s.pending.Keys
  {
    var next := s.last + 1;
    if next !in s.pending then s
    else
      var e := s.pending[next];
      Drain(Stream(e.num, s.pending - {next}, s.released + [e]))
  }

  /** An event past the dedup cache: dropped when old, buffered behind a gap, released when expected. */
  function Accept(s: Stream, e: Event): Stream {
    if e.num <= s.last then s
    else if e.num > s.last + 1 then s.(pending := s.pending[e.num := e])
    else Drain(Stream(e.num, s.pending, s.released + [e]))
  }

  /** The stream after a whole run of arrivals. */
  function Run(arrivals: seq<Event>): Stream {
    if arrivals == [] then EMPTY
    else Accept(Run(arrivals[..|arrivals| - 1]), arrivals[|arrivals| - 1])
  }

  /** Released events carry 1, 2, ..., last; buffered ones lie beyond the missing number. */
  ghost predicate WellFormed(s: Stream) {
    && |s.released| == s.last
    && (forall i :: 0 <= i < |s.released| ==> s.released[i].num == i + 1)
    && (forall k :: k in s.pending ==> s.pending[k].num == k && k >= s.last + 2)
  }

  /** As WellFormed, except that the next number may be waiting in the buffer. */
  ghost predicate Drainable(s: Stream) {
    && |s.released| == s.last
    && (forall i :: 0 <= i < |s.released| ==> s.released[i].num == i + 1)
    && (forall k :: k in s.pending ==> s.pending[k].num == k && k >= s.last + 1)
  }

  ghost predicate Holds(s: Stream, k: nat) {
    1 <= k <= s.last || k in s.pending
  }

  /** The event released or buffered under number k. */
  ghost function Held(s: Stream, k: nat): Event
    requires Holds(s, k) && |s.released| == s.last
  {
    if k <= s.last && k > 0 then s.released[k - 1] else s.pending[k]
  }

  /** t holds what s holds, under the same numbers, and has released what s released and maybe more. */
  ghost predicate Continues(s: Stream, t: Stream)
    requires Drainable(s) && Drainable(t)
  {
    && s.released <= t.released
    && (forall k: nat :: Holds(s, k) ==> Holds(t, k) && Held(t, k) == Held(s, k))
  }

  lemma {:induction false} DrainKeeps(s: Stream)
    requires Drainable(s)
    ensures WellFormed(Drain(s)) && Continues(s, Drain(s))
    ensures forall k: nat :: Holds(Drain(s), k) ==> Holds(s, k)
    decreases s.pending.Keys
  {
    var next := s.last + 1;
    if next in s.pending {
      var e := s.pending[next];
      var s' := Stream(e.num, s.pending - {next}, s.released + [e]);
      assert s'.released[..s.last] == s.released;
      assert Continues(s, s');
      DrainKeeps(s');
    }
  }

  /** One arrival keeps the shape, only extends the released stream, adds exactly
      its own number to what is held, and does nothing when the same event is held already. */
  lemma AcceptKeeps(s: Stream, e: Event)
    requires WellFormed(s) && e.num > 0
    ensures var t := Accept(s, e);
            && WellFormed(t) && s.released <= t.released
            && (forall k: nat :: Holds(t, k) <==> Holds(s, k) || k == e.num)
            && (forall k: nat :: Holds(s, k) && k != e.num ==> Held(t, k) == Held(s, k))
            && (Holds(s, e.num) && Held(s, e.num) == e ==> t == s)
            && (Holds(s, e.num) ==> Held(t, e.num) == Held(s, e.num) || Held(t, e.num) == e)
            && (!Holds(s, e.num) ==> Held(t, e.num) == e)
  {
    if e.num == s.last + 1 {
      var s' := Stream(e.num, s.pending, s.released + [e]);
      assert s'.released[..s.last] == s.released;
      assert Continues(s, s');
      DrainKeeps(s');
      assert Held(s', e.num) == e;
    } else if e.num in s.pending && s.pending[e.num] == e {
      assert s.pending[e.num := e] == s.pending;
    }
  }

  ghost function Numbers(arrivals: seq<Event>): set<nat> {
    set e | e in arrivals && e.num > 0 :: e.num
  }

  /** A run holds exactly the numbers that arrived, each with an event that arrived. */
  lemma {:induction false} RunHoldsWhatArrived(arrivals: seq<Event>)
    ensures var s := Run(arrivals);
            && WellFormed(s)
            && (forall k: nat :: Holds(s, k) <==> k in Numbers(arrivals))
            && (forall k: nat :: Holds(s, k) ==> Held(s, k) in arrivals)
  {
    if arrivals != [] {
      var before, e := arrivals[..|arrivals| - 1], arrivals[|arrivals| - 1];
      RunHoldsWhatArrived(before);
      assert arrivals == before + [e];
      if e.num > 0 {
        AcceptKeeps(Run(before), e);
        assert Numbers(arrivals) == Numbers(before) + {e.num};
      } else {
        assert Numbers(arrivals) == Numbers(before);
      }
    }
  }

  /** Over every run: the last number is the largest k such that 1..k all arrived, exactly
      the arrived numbers beyond it are buffered, all of them at least last+2, and
      the released stream carries 1, 2, ..., last in order without repeats. */
  lemma RunIsLargestPrefix(arrivals: seq<Event>)
    ensures var s := Run(arrivals);
            && (forall k :: 1 <= k <= s.last ==> k in Numbers(arrivals))
            && s.last + 1 !in Numbers(arrivals)
            && (forall k :: k in s.pending <==> k in Numbers(arrivals) && k > s.last)
            && (forall k :: k in s.pending ==> k >= s.last + 2)
            && |s.released| == s.last
            && (forall i :: 0 <= i < s.last ==> s.released[i].num == i + 1 && s.released[i] in arrivals)
  {
    RunHoldsWhatArrived(arrivals);
    var s := Run(arrivals);
    assert !Holds(s, s.last + 1);
    forall k | k in Numbers(arrivals) && k > s.last
      ensures k in s.pending
    {
      assert Holds(s, k);
    }
    forall k: nat | 1 <= k <= s.last
      ensures k in Numbers(arrivals)
    {
      assert Holds(s, k);
    }
    forall i | 0 <= i < s.last
      ensures s.released[i] in arrivals
    {
      assert Holds(s, i + 1) && Held(s, i + 1) == s.released[i];
    }
  }

  /** Presenting an event again changes nothing. */
  lemma RepeatChangesNothing(arrivals: seq<Event>, e: Event)
    requires OneEventPerNumber(arrivals) && e in arrivals && e.num > 0
    ensures Accept(Run(arrivals), e) == Run(arrivals)
  {
    RunHoldsWhatArrived(arrivals);
    assert e.num in Numbers(arrivals);
    assert Holds(Run(arrivals), e.num);
    AcceptKeeps(Run(arrivals), e);
  }

  /** A number names one event, as a sender that never reuses a number ensures. */
  ghost predicate OneEventPerNumber(arrivals: seq<Event>) {
    forall e, f :: e in arrivals && f in arrivals && e.num == f.num > 0 ==> e == f
  }

  /** Two arrival orders of the same events, with any repetitions, end in the same state. */
  lemma OrderIndependence(a: seq<Event>, b: seq<Event>)
    requires OneEventPerNumber(a)
    requires forall e :: e in a <==> e in b
    ensures Run(a) == Run(b)
  {
    RunHoldsWhatArrived(a);
    RunHoldsWhatArrived(b);
    assert Numbers(a) == Numbers(b);
    SameHoldingsSameStream(a, Run(a), Run(b));
  }

  /** A well-formed stream is determined by the events it holds. */
  lemma SameHoldingsSameStream(events: seq<Event>, s: Stream, t: Stream)
    requires WellFormed(s) && WellFormed(t) && OneEventPerNumber(events)
    requires forall k: nat :: Holds(s, k) <==> Holds(t, k)
    requires forall k: nat :: Holds(s, k) ==> Held(s, k) in events && Held(t, k) in events
    ensures s == t
  {
    assert !Holds(s, s.last + 1) && !Holds(t, t.last + 1);
    assert !Holds(t, s.last + 1) && !Holds(s, t.last + 1);
    assert s.last == t.last;
    forall k: nat | Holds(s, k)
      ensures Held(s, k) == Held(t, k)
    {
      assert Held(s, k).num == k == Held(t, k).num;
    }
    forall i | 0 <= i < s.last
      ensures s.released[i] == t.released[i]
    {
      assert Holds(s, i + 1);
      assert Held(s, i + 1) == Held(t, i + 1);
    }
    forall k | k in s.pending || k in t.pending
      ensures k in s.pending && k in t.pending && s.pending[k] == t.pending[k]
    {
      assert Holds(s, k) && Holds(t, k);
      assert Held(s, k) == Held(t, k);
    }
    assert s.pending == t.pending;
    assert s.released == t.released;
  }

  /** The last number never exceeds the count of arrivals, so 64-bit counters do not wrap. */
  lemma {:induction false} LastBoundedByArrivals(arrivals: seq<Event>)
    ensures Run(arrivals).last + |Run(arrivals).pending| <= |arrivals|
  {
    RunHoldsWhatArrived(arrivals);
    if arrivals != [] {
      var before, e := arrivals[..|arrivals| - 1], arrivals[|arrivals| - 1];
      LastBoundedByArrivals(before);
      RunHoldsWhatArrived(before);
      AcceptGrowsByOne(Run(before), e);
    }
  }

  lemma AcceptGrowsByOne(s: Stream, e: Event)
    requires WellFormed(s)
    ensures Accept(s, e).last + |Accept(s, e).pending| <= s.last + |s.pending| + 1
  {
    if e.num == s.last + 1 {
      DrainConserves(Stream(e.num, s.pending, s.released + [e]));
    } else if e.num > s.last + 1 {
      assert s.pending[e.num := e].Keys == s.pending.Keys + {e.num};
      assert |s.pending[e.num := e]| == |s.pending[e.num := e].Keys|;
    }
  }

  lemma {:induction false} DrainConserves(s: Stream)
    requires Drainable(s)
    ensures Drain(s).last + |Drain(s).pending| == s.last + |s.pending|
    decreases s.pending.Keys
  {
    var next := s.last + 1;
    if next in s.pending {
      var e := s.pending[next];
      var rest := s.pending - {next};
      assert rest.Keys == s.pending.Keys - {next};
      assert |rest| == |rest.Keys| && |s.pending| == |s.pending.Keys|;
      DrainConserves(Stream(e.num, rest, s.released + [e]));
    }
  }

  /** A replay request: the numbers from the first unreleased one to just below the early event. */
  datatype EventRange = EventRange(from: nat, to: int)

  predicate IsGap(s: Stream, e: Event) {
    e.num > s.last + 1
  }

  function ReplayRequest(s: Stream, e: Event): EventRange {
    EventRange(s.last + 1, e.num - 1)
  }

  /** The request a gap sends is never empty, and once every number in it has arrived (in any order, mixed
      with anything else) the stream is past the event that caused it. */
  lemma ReplaySufficient(before: seq<Event>, e: Event, after: seq<Event>)
    requires IsGap(Run(before), e)
    requires var r := ReplayRequest(Run(before), e); forall k :: r.from <= k <= r.to ==> k in Numbers(after)
    ensures var r := ReplayRequest(Run(before), e); 1 <= r.from <= r.to && r.to + 1 == e.num
    ensures Run(before + [e] + after).last >= e.num
  {
    var all := before + [e] + after;
    RunHoldsWhatArrived(before);
    RunIsLargestPrefix(all);
    assert e in all;
    forall k: nat | 1 <= k <= e.num
      ensures k in Numbers(all)
    {
      assert before + [e] + after == before + ([e] + after);
      if k < e.num && k <= Run(before).last {
        assert Holds(Run(before), k);
        assert k in Numbers(before);
        var f :| f in before && f.num > 0 && f.num == k;
        assert f in all;
      } else if k < e.num {
        assert k in Numbers(after);
        var f :| f in after && f.num > 0 && f.num == k;
        assert f in all;
      }
    }
  }

  /** The request asks for nothing released, starts at a number that never arrived, and covers
      every number below the early event that has not arrived. */
  lemma ReplayAsksForMissing(before: seq<Event>, e: Event)
    requires IsGap(Run(before), e)
    ensures var (s, r) := (Run(before), ReplayRequest(Run(before), e));
            && s.last < r.from <= r.to < e.num
            && r.from !in Numbers(before)
            && (forall k :: 1 <= k < e.num && k !in Numbers(before) ==> r.from <= k <= r.to)
  {
    RunIsLargestPrefix(before);
  }
}
