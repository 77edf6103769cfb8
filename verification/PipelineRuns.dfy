/** Whole runs of the event pipeline over many agents: dedup changes nothing but
    work, agents do not disturb each other, and replay requests suffice. */
module PipelineRuns {
  import opened Wrappers
  import opened BoundedWindow
  import opened EventStream
  import opened EventDedup
  import P = EventPipeline

  datatype Input = Input(agent: string, event: Event)

  type Streams = map<string, Stream>

  datatype State = State(windows: Windows, streams: Streams)

  function StreamAt(streams: Streams, agent: string): Stream {
    if agent in streams then streams[agent] else EMPTY
  }

  predicate HasIds(x: Input) {
    x.agent != "" && x.event.id != ""
  }

  function KeyOf(x: Input): string {
    Key(x.agent, x.event.id)
  }

  /** The pipeline without any dedup cache. */
  function ProcessPlain(streams: Streams, x: Input): Streams {
    if HasIds(x) && x.event.num > 0
    then streams[x.agent := Accept(StreamAt(streams, x.agent), x.event)]
    else streams
  }

  function Process(s: State, x: Input, cap: nat): State {
    if !HasIds(x) then s
    else
      State(Recorded(s.windows, KeyOf(x), cap),
            if IsDuplicate(s.windows, KeyOf(x)) then s.streams else ProcessPlain(s.streams, x))
  }

  function RunPlain(inputs: seq<Input>): Streams {
    if inputs == [] then map[] else ProcessPlain(RunPlain(inputs[..|inputs| - 1]), inputs[|inputs| - 1])
  }

  function RunDedup(inputs: seq<Input>, cap: nat): State {
    if inputs == [] then State(map[], map[])
    else Process(RunDedup(inputs[..|inputs| - 1], cap), inputs[|inputs| - 1], cap)
  }

  /** The arrivals of one agent that get past the argument checks. */
  ghost function ArrivalsOf(inputs: seq<Input>, agent: string): seq<Event> {
    if inputs == [] then []
    else
      var x := inputs[|inputs| - 1];
      ArrivalsOf(inputs[..|inputs| - 1], agent)
      + (if x.agent == agent && HasIds(x) && x.event.num > 0 then [x.event] else [])
  }

  /** Agents do not disturb each other: an agent's stream is the run of its own arrivals. */
  lemma {:induction false} StreamIsOwnRun(inputs: seq<Input>, agent: string)
    ensures StreamAt(RunPlain(inputs), agent) == Run(ArrivalsOf(inputs, agent))
    ensures agent in RunPlain(inputs) <==> ArrivalsOf(inputs, agent) != []
  {
    if inputs != [] {
      var before, x := inputs[..|inputs| - 1], inputs[|inputs| - 1];
      StreamIsOwnRun(before, agent);
      var arrivals := ArrivalsOf(before, agent);
      if x.agent == agent && HasIds(x) && x.event.num > 0 {
        assert (arrivals + [x.event])[..|arrivals|] == arrivals;
      } else {
        assert arrivals + [] == arrivals;
      }
    }
  }

  lemma {:induction false} ArrivalsAreInputs(inputs: seq<Input>, agent: string)
    ensures forall e :: e in ArrivalsOf(inputs, agent) <==>
              agent != "" && e.id != "" && e.num > 0 && Input(agent, e) in inputs
  {
    if inputs != [] {
      var before, x := inputs[..|inputs| - 1], inputs[|inputs| - 1];
      ArrivalsAreInputs(before, agent);
      assert inputs == before + [x];
    }
  }

  /** Within one agent an id names one event and a positive number names one event. */
  ghost predicate Paired(inputs: seq<Input>) {
    forall x, y :: x in inputs && y in inputs && HasIds(x) && HasIds(y) && x.agent == y.agent ==>
                     (x.event.id == y.event.id || x.event.num == y.event.num > 0 ==> x.event == y.event)
  }

  /** No agent id is another one followed by a colon and more text. Ids that start
      with a colon are exempt: their events never reach a window. */
  ghost predicate Separated(agents: set<string>) {
    forall a, b :: a in agents && b in agents && a != b && a != "" && a[0] != ':' ==> !Extends(b, a)
  }

  ghost predicate AgentsAmong(inputs: seq<Input>, agents: set<string>) {
    forall x :: x in inputs ==> x.agent in agents
  }

  ghost predicate Came(inputs: seq<Input>, key: string) {
    exists x :: x in inputs && HasIds(x) && KeyOf(x) == key
  }

  /** Every identifier inside a window is that of an earlier input. */
  ghost predicate WindowsCame(windows: Windows, inputs: seq<Input>) {
    forall h, id :: h in windows && id in windows[h] ==> ':' !in h && h != "" && Came(inputs, Key(h, id))
  }

  lemma RecordedCame(windows: Windows, inputs: seq<Input>, x: Input, cap: nat)
    requires WindowsCame(windows, inputs) && HasIds(x)
    ensures WindowsCame(Recorded(windows, KeyOf(x), cap), inputs + [x])
  {
    var after := Recorded(windows, KeyOf(x), cap);
    CutRejoins(KeyOf(x));
    forall h, id | h in after && id in after[h]
      ensures ':' !in h && h != "" && Came(inputs + [x], Key(h, id))
    {
      if h in windows && id in windows[h] {
        var y :| y in inputs && HasIds(y) && KeyOf(y) == Key(h, id);
        assert y in inputs + [x];
      } else {
        var w := WindowAt(windows, h);
        assert id in w + [Cut(KeyOf(x)).value.1];
        assert x in inputs + [x];
      }
    }
  }

  /** Under separated agents a duplicate verdict means this very event came before. */
  lemma DuplicateCameBefore(windows: Windows, inputs: seq<Input>, x: Input, agents: set<string>)
    requires WindowsCame(windows, inputs) && HasIds(x) && IsDuplicate(windows, KeyOf(x))
    requires Separated(agents) && AgentsAmong(inputs + [x], agents) && Paired(inputs + [x])
    ensures x in inputs
  {
    var all := inputs + [x];
    assert x in all;
    CutRejoins(KeyOf(x));
    var (h, id) := Cut(KeyOf(x)).value;
    var y :| y in inputs && HasIds(y) && KeyOf(y) == Key(h, id);
    assert y in all;
    assert h[0] == KeyOf(x)[0] == x.agent[0] && KeyOf(y)[0] == y.agent[0];
    SharedKeyMeansExtension(x.agent, x.event.id, y.agent, y.event.id);
    assert x.agent == y.agent && x.event.id == y.event.id;
    assert x == y;
  }

  ghost predicate Transparent(inputs: seq<Input>, cap: nat) {
    RunDedup(inputs, cap).streams == RunPlain(inputs)
  }

  /** Processing an input that came before changes nothing. */
  lemma RepeatIsNoop(inputs: seq<Input>, x: Input)
    requires x in inputs && Paired(inputs)
    ensures ProcessPlain(RunPlain(inputs), x) == RunPlain(inputs)
  {
    if HasIds(x) && x.event.num > 0 {
      var arrivals := ArrivalsOf(inputs, x.agent);
      StreamIsOwnRun(inputs, x.agent);
      ArrivalsPaired(inputs, x.agent);
      ArrivalsAreInputs(inputs, x.agent);
      assert x == Input(x.agent, x.event);
      RepeatChangesNothing(arrivals, x.event);
      SameEntry(RunPlain(inputs), x.agent, Run(arrivals));
    }
  }

  lemma SameEntry(streams: Streams, agent: string, s: Stream)
    requires agent in streams && streams[agent] == s
    ensures streams[agent := s] == streams
  {
  }

  lemma ArrivalsPaired(inputs: seq<Input>, agent: string)
    requires Paired(inputs)
    ensures OneEventPerNumber(ArrivalsOf(inputs, agent))
  {
    var arrivals := ArrivalsOf(inputs, agent);
    ArrivalsAreInputs(inputs, agent);
    forall e, f | e in arrivals && f in arrivals && e.num == f.num > 0
      ensures e == f
    {
      assert Input(agent, e) in inputs && Input(agent, f) in inputs;
    }
  }

  lemma {:induction false} DedupTransparent(inputs: seq<Input>, cap: nat, agents: set<string>)
    requires Separated(agents) && AgentsAmong(inputs, agents) && Paired(inputs)
    ensures Transparent(inputs, cap)
    ensures WindowsCame(RunDedup(inputs, cap).windows, inputs)
  {
    if inputs != [] {
      var before, x := inputs[..|inputs| - 1], inputs[|inputs| - 1];
      assert inputs == before + [x];
      DedupTransparent(before, cap, agents);
      var s := RunDedup(before, cap);
      if HasIds(x) {
        RecordedCame(s.windows, before, x, cap);
        if IsDuplicate(s.windows, KeyOf(x)) {
          DuplicateCameBefore(s.windows, before, x, agents);
          RepeatIsNoop(before, x);
        }
      } else {
        forall h, id | h in s.windows && id in s.windows[h]
          ensures Came(inputs, Key(h, id))
        {
          var y :| y in before && HasIds(y) && KeyOf(y) == Key(h, id);
          assert y in inputs;
        }
      }
    }
  }

  /** Two agents of which one extends the other: the second one's first event is taken for a duplicate. */
  function CollidingInputs(a: string, b: string): seq<Input>
    requires Extends(b, a)
  {
    [Input(a, Event(b[|a| + 1..] + ":x", "", "", "", 0, 1)), Input(b, Event("x", "", "", "", 0, 1))]
  }

  lemma CollisionLosesEvent(a: string, b: string, cap: nat)
    requires cap > 0 && a != "" && a[0] != ':' && Extends(b, a)
    ensures var inputs := CollidingInputs(a, b);
            Paired(inputs) && b in RunPlain(inputs) && b !in RunDedup(inputs, cap).streams
  {
    var inputs := CollidingInputs(a, b);
    var x, y := inputs[0], inputs[1];
    var t := b[|a| + 1..];
    assert a + ":" == b[..|a| + 1];
    assert b == (a + ":") + t;
    assert KeyOf(x) == a + ":" + (t + ":x") == ((a + ":") + t) + ":x" == KeyOf(y);
    CutRejoins(KeyOf(x));
    var (h, id) := Cut(KeyOf(x)).value;
    assert KeyOf(x)[0] == a[0];
    assert KeyOf(x)[|KeyOf(x)| - 1] == 'x';
    assert inputs[..1] == [x] && [x][..0] == [];
    assert RunDedup([x], cap) == Process(State(map[], map[]), x, cap);
    assert RunDedup(inputs, cap) == Process(RunDedup([x], cap), y, cap);
    assert RunPlain([x]) == ProcessPlain(map[], x);
    assert RunPlain(inputs) == ProcessPlain(RunPlain([x]), y);
    assert id != "" && h != "";
    assert id in WindowAt(RunDedup([x], cap).windows, h);
  }

  /** The bounded, evicting dedup cache is transparent on every paired run of a
      set of agents exactly when no agent's id extends another's. */
  lemma DedupTransparentIff(agents: set<string>, cap: nat)
    requires cap > 0
    ensures Separated(agents) <==>
            forall inputs :: AgentsAmong(inputs, agents) && Paired(inputs) ==> Transparent(inputs, cap)
  {
    if Separated(agents) {
      forall inputs | AgentsAmong(inputs, agents) && Paired(inputs)
        ensures Transparent(inputs, cap)
      {
        DedupTransparent(inputs, cap, agents);
      }
    } else {
      var a, b :| a in agents && b in agents && a != b && a != "" && a[0] != ':' && Extends(b, a);
      CollisionLosesEvent(a, b, cap);
      var inputs := CollidingInputs(a, b);
      assert AgentsAmong(inputs, agents) && Paired(inputs) && !Transparent(inputs, cap);
    }
  }

  /** The same guarantee with dedup in place: once every requested number has
      arrived, in any order and mixed with anything else, the agent is past the early event. */
  lemma ReplaySufficientWithDedup(before: seq<Input>, x: Input, after: seq<Input>, cap: nat, agents: set<string>)
    requires var all := before + [x] + after; Separated(agents) && AgentsAmong(all, agents) && Paired(all)
    requires HasIds(x) && IsGap(StreamAt(RunDedup(before, cap).streams, x.agent), x.event)
    requires var r := ReplayRequest(StreamAt(RunDedup(before, cap).streams, x.agent), x.event);
             forall k :: r.from <= k <= r.to ==> k in Numbers(ArrivalsOf(after, x.agent))
    ensures StreamAt(RunDedup(before + [x] + after, cap).streams, x.agent).last >= x.event.num
  {
    var all := before + [x] + after;
    MembersOf(before, [x] + after);
    assert all == before + ([x] + after);
    DedupStreamIsOwnRun(before, cap, agents, x.agent);
    DedupStreamIsOwnRun(all, cap, agents, x.agent);
    ArrivalsAround(before, x, after);
    ReplaySufficient(ArrivalsOf(before, x.agent), x.event, ArrivalsOf(after, x.agent));
  }

  lemma MembersOf(a: seq<Input>, b: seq<Input>)
    ensures forall y :: y in a ==> y in a + b
  {
  }

  lemma DedupStreamIsOwnRun(inputs: seq<Input>, cap: nat, agents: set<string>, agent: string)
    requires Separated(agents) && AgentsAmong(inputs, agents) && Paired(inputs)
    ensures StreamAt(RunDedup(inputs, cap).streams, agent) == Run(ArrivalsOf(inputs, agent))
  {
    DedupTransparent(inputs, cap, agents);
    StreamIsOwnRun(inputs, agent);
  }

  lemma ArrivalsAround(before: seq<Input>, x: Input, after: seq<Input>)
    requires HasIds(x) && x.event.num > 0
    ensures ArrivalsOf(before + [x] + after, x.agent)
            == ArrivalsOf(before, x.agent) + [x.event] + ArrivalsOf(after, x.agent)
  {
    ArrivalsOfConcat(before + [x], after, x.agent);
    assert (before + [x])[..|before|] == before;
  }

  lemma {:induction false} ArrivalsOfConcat(a: seq<Input>, b: seq<Input>, agent: string)
    ensures ArrivalsOf(a + b, agent) == ArrivalsOf(a, agent) + ArrivalsOf(b, agent)
  {
    if b == [] {
      assert a + b == a;
    } else {
      ArrivalsOfConcat(a, b[..|b| - 1], agent);
      assert (a + b)[..|a + b| - 1] == a + b[..|b| - 1];
    }
  }

  /** Feeding a run to the pipeline object yields the states the run functions describe. */
  method ProcessAll(p: P.EventPipeline, inputs: seq<Input>)
    requires p.Valid() && p.dedup.caches == map[] && (forall a :: p.StreamOf(a) == EMPTY)
    modifies p, p.dedup
    ensures p.Valid()
    ensures p.dedup.caches == RunDedup(inputs, p.dedup.cacheSize).windows
    ensures forall a :: p.StreamOf(a) == StreamAt(RunDedup(inputs, p.dedup.cacheSize).streams, a)
  {
    for i := 0 to |inputs|
      invariant p.Valid()
      invariant p.dedup.caches == RunDedup(inputs[..i], p.dedup.cacheSize).windows
      invariant forall a :: p.StreamOf(a) == StreamAt(RunDedup(inputs[..i], p.dedup.cacheSize).streams, a)
    {
      assert inputs[..i + 1][..i] == inputs[..i];
      var _ := p.ProcessEvent(inputs[i].agent, inputs[i].event);
    }
    assert inputs[..|inputs|] == inputs;
  }

  // ----- What the windows hold

  /** What the keys of a run, cut at their first colon, put into the window of `head`, in order. */
  ghost function TailsOf(inputs: seq<Input>, head: string): seq<string> {
    if inputs == [] then []
    else
      var x := inputs[|inputs| - 1];
      TailsOf(inputs[..|inputs| - 1], head)
      + match Cut(KeyOf(x))
        case None => []
        case Some((h, tail)) => if HasIds(x) && h == head && h != "" && tail != "" then [tail] else []
  }

  /** Over every run the window of a head is the bounded window of its tails. */
  lemma {:induction false} WindowIsOffers(inputs: seq<Input>, cap: nat, head: string)
    ensures WindowAt(RunDedup(inputs, cap).windows, head) == Offers(TailsOf(inputs, head), cap)
  {
    if inputs != [] {
      var before, x := inputs[..|inputs| - 1], inputs[|inputs| - 1];
      WindowIsOffers(before, cap, head);
      var tails := TailsOf(before, head);
      assert tails + [] == tails;
      if Cut(KeyOf(x)).Some? {
        var tail := Cut(KeyOf(x)).value.1;
        assert (tails + [tail])[..|tails|] == tails;
      }
    }
  }

  /** The ids of an agent's events, in order of arrival. */
  ghost function IdsOf(inputs: seq<Input>, agent: string): seq<string> {
    if inputs == [] then []
    else
      var x := inputs[|inputs| - 1];
      IdsOf(inputs[..|inputs| - 1], agent) + (if x.agent == agent && HasIds(x) then [x.event.id] else [])
  }

  ghost predicate NoColons(inputs: seq<Input>) {
    forall x :: x in inputs ==> ':' !in x.agent
  }

  lemma {:induction false} TailsAreIds(inputs: seq<Input>, agent: string)
    requires NoColons(inputs)
    ensures TailsOf(inputs, agent) == IdsOf(inputs, agent)
  {
    if inputs != [] {
      var x := inputs[|inputs| - 1];
      TailsAreIds(inputs[..|inputs| - 1], agent);
      CutAtFirstColon(x.agent, x.event.id);
    }
  }

  /** Over every run of agents without a colon in their ids, an agent's window is the bounded window of its ids. */
  lemma WindowIsLastIds(inputs: seq<Input>, cap: nat, agent: string)
    requires NoColons(inputs) && cap > 0
    ensures var w := WindowAt(RunDedup(inputs, cap).windows, agent);
            && w == Offers(IdsOf(inputs, agent), cap)
            && w == LastN(Admitted(IdsOf(inputs, agent), cap), cap) && NoRepeats(w)
  {
    WindowIsOffers(inputs, cap, agent);
    TailsAreIds(inputs, agent);
    WindowIsLastAdmissions(IdsOf(inputs, agent), cap);
  }

  /** An event is taken for a duplicate exactly when its id was admitted for its agent with fewer than
      the capacity of admissions for that agent after it. */
  lemma DuplicateIffSeenRecently(inputs: seq<Input>, x: Input, cap: nat)
    requires NoColons(inputs + [x]) && HasIds(x) && cap > 0
    ensures var h := Admitted(IdsOf(inputs, x.agent), cap);
            IsDuplicate(RunDedup(inputs, cap).windows, KeyOf(x)) <==>
            exists i :: 0 <= i < |h| && h[i] == x.event.id && |h| - 1 - i < cap
  {
    assert x in inputs + [x] && forall y :: y in inputs ==> y in inputs + [x];
    WindowIsLastIds(inputs, cap, x.agent);
    CutAtFirstColon(x.agent, x.event.id);
    DuplicateIffRecent(IdsOf(inputs, x.agent), cap, x.event.id);
  }
}
