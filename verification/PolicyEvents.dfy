/** Whole runs of the policy engine, and its event stream inside the pipeline:
    the counter, the cap alerts, and why the stream never gaps or dedups. */
module PolicyEvents {
  import opened EventStream
  import opened PolicyEngine
  import opened PipelineRuns
  import Decimal
  import EventDedup

  // ----- Runs of the engine

  /** The chances of one (session, policy) in a run over many. */
  ghost function ChancesOf(ops: seq<Opportunity>, sessionId: string, p: PolicyName): seq<Chance> {
    if ops == [] then []
    else
      var o := ops[|ops| - 1];
      ChancesOf(ops[..|ops| - 1], sessionId, p)
      + (if o.sessionId == sessionId && o.policy == p then [ChanceOf(o)] else [])
  }

  ghost function StateBefore(c: PolicyConfig, ops: seq<Opportunity>, o: Opportunity): RetryState {
    AfterChances(LimitsOf(c, o.policy), ChancesOf(ops, o.sessionId, o.policy))
  }

  ghost function OutboxAfter(c: PolicyConfig, sink: bool, ops: seq<Opportunity>): Outbox {
    if ops == [] then Outbox(0, [])
    else
      var before, o := ops[..|ops| - 1], ops[|ops| - 1];
      Report(sink, OutboxAfter(c, sink, before), LimitsOf(c, o.policy), StateBefore(c, before, o), o)
  }

  /** The engine object over a whole run: each (session, policy) is driven by its own chances alone. */
  method InterveneAll(config: PolicyConfig, sink: bool, ops: seq<Opportunity>) returns (e: PolicyEngine)
    ensures fresh(e) && e.config == WithPolicyDefaults(config)
    ensures forall s, p :: StateOf(e.retries, s, p) == AfterChances(LimitsOf(e.config, p), ChancesOf(ops, s, p))
    ensures e.Out() == OutboxAfter(e.config, sink, ops)
  {
    e := new PolicyEngine(config, sink);
    for i := 0 to |ops|
      invariant fresh(e)
      invariant forall s, p ::
          StateOf(e.retries, s, p) == AfterChances(LimitsOf(e.config, p), ChancesOf(ops[..i], s, p))
      invariant e.Out() == OutboxAfter(e.config, sink, ops[..i])
    {
      ghost var o := ops[i];
      var _ := e.TryIntervention(ops[i]);
      assert ops[..i + 1][..i] == ops[..i];
      forall s, p
        ensures StateOf(e.retries, s, p) == AfterChances(LimitsOf(e.config, p), ChancesOf(ops[..i + 1], s, p))
      {
        var before := ChancesOf(ops[..i], s, p);
        if s == o.sessionId && p == o.policy {
          assert (before + [ChanceOf(o)])[..|before|] == before;
        } else {
          assert before + [] == before;
        }
      }
    }
    assert ops[..|ops|] == ops;
  }

  ghost predicate OpsForward(ops: seq<Opportunity>) {
    forall i, j :: 0 <= i < j < |ops| ==> ops[i].now <= ops[j].now
  }

  lemma {:induction false} ChancesForward(ops: seq<Opportunity>, sessionId: string, p: PolicyName)
    requires OpsForward(ops)
    ensures ClockForward(ChancesOf(ops, sessionId, p))
    ensures forall c :: c in ChancesOf(ops, sessionId, p) ==> ops != [] && c.now <= ops[|ops| - 1].now
  {
    if ops != [] {
      ChancesForward(ops[..|ops| - 1], sessionId, p);
    }
  }

  // ----- The counter

  /** Numbers run 1, 2, 3, ... and the counter is the last one. */
  ghost predicate Numbered(b: Outbox) {
    b.counter == |b.emitted| && forall i :: 0 <= i < |b.emitted| ==> b.emitted[i].num == i + 1
  }

  lemma {:induction false} RunNumbered(c: PolicyConfig, ops: seq<Opportunity>)
    ensures Numbered(OutboxAfter(c, true, ops))
  {
    if ops != [] {
      RunNumbered(c, ops[..|ops| - 1]);
    }
  }

  /** The failed dispatch that brings the count of its (session, policy) to the maximum. */
  ghost predicate HitsCap(l: Limits, s: RetryState, o: Opportunity) {
    CanAttempt(s, l, o.now) && !Succeeds(o.outcome) && Cleared(s, l, o.now).count + 1 >= l.maxRetries
  }

  ghost function AttemptCount(c: PolicyConfig, ops: seq<Opportunity>): nat {
    if ops == [] then 0
    else
      var before, o := ops[..|ops| - 1], ops[|ops| - 1];
      AttemptCount(c, before) + (if CanAttempt(StateBefore(c, before, o), LimitsOf(c, o.policy), o.now) then 1 else 0)
  }

  ghost function CapCount(c: PolicyConfig, ops: seq<Opportunity>): nat {
    if ops == [] then 0
    else
      var before, o := ops[..|ops| - 1], ops[|ops| - 1];
      CapCount(c, before) + (if HitsCap(LimitsOf(c, o.policy), StateBefore(c, before, o), o) then 1 else 0)
  }

  /** The counter equals attempts plus twice the cap hits when there is a sink, and zero otherwise. */
  lemma {:induction false} CounterIsAttemptsPlusCaps(c: PolicyConfig, sink: bool, ops: seq<Opportunity>)
    ensures OutboxAfter(c, sink, ops).counter == if sink then AttemptCount(c, ops) + 2 * CapCount(c, ops) else 0
  {
    if ops != [] {
      CounterIsAttemptsPlusCaps(c, sink, ops[..|ops| - 1]);
    }
  }

  // ----- What the events of one (session, policy) say

  /** The emissions of one kind for one (session, policy). */
  ghost function EmissionsOf(emitted: seq<Emission>, kind: EventKind, sessionId: string, p: PolicyName): seq<Payload> {
    if emitted == [] then []
    else
      var x := emitted[|emitted| - 1];
      EmissionsOf(emitted[..|emitted| - 1], kind, sessionId, p)
      + (if Shows(x, kind, sessionId, p) then [x.payload] else [])
  }

  /** The failure counts at which the k-th attempt reports: a failure its own count, a success the count it found. */
  ghost function ReportedCount(l: Limits, attempts: seq<Chance>): int
    requires attempts != []
  {
    var before := Count(l, attempts[..|attempts| - 1]);
    if !attempts[|attempts| - 1].ok then Count(l, attempts)
    else if before >= l.maxRetries then 0 else before
  }

  /** One action event per attempt, in order, with its success and retry count. */
  ghost predicate ActionsMatch(actions: seq<Payload>, l: Limits, attempts: seq<Chance>)
    decreases |attempts|
  {
    if attempts == [] then actions == []
    else
      && actions != []
      && ActionsMatch(actions[..|actions| - 1], l, attempts[..|attempts| - 1])
      && var x := actions[|actions| - 1];
         x.ActionPayload? && x.success == attempts[|attempts| - 1].ok && x.retryCount == ReportedCount(l, attempts)
  }

  /** One cap alert per attempt that fills its burst, in order, always at the maximum. */
  ghost predicate CapsMatch(caps: seq<Payload>, l: Limits, attempts: seq<Chance>)
    decreases |attempts|
  {
    if attempts == [] then caps == []
    else if RaisesCap(l, attempts, |attempts| - 1) then
      && caps != []
      && CapsMatch(caps[..|caps| - 1], l, attempts[..|attempts| - 1])
      && caps[|caps| - 1].CapPayload? && caps[|caps| - 1].retryCount == l.maxRetries
    else CapsMatch(caps, l, attempts[..|attempts| - 1])
  }

  ghost predicate EventsMatch(emitted: seq<Emission>, sessionId: string, p: PolicyName,
                              l: Limits, attempts: seq<Chance>) {
    && ActionsMatch(EmissionsOf(emitted, PolicyAction, sessionId, p), l, attempts)
    && CapsMatch(EmissionsOf(emitted, PolicyAlert, sessionId, p), l, attempts)
    && CapsMatch(EmissionsOf(emitted, PolicyRetryCap, sessionId, p), l, attempts)
  }

  predicate Shows(x: Emission, kind: EventKind, sessionId: string, p: PolicyName) {
    x.kind == kind && x.payload.sessionId == sessionId && x.payload.policy == p
  }

  lemma EmissionsSnoc(emitted: seq<Emission>, x: Emission, kind: EventKind, sessionId: string, p: PolicyName)
    ensures EmissionsOf(emitted + [x], kind, sessionId, p)
            == if Shows(x, kind, sessionId, p) then EmissionsOf(emitted, kind, sessionId, p) + [x.payload]
               else EmissionsOf(emitted, kind, sessionId, p)
  {
    assert (emitted + [x])[..|emitted|] == emitted;
    assert EmissionsOf(emitted, kind, sessionId, p) + [] == EmissionsOf(emitted, kind, sessionId, p);
  }

  lemma ActionsExtend(actions: seq<Payload>, x: Payload, l: Limits, attempts: seq<Chance>, c: Chance)
    requires ActionsMatch(actions, l, attempts)
    requires x.ActionPayload? && x.success == c.ok && x.retryCount == ReportedCount(l, attempts + [c])
    ensures ActionsMatch(actions + [x], l, attempts + [c])
  {
    assert (actions + [x])[..|actions|] == actions;
    assert (attempts + [c])[..|attempts|] == attempts;
  }

  lemma CapsExtend(caps: seq<Payload>, x: Payload, l: Limits, attempts: seq<Chance>, c: Chance)
    requires CapsMatch(caps, l, attempts)
    requires RaisesCap(l, attempts + [c], |attempts|) ==> x.CapPayload? && x.retryCount == l.maxRetries
    ensures CapsMatch(if RaisesCap(l, attempts + [c], |attempts|) then caps + [x] else caps, l, attempts + [c])
  {
    assert (caps + [x])[..|caps|] == caps;
    assert (attempts + [c])[..|attempts|] == attempts;
  }

  ghost function CountAfter(l: Limits, s: RetryState, o: Opportunity): int {
    Cleared(s, l, o.now).count + (if Succeeds(o.outcome) then 0 else 1)
  }

  ghost function ActionOf(l: Limits, s: RetryState, o: Opportunity): Payload {
    ActionPayload(o.policy, o.sessionId, CommandOf(o.policy), Succeeds(o.outcome), CountAfter(l, s, o),
                  if Succeeds(o.outcome) then "" else ErrorText(o.outcome))
  }

  ghost function CapOf(l: Limits, s: RetryState, o: Opportunity): Payload {
    CapPayload(o.policy, o.sessionId, CountAfter(l, s, o), ErrorText(o.outcome))
  }

  /** The emissions after a dispatch: its action, and the two cap events when it hits the cap. */
  ghost function Appended(emitted: seq<Emission>, counter: nat, action: Payload, cap: Payload, hits: bool)
    : seq<Emission>
  {
    var one := emitted + [Emission(PolicyAction, action, counter + 1)];
    if hits then WithCap(one, counter, cap) else one
  }

  lemma ReportShape(b: Outbox, l: Limits, s: RetryState, o: Opportunity)
    requires CanAttempt(s, l, o.now)
    ensures Report(true, b, l, s, o).emitted
            == Appended(b.emitted, b.counter, ActionOf(l, s, o), CapOf(l, s, o), HitsCap(l, s, o))
  {
  }

  lemma AppendedAction(emitted: seq<Emission>, counter: nat, action: Payload, kind: EventKind)
    ensures EmissionsOf(emitted + [Emission(PolicyAction, action, counter + 1)], kind, action.sessionId, action.policy)
            == if kind == PolicyAction then EmissionsOf(emitted, kind, action.sessionId, action.policy) + [action]
               else EmissionsOf(emitted, kind, action.sessionId, action.policy)
  {
    EmissionsSnoc(emitted, Emission(PolicyAction, action, counter + 1), kind, action.sessionId, action.policy);
  }

  /** The two cap events: each kind of cap event shows one of them. */
  ghost function WithCap(emitted: seq<Emission>, counter: nat, cap: Payload): seq<Emission> {
    emitted + [Emission(PolicyAlert, cap, counter + 2)] + [Emission(PolicyRetryCap, cap, counter + 3)]
  }

  lemma AppendedCap(emitted: seq<Emission>, counter: nat, cap: Payload, kind: EventKind)
    ensures EmissionsOf(WithCap(emitted, counter, cap), kind, cap.sessionId, cap.policy)
            == if kind == PolicyAction then EmissionsOf(emitted, kind, cap.sessionId, cap.policy)
               else EmissionsOf(emitted, kind, cap.sessionId, cap.policy) + [cap]
  {
    var alert := Emission(PolicyAlert, cap, counter + 2);
    EmissionsSnoc(emitted, alert, kind, cap.sessionId, cap.policy);
    EmissionsSnoc(emitted + [alert], Emission(PolicyRetryCap, cap, counter + 3), kind, cap.sessionId, cap.policy);
  }

  /** What a dispatch adds to the events of its own (session, policy). */
  lemma AppendedEmissions(emitted: seq<Emission>, counter: nat, action: Payload, cap: Payload, hits: bool,
                          kind: EventKind)
    requires action.sessionId == cap.sessionId && action.policy == cap.policy
    ensures EmissionsOf(Appended(emitted, counter, action, cap, hits), kind, action.sessionId, action.policy)
            == var seen := EmissionsOf(emitted, kind, action.sessionId, action.policy);
               if kind == PolicyAction then seen + [action] else if hits then seen + [cap] else seen
  {
    AppendedAction(emitted, counter, action, kind);
    if hits {
      AppendedCap(emitted + [Emission(PolicyAction, action, counter + 1)], counter, cap, kind);
    }
  }

  /** The counts in the state are the counts of the attempts. */
  lemma CountsAgree(l: Limits, s: RetryState, attempts: seq<Chance>, o: Opportunity)
    requires Sensible(l) && Reflects(s, l, attempts) && CanAttempt(s, l, o.now)
    ensures CountAfter(l, s, o) == ReportedCount(l, attempts + [ChanceOf(o)])
    ensures HitsCap(l, s, o) <==> RaisesCap(l, attempts + [ChanceOf(o)], |attempts|)
    ensures HitsCap(l, s, o) ==> CountAfter(l, s, o) == l.maxRetries
  {
    var longer := attempts + [ChanceOf(o)];
    assert longer[..|attempts|] == attempts && longer[..|longer|] == longer;
    CountBounded(l, attempts);
    CountBounded(l, longer);
  }

  /** An attempt adds its own events. */
  lemma AttemptMatches(b: Outbox, l: Limits, s: RetryState, attempts: seq<Chance>, o: Opportunity)
    requires Sensible(l) && Reflects(s, l, attempts) && CanAttempt(s, l, o.now)
    requires EventsMatch(b.emitted, o.sessionId, o.policy, l, attempts)
    ensures EventsMatch(Report(true, b, l, s, o).emitted, o.sessionId, o.policy, l, attempts + [ChanceOf(o)])
  {
    var c := ChanceOf(o);
    var (action, cap, hits) := (ActionOf(l, s, o), CapOf(l, s, o), HitsCap(l, s, o));
    CountsAgree(l, s, attempts, o);
    ReportShape(b, l, s, o);
    AppendedMatches(b.emitted, b.counter, action, cap, hits, l, attempts, c);
  }

  lemma AppendedMatches(emitted: seq<Emission>, counter: nat, action: Payload, cap: Payload, hits: bool,
                        l: Limits, attempts: seq<Chance>, c: Chance)
    requires action.sessionId == cap.sessionId && action.policy == cap.policy
    requires action.ActionPayload? && action.success == c.ok && action.retryCount == ReportedCount(l, attempts + [c])
    requires cap.CapPayload? && hits == RaisesCap(l, attempts + [c], |attempts|)
    requires hits ==> cap.retryCount == l.maxRetries
    requires EventsMatch(emitted, action.sessionId, action.policy, l, attempts)
    ensures EventsMatch(Appended(emitted, counter, action, cap, hits), action.sessionId, action.policy,
                        l, attempts + [c])
  {
    ActionsExtend(EmissionsOf(emitted, PolicyAction, action.sessionId, action.policy), action, l, attempts, c);
    AppendedEmissions(emitted, counter, action, cap, hits, PolicyAction);
    AppendedCaps(emitted, counter, action, cap, hits, l, attempts, c, PolicyAlert);
    AppendedCaps(emitted, counter, action, cap, hits, l, attempts, c, PolicyRetryCap);
  }

  lemma AppendedCaps(emitted: seq<Emission>, counter: nat, action: Payload, cap: Payload, hits: bool,
                     l: Limits, attempts: seq<Chance>, c: Chance, kind: EventKind)
    requires action.sessionId == cap.sessionId && action.policy == cap.policy && kind != PolicyAction
    requires cap.CapPayload? && hits == RaisesCap(l, attempts + [c], |attempts|)
    requires hits ==> cap.retryCount == l.maxRetries
    requires CapsMatch(EmissionsOf(emitted, kind, action.sessionId, action.policy), l, attempts)
    ensures CapsMatch(EmissionsOf(Appended(emitted, counter, action, cap, hits), kind, action.sessionId, action.policy),
                      l, attempts + [c])
  {
    var caps := EmissionsOf(emitted, kind, action.sessionId, action.policy);
    AppendedEmissions(emitted, counter, action, cap, hits, kind);
    CapsExtend(caps, cap, l, attempts, c);
  }

  /** Events of another (session, policy) do not show. */
  lemma OthersUnseen(b: Outbox, l: Limits, s: RetryState, o: Opportunity, sessionId: string, p: PolicyName)
    requires o.sessionId != sessionId || o.policy != p
    ensures forall kind :: EmissionsOf(Report(true, b, l, s, o).emitted, kind, sessionId, p)
                           == EmissionsOf(b.emitted, kind, sessionId, p)
  {
    forall kind
      ensures EmissionsOf(Report(true, b, l, s, o).emitted, kind, sessionId, p)
              == EmissionsOf(b.emitted, kind, sessionId, p)
    {
      ReportUnseen(b.emitted, Report(true, b, l, s, o).emitted, kind, sessionId, p);
    }
  }

  lemma {:induction false} ReportUnseen(before: seq<Emission>, after: seq<Emission>, kind: EventKind,
                                        sessionId: string, p: PolicyName)
    requires before <= after
    requires forall i :: |before| <= i < |after| ==>
                           after[i].payload.sessionId != sessionId || after[i].payload.policy != p
    ensures EmissionsOf(after, kind, sessionId, p) == EmissionsOf(before, kind, sessionId, p)
    decreases |after|
  {
    if before != after {
      ReportUnseen(before, after[..|after| - 1], kind, sessionId, p);
    }
  }

  /** Over every run and for every (session, policy): one action event per dispatch with its outcome and retry
      count, and exactly one alert and one retry-cap event per dispatch that fills its burst, carrying the maximum. */
  lemma {:induction false} EventsTellTheRun(c: PolicyConfig, ops: seq<Opportunity>, sessionId: string, p: PolicyName)
    requires Sensible(LimitsOf(c, p)) && OpsForward(ops)
    ensures EventsMatch(OutboxAfter(c, true, ops).emitted, sessionId, p, LimitsOf(c, p),
                        Attempts(LimitsOf(c, p), ChancesOf(ops, sessionId, p)))
  {
    if ops != [] {
      var before, o := ops[..|ops| - 1], ops[|ops| - 1];
      var l := LimitsOf(c, p);
      EventsTellTheRun(c, before, sessionId, p);
      var b := OutboxAfter(c, true, before);
      var chances := ChancesOf(before, sessionId, p);
      if o.sessionId == sessionId && o.policy == p {
        ChancesForward(before, sessionId, p);
        RunReflects(l, chances);
        assert (chances + [ChanceOf(o)])[..|chances|] == chances;
        if CanAttempt(AfterChances(l, chances), l, o.now) {
          AttemptMatches(b, l, AfterChances(l, chances), Attempts(l, chances), o);
        } else {
          assert Attempts(l, chances) + [] == Attempts(l, chances);
        }
      } else {
        assert chances + [] == chances;
        OthersUnseen(b, LimitsOf(c, o.policy), StateBefore(c, before, o), o, sessionId, p);
      }
    }
  }

  // ----- The engine's stream inside the pipeline

  const POLICY_ENGINE_AGENT := "policy-engine"

  function KindName(kind: EventKind): string {
    match kind
    case PolicyAction => "policy.action"
    case PolicyAlert => "policy.alert"
    case PolicyRetryCap => "policy.retry_cap"
  }

  function EventId(num: nat): string {
    "policy-" + Decimal.Digits(num)
  }

  /** What the pipeline receives for an emission; rendering and clock are arbitrary. */
  function EventOf(x: Emission, render: Payload -> string, clock: nat -> int): Event {
    Event(EventId(x.num), x.payload.sessionId, KindName(x.kind), render(x.payload), clock(x.num), x.num)
  }

  function EventsOf(emitted: seq<Emission>, render: Payload -> string, clock: nat -> int): seq<Event> {
    seq(|emitted|, i requires 0 <= i < |emitted| => EventOf(emitted[i], render, clock))
  }

  lemma EventIdInjective(m: nat, n: nat)
    requires EventId(m) == EventId(n)
    ensures m == n
  {
    assert EventId(m)[7..] == Decimal.Digits(m) && EventId(n)[7..] == Decimal.Digits(n);
    Decimal.ValueOfDigits(m);
    Decimal.ValueOfDigits(n);
  }

  ghost predicate Consecutive(events: seq<Event>) {
    forall i :: 0 <= i < |events| ==> events[i].num == i + 1
  }

  lemma {:induction false} ConsecutiveRun(events: seq<Event>)
    requires Consecutive(events)
    ensures Run(events) == Stream(|events|, map[], events)
  {
    if events != [] {
      ConsecutiveRun(events[..|events| - 1]);
    }
  }

  /** The pairing of ids and numbers for all agents but one. */
  ghost predicate OthersPaired(inputs: seq<Input>, agent: string) {
    forall x, y :: x in inputs && y in inputs && HasIds(x) && HasIds(y) && x.agent == y.agent != agent ==>
                     (x.event.id == y.event.id || x.event.num == y.event.num > 0 ==> x.event == y.event)
  }

  lemma EmittedPaired(emitted: seq<Emission>, render: Payload -> string, clock: nat -> int, e: Event, f: Event)
    requires forall i :: 0 <= i < |emitted| ==> emitted[i].num == i + 1
    requires e in EventsOf(emitted, render, clock) && f in EventsOf(emitted, render, clock)
    requires e.id == f.id || e.num == f.num
    ensures e == f
  {
    if e.id == f.id {
      EventIdInjective(e.num, f.num);
    }
  }

  /** Only the engine feeds this agent id: what arrives under it, accepted or not, is what it emitted, in order. */
  ghost predicate OnlyEngineFeeds(inputs: seq<Input>, agent: string, events: seq<Event>) {
    && ArrivalsOf(inputs, agent) == events
    && forall x :: x in inputs && x.agent == agent ==> x.event.num > 0 && x.event.id != ""
  }

  lemma PolicyPaired(inputs: seq<Input>, agent: string, emitted: seq<Emission>,
                     render: Payload -> string, clock: nat -> int)
    requires agent != "" && OthersPaired(inputs, agent)
    requires forall i :: 0 <= i < |emitted| ==> emitted[i].num == i + 1
    requires OnlyEngineFeeds(inputs, agent, EventsOf(emitted, render, clock))
    ensures Paired(inputs)
  {
    ArrivalsAreInputs(inputs, agent);
    var events := EventsOf(emitted, render, clock);
    forall x, y | x in inputs && y in inputs && x.agent == y.agent == agent
                  && (x.event.id == y.event.id || x.event.num == y.event.num > 0)
      ensures x.event == y.event
    {
      assert x == Input(agent, x.event) && y == Input(agent, y.event);
      assert x.event in events && y.event in events;
      EmittedPaired(emitted, render, clock, x.event, y.event);
    }
  }

  lemma {:induction false} ArrivalsPrefix(inputs: seq<Input>, agent: string, n: nat)
    requires n <= |inputs|
    ensures ArrivalsOf(inputs[..n], agent) <= ArrivalsOf(inputs, agent)
  {
    assert inputs == inputs[..n] + inputs[n..];
    ArrivalsOfConcat(inputs[..n], inputs[n..], agent);
  }

  /** With any other agents interleaved, the engine's stream in the deduplicating pipeline is everything it
      emitted, in order: its last number is the engine's counter and nothing is buffered. */
  lemma PolicyStreamIsWholeRun(c: PolicyConfig, ops: seq<Opportunity>, inputs: seq<Input>, agent: string, cap: nat,
                               agents: set<string>, render: Payload -> string, clock: nat -> int)
    requires agent != "" && Separated(agents) && AgentsAmong(inputs, agents) && OthersPaired(inputs, agent)
    requires OnlyEngineFeeds(inputs, agent, EventsOf(OutboxAfter(c, true, ops).emitted, render, clock))
    ensures var b := OutboxAfter(c, true, ops);
            StreamAt(RunDedup(inputs, cap).streams, agent)
            == Stream(b.counter, map[], EventsOf(b.emitted, render, clock))
  {
    RunNumbered(c, ops);
    var b := OutboxAfter(c, true, ops);
    PolicyPaired(inputs, agent, b.emitted, render, clock);
    DedupTransparent(inputs, cap, agents);
    StreamIsOwnRun(inputs, agent);
    ConsecutiveRun(EventsOf(b.emitted, render, clock));
  }

  /** When an event of the engine arrives, what arrived before it under its agent id are its predecessors. */
  lemma ArrivesInTurn(inputs: seq<Input>, agent: string, events: seq<Event>, i: nat)
    requires agent != "" && OnlyEngineFeeds(inputs, agent, events) && Consecutive(events)
    requires i < |inputs| && inputs[i].agent == agent
    ensures Consecutive(ArrivalsOf(inputs[..i], agent))
    ensures inputs[i].event.num == |ArrivalsOf(inputs[..i], agent)| + 1
  {
    var before, x := inputs[..i], inputs[i];
    var arrivals := ArrivalsOf(before, agent);
    ArrivalsPrefix(inputs, agent, i);
    ArrivalsPrefix(inputs, agent, i + 1);
    assert inputs[..i + 1] == before + [x];
    assert (before + [x])[..i] == before;
    assert arrivals + [x.event] <= events;
    forall k | 0 <= k < |arrivals|
      ensures arrivals[k].num == k + 1
    {
      assert arrivals[k] == events[k];
    }
    assert x.event == (arrivals + [x.event])[|arrivals|] == events[|arrivals|];
  }

  /** No event of the engine is ever taken for a duplicate or for an early arrival. */
  lemma PolicyEventsNeverDedupOrGap(c: PolicyConfig, ops: seq<Opportunity>, inputs: seq<Input>, agent: string, cap: nat,
                                    agents: set<string>, render: Payload -> string, clock: nat -> int, i: nat)
    requires agent != "" && Separated(agents) && AgentsAmong(inputs, agents) && OthersPaired(inputs, agent)
    requires OnlyEngineFeeds(inputs, agent, EventsOf(OutboxAfter(c, true, ops).emitted, render, clock))
    requires i < |inputs| && inputs[i].agent == agent
    ensures var s := RunDedup(inputs[..i], cap);
            && !EventDedup.IsDuplicate(s.windows, KeyOf(inputs[i]))
            && inputs[i].event.num == StreamAt(s.streams, agent).last + 1
  {
    RunNumbered(c, ops);
    var b := OutboxAfter(c, true, ops);
    var events := EventsOf(b.emitted, render, clock);
    PolicyPaired(inputs, agent, b.emitted, render, clock);
    ArrivesInTurn(inputs, agent, events, i);
    FreshInTurn(inputs, i, agents, cap);
  }

  /** An event that arrives in turn is neither a duplicate nor early. */
  lemma FreshInTurn(inputs: seq<Input>, i: nat, agents: set<string>, cap: nat)
    requires i < |inputs| && HasIds(inputs[i]) && Paired(inputs) && Separated(agents) && AgentsAmong(inputs, agents)
    requires var arrivals := ArrivalsOf(inputs[..i], inputs[i].agent);
             Consecutive(arrivals) && inputs[i].event.num == |arrivals| + 1
    ensures var s := RunDedup(inputs[..i], cap);
            && !EventDedup.IsDuplicate(s.windows, KeyOf(inputs[i]))
            && inputs[i].event.num == StreamAt(s.streams, inputs[i].agent).last + 1
  {
    var before, x := inputs[..i], inputs[i];
    var arrivals := ArrivalsOf(before, x.agent);
    ConsecutiveRun(arrivals);
    StreamIsOwnRun(before, x.agent);
    DedupTransparent(before, cap, agents);
    ArrivalsAreInputs(before, x.agent);
    assert x == Input(x.agent, x.event);
    assert x.event !in arrivals && x !in before;
    if EventDedup.IsDuplicate(RunDedup(before, cap).windows, KeyOf(x)) {
      assert forall y :: y in before + [x] ==> y in inputs;
      DuplicateCameBefore(RunDedup(before, cap).windows, before, x, agents);
    }
  }

  /** Both for the agent id the engine uses: its stream is everything it emitted, and no event of it is
      ever a duplicate or early. */
  lemma PolicyEngineStream(c: PolicyConfig, ops: seq<Opportunity>, inputs: seq<Input>, cap: nat, agents: set<string>,
                           render: Payload -> string, clock: nat -> int)
    requires Separated(agents) && AgentsAmong(inputs, agents) && OthersPaired(inputs, POLICY_ENGINE_AGENT)
    requires OnlyEngineFeeds(inputs, POLICY_ENGINE_AGENT, EventsOf(OutboxAfter(c, true, ops).emitted, render, clock))
    ensures var b := OutboxAfter(c, true, ops);
            StreamAt(RunDedup(inputs, cap).streams, POLICY_ENGINE_AGENT)
            == Stream(b.counter, map[], EventsOf(b.emitted, render, clock))
    ensures forall i :: 0 <= i < |inputs| && inputs[i].agent == POLICY_ENGINE_AGENT ==>
              var s := RunDedup(inputs[..i], cap);
              && !EventDedup.IsDuplicate(s.windows, KeyOf(inputs[i]))
              && inputs[i].event.num == StreamAt(s.streams, POLICY_ENGINE_AGENT).last + 1
  {
    PolicyStreamIsWholeRun(c, ops, inputs, POLICY_ENGINE_AGENT, cap, agents, render, clock);
    forall i | 0 <= i < |inputs| && inputs[i].agent == POLICY_ENGINE_AGENT
      ensures var s := RunDedup(inputs[..i], cap);
              && !EventDedup.IsDuplicate(s.windows, KeyOf(inputs[i]))
              && inputs[i].event.num == StreamAt(s.streams, POLICY_ENGINE_AGENT).last + 1
    {
      PolicyEventsNeverDedupOrGap(c, ops, inputs, POLICY_ENGINE_AGENT, cap, agents, render, clock, i);
    }
  }

  // ----- Which outcomes count as failures

  /** No outcome of this (session, policy) is a result with success status. */
  ghost predicate NoneSucceeded(ops: seq<Opportunity>, sessionId: string, p: PolicyName) {
    forall o :: o in ops && o.sessionId == sessionId && o.policy == p ==> !(o.outcome.Returned? && o.outcome.success)
  }

  lemma {:induction false} UnsuccessfulChances(ops: seq<Opportunity>, sessionId: string, p: PolicyName)
    requires NoneSucceeded(ops, sessionId, p)
    ensures forall c :: c in ChancesOf(ops, sessionId, p) ==> !c.ok
  {
    if ops != [] {
      assert ops[|ops| - 1] in ops;
      UnsuccessfulChances(ops[..|ops| - 1], sessionId, p);
    }
  }

  lemma {:induction false} UnsuccessfulAttempts(l: Limits, chances: seq<Chance>, from: nat, to: nat)
    requires forall c :: c in chances ==> !c.ok
    requires from <= to <= |Attempts(l, chances)|
    ensures FailedBetween(Attempts(l, chances), from, to)
  {
    AttemptsAreChances(l, chances);
    forall k | from <= k < to
      ensures !Attempts(l, chances)[k].ok
    {
      assert Attempts(l, chances)[k] in chances;
    }
  }

  /** While no dispatch of a (session, policy) returns a success, whatever else it brings (a dispatch error, no result,
      a failure or timeout status), any stretch of its dispatches obeys the rate bound of its policy's own limits. */
  lemma UnsuccessfulDispatchesBounded(c: PolicyConfig, ops: seq<Opportunity>, sessionId: string, p: PolicyName,
                                      from: nat, to: nat)
    requires Sensible(LimitsOf(c, p)) && OpsForward(ops) && NoneSucceeded(ops, sessionId, p)
    requires from < to <= |Attempts(LimitsOf(c, p), ChancesOf(ops, sessionId, p))|
    ensures var attempts := Attempts(LimitsOf(c, p), ChancesOf(ops, sessionId, p));
            && (p == ResumeOnIdle ==> Sensible(c.resumeLimits) && RateBounded(c.resumeLimits, attempts, from, to))
            && (p == RestartOnCompaction ==>
                  Sensible(c.restartLimits) && RateBounded(c.restartLimits, attempts, from, to))
            && (p == KillOnCost ==> Sensible(c.killLimits) && RateBounded(c.killLimits, attempts, from, to))
  {
    var (l, chances) := (LimitsOf(c, p), ChancesOf(ops, sessionId, p));
    ChancesForward(ops, sessionId, p);
    UnsuccessfulChances(ops, sessionId, p);
    UnsuccessfulAttempts(l, chances, from, to);
    FailingRateBound(l, chances, from, to);
  }

  lemma OneMoreChance(ops: seq<Opportunity>, o: Opportunity)
    ensures ChancesOf(ops + [o], o.sessionId, o.policy) == ChancesOf(ops, o.sessionId, o.policy) + [ChanceOf(o)]
  {
    assert (ops + [o])[..|ops|] == ops;
  }

  lemma AfterOneMore(l: Limits, chances: seq<Chance>, c: Chance)
    ensures AfterChances(l, chances + [c]) == AfterChance(AfterChances(l, chances), l, c)
  {
    assert (chances + [c])[..|chances|] == chances;
  }

  /** A dispatch that returns a success clears the count and is noted; any other outcome of a dispatch counts one
      failure more, from zero when a full burst had waited out its window; a refused opportunity changes nothing. */
  lemma OutcomeDecides(c: PolicyConfig, ops: seq<Opportunity>, o: Opportunity)
    ensures var l := LimitsOf(c, o.policy);
            var (s, t) := (StateBefore(c, ops, o), AfterChances(l, ChancesOf(ops + [o], o.sessionId, o.policy)));
            if !CanAttempt(s, l, o.now) then t == s
            else if o.outcome.Returned? && o.outcome.success
            then t.count == 0 && t.lastSuccess == o.now && t.lastAttempt == s.lastAttempt
            else
              && t.count == (if l.maxRetries > 0 && s.count >= l.maxRetries then 1 else s.count + 1)
              && t.lastAttempt == o.now && t.lastSuccess == s.lastSuccess
  {
    OneMoreChance(ops, o);
    AfterOneMore(LimitsOf(c, o.policy), ChancesOf(ops, o.sessionId, o.policy), ChanceOf(o));
  }

  // ----- What the events are called and carry

  /** An event of an attempt names the command of its policy; a cap event is one of the two kinds. */
  ghost predicate WellNamed(x: Emission) {
    if x.payload.CapPayload? then x.kind == PolicyAlert || x.kind == PolicyRetryCap
    else
      && x.kind == PolicyAction
      && (x.payload.policy == ResumeOnIdle ==> x.payload.action == PromptSession)
      && (x.payload.policy == RestartOnCompaction ==> x.payload.action == RestartSession)
      && (x.payload.policy == KillOnCost ==> x.payload.action == KillSession)
      && (x.payload.success ==> x.payload.lastError == "")
  }

  ghost predicate AllNamed(b: Outbox) {
    forall x :: x in b.emitted ==> WellNamed(x)
  }

  lemma EmitNamed(sink: bool, b: Outbox, kind: EventKind, payload: Payload)
    requires AllNamed(b) && WellNamed(Emission(kind, payload, b.counter + 1))
    ensures AllNamed(Emit(sink, b, kind, payload))
  {
  }

  lemma ReportNamed(sink: bool, b: Outbox, l: Limits, s: RetryState, o: Opportunity)
    requires AllNamed(b)
    ensures AllNamed(Report(sink, b, l, s, o))
  {
    if CanAttempt(s, l, o.now) {
      var retries := Cleared(s, l, o.now).count;
      if Succeeds(o.outcome) {
        EmitNamed(sink, b, PolicyAction, ActionPayload(o.policy, o.sessionId, CommandOf(o.policy), true, retries, ""));
      } else {
        var text := ErrorText(o.outcome);
        var action := ActionPayload(o.policy, o.sessionId, CommandOf(o.policy), false, retries + 1, text);
        var cap := CapPayload(o.policy, o.sessionId, retries + 1, text);
        EmitNamed(sink, b, PolicyAction, action);
        EmitNamed(sink, Emit(sink, b, PolicyAction, action), PolicyAlert, cap);
        EmitNamed(sink, Emit(sink, Emit(sink, b, PolicyAction, action), PolicyAlert, cap), PolicyRetryCap, cap);
      }
    }
  }

  lemma {:induction false} AllWellNamed(c: PolicyConfig, sink: bool, ops: seq<Opportunity>)
    ensures AllNamed(OutboxAfter(c, sink, ops))
  {
    if ops != [] {
      var before, o := ops[..|ops| - 1], ops[|ops| - 1];
      AllWellNamed(c, sink, before);
      ReportNamed(sink, OutboxAfter(c, sink, before), LimitsOf(c, o.policy), StateBefore(c, before, o), o);
    }
  }

  /** What the pipeline is sent for an emission carries its session, number and the name of its kind. */
  lemma EventCarries(x: Emission, render: Payload -> string, clock: nat -> int)
    requires WellNamed(x)
    ensures var e := EventOf(x, render, clock);
            && e.sessionId == x.payload.sessionId && e.num == x.num && e.id == "policy-" + Decimal.Digits(x.num)
            && (x.payload.ActionPayload? ==> e.kind == "policy.action")
            && (x.payload.CapPayload? ==> e.kind == "policy.alert" || e.kind == "policy.retry_cap")
            && (x.payload.CapPayload? && e.kind == "policy.alert" <==> x.kind == PolicyAlert)
  {
  }

  /** The events of a failed dispatch carry the dispatch error, else the result's error text, else a fixed one. */
  lemma FailureText(b: Outbox, l: Limits, s: RetryState, o: Opportunity)
    requires CanAttempt(s, l, o.now) && !(o.outcome.Returned? && o.outcome.success)
    ensures var emitted := Report(true, b, l, s, o).emitted;
            && |emitted| > |b.emitted| && emitted[..|b.emitted|] == b.emitted
            && var x := emitted[|b.emitted|].payload;
               && x.ActionPayload? && !x.success && x.sessionId == o.sessionId && x.policy == o.policy
               && (o.outcome.DispatchError? ==> x.lastError == o.outcome.message)
               && (o.outcome.Returned? && o.outcome.error != "" ==> x.lastError == o.outcome.error)
               && (o.outcome.NoResult? || (o.outcome.Returned? && o.outcome.error == "") ==>
                     x.lastError == "command returned non-success status")
               && (forall i :: |b.emitted| < i < |emitted| ==> emitted[i].payload.lastError == x.lastError)
  {
  }
}
