/** The auto-intervention policies' retry automaton per (session, policy), and
    the engine's own event stream into the pipeline. */
module PolicyEngine {
  /** Instants and durations are integers. */
  datatype RetryState = RetryState(count: int, lastAttempt: int, lastSuccess: int)

  const FRESH := RetryState(0, 0, 0)

  /** The limits of a policy: how many failures in a row before it pauses, and for how long. */
  datatype Limits = Limits(maxRetries: int, window: int)

  predicate Sensible(l: Limits) {
    l.maxRetries > 0 && l.window > 0
  }

  datatype PolicyConfig = PolicyConfig(
    checkIntervalSec: int,
    idleThresholdSec: int, resumeLimits: Limits,
    tokenThreshold: int, restartLimits: Limits,
    costThresholdUSD: real, killLimits: Limits)

  function OrDefault(value: int, default: int): int {
    if value <= 0 then default else value
  }

  function LimitsOrDefault(l: Limits, maxRetries: int, window: int): Limits {
    Limits(OrDefault(l.maxRetries, maxRetries), OrDefault(l.window, window))
  }

  /** Every limit an engine is built with is positive, whatever the configuration file says;
      positive settings are kept. */
  function WithPolicyDefaults(c: PolicyConfig): (r: PolicyConfig)
    ensures Sensible(r.resumeLimits) && Sensible(r.restartLimits) && Sensible(r.killLimits)
    ensures r.checkIntervalSec > 0 && r.idleThresholdSec > 0 && r.tokenThreshold > 0 && r.costThresholdUSD > 0.0
    ensures WithPolicyDefaultsKeeps(c, r)
  {
    PolicyConfig(
      OrDefault(c.checkIntervalSec, 30),
      OrDefault(c.idleThresholdSec, 300), LimitsOrDefault(c.resumeLimits, 3, 3600),
      OrDefault(c.tokenThreshold, 180000), LimitsOrDefault(c.restartLimits, 2, 3600),
      if c.costThresholdUSD <= 0.0 then 10.0 else c.costThresholdUSD, LimitsOrDefault(c.killLimits, 1, 86400))
  }

  /** Each positive setting is kept, whatever the others are. */
  predicate WithPolicyDefaultsKeeps(c: PolicyConfig, r: PolicyConfig) {
    && (c.checkIntervalSec > 0 ==> r.checkIntervalSec == c.checkIntervalSec)
    && (c.idleThresholdSec > 0 ==> r.idleThresholdSec == c.idleThresholdSec)
    && (c.tokenThreshold > 0 ==> r.tokenThreshold == c.tokenThreshold)
    && (c.costThresholdUSD > 0.0 ==> r.costThresholdUSD == c.costThresholdUSD)
    && LimitsKept(c.resumeLimits, r.resumeLimits)
    && LimitsKept(c.restartLimits, r.restartLimits)
    && LimitsKept(c.killLimits, r.killLimits)
  }

  predicate LimitsKept(c: Limits, r: Limits) {
    (c.maxRetries > 0 ==> r.maxRetries == c.maxRetries) && (c.window > 0 ==> r.window == c.window)
  }

  // ----- The automaton of one (session, policy)

  predicate Exhausted(s: RetryState, l: Limits) {
    l.maxRetries > 0 && s.count >= l.maxRetries
  }

  predicate CanAttempt(s: RetryState, l: Limits, now: int) {
    !Exhausted(s, l) || (l.window > 0 && now - s.lastAttempt >= l.window)
  }

  /** The state in which the attempt is made: an exhausted state whose pause is over starts again at zero. */
  function Cleared(s: RetryState, l: Limits, now: int): RetryState {
    if Exhausted(s, l) && CanAttempt(s, l, now) then s.(count := 0) else s
  }

  function Failed(s: RetryState, now: int): RetryState {
    s.(count := s.count + 1, lastAttempt := now)
  }

  function Succeeded(s: RetryState, now: int): RetryState {
    s.(count := 0, lastSuccess := now)
  }

  /** One intervention opportunity; `ok` is what a dispatch at this moment would bring. */
  datatype Chance = Chance(now: int, ok: bool)

  function AfterChance(s: RetryState, l: Limits, c: Chance): RetryState {
    if !CanAttempt(s, l, c.now) then s
    else if c.ok then Succeeded(Cleared(s, l, c.now), c.now)
    else Failed(Cleared(s, l, c.now), c.now)
  }

  function AfterChances(l: Limits, chances: seq<Chance>): RetryState {
    if chances == [] then FRESH
    else AfterChance(AfterChances(l, chances[..|chances| - 1]), l, chances[|chances| - 1])
  }

  /** The chances that led to a dispatch, in order. */
  function Attempts(l: Limits, chances: seq<Chance>): seq<Chance> {
    if chances == [] then []
    else
      var before, c := chances[..|chances| - 1], chances[|chances| - 1];
      Attempts(l, before) + (if CanAttempt(AfterChances(l, before), l, c.now) then [c] else [])
  }

  predicate ClockForward(chances: seq<Chance>) {
    forall i, j :: 0 <= i < j < |chances| ==> chances[i].now <= chances[j].now
  }

  // ----- What a list of attempts says by itself

  /** The failure count after these attempts: a success clears it, a failure past the maximum starts a new burst. */
  function Count(l: Limits, attempts: seq<Chance>): nat {
    if attempts == [] then 0
    else
      var before := Count(l, attempts[..|attempts| - 1]);
      if attempts[|attempts| - 1].ok then 0 else if before >= l.maxRetries then 1 else before + 1
  }

  /** Times do not decrease, and the attempt after a full burst waits out the window. */
  ghost predicate Paced(l: Limits, attempts: seq<Chance>) {
    |attempts| >= 2 ==>
      var before := attempts[..|attempts| - 1];
      var waited := attempts[|attempts| - 1].now - before[|before| - 1].now;
      Paced(l, before) && waited >= 0 && (Count(l, before) >= l.maxRetries ==> waited >= l.window)
  }

  /** The state agrees with the attempts made so far. */
  ghost predicate Reflects(s: RetryState, l: Limits, attempts: seq<Chance>) {
    && s.count == Count(l, attempts) && Paced(l, attempts)
    && (s.count > 0 ==> attempts != [] && s.lastAttempt == attempts[|attempts| - 1].now)
  }

  lemma AttemptReflects(s: RetryState, l: Limits, attempts: seq<Chance>, c: Chance)
    requires Sensible(l) && Reflects(s, l, attempts) && CanAttempt(s, l, c.now)
    requires attempts != [] ==> attempts[|attempts| - 1].now <= c.now
    ensures Reflects(AfterChance(s, l, c), l, attempts + [c])
  {
    assert (attempts + [c])[..|attempts|] == attempts;
  }

  lemma {:induction false} AttemptsAreChances(l: Limits, chances: seq<Chance>)
    ensures forall a :: a in Attempts(l, chances) ==> a in chances
  {
    if chances != [] {
      AttemptsAreChances(l, chances[..|chances| - 1]);
    }
  }

  /** Over every run with a forward clock, the automaton's state is what its attempts say, and they are paced. */
  lemma {:induction false} RunReflects(l: Limits, chances: seq<Chance>)
    requires Sensible(l) && ClockForward(chances)
    ensures Reflects(AfterChances(l, chances), l, Attempts(l, chances))
  {
    if chances != [] {
      var before, c := chances[..|chances| - 1], chances[|chances| - 1];
      RunReflects(l, before);
      AttemptsAreChances(l, before);
      var attempts := Attempts(l, before);
      if attempts != [] {
        assert attempts[|attempts| - 1] in before;
      }
      if CanAttempt(AfterChances(l, before), l, c.now) {
        AttemptReflects(AfterChances(l, before), l, attempts, c);
      } else {
        assert attempts + [] == attempts;
      }
    }
  }

  /** The failure count never exceeds the maximum. */
  lemma {:induction false} CountBounded(l: Limits, attempts: seq<Chance>)
    requires Sensible(l)
    ensures 0 <= Count(l, attempts) <= l.maxRetries
  {
    if attempts != [] {
      CountBounded(l, attempts[..|attempts| - 1]);
    }
  }

  lemma {:induction false} PacedPrefix(l: Limits, attempts: seq<Chance>, n: nat)
    requires Paced(l, attempts) && n <= |attempts|
    ensures Paced(l, attempts[..n])
  {
    if n == |attempts| {
      assert attempts[..n] == attempts;
    } else {
      var before := attempts[..|attempts| - 1];
      PacedPrefix(l, before, n);
      assert before[..n] == attempts[..n];
    }
  }

  /** What one step of a paced list says. */
  lemma PacedStep(l: Limits, attempts: seq<Chance>, m: nat)
    requires Paced(l, attempts) && 0 < m < |attempts|
    ensures attempts[m].now >= attempts[m - 1].now
    ensures Count(l, attempts[..m]) >= l.maxRetries ==> attempts[m].now - attempts[m - 1].now >= l.window
  {
    PacedPrefix(l, attempts, m + 1);
    assert attempts[..m + 1][..m] == attempts[..m];
  }

  lemma CountStep(l: Limits, attempts: seq<Chance>, m: nat)
    requires m < |attempts|
    ensures Count(l, attempts[..m + 1])
            == if attempts[m].ok then 0
               else if Count(l, attempts[..m]) >= l.maxRetries then 1 else Count(l, attempts[..m]) + 1
  {
    assert attempts[..m + 1][..m] == attempts[..m];
  }

  lemma {:induction false} TimesForward(l: Limits, attempts: seq<Chance>, i: nat, j: nat)
    requires Paced(l, attempts) && i <= j < |attempts|
    ensures attempts[i].now <= attempts[j].now
    decreases j
  {
    if i < j {
      TimesForward(l, attempts, i, j - 1);
      PacedStep(l, attempts, j);
    }
  }

  // ----- The rate bound

  predicate FailedBetween(attempts: seq<Chance>, from: int, to: int)
    requires 0 <= from && to <= |attempts|
  {
    forall k :: from <= k < to ==> !attempts[k].ok
  }

  /** Within maxRetries failures in a row some burst fills up. */
  lemma {:induction false} BurstFills(l: Limits, attempts: seq<Chance>, i: nat, t: nat) returns (m: nat)
    requires Sensible(l) && 1 <= t && i + t <= |attempts| && FailedBetween(attempts, i, i + t)
    ensures i < m <= i + t
    ensures Count(l, attempts[..m]) >= l.maxRetries || (m == i + t && Count(l, attempts[..m]) >= t)
    decreases t
  {
    CountStep(l, attempts, i + t - 1);
    m := i + t;
    if t > 1 {
      var k := BurstFills(l, attempts, i, t - 1);
      if Count(l, attempts[..k]) >= l.maxRetries {
        m := k;
      }
    }
  }

  /** Among any maxRetries+1 consecutive attempts of which the first maxRetries failed, the
      first and the last are at least the reset window apart. */
  lemma AttemptsSpaced(l: Limits, attempts: seq<Chance>, i: nat)
    requires Sensible(l) && Paced(l, attempts) && i + l.maxRetries < |attempts|
    requires FailedBetween(attempts, i, i + l.maxRetries)
    ensures attempts[i + l.maxRetries].now - attempts[i].now >= l.window
  {
    var j := i + l.maxRetries;
    var m := BurstFills(l, attempts, i, l.maxRetries);
    PacedStep(l, attempts, m);
    TimesForward(l, attempts, i, m - 1);
    TimesForward(l, attempts, m, j);
  }

  lemma {:induction false} BurstsApart(l: Limits, attempts: seq<Chance>, from: nat, bursts: nat)
    requires Sensible(l) && Paced(l, attempts)
    requires from + bursts * l.maxRetries < |attempts| && FailedBetween(attempts, from, from + bursts * l.maxRetries)
    ensures attempts[from + bursts * l.maxRetries].now - attempts[from].now >= bursts * l.window
    decreases bursts
  {
    if bursts > 0 {
      var mid := from + (bursts - 1) * l.maxRetries;
      assert mid + l.maxRetries == from + bursts * l.maxRetries;
      BurstsApart(l, attempts, from, bursts - 1);
      AttemptsSpaced(l, attempts, mid);
      assert bursts * l.window == (bursts - 1) * l.window + l.window;
    }
  }

  lemma WindowExceeded(span: int, window: int)
    requires window > 0
    ensures (span / window + 1) * window > span
  {
  }

  /** With T the time from the first to the last attempt of a stretch, it holds at most
      (T / window + 1) * maxRetries of them. */
  predicate RateBounded(l: Limits, attempts: seq<Chance>, from: nat, to: nat)
    requires l.window > 0 && from < to <= |attempts|
  {
    var span := attempts[to - 1].now - attempts[from].now;
    span >= 0 && to - from <= (span / l.window + 1) * l.maxRetries
  }

  /** As many bursts as outlast the stretch bound its length. */
  lemma BurstsOutlast(l: Limits, attempts: seq<Chance>, from: nat, to: nat, bursts: nat)
    requires Sensible(l) && Paced(l, attempts) && from < to <= |attempts| && FailedBetween(attempts, from, to)
    requires bursts * l.window > attempts[to - 1].now - attempts[from].now
    ensures to - from <= bursts * l.maxRetries
  {
    var full := bursts * l.maxRetries;
    if to - from > full {
      BurstsApart(l, attempts, from, bursts);
      TimesForward(l, attempts, from + full, to - 1);
    }
  }

  /** Any stretch of failed attempts spanning time T holds at most maxRetries * (T / window + 1) of them. */
  lemma StretchBound(l: Limits, attempts: seq<Chance>, from: nat, to: nat)
    requires Sensible(l) && Paced(l, attempts) && from < to <= |attempts| && FailedBetween(attempts, from, to)
    ensures RateBounded(l, attempts, from, to)
  {
    TimesForward(l, attempts, from, to - 1);
    var span := attempts[to - 1].now - attempts[from].now;
    WindowExceeded(span, l.window);
    BurstsOutlast(l, attempts, from, to, span / l.window + 1);
  }

  /** Over every run: the failure count stays within the maximum, and any stretch of failed
      attempts spanning time T holds at most maxRetries * (T / window + 1) dispatches. */
  lemma FailingRateBound(l: Limits, chances: seq<Chance>, from: nat, to: nat)
    requires Sensible(l) && ClockForward(chances)
    requires from < to <= |Attempts(l, chances)| && FailedBetween(Attempts(l, chances), from, to)
    ensures 0 <= AfterChances(l, chances).count <= l.maxRetries
    ensures RateBounded(l, Attempts(l, chances), from, to)
  {
    RunReflects(l, chances);
    CountBounded(l, Attempts(l, chances));
    StretchBound(l, Attempts(l, chances), from, to);
  }

  // ----- Cap alerts

  /** The k-th attempt failed and brought the count to the maximum: it raises the cap alert. */
  predicate RaisesCap(l: Limits, attempts: seq<Chance>, k: nat)
    requires k < |attempts|
  {
    !attempts[k].ok && Count(l, attempts[..k + 1]) >= l.maxRetries
  }

  lemma {:induction false} CountGrowsByOne(l: Limits, attempts: seq<Chance>, k: nat, t: nat)
    requires Sensible(l) && 1 <= t && k + 1 + t <= |attempts| && Count(l, attempts[..k + 1]) >= l.maxRetries
    ensures Count(l, attempts[..k + 1 + t]) <= t
    decreases t
  {
    CountStep(l, attempts, k + t);
    if t > 1 {
      CountGrowsByOne(l, attempts, k, t - 1);
    }
  }

  lemma {:induction false} CountedFailed(l: Limits, attempts: seq<Chance>, m: nat)
    requires Sensible(l) && m <= |attempts|
    ensures Count(l, attempts[..m]) <= m && FailedBetween(attempts, m - Count(l, attempts[..m]), m)
  {
    if m > 0 {
      CountedFailed(l, attempts, m - 1);
      CountStep(l, attempts, m - 1);
    }
  }

  /** Alerts fire once per burst: an alert ends maxRetries failures in a row, the next attempt waits out
      the window, and two alerts are at least maxRetries attempts apart. */
  lemma CapOncePerBurst(l: Limits, attempts: seq<Chance>, k: nat)
    requires Sensible(l) && Paced(l, attempts) && k < |attempts| && RaisesCap(l, attempts, k)
    ensures k + 1 >= l.maxRetries && FailedBetween(attempts, k + 1 - l.maxRetries, k + 1)
    ensures k + 1 < |attempts| ==> attempts[k + 1].now - attempts[k].now >= l.window
    ensures forall m :: k < m < |attempts| && RaisesCap(l, attempts, m) ==> m - k >= l.maxRetries
  {
    CountedFailed(l, attempts, k + 1);
    CountBounded(l, attempts[..k + 1]);
    if k + 1 < |attempts| {
      PacedStep(l, attempts, k + 1);
    }
    forall m | k < m < |attempts| && RaisesCap(l, attempts, m)
      ensures m - k >= l.maxRetries
    {
      CountGrowsByOne(l, attempts, k, m - k);
    }
  }

  // ----- The engine over all sessions and policies

  datatype PolicyName = ResumeOnIdle | RestartOnCompaction | KillOnCost

  datatype CommandType = PromptSession | RestartSession | KillSession

  function CommandOf(p: PolicyName): CommandType {
    match p
    case ResumeOnIdle => PromptSession
    case RestartOnCompaction => RestartSession
    case KillOnCost => KillSession
  }

  function LimitsOf(c: PolicyConfig, p: PolicyName): Limits {
    match p
    case ResumeOnIdle => c.resumeLimits
    case RestartOnCompaction => c.restartLimits
    case KillOnCost => c.killLimits
  }

  /** What the dispatcher returns: an error, no result, or a result with its status and error text. */
  datatype Outcome = DispatchError(message: string) | NoResult | Returned(success: bool, error: string)

  predicate Succeeds(o: Outcome) {
    o.Returned? && o.success
  }

  function ErrorText(o: Outcome): string {
    if o.DispatchError? then o.message
    else if o.Returned? && o.error != "" then o.error
    else "command returned non-success status"
  }

  datatype Payload =
    | ActionPayload(policy: PolicyName, sessionId: string, action: CommandType, success: bool,
                    retryCount: int, lastError: string)
    | CapPayload(policy: PolicyName, sessionId: string, retryCount: int, lastError: string)

  datatype EventKind = PolicyAction | PolicyAlert | PolicyRetryCap

  /** One call of the event sink; `num` is both the sequence number and the number in the event id. */
  datatype Emission = Emission(kind: EventKind, payload: Payload, num: nat)

  datatype Outbox = Outbox(counter: nat, emitted: seq<Emission>)

  /** Without an event sink nothing is emitted and the counter stands still. */
  function Emit(sink: bool, b: Outbox, kind: EventKind, payload: Payload): Outbox {
    if sink then Outbox(b.counter + 1, b.emitted + [Emission(kind, payload, b.counter + 1)]) else b
  }

  type Retries = map<string, map<PolicyName, RetryState>>

  function StateOf(retries: Retries, sessionId: string, p: PolicyName): RetryState {
    if sessionId in retries && p in retries[sessionId] then retries[sessionId][p] else FRESH
  }

  /** A policy whose condition holds for a session; `outcome` is what a dispatch at this moment would bring. */
  datatype Opportunity = Opportunity(sessionId: string, policy: PolicyName, now: int, outcome: Outcome)

  function ChanceOf(o: Opportunity): Chance {
    Chance(o.now, Succeeds(o.outcome))
  }

  /** The events of one opportunity met in state s. */
  function Report(sink: bool, b: Outbox, l: Limits, s: RetryState, o: Opportunity): Outbox {
    if !CanAttempt(s, l, o.now) then b
    else
      var retries := Cleared(s, l, o.now).count;
      if Succeeds(o.outcome)
      then Emit(sink, b, PolicyAction, ActionPayload(o.policy, o.sessionId, CommandOf(o.policy), true, retries, ""))
      else ReportFailure(sink, b, l, o, retries + 1)
  }

  function ReportFailure(sink: bool, b: Outbox, l: Limits, o: Opportunity, retries: int): Outbox {
    var text := ErrorText(o.outcome);
    var b' := Emit(sink, b, PolicyAction,
                   ActionPayload(o.policy, o.sessionId, CommandOf(o.policy), false, retries, text));
    if retries >= l.maxRetries then ReportCap(sink, b', CapPayload(o.policy, o.sessionId, retries, text)) else b'
  }

  function ReportCap(sink: bool, b: Outbox, payload: Payload): Outbox {
    Emit(sink, Emit(sink, b, PolicyAlert, payload), PolicyRetryCap, payload)
  }

  class PolicyEngine {
    const config: PolicyConfig
    const sink: bool
    var retries: Retries
    var eventSeq: nat
    var emitted: seq<Emission>

    ghost function Out(): Outbox
      reads this`eventSeq, this`emitted
    {
      Outbox(eventSeq, emitted)
    }

    constructor (config: PolicyConfig, sink: bool)
      ensures this.config == WithPolicyDefaults(config) && this.sink == sink
      ensures retries == map[] && Out() == Outbox(0, [])
    {
      this.config := WithPolicyDefaults(config);
      this.sink := sink;
      retries, eventSeq, emitted := map[], 0, [];
    }

    method TryIntervention(o: Opportunity) returns (dispatched: bool)
      modifies this
      ensures dispatched == CanAttempt(old(StateOf(retries, o.sessionId, o.policy)), LimitsOf(config, o.policy), o.now)
      ensures StateOf(retries, o.sessionId, o.policy)
              == AfterChance(old(StateOf(retries, o.sessionId, o.policy)), LimitsOf(config, o.policy), ChanceOf(o))
      ensures forall s, p :: s != o.sessionId || p != o.policy ==> StateOf(retries, s, p) == old(StateOf(retries, s, p))
      ensures Out() == Report(sink, old(Out()), LimitsOf(config, o.policy),
                              old(StateOf(retries, o.sessionId, o.policy)), o)
    {
      var l := LimitsOf(config, o.policy);
      var canAttempt, count := AllowAttempt(o.sessionId, o.policy, l, o.now);
      if !canAttempt {
        return false;
      }
      if !Succeeds(o.outcome) {
        var text := ErrorText(o.outcome);
        count := MarkFailure(o.sessionId, o.policy, o.now);
        EmitPolicyAction(o.sessionId, o.policy, false, count, text);
        if count >= l.maxRetries {
          EmitRetryCapAlert(o.sessionId, o.policy, count, text);
        }
        return true;
      }
      MarkSuccess(o.sessionId, o.policy, o.now);
      EmitPolicyAction(o.sessionId, o.policy, true, count, "");
      return true;
    }

    method AllowAttempt(sessionId: string, p: PolicyName, l: Limits, now: int) returns (can: bool, count: int)
      modifies this`retries
      ensures can == CanAttempt(old(StateOf(retries, sessionId, p)), l, now)
      ensures StateOf(retries, sessionId, p) == Cleared(old(StateOf(retries, sessionId, p)), l, now)
      ensures count == StateOf(retries, sessionId, p).count
      ensures forall s, q :: s != sessionId || q != p ==> StateOf(retries, s, q) == old(StateOf(retries, s, q))
    {
      var state := GetRetryState(sessionId, p);
      if l.maxRetries > 0 && state.count >= l.maxRetries {
        if l.window > 0 && now - state.lastAttempt >= l.window {
          state := state.(count := 0);
          SetRetryState(sessionId, p, state);
          return true, 0;
        }
        return false, state.count;
      }
      return true, state.count;
    }

    method MarkFailure(sessionId: string, p: PolicyName, now: int) returns (count: int)
      modifies this`retries
      ensures StateOf(retries, sessionId, p) == Failed(old(StateOf(retries, sessionId, p)), now)
      ensures count == StateOf(retries, sessionId, p).count
      ensures forall s, q :: s != sessionId || q != p ==> StateOf(retries, s, q) == old(StateOf(retries, s, q))
    {
      var state := GetRetryState(sessionId, p);
      state := state.(count := state.count + 1);
      state := state.(lastAttempt := now);
      SetRetryState(sessionId, p, state);
      return state.count;
    }

    method MarkSuccess(sessionId: string, p: PolicyName, now: int)
      modifies this`retries
      ensures StateOf(retries, sessionId, p) == Succeeded(old(StateOf(retries, sessionId, p)), now)
      ensures forall s, q :: s != sessionId || q != p ==> StateOf(retries, s, q) == old(StateOf(retries, s, q))
    {
      var state := GetRetryState(sessionId, p);
      state := state.(count := 0);
      state := state.(lastSuccess := now);
      SetRetryState(sessionId, p, state);
    }

    method GetRetryState(sessionId: string, p: PolicyName) returns (state: RetryState)
      ensures state == StateOf(retries, sessionId, p)
    {
      if sessionId !in retries {
        return FRESH;
      }
      var byPolicy := retries[sessionId];
      return if p in byPolicy then byPolicy[p] else FRESH;
    }

    method SetRetryState(sessionId: string, p: PolicyName, state: RetryState)
      modifies this`retries
      ensures StateOf(retries, sessionId, p) == state
      ensures forall s, q :: s != sessionId || q != p ==> StateOf(retries, s, q) == old(StateOf(retries, s, q))
    {
      var byPolicy := if sessionId in retries then retries[sessionId] else map[];
      retries := retries[sessionId := byPolicy[p := state]];
    }

    method EmitPolicyAction(sessionId: string, p: PolicyName, success: bool, count: int, lastError: string)
      modifies this`eventSeq, this`emitted
      ensures Out() == Emit(sink, old(Out()), PolicyAction,
                            ActionPayload(p, sessionId, CommandOf(p), success, count, lastError))
    {
      EmitPolicyEvent(PolicyAction, ActionPayload(p, sessionId, CommandOf(p), success, count, lastError));
    }

    method EmitRetryCapAlert(sessionId: string, p: PolicyName, count: int, lastError: string)
      modifies this`eventSeq, this`emitted
      ensures Out() == ReportCap(sink, old(Out()), CapPayload(p, sessionId, count, lastError))
    {
      EmitPolicyEvent(PolicyAlert, CapPayload(p, sessionId, count, lastError));
      EmitPolicyEvent(PolicyRetryCap, CapPayload(p, sessionId, count, lastError));
    }

    method EmitPolicyEvent(kind: EventKind, payload: Payload)
      modifies this`eventSeq, this`emitted
      ensures Out() == Emit(sink, old(Out()), kind, payload)
    {
      if !sink {
        return;
      }
      eventSeq := eventSeq + 1;
      emitted := emitted + [Emission(kind, payload, eventSeq)];
    }
  }

  // ----- When an attempt is allowed

  /** After every run an attempt is refused exactly when the last maxRetries dispatches all failed, filled a burst,
      and the window since the last one is not over. */
  lemma RefusedIff(l: Limits, chances: seq<Chance>, now: int)
    requires Sensible(l) && ClockForward(chances)
    ensures var attempts := Attempts(l, chances);
            !CanAttempt(AfterChances(l, chances), l, now) <==>
            Count(l, attempts) == l.maxRetries && attempts != [] && now - attempts[|attempts| - 1].now < l.window
    ensures var attempts := Attempts(l, chances);
            !CanAttempt(AfterChances(l, chances), l, now) ==>
              |attempts| >= l.maxRetries && FailedBetween(attempts, |attempts| - l.maxRetries, |attempts|)
  {
    RunReflects(l, chances);
    var attempts := Attempts(l, chances);
    CountBounded(l, attempts);
    CountedFailed(l, attempts, |attempts|);
    assert attempts[..|attempts|] == attempts;
  }

  /** The settings that an empty configuration stands for. */
  lemma DefaultsApply(c: PolicyConfig)
    requires c.checkIntervalSec <= 0 && c.idleThresholdSec <= 0 && c.tokenThreshold <= 0 && c.costThresholdUSD <= 0.0
    requires c.resumeLimits.maxRetries <= 0 && c.resumeLimits.window <= 0
    requires c.restartLimits.maxRetries <= 0 && c.restartLimits.window <= 0
    requires c.killLimits.maxRetries <= 0 && c.killLimits.window <= 0
    ensures WithPolicyDefaults(c)
            == PolicyConfig(30, 300, Limits(3, 3600), 180000, Limits(2, 3600), 10.0, Limits(1, 86400))
  {
  }
}
