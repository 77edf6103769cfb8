/** Matching command results to waiting dispatches: the pending table, its
    capacity-one channels and the timers, under every interleaving of the
    dispatcher's atomic sections. Command ids are distinct. */
module CommandDispatcher {
  import opened Wrappers

  datatype Status = Success | Failure | Timeout

  datatype CommandResult = CommandResult(commandId: string, status: Status, output: string)

  datatype Outcome = SendFailed(message: string) | TimedOut | Got(result: CommandResult)

  /** Where one sendCommand is: entered in the table, past transport.Send, inside the select,
      past it with the deferred delete still to come, or returned. */
  datatype Phase =
    | Registered(ch: nat)
    | Sent(ch: nat)
    | Waiting(ch: nat)
    | Returning(ch: nat, outcome: Outcome)
    | Done(ch: nat, outcome: Outcome)

  /** `received` and `puts` are histories; `inHand` holds results whose channel was looked up but not yet put. */
  datatype System = System(
    pending: map<string, nat>,
    chans: seq<seq<CommandResult>>,
    dispatches: map<string, Phase>,
    owners: seq<string>,
    received: seq<seq<CommandResult>>,
    puts: seq<seq<CommandResult>>,
    inHand: multiset<(nat, CommandResult)>)

  const IDLE := System(map[], [], map[], [], [], [], multiset{})

  datatype Step =
    | Begin(id: string)
    | SendOk(id: string)
    | SendFail(id: string, message: string)
    | StartWait(id: string)
    | Receive(id: string)
    | TimerFires(id: string)
    | Cleanup(id: string)
    | Lookup(result: CommandResult)
    | Put(ch: nat, result: CommandResult)

  predicate Enabled(s: System, step: Step) {
    match step
    case Begin(id) => id !in s.dispatches
    case SendOk(id) => id in s.dispatches && s.dispatches[id].Registered?
    case SendFail(id, _) => id in s.dispatches && s.dispatches[id].Registered?
    case StartWait(id) => id in s.dispatches && s.dispatches[id].Sent?
    case Receive(id) =>
      && id in s.dispatches && s.dispatches[id].Waiting?
      && s.dispatches[id].ch < |s.chans| && |s.received| == |s.chans| && s.chans[s.dispatches[id].ch] != []
    case TimerFires(id) => id in s.dispatches && s.dispatches[id].Waiting?
    case Cleanup(id) => id in s.dispatches && s.dispatches[id].Returning?
    case Lookup(r) => r.commandId in s.pending && r.commandId != ""
    case Put(ch, r) => (ch, r) in s.inHand && ch < |s.chans| && |s.puts| == |s.chans|
  }

  /** A step that is not enabled changes nothing, so every list of steps is a run. */
  function Next(s: System, step: Step): System {
    if !Enabled(s, step) then s
    else
      match step
      case Begin(id) =>
        s.(pending := s.pending[id := |s.chans|], dispatches := s.dispatches[id := Registered(|s.chans|)],
           chans := s.chans + [[]], owners := s.owners + [id], received := s.received + [[]], puts := s.puts + [[]])
      case SendOk(id) => s.(dispatches := s.dispatches[id := Sent(s.dispatches[id].ch)])
      case SendFail(id, message) =>
        s.(dispatches := s.dispatches[id := Returning(s.dispatches[id].ch, SendFailed(message))])
      case StartWait(id) => s.(dispatches := s.dispatches[id := Waiting(s.dispatches[id].ch)])
      case Receive(id) =>
        var ch := s.dispatches[id].ch;
        var r := s.chans[ch][0];
        s.(chans := s.chans[ch := s.chans[ch][1..]], received := s.received[ch := s.received[ch] + [r]],
           dispatches := s.dispatches[id := Returning(ch, Got(r))])
      case TimerFires(id) => s.(dispatches := s.dispatches[id := Returning(s.dispatches[id].ch, TimedOut)])
      case Cleanup(id) =>
        s.(pending := s.pending - {id},
           dispatches := s.dispatches[id := Done(s.dispatches[id].ch, s.dispatches[id].outcome)])
      case Lookup(r) => s.(inHand := s.inHand + multiset{(s.pending[r.commandId], r)})
      case Put(ch, r) => AfterPut(s, ch, r)
  }

  /** The channel takes the result when it is empty; otherwise the result is dropped. */
  function AfterPut(s: System, ch: nat, r: CommandResult): System
    requires ch < |s.chans| == |s.puts|
  {
    var s' := s.(inHand := s.inHand - multiset{(ch, r)});
    if s.chans[ch] == []
    then s'.(chans := s.chans[ch := [r]], puts := s.puts[ch := s.puts[ch] + [r]])
    else s'
  }

  function After(steps: seq<Step>): System {
    if steps == [] then IDLE else Next(After(steps[..|steps| - 1]), steps[|steps| - 1])
  }

  // ----- The invariant

  predicate Ended(p: Phase) {
    p.Returning? || p.Done?
  }

  ghost predicate PhaseOk(s: System, id: string)
    requires id in s.dispatches && |s.owners| == |s.received|
  {
    var p := s.dispatches[id];
    && p.ch < |s.owners| && s.owners[p.ch] == id
    && (p.Done? <==> id !in s.pending)
    && (id in s.pending ==> s.pending[id] == p.ch)
    && s.received[p.ch] == if Ended(p) && p.outcome.Got? then [p.outcome.result] else []
  }

  ghost predicate ChanOk(s: System, c: nat)
    requires c < |s.chans| == |s.owners| == |s.received| == |s.puts|
  {
    && s.puts[c] == s.received[c] + s.chans[c]
    && |s.chans[c]| <= 1
    && (forall r :: r in s.puts[c] ==> r.commandId == s.owners[c])
    && s.owners[c] in s.dispatches && s.dispatches[s.owners[c]].ch == c
  }

  ghost predicate Inv(s: System) {
    && |s.chans| == |s.owners| == |s.received| == |s.puts|
    && s.pending.Keys <= s.dispatches.Keys
    && (forall id :: id in s.dispatches ==> PhaseOk(s, id))
    && (forall c :: 0 <= c < |s.chans| ==> ChanOk(s, c))
    && (forall c, r :: (c, r) in s.inHand ==> c < |s.owners| && s.owners[c] == r.commandId)
  }

  lemma NextKeepsInv(s: System, step: Step)
    requires Inv(s)
    ensures Inv(Next(s, step))
  {
    if Enabled(s, step) {
      match step {
        case Begin(id) => BeginKeeps(s, id);
        case Receive(id) => ReceiveKeeps(s, id);
        case Put(ch, r) => PutKeeps(s, ch, r);
        case Lookup(r) => LookupKeeps(s, r);
        case _ => PhaseStepKeeps(s, step);
      }
    }
  }

  lemma BeginKeeps(s: System, id: string)
    requires Inv(s) && Enabled(s, Begin(id))
    ensures Inv(Next(s, Begin(id)))
  {
    var t := Next(s, Begin(id));
    forall other | other in t.dispatches
      ensures PhaseOk(t, other)
    {
      assert other != id ==> PhaseOk(s, other);
    }
    BeginKeepsChannels(s, id);
  }

  lemma BeginKeepsChannels(s: System, id: string)
    requires Inv(s) && Enabled(s, Begin(id))
    ensures var t := Next(s, Begin(id)); forall c :: 0 <= c < |t.chans| ==> ChanOk(t, c)
  {
    var t := Next(s, Begin(id));
    forall c | 0 <= c < |t.chans|
      ensures ChanOk(t, c)
    {
      assert c < |s.chans| ==> ChanOk(s, c);
    }
  }

  lemma ReceiveKeeps(s: System, id: string)
    requires Inv(s) && Enabled(s, Receive(id))
    ensures Inv(Next(s, Receive(id)))
  {
    var t := Next(s, Receive(id));
    var ch := s.dispatches[id].ch;
    assert PhaseOk(s, id) && ChanOk(s, ch);
    forall other | other in t.dispatches
      ensures PhaseOk(t, other)
    {
      assert PhaseOk(s, other);
    }
    ReceiveKeepsChannels(s, id);
  }

  lemma ReceiveKeepsChannels(s: System, id: string)
    requires Inv(s) && Enabled(s, Receive(id))
    ensures var t := Next(s, Receive(id)); forall c :: 0 <= c < |t.chans| ==> ChanOk(t, c)
  {
    var t := Next(s, Receive(id));
    assert PhaseOk(s, id) && ChanOk(s, s.dispatches[id].ch);
    forall c | 0 <= c < |t.chans|
      ensures ChanOk(t, c)
    {
      assert ChanOk(s, c);
    }
  }

  lemma PutKeeps(s: System, ch: nat, r: CommandResult)
    requires Inv(s) && Enabled(s, Put(ch, r))
    ensures Inv(Next(s, Put(ch, r)))
  {
    var t := Next(s, Put(ch, r));
    forall other | other in t.dispatches
      ensures PhaseOk(t, other)
    {
      assert PhaseOk(s, other);
    }
    PutKeepsChannels(s, ch, r);
  }

  lemma PutKeepsChannels(s: System, ch: nat, r: CommandResult)
    requires Inv(s) && Enabled(s, Put(ch, r))
    ensures var t := Next(s, Put(ch, r)); forall c :: 0 <= c < |t.chans| ==> ChanOk(t, c)
  {
    var t := Next(s, Put(ch, r));
    forall c | 0 <= c < |t.chans|
      ensures ChanOk(t, c)
    {
      assert ChanOk(s, c);
    }
  }

  lemma LookupKeeps(s: System, r: CommandResult)
    requires Inv(s) && Enabled(s, Lookup(r))
    ensures Inv(Next(s, Lookup(r)))
  {
    var t := Next(s, Lookup(r));
    assert PhaseOk(s, r.commandId);
    forall other | other in t.dispatches
      ensures PhaseOk(t, other)
    {
      assert PhaseOk(s, other);
    }
    forall c | 0 <= c < |t.chans|
      ensures ChanOk(t, c)
    {
      assert ChanOk(s, c);
    }
  }

  /** The steps that only move one dispatch on. */
  lemma PhaseStepKeeps(s: System, step: Step)
    requires Inv(s) && Enabled(s, step)
    requires !step.Begin? && !step.Receive? && !step.Put? && !step.Lookup?
    ensures Inv(Next(s, step))
  {
    var t := Next(s, step);
    forall other | other in t.dispatches
      ensures PhaseOk(t, other)
    {
      assert PhaseOk(s, other);
    }
    forall c | 0 <= c < |t.chans|
      ensures ChanOk(t, c)
    {
      assert ChanOk(s, c);
    }
  }

  lemma {:induction false} AfterKeepsInv(steps: seq<Step>)
    ensures Inv(After(steps))
  {
    if steps != [] {
      AfterKeepsInv(steps[..|steps| - 1]);
      NextKeepsInv(After(steps[..|steps| - 1]), steps[|steps| - 1]);
    }
  }

  // ----- What every run guarantees

  /** No channel ever holds two results, every result put on a channel bears its dispatch's id, an ended dispatch's
      result is the first one put for its id, and an undecided dispatch still has in its channel all that was put. */
  lemma {:induction false} RepliesMatch(steps: seq<Step>, id: string)
    requires id in After(steps).dispatches
    ensures var s := After(steps); var p := s.dispatches[id];
            && p.ch < |s.chans| == |s.puts| == |s.owners|
            && (forall c :: 0 <= c < |s.owners| && s.owners[c] == id ==> c == p.ch)
            && (forall r :: r in s.puts[p.ch] ==> r.commandId == id)
            && (Ended(p) && p.outcome.Got? ==> s.puts[p.ch] != [] && p.outcome.result == s.puts[p.ch][0])
            && (!Ended(p) ==> s.chans[p.ch] == s.puts[p.ch])
    ensures forall c :: 0 <= c < |After(steps).chans| ==> |After(steps).chans[c]| <= 1
  {
    AfterKeepsInv(steps);
    var s := After(steps);
    assert PhaseOk(s, id) && ChanOk(s, s.dispatches[id].ch);
    forall c | 0 <= c < |s.chans|
      ensures |s.chans[c]| <= 1 && (s.owners[c] == id ==> c == s.dispatches[id].ch)
    {
      assert ChanOk(s, c);
    }
  }

  /** The pending table holds exactly the dispatches in flight: it is empty when there are none. */
  lemma {:induction false} PendingExactlyInFlight(steps: seq<Step>)
    ensures var s := After(steps);
            && (forall id :: id in s.pending <==> id in s.dispatches && !s.dispatches[id].Done?)
            && ((forall id :: id in s.dispatches ==> s.dispatches[id].Done?) <==> s.pending == map[])
  {
    AfterKeepsInv(steps);
    var s := After(steps);
    forall id | id in s.dispatches
      ensures id in s.pending <==> !s.dispatches[id].Done?
    {
      assert PhaseOk(s, id);
    }
    if s.pending != map[] {
      var id :| id in s.pending;
      assert id in s.dispatches;
    }
  }

  lemma NextKeepsOutcome(s: System, step: Step, id: string)
    requires id in s.dispatches && Ended(s.dispatches[id])
    ensures var t := Next(s, step);
            id in t.dispatches && Ended(t.dispatches[id]) && t.dispatches[id].outcome == s.dispatches[id].outcome
  {
  }

  /** Once decided, an outcome never changes, whatever happens later. */
  lemma {:induction false} OutcomeIsFinal(steps: seq<Step>, more: seq<Step>, id: string)
    requires id in After(steps).dispatches && Ended(After(steps).dispatches[id])
    ensures var (s, t) := (After(steps), After(steps + more));
            id in t.dispatches && Ended(t.dispatches[id]) && t.dispatches[id].outcome == s.dispatches[id].outcome
    decreases |more|
  {
    if more == [] {
      assert steps + more == steps;
    } else {
      var fewer, last := more[..|more| - 1], more[|more| - 1];
      OutcomeIsFinal(steps, fewer, id);
      OneMore(steps + fewer, last);
      assert steps + more == (steps + fewer) + [last];
      NextKeepsOutcome(After(steps + fewer), last, id);
    }
  }

  /** Which dispatch a step moves on. */
  predicate Moves(step: Step, id: string) {
    match step
    case Lookup(_) => false
    case Put(_, _) => false
    case _ => step.id == id
  }

  function StepsLeft(p: Phase): nat {
    match p
    case Registered(_) => 4
    case Sent(_) => 3
    case Waiting(_) => 2
    case Returning(_, _) => 1
    case Done(_, _) => 0
  }

  /** A dispatch moves only by its own steps, each brings it nearer its end, and one is always enabled until then. */
  lemma NeverStuck(s: System, id: string, step: Step)
    requires id in s.dispatches
    ensures id in Next(s, step).dispatches
    ensures !Moves(step, id) || !Enabled(s, step) ==> Next(s, step).dispatches[id] == s.dispatches[id]
    ensures Moves(step, id) && Enabled(s, step) ==>
              StepsLeft(Next(s, step).dispatches[id]) < StepsLeft(s.dispatches[id])
    ensures !s.dispatches[id].Done? ==>
              || Enabled(s, SendOk(id)) || Enabled(s, StartWait(id))
              || Enabled(s, TimerFires(id)) || Enabled(s, Cleanup(id))
  {
    if Moves(step, id) && Enabled(s, step) {
      OwnStep(s, id, step);
    } else {
      OthersStep(s, id, step);
    }
    if !s.dispatches[id].Done? {
      SomeStepEnabled(s, id);
    }
  }

  lemma OthersStep(s: System, id: string, step: Step)
    requires id in s.dispatches && (!Moves(step, id) || !Enabled(s, step))
    ensures id in Next(s, step).dispatches && Next(s, step).dispatches[id] == s.dispatches[id]
  {
  }

  lemma SomeStepEnabled(s: System, id: string)
    requires id in s.dispatches && !s.dispatches[id].Done?
    ensures
      || Enabled(s, SendOk(id)) || Enabled(s, StartWait(id))
      || Enabled(s, TimerFires(id)) || Enabled(s, Cleanup(id))
  {
  }

  lemma OwnStep(s: System, id: string, step: Step)
    requires id in s.dispatches && Moves(step, id)
    ensures id in Next(s, step).dispatches
    ensures Enabled(s, step) ==> StepsLeft(Next(s, step).dispatches[id]) < StepsLeft(s.dispatches[id])
  {
  }

  /** From s to t a dispatch keeps its channel, and what was put on it stays at the front of its history. */
  ghost predicate HistoryGrew(s: System, t: System, id: string) {
    && id in s.dispatches && id in t.dispatches && t.dispatches[id].ch == s.dispatches[id].ch
    && s.dispatches[id].ch < |s.puts| && s.dispatches[id].ch < |t.puts|
    && s.puts[s.dispatches[id].ch] <= t.puts[s.dispatches[id].ch]
  }

  lemma StepPutsGrow(steps: seq<Step>, step: Step, id: string)
    requires id in After(steps).dispatches
    ensures HistoryGrew(After(steps), After(steps + [step]), id)
    ensures HistoryGrew(After(steps), After(steps), id)
  {
    AfterKeepsInv(steps);
    OneMore(steps, step);
    NextPutsGrow(After(steps), step, id);
  }

  lemma NextPutsGrow(s: System, step: Step, id: string)
    requires Inv(s) && id in s.dispatches
    ensures HistoryGrew(s, Next(s, step), id) && HistoryGrew(s, s, id)
  {
    assert PhaseOk(s, id);
    NextKeepsChannel(s, step, id);
    NextKeepsPuts(s, step, s.dispatches[id].ch);
  }

  lemma NextKeepsChannel(s: System, step: Step, id: string)
    requires id in s.dispatches
    ensures var t := Next(s, step); id in t.dispatches && t.dispatches[id].ch == s.dispatches[id].ch
  {
  }

  lemma NextKeepsPuts(s: System, step: Step, ch: nat)
    requires ch < |s.puts|
    ensures ch < |Next(s, step).puts| && s.puts[ch] <= Next(s, step).puts[ch]
  {
    if !step.Put? && !step.Begin? {
      assert Next(s, step).puts == s.puts;
    }
  }

  lemma {:induction false} PutsGrow(steps: seq<Step>, more: seq<Step>, id: string)
    requires id in After(steps).dispatches
    ensures HistoryGrew(After(steps), After(steps + more), id)
    decreases |more|
  {
    if more == [] {
      assert steps + more == steps;
      StepPutsGrow(steps, Cleanup(id), id);
    } else {
      var fewer, last := more[..|more| - 1], more[|more| - 1];
      PutsGrow(steps, fewer, id);
      StepPutsGrow(steps + fewer, last, id);
      assert steps + more == (steps + fewer) + [last];
    }
  }

  /** A result put while the dispatch is undecided, for instance between send and wait, is never lost: after any
      continuation it is still in the channel, where the wait can receive it, or it is the result received,
      or the dispatch ended otherwise. */
  lemma EarlyReplyNotLost(steps: seq<Step>, more: seq<Step>, id: string)
    requires id in After(steps).dispatches && !Ended(After(steps).dispatches[id])
    requires var s := After(steps); var ch := s.dispatches[id].ch; ch < |s.puts| && s.puts[ch] != []
    ensures var (s, t) := (After(steps), After(steps + more)); var ch := s.dispatches[id].ch;
            var first := s.puts[ch][0];
            && id in t.dispatches && t.dispatches[id].ch == ch && ch < |t.chans|
            && (!Ended(t.dispatches[id]) ==> t.chans[ch] == [first])
            && (t.dispatches[id].Waiting? ==>
                  Enabled(t, Receive(id)) && Next(t, Receive(id)).dispatches[id] == Returning(ch, Got(first)))
            && (Ended(t.dispatches[id]) && t.dispatches[id].outcome.Got? ==> t.dispatches[id].outcome.result == first)
  {
    PutsGrow(steps, more, id);
    RepliesMatch(steps + more, id);
    LengthsAgree(steps + more);
  }

  // ----- The dispatcher object: each atomic section is one step

  /** The first result of a list that is for this id. */
  function FirstFor(id: string, results: seq<CommandResult>): Option<CommandResult> {
    if results == [] then None
    else if results[0].commandId == id then Some(results[0])
    else FirstFor(id, results[1..])
  }

  /** A result without a command id is never on its way to a channel. */
  lemma {:induction false} EmptyIdNeverHandled(steps: seq<Step>)
    ensures forall x :: x in After(steps).inHand ==> x.1.commandId != ""
  {
    if steps != [] {
      EmptyIdNeverHandled(steps[..|steps| - 1]);
    }
  }

  /** The first arrival for an id: nothing for it came before, and there is none when nothing is for it. */
  lemma {:induction false} FirstForIsFirst(id: string, results: seq<CommandResult>)
    ensures FirstFor(id, results).None? <==> forall i :: 0 <= i < |results| ==> results[i].commandId != id
    ensures forall i :: 0 <= i < |results| && results[i].commandId == id
                        && (forall j :: 0 <= j < i ==> results[j].commandId != id) ==>
                          FirstFor(id, results) == Some(results[i])
  {
    if results != [] {
      FirstForIsFirst(id, results[1..]);
      assert forall i :: 0 < i < |results| ==> results[i] == results[1..][i - 1];
    }
  }

  function ExpectedOutcome(id: string, sendError: Option<string>, arriving: seq<CommandResult>, timerFirst: bool)
    : Outcome
  {
    if sendError.Some? then SendFailed(sendError.value)
    else if timerFirst || FirstFor(id, arriving).None? then TimedOut
    else Got(FirstFor(id, arriving).value)
  }

  /** A failed send decides before anything else, then the timer; a result is returned exactly when one arrived in
      time, and it is the first for the id. */
  lemma OutcomeCases(id: string, sendError: Option<string>, arriving: seq<CommandResult>, timerFirst: bool, i: nat)
    requires i < |arriving| && arriving[i].commandId == id
    requires forall j :: 0 <= j < i ==> arriving[j].commandId != id
    ensures ExpectedOutcome(id, sendError, arriving, timerFirst)
            == match sendError
               case Some(message) => SendFailed(message)
               case None => if timerFirst then TimedOut else Got(arriving[i])
    ensures ExpectedOutcome(id, None, arriving[..i], timerFirst) == TimedOut
  {
    FirstForIsFirst(id, arriving);
    FirstForIsFirst(id, arriving[..i]);
  }

  /** Lookup and put without a step in between. */
  ghost function Handled(s: System, r: CommandResult): System {
    if Enabled(s, Lookup(r)) then Next(Next(s, Lookup(r)), Put(s.pending[r.commandId], r)) else s
  }

  /** What handling a result does to the channel of one dispatch in flight. */
  lemma HandledChannel(s: System, r: CommandResult, id: string)
    requires Inv(s) && id != "" && id in s.pending
    ensures var ch := s.dispatches[id].ch; var t := Handled(s, r);
            && ch < |s.chans| == |t.chans|
            && t.chans[ch] == if r.commandId == id && s.chans[ch] == [] then [r] else s.chans[ch]
  {
    assert PhaseOk(s, id);
    if Enabled(s, Lookup(r)) {
      assert PhaseOk(s, r.commandId);
    }
  }

  lemma {:induction false} LengthsAgree(steps: seq<Step>)
    ensures var s := After(steps); |s.chans| == |s.owners| == |s.received| == |s.puts|
  {
    AfterKeepsInv(steps);
  }

  /** A table entry leads to its dispatch's own channel; without a dispatch there is none. */
  lemma {:induction false} EntryLeadsToChannel(steps: seq<Step>, id: string)
    ensures var s := After(steps);
            && (id !in s.dispatches ==> id !in s.pending)
            && (id in s.pending ==> id in s.dispatches && s.pending[id] == s.dispatches[id].ch < |s.chans|)
  {
    AfterKeepsInv(steps);
    var s := After(steps);
    if id in s.dispatches {
      assert PhaseOk(s, id);
    }
  }

  lemma OneMore(steps: seq<Step>, step: Step)
    ensures After(steps + [step]) == Next(After(steps), step)
  {
    assert (steps + [step])[..|steps|] == steps;
  }

  /** The object's state is always that of a run, so all of the above holds of it. */
  class CommandDispatcher {
    const hasTransport: bool
    var pending: map<string, nat>
    var chans: seq<seq<CommandResult>>

    ghost var dispatches: map<string, Phase>
    ghost var owners: seq<string>
    ghost var received: seq<seq<CommandResult>>
    ghost var puts: seq<seq<CommandResult>>
    ghost var inHand: multiset<(nat, CommandResult)>
    ghost var history: seq<Step>

    ghost function State(): System
      reads this
    {
      System(pending, chans, dispatches, owners, received, puts, inHand)
    }

    ghost predicate Valid()
      reads this
    {
      State() == After(history)
    }

    constructor (hasTransport: bool)
      ensures Valid() && history == [] && this.hasTransport == hasTransport
    {
      this.hasTransport := hasTransport;
      pending, chans, history := map[], [], [];
      dispatches, owners, received, puts, inHand := map[], [], [], [], multiset{};
    }

    method Register(id: string)
      requires Valid() && id !in dispatches
      modifies this
      ensures Valid() && history == old(history) + [Begin(id)] && State() == old(Next(State(), Begin(id)))
    {
      EntryLeadsToChannel(history, id);
      OneMore(history, Begin(id));
      AddEntry(id);
      history := history + [Begin(id)];
    }

    method AddEntry(id: string)
      requires id !in dispatches && id !in pending
      modifies this`pending, this`chans, this`dispatches, this`owners, this`received, this`puts
      ensures State() == old(Next(State(), Begin(id)))
    {
      if id !in pending {
        pending := pending[id := |chans|];
        chans := chans + [[]];
        owners, received, puts := owners + [id], received + [[]], puts + [[]];
      }
      dispatches := dispatches[id := Registered(pending[id])];
    }

    /** The deferred delete, and the delete after a failed send. */
    method Forget(id: string)
      requires Valid() && id in dispatches && dispatches[id].Returning?
      modifies this`pending, this`dispatches, this`history
      ensures Valid() && history == old(history) + [Cleanup(id)] && State() == old(Next(State(), Cleanup(id)))
    {
      OneMore(history, Cleanup(id));
      pending := pending - {id};
      dispatches := dispatches[id := Done(dispatches[id].ch, dispatches[id].outcome)];
      history := history + [Cleanup(id)];
    }

    method MarkSent(id: string)
      requires Valid() && id in dispatches && dispatches[id].Registered?
      modifies this`dispatches, this`history
      ensures Valid() && history == old(history) + [SendOk(id)] && State() == old(Next(State(), SendOk(id)))
    {
      OneMore(history, SendOk(id));
      dispatches := dispatches[id := Sent(dispatches[id].ch)];
      history := history + [SendOk(id)];
    }

    method MarkSendFailed(id: string, message: string)
      requires Valid() && id in dispatches && dispatches[id].Registered?
      modifies this`dispatches, this`history
      ensures Valid() && history == old(history) + [SendFail(id, message)]
      ensures State() == old(Next(State(), SendFail(id, message)))
    {
      OneMore(history, SendFail(id, message));
      dispatches := dispatches[id := Returning(dispatches[id].ch, SendFailed(message))];
      history := history + [SendFail(id, message)];
    }

    /** The channel to wait on: the table still has it, so waitForResult never has to make a new one. */
    method ChannelToAwait(id: string) returns (ch: nat)
      requires Valid() && id in dispatches && dispatches[id].Sent?
      modifies this`dispatches, this`history
      ensures Valid() && history == old(history) + [StartWait(id)] && State() == old(Next(State(), StartWait(id)))
      ensures dispatches[id] == Waiting(ch) && ch < |chans|
    {
      AfterKeepsInv(history);
      assert PhaseOk(State(), id);
      OneMore(history, StartWait(id));
      ch := pending[id];
      dispatches := dispatches[id := Waiting(ch)];
      history := history + [StartWait(id)];
    }

    /** The two cases of the select in waitForResult; when both are ready either may be taken. */
    method Take(id: string, ch: nat) returns (outcome: Outcome)
      requires Valid() && id in dispatches && dispatches[id] == Waiting(ch) && ch < |chans| && chans[ch] != []
      modifies this`dispatches, this`chans, this`received, this`history
      ensures Valid() && history == old(history) + [Receive(id)] && State() == old(Next(State(), Receive(id)))
      ensures outcome == Got(old(chans[ch][0])) && dispatches[id] == Returning(ch, outcome)
    {
      LengthsAgree(history);
      OneMore(history, Receive(id));
      var result := chans[ch][0];
      chans := chans[ch := chans[ch][1..]];
      received := received[ch := received[ch] + [result]];
      dispatches := dispatches[id := Returning(ch, Got(result))];
      history := history + [Receive(id)];
      outcome := Got(result);
    }

    method Expire(id: string) returns (outcome: Outcome)
      requires Valid() && id in dispatches && dispatches[id].Waiting?
      modifies this`dispatches, this`history
      ensures Valid() && history == old(history) + [TimerFires(id)] && State() == old(Next(State(), TimerFires(id)))
      ensures outcome == TimedOut && dispatches[id] == Returning(old(dispatches[id].ch), outcome)
    {
      OneMore(history, TimerFires(id));
      outcome := TimedOut;
      dispatches := dispatches[id := Returning(dispatches[id].ch, outcome)];
      history := history + [TimerFires(id)];
    }

    /** A result from an agent: false when its id is empty or unknown, or the channel is full. */
    method HandleCommandResult(result: CommandResult) returns (handled: bool)
      requires Valid()
      modifies this`chans, this`puts, this`inHand, this`history
      ensures Valid() && State() == Handled(old(State()), result)
      ensures old(history) <= history
      ensures handled <==> chans != old(chans)
    {
      if result.commandId == "" {
        return false;
      }
      if result.commandId !in pending {
        return false;
      }
      EntryLeadsToChannel(history, result.commandId);
      var ch := pending[result.commandId];
      OneMore(history, Lookup(result));
      inHand := inHand + multiset{(ch, result)};
      history := history + [Lookup(result)];
      handled := TryPut(ch, result);
    }

    method TryPut(ch: nat, result: CommandResult) returns (sent: bool)
      requires Valid() && (ch, result) in inHand && ch < |chans|
      modifies this`chans, this`puts, this`inHand, this`history
      ensures Valid() && history == old(history) + [Put(ch, result)] && State() == old(Next(State(), Put(ch, result)))
      ensures sent <==> chans != old(chans)
    {
      LengthsAgree(history);
      OneMore(history, Put(ch, result));
      sent := PutOrDrop(ch, result);
      history := history + [Put(ch, result)];
    }

    /** The select of HandleCommandResult: the channel takes the result when it is empty. */
    method PutOrDrop(ch: nat, result: CommandResult) returns (sent: bool)
      requires ch < |chans| == |puts|
      modifies this`chans, this`puts, this`inHand
      ensures State() == old(AfterPut(State(), ch, result))
      ensures sent <==> chans != old(chans)
    {
      inHand := inHand - multiset{(ch, result)};
      if chans[ch] != [] {
        return false;
      }
      chans := chans[ch := [result]];
      puts := puts[ch := puts[ch] + [result]];
      return true;
    }

    /** sendCommand with results arriving while the transport sends: the send error, else a timeout when the timer
        wins, else the first arrival for this id; the table entry is gone either way. */
    method SendCommand(id: string, sendError: Option<string>, arriving: seq<CommandResult>, timerFirst: bool)
      returns (outcome: Outcome)
      requires Valid() && id != "" && id !in dispatches
      modifies this
      ensures Valid()
      ensures !hasTransport ==> outcome.SendFailed? && State() == old(State())
      ensures hasTransport ==> pending == old(pending) && id in dispatches && dispatches[id].Done?
      ensures hasTransport ==> outcome == dispatches[id].outcome == ExpectedOutcome(id, sendError, arriving, timerFirst)
    {
      if !hasTransport {
        return SendFailed("command transport unavailable");
      }
      EntryLeadsToChannel(history, id);
      ghost var before := pending;
      Register(id);
      assert pending - {id} == before;
      outcome := SendRegistered(id, sendError, arriving, timerFirst);
    }

    /** The part of sendCommand after the table entry is made. */
    method SendRegistered(id: string, sendError: Option<string>, arriving: seq<CommandResult>, timerFirst: bool)
      returns (outcome: Outcome)
      requires Valid() && id != "" && id in dispatches && dispatches[id].Registered?
      requires dispatches[id].ch < |chans| && chans[dispatches[id].ch] == []
      modifies this
      ensures Valid() && pending == old(pending) - {id}
      ensures id in dispatches && dispatches[id] == Done(old(dispatches[id].ch), outcome)
      ensures outcome == ExpectedOutcome(id, sendError, arriving, timerFirst)
    {
      HandleAll(id, arriving);
      if sendError.Some? {
        MarkSendFailed(id, sendError.value);
        Forget(id);
        outcome := SendFailed(sendError.value);
      } else {
        MarkSent(id);
        outcome := WaitForResult(id, timerFirst);
      }
    }

    method WaitForResult(id: string, timerFirst: bool) returns (outcome: Outcome)
      requires Valid() && id in dispatches && dispatches[id].Sent? && dispatches[id].ch < |chans|
      modifies this`pending, this`chans, this`received, this`dispatches, this`history
      ensures Valid() && pending == old(pending) - {id}
      ensures id in dispatches && dispatches[id] == Done(old(dispatches[id].ch), outcome)
      ensures outcome == if old(chans[dispatches[id].ch]) != [] && !timerFirst
                         then Got(old(chans[dispatches[id].ch][0])) else TimedOut
    {
      outcome := AwaitOutcome(id, timerFirst);
      Forget(id);
    }

    method AwaitOutcome(id: string, timerFirst: bool) returns (outcome: Outcome)
      requires Valid() && id in dispatches && dispatches[id].Sent? && dispatches[id].ch < |chans|
      modifies this`chans, this`received, this`dispatches, this`history
      ensures Valid() && id in dispatches && dispatches[id] == Returning(old(dispatches[id].ch), outcome)
      ensures outcome == if old(chans[dispatches[id].ch]) != [] && !timerFirst
                         then Got(old(chans[dispatches[id].ch][0])) else TimedOut
    {
      var ch := ChannelToAwait(id);
      if chans[ch] != [] && !timerFirst {
        outcome := Take(id, ch);
      } else {
        outcome := Expire(id);
      }
    }

    /** Results arriving one after the other: the channel of a waiting dispatch ends with the first one for it. */
    method HandleAll(id: string, arriving: seq<CommandResult>)
      requires Valid() && id != "" && id in dispatches && dispatches[id].Registered?
      requires dispatches[id].ch < |chans| && chans[dispatches[id].ch] == []
      modifies this`chans, this`puts, this`inHand, this`history
      ensures Valid() && |chans| == old(|chans|)
      ensures chans[dispatches[id].ch] == match FirstFor(id, arriving) case None => [] case Some(r) => [r]
    {
      ghost var ch := dispatches[id].ch;
      assert arriving[0..] == arriving;
      for i := 0 to |arriving|
        invariant Valid() && |chans| == old(|chans|)
        invariant chans[ch] == [] ==> FirstFor(id, arriving) == FirstFor(id, arriving[i..])
        invariant chans[ch] != [] ==> FirstFor(id, arriving).Some? && chans[ch] == [FirstFor(id, arriving).value]
      {
        PendingExactlyInFlight(history);
        AfterKeepsInv(history);
        HandledChannel(State(), arriving[i], id);
        assert arriving[i..][1..] == arriving[i + 1..];
        var handled := HandleCommandResult(arriving[i]);
      }
    }
  }
}
