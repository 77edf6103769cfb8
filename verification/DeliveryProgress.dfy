/** The delivery protocol is never stuck: whatever was lost so far, one sound
    connection brings everything sent to the pipeline. */
module DeliveryProgress {
  import opened Wrappers
  import opened EventStream
  import opened Delivery

  lemma AppendStep(w: World, node: string, states: seq<Net>, steps: seq<Step>, step: Step)
    requires IsRun(w, node, states, steps) && Enabled(w, states[|steps|], step)
    ensures IsRun(w, node, states + [Next(w, states[|steps|], step)], steps + [step])
  {
    var longer, more := states + [Next(w, states[|steps|], step)], steps + [step];
    forall i | 0 <= i < |more|
      ensures Enabled(w, longer[i], more[i]) && longer[i + 1] == Next(w, longer[i], more[i])
    {
      if i < |steps| {
        assert longer[i] == states[i] && longer[i + 1] == states[i + 1] && more[i] == steps[i];
        assert Enabled(w, states[i], steps[i]) && states[i + 1] == Next(w, states[i], steps[i]);
      }
    }
  }

  /** `states'` and `steps'` continue a run without sending anything new. */
  ghost predicate Continues(w: World, node: string, states: seq<Net>, steps: seq<Step>,
                            states': seq<Net>, steps': seq<Step>) {
    && IsRun(w, node, states, steps) && IsRun(w, node, states', steps')
    && states <= states' && steps <= steps' && states'[|steps'|].sent == states[|steps|].sent
  }

  lemma Advance(w: World, node: string, states: seq<Net>, steps: seq<Step>, step: Step)
    returns (states': seq<Net>, steps': seq<Step>)
    requires IsRun(w, node, states, steps) && Enabled(w, states[|steps|], step) && !step.Emit?
    ensures Continues(w, node, states, steps, states', steps')
    ensures states'[|steps'|] == Next(w, states[|steps|], step)
  {
    AppendStep(w, node, states, steps, step);
    states', steps' := states + [Next(w, states[|steps|], step)], steps + [step];
  }

  /** Nothing in hand and no connection: a state to dial from. */
  lemma Hang(w: World, node: string, states: seq<Net>, steps: seq<Step>)
    returns (states': seq<Net>, steps': seq<Step>)
    requires IsRun(w, node, states, steps)
    ensures Continues(w, node, states, steps, states', steps')
    ensures states'[|steps'|].conn.Down? && states'[|steps'|].hand == None
  {
    states', steps' := states, steps;
    if states'[|steps'|].hand.Some? {
      states', steps' := Advance(w, node, states', steps', Write(true));
    }
    if states'[|steps'|].conn.Up? {
      states', steps' := Advance(w, node, states', steps', Disconnect);
    }
  }

  lemma {:induction false} ResendAll(w: World, node: string, states: seq<Net>, steps: seq<Step>)
    returns (states': seq<Net>, steps': seq<Step>)
    requires IsRun(w, node, states, steps) && states[|steps|].hand == None
    requires states[|steps|].conn.Up? && !states[|steps|].conn.broken && states[|steps|].conn.snapshot
    ensures Continues(w, node, states, steps, states', steps')
    ensures states'[|steps'|].conn == Up(false, true, []) && states'[|steps'|].hand == None
    decreases if states[|steps|].conn.Up? then |states[|steps|].conn.todo| else 0
  {
    states', steps' := states, steps;
    if states[|steps|].conn.todo != [] {
      var states1, steps1 := Advance(w, node, states, steps, Resend(true));
      states', steps' := ResendAll(w, node, states1, steps1);
    }
  }

  lemma {:induction false} DrainWire(w: World, node: string, states: seq<Net>, steps: seq<Step>)
    returns (states': seq<Net>, steps': seq<Step>)
    requires IsRun(w, node, states, steps)
    ensures Continues(w, node, states, steps, states', steps')
    ensures states'[|steps'|].wire == []
    ensures states'[|steps'|].conn == states[|steps|].conn && states'[|steps'|].hand == states[|steps|].hand
    decreases |states[|steps|].wire|
  {
    states', steps' := states, steps;
    if states[|steps|].wire != [] {
      var states1, steps1 := Advance(w, node, states, steps, Deliver);
      states', steps' := DrainWire(w, node, states1, steps1);
    }
  }

  /** After every run there is a continuation, sending nothing new, at whose end the pipeline has released
      everything sent, once and in order, and buffers nothing. */
  lemma CanAlwaysComplete(w: World, node: string, states: seq<Net>, steps: seq<Step>)
    returns (states': seq<Net>, steps': seq<Step>)
    requires Deployed(w, node) && IsRun(w, node, states, steps)
    ensures Continues(w, node, states, steps, states', steps')
    ensures var sent := states[|steps|].sent; Received(w, states'[|steps'|]) == Stream(|sent|, map[], sent)
  {
    states', steps' := Hang(w, node, states, steps);
    states', steps' := Advance(w, node, states', steps', Dial);
    states', steps' := Advance(w, node, states', steps', Snapshot);
    states', steps' := ResendAll(w, node, states', steps');
    states', steps' := DrainWire(w, node, states', steps');
    DeliveryCompletes(w, node, states', steps');
  }
}
