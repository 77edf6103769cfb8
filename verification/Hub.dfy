/** The supervisor's connection table: which connection speaks for an agent,
    and when its send channel may be closed. Covers the steps of Hub.Run. */
module Hub {
  import opened Wrappers

  const SEND_BUFFER: nat := 256
  const EVENT_BUFFER: nat := 64

  /** A connection: its send channel (open or closed, with what is queued) and its socket. */
  class AgentConn {
    const agentID: string
    var open: bool
    var queue: seq<string>
    var socketClosed: bool
    var lastHeartbeat: int

    constructor (agentID: string, now: int)
      ensures this.agentID == agentID && open && queue == [] && !socketClosed && lastHeartbeat == now
    {
      this.agentID, open, queue, socketClosed, lastHeartbeat := agentID, true, [], false, now;
    }

    /** Closing a closed channel panics. */
    method CloseSend()
      requires open
      modifies this`open
      ensures !open
    {
      open := false;
    }

    /** Sending on a closed channel panics; a full channel refuses the message. */
    method TrySend(msg: string) returns (sent: bool)
      requires open
      modifies this`queue
      ensures sent == (|old(queue)| < SEND_BUFFER)
      ensures queue == if sent then old(queue) + [msg] else old(queue)
    {
      sent := |queue| < SEND_BUFFER;
      if sent {
        queue := queue + [msg];
      }
    }

    /** The write pump takes the oldest queued message, also from a closed channel. */
    method TakeQueued() returns (msg: Option<string>)
      modifies this`queue
      ensures msg == if old(queue) == [] then None else Some(old(queue)[0])
      ensures queue == if old(queue) == [] then [] else old(queue)[1..]
    {
      if queue == [] {
        return None;
      }
      msg := Some(queue[0]);
      queue := queue[1..];
    }

    /** Any message from the agent counts as a heartbeat. */
    method Heartbeat(now: int)
      modifies this`lastHeartbeat
      ensures lastHeartbeat == now
    {
      lastHeartbeat := now;
    }

    method CloseSocket()
      modifies this`socketClosed
      ensures socketClosed
    {
      socketClosed := true;
    }
  }

  // ----- Runs on values: the table, and the calls to the node registry

  datatype StatusCall = Online(id: string) | Offline(id: string)

  type Table = map<string, AgentConn>

  /** `dropped` are the slow clients of a broadcast, `timedOut` the clients a tick found silent. */
  datatype Step =
    | Registered(conn: AgentConn)
    | Unregistered(conn: AgentConn)
    | Broadcasted(dropped: set<string>)
    | Ticked(timedOut: seq<string>)
    | ShutDown

  predicate IsCurrent(clients: Table, conn: AgentConn) {
    conn.agentID in clients && clients[conn.agentID] == conn
  }

  function NextTable(clients: Table, step: Step): Table {
    match step
    case Registered(c) => clients[c.agentID := c]
    case Unregistered(c) => if IsCurrent(clients, c) then clients - {c.agentID} else clients
    case Broadcasted(dropped) => clients - dropped
    case Ticked(_) => clients
    case ShutDown => map[]
  }

  function TableAfter(steps: seq<Step>): Table {
    if steps == [] then map[] else NextTable(TableAfter(steps[..|steps| - 1]), steps[|steps| - 1])
  }

  function OnlineCall(id: string): seq<StatusCall> {
    if id == "" then [] else [Online(id)]
  }

  function OfflineCall(id: string): seq<StatusCall> {
    if id == "" then [] else [Offline(id)]
  }

  function OfflineCalls(ids: seq<string>): seq<StatusCall> {
    if ids == [] then [] else OfflineCalls(ids[..|ids| - 1]) + OfflineCall(ids[|ids| - 1])
  }

  /** The registry is told of registrations, of a current connection's end and of silent
      clients; a broadcast drop and a shutdown tell it nothing. */
  function CallsOf(clients: Table, step: Step): seq<StatusCall> {
    match step
    case Registered(c) => OnlineCall(c.agentID)
    case Unregistered(c) => if IsCurrent(clients, c) then OfflineCall(c.agentID) else []
    case Broadcasted(_) => []
    case Ticked(timedOut) => OfflineCalls(timedOut)
    case ShutDown => []
  }

  function CallsAfter(steps: seq<Step>): seq<StatusCall> {
    if steps == [] then []
    else CallsAfter(steps[..|steps| - 1]) + CallsOf(TableAfter(steps[..|steps| - 1]), steps[|steps| - 1])
  }

  /** The connections that ever registered. */
  ghost function Registrants(steps: seq<Step>): set<AgentConn> {
    if steps == [] then {}
    else
      var last := steps[|steps| - 1];
      Registrants(steps[..|steps| - 1]) + (if last.Registered? then {last.conn} else {})
  }

  /** Each connection registers at most once. */
  ghost predicate OnceEach(steps: seq<Step>) {
    steps != [] ==>
      var before, last := steps[..|steps| - 1], steps[|steps| - 1];
      OnceEach(before) && (last.Registered? ==> last.conn !in Registrants(before))
  }

  lemma OneMore(steps: seq<Step>, step: Step)
    ensures TableAfter(steps + [step]) == NextTable(TableAfter(steps), step)
    ensures CallsAfter(steps + [step]) == CallsAfter(steps) + CallsOf(TableAfter(steps), step)
    ensures OnceEach(steps + [step]) <==> OnceEach(steps) && (step.Registered? ==> step.conn !in Registrants(steps))
    ensures Registrants(steps + [step]) == Registrants(steps) + (if step.Registered? then {step.conn} else {})
  {
    assert (steps + [step])[..|steps|] == steps;
  }

  /** What the registry believes about an id, from the calls it got. */
  function Believed(calls: seq<StatusCall>, id: string): Option<bool> {
    if calls == [] then None
    else if calls[|calls| - 1].id == id then Some(calls[|calls| - 1].Online?)
    else Believed(calls[..|calls| - 1], id)
  }

  lemma {:induction false} BelievedConcat(a: seq<StatusCall>, b: seq<StatusCall>, id: string)
    ensures Believed(a + b, id) == if Believed(b, id).Some? then Believed(b, id) else Believed(a, id)
  {
    if b == [] {
      assert a + b == a;
    } else {
      BelievedConcat(a, b[..|b| - 1], id);
      assert (a + b)[..|a + b| - 1] == a + b[..|b| - 1];
    }
  }

  lemma {:induction false} OfflineCallsBelieved(ids: seq<string>, id: string)
    requires id != ""
    ensures Believed(OfflineCalls(ids), id) == if id in ids then Some(false) else None
  {
    if ids != [] {
      OfflineCallsBelieved(ids[..|ids| - 1], id);
      BelievedConcat(OfflineCalls(ids[..|ids| - 1]), OfflineCall(ids[|ids| - 1]), id);
      assert ids == ids[..|ids| - 1] + [ids[|ids| - 1]];
    }
  }

  /** Since an id last registered, a tick found it silent. */
  ghost predicate SilentSince(steps: seq<Step>, id: string) {
    steps != [] && NextSilent(SilentSince(steps[..|steps| - 1], id), steps[|steps| - 1], id)
  }

  ghost predicate NextSilent(silent: bool, step: Step, id: string) {
    if step.Registered? then silent && step.conn.agentID != id
    else silent || (step.Ticked? && id in step.timedOut)
  }

  /** Since an id last registered, a broadcast or the shutdown took it off the table. */
  ghost predicate TakenSince(steps: seq<Step>, id: string) {
    steps != [] &&
    NextTaken(TakenSince(steps[..|steps| - 1], id), TableAfter(steps[..|steps| - 1]), steps[|steps| - 1], id)
  }

  ghost predicate NextTaken(taken: bool, clients: Table, step: Step, id: string) {
    if step.Registered? then taken && step.conn.agentID != id
    else taken || (id in clients && (step.ShutDown? || (step.Broadcasted? && id in step.dropped)))
  }

  lemma StepFollows(clients: Table, calls: seq<StatusCall>, silent: bool, taken: bool, step: Step, id: string)
    requires id != ""
    requires Believed(calls, id) == Some(true) <==> !silent && (id in clients || taken)
    requires id in clients ==> clients[id].agentID == id && !taken
    ensures var t := NextTable(clients, step);
            && (Believed(calls + CallsOf(clients, step), id) == Some(true)
                <==> !NextSilent(silent, step, id) && (id in t || NextTaken(taken, clients, step, id)))
            && (id in t ==> t[id].agentID == id && !NextTaken(taken, clients, step, id))
  {
    BelievedConcat(calls, CallsOf(clients, step), id);
    if step.Ticked? {
      OfflineCallsBelieved(step.timedOut, id);
    }
  }

  /** Over every run: an id on the table is believed online exactly when no tick found it silent since it
      registered; an id off the table is believed online exactly when, besides, a drop or the shutdown took it. */
  lemma {:induction false} RegistryFollowsTable(steps: seq<Step>, id: string)
    requires id != ""
    ensures Believed(CallsAfter(steps), id) == Some(true)
            <==> !SilentSince(steps, id) && (id in TableAfter(steps) || TakenSince(steps, id))
    ensures id in TableAfter(steps) ==> TableAfter(steps)[id].agentID == id && !TakenSince(steps, id)
  {
    if steps != [] {
      var before := steps[..|steps| - 1];
      RegistryFollowsTable(before, id);
      StepFollows(TableAfter(before), CallsAfter(before), SilentSince(before, id), TakenSince(before, id),
                  steps[|steps| - 1], id);
    }
  }

  lemma StaysOutOneStep(clients: Table, conn: AgentConn, step: Step)
    requires !IsCurrent(clients, conn) && (step.Registered? ==> step.conn != conn)
    ensures !IsCurrent(NextTable(clients, step), conn)
  {
  }

  /** A connection that is not current never becomes it again, whatever happens, unless it registers. */
  lemma {:induction false} StaysOut(steps: seq<Step>, conn: AgentConn, mid: seq<Step>)
    requires !IsCurrent(TableAfter(steps), conn)
    requires conn !in Registrants(mid)
    ensures !IsCurrent(TableAfter(steps + mid), conn)
    decreases |mid|
  {
    if mid == [] {
      assert steps + mid == steps;
    } else {
      var before, last := mid[..|mid| - 1], mid[|mid| - 1];
      StaysOut(steps, conn, before);
      StaysOutOneStep(TableAfter(steps + before), conn, last);
      OneMore(steps + before, last);
      assert steps + mid == (steps + before) + [last];
    }
  }

  /** A superseded connection's late unregister changes neither table nor registry, whatever came in between. */
  lemma LateUnregisterIsNoop(steps: seq<Step>, earlier: AgentConn, newer: AgentConn, mid: seq<Step>)
    requires earlier != newer && earlier.agentID == newer.agentID
    requires earlier !in Registrants(mid)
    ensures var before := steps + [Registered(newer)] + mid;
            && !IsCurrent(TableAfter(before), earlier)
            && TableAfter(before + [Unregistered(earlier)]) == TableAfter(before)
            && CallsAfter(before + [Unregistered(earlier)]) == CallsAfter(before)
  {
    var before := steps + [Registered(newer)] + mid;
    OneMore(steps, Registered(newer));
    StaysOut(steps + [Registered(newer)], earlier, mid);
    OneMore(before, Unregistered(earlier));
    assert CallsAfter(before) + [] == CallsAfter(before);
  }

  lemma {:induction false} RegisteredIsRegistrant(steps: seq<Step>, i: nat)
    requires i < |steps| && steps[i].Registered?
    ensures steps[i].conn in Registrants(steps)
    decreases |steps|
  {
    if i < |steps| - 1 {
      RegisteredIsRegistrant(steps[..|steps| - 1], i);
    }
  }

  lemma {:induction false} OnceMeansNotAgain(steps: seq<Step>, i: nat, k: nat)
    requires OnceEach(steps) && i < k < |steps| && steps[i].Registered? && steps[k].Registered?
    ensures steps[k].conn != steps[i].conn
    decreases |steps|
  {
    var before := steps[..|steps| - 1];
    if k < |steps| - 1 {
      OnceMeansNotAgain(before, i, k);
    } else {
      RegisteredIsRegistrant(before, i);
    }
  }

  lemma {:induction false} NotAgainAfter(steps: seq<Step>, i: nat, from: nat)
    requires OnceEach(steps) && i < from <= |steps| && steps[i].Registered?
    ensures steps[i].conn !in Registrants(steps[from..])
    decreases |steps|
  {
    if from == |steps| {
      assert steps[from..] == [];
    } else {
      var n := |steps| - 1;
      NotAgainAfter(steps[..n], i, from);
      RegisteredIsRegistrant(steps[..n], i);
      assert steps[from..][..n - from] == steps[..n][from..] && steps[from..][n - from] == steps[n];
    }
  }

  /** The same over any run in which each connection registers once: after the i-th step registered a
      connection and the j-th another one under its id, the first is out for good. */
  lemma SupersededForGood(steps: seq<Step>, i: nat, j: nat)
    requires OnceEach(steps) && i < j < |steps| && steps[i].Registered? && steps[j].Registered?
    requires steps[i].conn.agentID == steps[j].conn.agentID
    ensures !IsCurrent(TableAfter(steps), steps[i].conn)
    ensures TableAfter(steps + [Unregistered(steps[i].conn)]) == TableAfter(steps)
    ensures CallsAfter(steps + [Unregistered(steps[i].conn)]) == CallsAfter(steps)
  {
    var parts := SplitAt(steps, i, j);
    LateUnregisterIsNoop(parts.0, steps[i].conn, parts.1, parts.2);
  }

  /** The run around its j-th step, a registration other than the i-th and not followed by the i-th again. */
  lemma SplitAt(steps: seq<Step>, i: nat, j: nat) returns (parts: (seq<Step>, AgentConn, seq<Step>))
    requires OnceEach(steps) && i < j < |steps| && steps[i].Registered? && steps[j].Registered?
    ensures parts.1 == steps[j].conn != steps[i].conn
    ensures steps == parts.0 + [Registered(parts.1)] + parts.2
    ensures steps[i].conn !in Registrants(parts.2)
  {
    OnceMeansNotAgain(steps, i, j);
    NotAgainAfter(steps, i, j + 1);
    parts := (steps[..j], steps[j].conn, steps[j + 1..]);
  }

  lemma FirstRegistered(c: AgentConn)
    requires c.agentID != ""
    ensures TableAfter([Registered(c)]) == map[c.agentID := c] && CallsAfter([Registered(c)]) == [Online(c.agentID)]
  {
    OneMore([], Registered(c));
    assert [] + [Registered(c)] == [Registered(c)];
  }

  lemma {:induction false} NoEmptyOffline(ids: seq<string>)
    ensures forall call :: call in OfflineCalls(ids) ==> call.id != ""
  {
    if ids != [] {
      NoEmptyOffline(ids[..|ids| - 1]);
    }
  }

  /** Over every run the registry is never told about an empty id. */
  lemma {:induction false} NoEmptyCalls(steps: seq<Step>)
    ensures forall call :: call in CallsAfter(steps) ==> call.id != ""
  {
    if steps != [] {
      NoEmptyCalls(steps[..|steps| - 1]);
      if steps[|steps| - 1].Ticked? {
        NoEmptyOffline(steps[|steps| - 1].timedOut);
      }
    }
  }

  /** A drop leaves the id off the table and believed online. */
  lemma DropLeavesOnline(c: AgentConn)
    requires c.agentID != ""
    ensures var (id, steps) := (c.agentID, [Registered(c)] + [Broadcasted({c.agentID})]);
            id !in TableAfter(steps) && Believed(CallsAfter(steps), id) == Some(true)
  {
    FirstRegistered(c);
    OneMore([Registered(c)], Broadcasted({c.agentID}));
    BelievedConcat([Online(c.agentID)], [], c.agentID);
  }

  /** A heartbeat timeout leaves the id on the table and believed offline. */
  lemma TickLeavesListed(c: AgentConn)
    requires c.agentID != ""
    ensures var (id, steps) := (c.agentID, [Registered(c)] + [Ticked([c.agentID])]);
            id in TableAfter(steps) && Believed(CallsAfter(steps), id) == Some(false)
  {
    FirstRegistered(c);
    OneMore([Registered(c)], Ticked([c.agentID]));
    OfflineCallsBelieved([c.agentID], c.agentID);
    BelievedConcat([Online(c.agentID)], OfflineCalls([c.agentID]), c.agentID);
  }

  // ----- The hub object

  datatype HubEvent = HubEvent(online: bool, agentID: string)

  /** A full event channel loses the event. */
  function Announced(events: seq<HubEvent>, e: HubEvent): seq<HubEvent> {
    if |events| < EVENT_BUFFER then events + [e] else events
  }

  function AnnouncedOffline(events: seq<HubEvent>, ids: seq<string>): seq<HubEvent> {
    if ids == [] then events
    else Announced(AnnouncedOffline(events, ids[..|ids| - 1]), HubEvent(false, ids[|ids| - 1]))
  }

  function OfflineEvents(ids: seq<string>): seq<HubEvent> {
    seq(|ids|, i requires 0 <= i < |ids| => HubEvent(false, ids[i]))
  }

  /** Events are announced in order as long as the channel holds fewer than 64, and the rest is lost. */
  lemma {:induction false} AnnouncedWhileRoom(events: seq<HubEvent>, ids: seq<string>)
    requires |events| <= 64
    ensures var room := 64 - |events|;
            AnnouncedOffline(events, ids)
            == events + if |ids| <= room then OfflineEvents(ids) else OfflineEvents(ids[..room])
  {
    if ids == [] {
      assert events + OfflineEvents(ids) == events;
    } else {
      var before, room := ids[..|ids| - 1], 64 - |events|;
      AnnouncedWhileRoom(events, before);
      if |ids| <= room {
        assert OfflineEvents(ids) == OfflineEvents(before) + [HubEvent(false, ids[|ids| - 1])];
      } else {
        assert before[..room] == ids[..room];
        assert |before| == room ==> before == ids[..room];
      }
    }
  }

  class Hub {
    const heartbeatTimeout: int
    var clients: Table
    var registryCalls: seq<StatusCall>
    var events: seq<HubEvent>

    ghost var known: set<AgentConn>
    ghost var trace: seq<Step>

    /** A known connection's channel is open exactly when it is the current entry for its id. */
    ghost predicate ChannelsMatchTable()
      reads this`clients, this`known, known
    {
      && (forall id :: id in clients ==> clients[id] in known && clients[id].agentID == id)
      && (forall c :: c in known ==> (c.open <==> IsCurrent(clients, c)))
    }

    ghost predicate Valid()
      reads this, known
    {
      && ChannelsMatchTable() && clients == TableAfter(trace) && registryCalls == CallsAfter(trace)
      && known == Registrants(trace) && OnceEach(trace)
    }

    constructor (heartbeatTimeout: int)
      ensures Valid() && known == {} && trace == [] && events == []
      ensures this.heartbeatTimeout == heartbeatTimeout
    {
      this.heartbeatTimeout := heartbeatTimeout;
      clients, registryCalls, events, known, trace := map[], [], [], {}, [];
    }

    /** Each connection is registered once, with its channel still open. */
    method Register(conn: AgentConn)
      requires Valid() && conn !in known && conn.open
      modifies this, known`open, known`socketClosed
      ensures Valid() && known == old(known) + {conn} && trace == old(trace) + [Registered(conn)]
      ensures events == Announced(old(events), HubEvent(true, conn.agentID))
      ensures IsCurrent(clients, conn) && conn.open
      ensures conn.agentID in old(clients) ==>
                !old(clients)[conn.agentID].open && old(clients)[conn.agentID].socketClosed
      ensures forall c :: c in old(known) && !(old(IsCurrent(clients, c)) && c.agentID == conn.agentID) ==> unchanged(c)
    {
      OneMore(trace, Registered(conn));
      Supersede(conn);
      trace := trace + [Registered(conn)];
      RegisterNodeOnline(conn.agentID);
      Announce(HubEvent(true, conn.agentID));
    }

    /** The newcomer takes the place of an existing connection, which is closed. */
    method Supersede(conn: AgentConn)
      requires ChannelsMatchTable() && conn !in known && conn.open
      modifies this`clients, this`known, known`open, known`socketClosed
      ensures ChannelsMatchTable() && known == old(known) + {conn} && clients == old(clients)[conn.agentID := conn]
      ensures conn.agentID in old(clients) ==>
                !old(clients)[conn.agentID].open && old(clients)[conn.agentID].socketClosed
      ensures forall c :: c in old(known) && !(old(IsCurrent(clients, c)) && c.agentID == conn.agentID) ==> unchanged(c)
    {
      if conn.agentID in clients {
        var existing := clients[conn.agentID];
        if existing != conn {
          existing.CloseSend();
          existing.CloseSocket();
        }
      }
      clients := clients[conn.agentID := conn];
      known := known + {conn};
    }

    /** What the readPump of a connection asks for when it ends, however late. */
    method Unregister(conn: AgentConn)
      requires Valid() && conn in known
      modifies this, conn`open
      ensures Valid() && known == old(known) && trace == old(trace) + [Unregistered(conn)] && events == old(events)
      ensures !conn.open
      ensures !old(IsCurrent(clients, conn)) ==>
                unchanged(conn) && clients == old(clients) && registryCalls == old(registryCalls)
    {
      OneMore(trace, Unregistered(conn));
      assert registryCalls + [] == registryCalls;
      var removed := Remove(conn);
      if removed {
        RegisterNodeOffline(conn.agentID);
      }
      trace := trace + [Unregistered(conn)];
    }

    /** Takes a connection off the table and closes it, if it is the current one. */
    method Remove(conn: AgentConn) returns (removed: bool)
      requires ChannelsMatchTable() && conn in known
      modifies this`clients, conn`open
      ensures ChannelsMatchTable() && !conn.open && removed == old(IsCurrent(clients, conn))
      ensures clients == if removed then old(clients) - {conn.agentID} else old(clients)
      ensures !removed ==> unchanged(conn)
    {
      removed := false;
      if conn.agentID in clients && clients[conn.agentID] == conn {
        clients := clients - {conn.agentID};
        conn.CloseSend();
        removed := true;
      }
    }

    method RegisterNodeOnline(agentID: string)
      modifies this`registryCalls
      ensures registryCalls == old(registryCalls) + OnlineCall(agentID)
    {
      if agentID == "" {
        return;
      }
      registryCalls := registryCalls + [Online(agentID)];
    }

    method RegisterNodeOffline(agentID: string)
      modifies this`registryCalls
      ensures registryCalls == old(registryCalls) + OfflineCall(agentID)
    {
      if agentID == "" {
        return;
      }
      registryCalls := registryCalls + [Offline(agentID)];
    }

    method Announce(e: HubEvent)
      modifies this`events
      ensures events == Announced(old(events), e)
    {
      if |events| < EVENT_BUFFER {
        events := events + [e];
      }
    }

    /** Every client with room gets the message; the others are cut off. */
    method Broadcast(msg: string)
      requires Valid()
      modifies this`clients, this`trace, known`open, known`queue
      ensures Valid()
      ensures trace == old(trace) + [Broadcasted(old(SlowClients()))]
      ensures forall id :: id in old(clients) ==>
                             if old(|clients[id].queue|) < SEND_BUFFER
                             then id in clients && old(clients)[id].queue == old(clients[id].queue) + [msg]
                             else id !in clients && old(clients)[id].queue == old(clients[id].queue)
      ensures forall c :: c in known && !old(IsCurrent(clients, c)) ==> unchanged(c)
    {
      ghost var slow := SlowClients();
      OneMore(trace, Broadcasted(slow));
      assert registryCalls + [] == registryCalls;
      DeliverAll(msg);
      trace := trace + [Broadcasted(slow)];
    }

    method DeliverAll(msg: string)
      requires ChannelsMatchTable()
      modifies this`clients, known`open, known`queue
      ensures ChannelsMatchTable() && clients == old(clients) - old(SlowClients())
      ensures forall id :: id in old(clients) ==>
                             old(clients)[id].queue
                             == old(clients[id].queue) + (if id in old(SlowClients()) then [] else [msg])
      ensures forall c :: c in known && !old(IsCurrent(clients, c)) ==> unchanged(c)
    {
      ghost var slow := SlowClients();
      ghost var all, queues := clients, map id | id in clients :: clients[id].queue;
      var todo := clients.Keys;
      while todo != {}
        invariant Delivering(all, queues, todo, msg)
        invariant forall c :: c in known && !old(IsCurrent(clients, c)) ==> unchanged(c)
        decreases todo
      {
        var id :| id in todo;
        DeliverNext(id, clients[id], msg, all, queues, todo);
        todo := todo - {id};
      }
    }

    /** Midway through a broadcast: clients of `todo` are untouched, the others got the message or were dropped. */
    ghost predicate Delivering(all: Table, queues: map<string, seq<string>>, todo: set<string>, msg: string)
      reads this`clients, this`known, known
    {
      && ChannelsMatchTable() && todo <= all.Keys == queues.Keys
      && (forall id :: id in all ==> all[id] in known && all[id].agentID == id)
      && (forall id :: id in clients <==> id in all && (id in todo || |queues[id]| < SEND_BUFFER))
      && (forall id :: id in clients ==> clients[id] == all[id])
      && (forall id :: id in all ==>
            all[id].queue == if id in todo || |queues[id]| >= SEND_BUFFER then queues[id] else queues[id] + [msg])
    }

    /** The turn of one client. */
    method DeliverNext(id: string, conn: AgentConn, msg: string,
                       ghost all: Table, ghost queues: map<string, seq<string>>, ghost todo: set<string>)
      requires Delivering(all, queues, todo, msg) && id in todo && conn == all[id]
      modifies this`clients, conn`open, conn`queue
      ensures Delivering(all, queues, todo - {id}, msg)
    {
      DeliverOrDrop(id, conn, msg);
      assert forall other :: other in all && other != id ==> all[other] != conn;
    }

    method DeliverOrDrop(id: string, conn: AgentConn, msg: string)
      requires ChannelsMatchTable() && id in clients && clients[id] == conn
      modifies this`clients, conn`open, conn`queue
      ensures ChannelsMatchTable()
      ensures conn.queue == old(conn.queue) + (if old(|conn.queue|) < SEND_BUFFER then [msg] else [])
      ensures clients == if old(|conn.queue|) < SEND_BUFFER then old(clients) else old(clients) - {id}
    {
      var sent := conn.TrySend(msg);
      if !sent {
        conn.CloseSend();
        clients := clients - {id};
      }
    }

    ghost function SlowClients(): set<string>
      requires ChannelsMatchTable()
      reads this`clients, this`known, known
    {
      set id | id in clients && |clients[id].queue| >= SEND_BUFFER
    }

    ghost predicate Silent(conn: AgentConn, now: int)
      reads conn`lastHeartbeat
    {
      now - conn.lastHeartbeat > heartbeatTimeout
    }

    /** Silent clients are reported offline and lose their socket; the table waits for their unregister. */
    method CheckHeartbeats(now: int) returns (ghost timedOut: seq<string>)
      requires Valid()
      modifies this`registryCalls, this`events, this`trace, known`socketClosed
      ensures Valid() && trace == old(trace) + [Ticked(timedOut)]
      ensures events == AnnouncedOffline(old(events), timedOut)
      ensures forall id :: id in timedOut <==> id in clients && now - clients[id].lastHeartbeat > heartbeatTimeout
      ensures forall i, j :: 0 <= i < j < |timedOut| ==> timedOut[i] != timedOut[j]
      ensures forall c :: c in known ==>
                            c.socketClosed == (old(c.socketClosed) || (IsCurrent(clients, c) && c.agentID in timedOut))
    {
      var silent := CutOffSilent(now);
      OneMore(trace, Ticked(silent));
      trace := trace + [Ticked(silent)];
      timedOut := silent;
    }

    method CutOffSilent(now: int) returns (timedOut: seq<string>)
      requires ChannelsMatchTable()
      modifies this`registryCalls, this`events, known`socketClosed
      ensures ChannelsMatchTable()
      ensures registryCalls == old(registryCalls) + OfflineCalls(timedOut)
      ensures events == AnnouncedOffline(old(events), timedOut)
      ensures forall id :: id in timedOut <==> id in clients && Silent(clients[id], now)
      ensures forall i, j :: 0 <= i < j < |timedOut| ==> timedOut[i] != timedOut[j]
      ensures forall c :: c in known ==>
                            c.socketClosed == (old(c.socketClosed) || (IsCurrent(clients, c) && c.agentID in timedOut))
    {
      timedOut := FindSilent(now);
      ReportSilent(timedOut);
    }

    method ReportSilent(timedOut: seq<string>)
      requires ChannelsMatchTable() && forall id :: id in timedOut ==> id in clients
      modifies this`registryCalls, this`events, known`socketClosed
      ensures registryCalls == old(registryCalls) + OfflineCalls(timedOut)
      ensures events == AnnouncedOffline(old(events), timedOut)
      ensures forall c :: c in known ==>
                            c.socketClosed == (old(c.socketClosed) || (IsCurrent(clients, c) && c.agentID in timedOut))
    {
      for i := 0 to |timedOut|
        invariant registryCalls == old(registryCalls) + OfflineCalls(timedOut[..i])
        invariant events == AnnouncedOffline(old(events), timedOut[..i])
        invariant forall c :: c in known ==>
                                c.socketClosed
                                == (old(c.socketClosed) || (IsCurrent(clients, c) && c.agentID in timedOut[..i]))
      {
        assert timedOut[..i + 1][..i] == timedOut[..i] && timedOut[..i + 1] == timedOut[..i] + [timedOut[i]];
        assert timedOut[i] in timedOut;
        ReportOne(timedOut[i], clients[timedOut[i]]);
      }
      assert timedOut[..|timedOut|] == timedOut;
    }

    method ReportOne(id: string, conn: AgentConn)
      modifies this`registryCalls, this`events, conn`socketClosed
      ensures registryCalls == old(registryCalls) + OfflineCall(id) && conn.socketClosed
      ensures events == Announced(old(events), HubEvent(false, id))
    {
      RegisterNodeOffline(id);
      Announce(HubEvent(false, id));
      conn.CloseSocket();
    }

    method FindSilent(now: int) returns (timedOut: seq<string>)
      requires ChannelsMatchTable()
      ensures forall id :: id in timedOut <==> id in clients && Silent(clients[id], now)
      ensures forall i, j :: 0 <= i < j < |timedOut| ==> timedOut[i] != timedOut[j]
    {
      timedOut := [];
      var todo := clients.Keys;
      while todo != {}
        invariant todo <= clients.Keys
        invariant forall id :: id in timedOut <==> id in clients && id !in todo && Silent(clients[id], now)
        invariant forall i, j :: 0 <= i < j < |timedOut| ==> timedOut[i] != timedOut[j]
        decreases todo
      {
        var id :| id in todo;
        if now - clients[id].lastHeartbeat > heartbeatTimeout {
          timedOut := timedOut + [id];
        }
        todo := todo - {id};
      }
    }

    /** The end of the loop: every current channel is closed, once, and the table is empty. */
    method Shutdown()
      requires Valid()
      modifies this`clients, this`trace, known`open, known`socketClosed
      ensures Valid() && clients == map[] && trace == old(trace) + [ShutDown]
      ensures forall c :: c in known ==> !c.open && (old(c.open) ==> c.socketClosed)
    {
      OneMore(trace, ShutDown);
      assert registryCalls + [] == registryCalls;
      CloseAll();
      trace := trace + [ShutDown];
    }

    method CloseAll()
      requires ChannelsMatchTable()
      modifies this`clients, known`open, known`socketClosed
      ensures ChannelsMatchTable() && clients == map[]
      ensures forall c :: c in known && old(c.open) ==> c.socketClosed
    {
      while clients != map[]
        invariant ChannelsMatchTable()
        invariant forall c :: c in known && old(c.open) ==> c.open || c.socketClosed
        decreases clients.Keys
      {
        var id :| id in clients;
        var conn := clients[id];
        conn.CloseSend();
        conn.CloseSocket();
        clients := clients - {id};
      }
    }

    /** One turn of the loop. */
    method Handle(input: Input)
      requires Valid()
      requires input.RegisterConn? ==> input.conn !in known && input.conn.open
      requires input.UnregisterConn? || input.Pump? || input.Heard? ==> input.conn in known
      modifies this, known
      ensures Valid() && known == old(known) + NewConns(input)
    {
      match input {
        case RegisterConn(c) => Register(c);
        case UnregisterConn(c) => Unregister(c);
        case BroadcastMsg(msg) => Broadcast(msg);
        case Tick(now) => var _ := CheckHeartbeats(now);
        case Pump(c) => var _ := c.TakeQueued();
        case Heard(c, now) => c.Heartbeat(now);
      }
    }

    /** Hub.Run on any legal list of inputs, then shutdown: no channel is closed twice or sent on after closing
        (CloseSend and TrySend demand an open one), and in the end every channel is closed. */
    method Run(inputs: seq<Input>)
      requires Valid() && Legal(known, inputs)
      requires forall k :: 0 <= k < |inputs| && inputs[k].RegisterConn? ==> inputs[k].conn.open
      modifies this, known, ConnsOf(inputs)
      ensures Valid() && clients == map[] && known == old(known) + ConnsOf(inputs)
      ensures forall c :: c in known ==> !c.open
    {
      assert inputs[0..] == inputs;
      for i := 0 to |inputs|
        invariant Expecting(inputs, i)
        invariant known + ConnsOf(inputs[i..]) == old(known) + ConnsOf(inputs)
      {
        HandleNth(inputs, i);
      }
      assert inputs[|inputs|..] == [];
      Shutdown();
    }

    /** Ready for the i-th input and those after it. */
    ghost predicate Expecting(inputs: seq<Input>, i: nat)
      requires i <= |inputs|
      reads this, known, set k | 0 <= k < |inputs| && inputs[k].RegisterConn? :: inputs[k].conn
    {
      && Valid() && Legal(known, inputs[i..])
      && forall k :: i <= k < |inputs| && inputs[k].RegisterConn? ==> inputs[k].conn.open
    }

    method HandleNth(inputs: seq<Input>, i: nat)
      requires i < |inputs| && Expecting(inputs, i)
      modifies this, known
      ensures Expecting(inputs, i + 1) && known == old(known) + NewConns(inputs[i])
      ensures ConnsOf(inputs[i..]) == NewConns(inputs[i]) + ConnsOf(inputs[i + 1..])
    {
      LegalStep(known, inputs, i);
      Handle(inputs[i]);
    }
  }

  /** What Hub.Run receives, and what the pumps of its connections do between its turns. */
  datatype Input =
    | RegisterConn(conn: AgentConn)
    | UnregisterConn(conn: AgentConn)
    | BroadcastMsg(msg: string)
    | Tick(now: int)
    | Pump(conn: AgentConn)
    | Heard(conn: AgentConn, now: int)

  /** Each connection registers once; it asks to unregister, any number of times, drains and hears only after that. */
  ghost predicate Legal(known: set<AgentConn>, inputs: seq<Input>)
    decreases |inputs|
  {
    inputs == [] ||
    match inputs[0]
    case RegisterConn(c) => c !in known && Legal(known + {c}, inputs[1..])
    case UnregisterConn(c) => c in known && Legal(known, inputs[1..])
    case Pump(c) => c in known && Legal(known, inputs[1..])
    case Heard(c, _) => c in known && Legal(known, inputs[1..])
    case _ => Legal(known, inputs[1..])
  }

  lemma {:induction false} LegalFresh(known: set<AgentConn>, inputs: seq<Input>)
    requires Legal(known, inputs)
    ensures forall k :: 0 <= k < |inputs| && inputs[k].RegisterConn? ==> inputs[k].conn !in known
    decreases |inputs|
  {
    if inputs != [] {
      var after := known + NewConns(inputs[0]);
      assert known + {} == known;
      LegalFresh(after, inputs[1..]);
      assert forall k :: 1 <= k < |inputs| ==> inputs[k] == inputs[1..][k - 1];
    }
  }

  /** What legality says of the i-th input and of those after it. */
  lemma LegalStep(known: set<AgentConn>, inputs: seq<Input>, i: nat)
    requires i < |inputs| && Legal(known, inputs[i..])
    ensures inputs[i].RegisterConn? ==> inputs[i].conn !in known
    ensures inputs[i].UnregisterConn? || inputs[i].Pump? || inputs[i].Heard? ==> inputs[i].conn in known
    ensures Legal(known + NewConns(inputs[i]), inputs[i + 1..])
    ensures ConnsOf(inputs[i..]) == NewConns(inputs[i]) + ConnsOf(inputs[i + 1..])
    ensures forall k :: i <= k < |inputs| && inputs[k].RegisterConn? ==> inputs[k].conn !in known
  {
    var rest := inputs[i..];
    assert rest[1..] == inputs[i + 1..] && rest[0] == inputs[i] && known + {} == known;
    LegalFresh(known, rest);
    assert forall k :: i <= k < |inputs| ==> inputs[k] == rest[k - i];
  }

  ghost function NewConns(input: Input): set<AgentConn> {
    if input.RegisterConn? then {input.conn} else {}
  }

  ghost function ConnsOf(inputs: seq<Input>): set<AgentConn> {
    if inputs == [] then {}
    else NewConns(inputs[0]) + ConnsOf(inputs[1..])
  }

  /** A client that does not drain for 257 broadcasts is dropped, and the registry still believes it online. */
  method SlowClientStaysOnline(agentID: string, msg: string) returns (h: Hub, conn: AgentConn)
    requires agentID != ""
    ensures h.Valid() && conn.agentID == agentID && agentID !in h.clients
    ensures Believed(h.registryCalls, agentID) == Some(true)
  {
    h := new Hub(90);
    conn := new AgentConn(agentID, 0);
    h.Register(conn);
    OneMore([], Registered(conn));
    FillQueue(h, conn, msg);
    h.Broadcast(msg);
  }

  method FillQueue(h: Hub, conn: AgentConn, msg: string)
    requires h.Valid() && h.known == {conn} && IsCurrent(h.clients, conn) && conn.queue == []
    modifies h`clients, h`trace, conn`open, conn`queue
    ensures h.Valid() && IsCurrent(h.clients, conn) && |conn.queue| == SEND_BUFFER
  {
    for i := 0 to SEND_BUFFER
      invariant h.Valid() && IsCurrent(h.clients, conn) && |conn.queue| == i
    {
      assert conn in h.known;
      h.Broadcast(msg);
    }
  }
}
