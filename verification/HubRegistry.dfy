/** The hub's calls composed with the node registry they reach: what the
    registry's cached status says about the connection table. */
module HubRegistry {
  import opened Wrappers
  import opened Hub
  import R = NodeRegistry

  /** The node entry the hub registers: only id and host name are given. */
  function EntryFor(id: string): R.Node {
    R.Node(id, id, "", [], [], "", R.ZERO_TIME, R.ZERO_TIME, R.Unset, 0, map[], R.ZERO_TIME)
  }

  /** Which statements of a registry call succeed; the hub only logs a failure. */
  datatype Luck = Luck(readOk: bool, writeOk: bool)

  function OpOf(call: StatusCall, now: int, luck: Luck): R.Op {
    match call
    case Online(id) => R.Register(EntryFor(id), now, luck.writeOk)
    case Offline(id) => R.MarkOffline(id, now, luck.readOk, luck.writeOk)
  }

  function OpsOf(calls: seq<StatusCall>, clock: nat -> int, lucks: nat -> Luck): seq<R.Op> {
    if calls == [] then []
    else
      var n := |calls| - 1;
      OpsOf(calls[..n], clock, lucks) + [OpOf(calls[n], clock(n), lucks(n))]
  }

  /** The registry after these calls, from an empty cache over any table. */
  function RegistryAfter(table: map<string, R.Row>, calls: seq<StatusCall>, clock: nat -> int, lucks: nat -> Luck)
    : R.Store
  {
    R.AfterAll(R.Store(map[], table), OpsOf(calls, clock, lucks))
  }

  predicate IsOnline(s: R.Store, id: string) {
    id in s.cache && s.cache[id].status == R.ONLINE
  }

  /** The calls whose write succeeded. */
  function Written(calls: seq<StatusCall>, lucks: nat -> Luck): seq<StatusCall> {
    if calls == [] then []
    else
      var n := |calls| - 1;
      Written(calls[..n], lucks) + (if lucks(n).writeOk then [calls[n]] else [])
  }

  /** Each registration with the hub writes a new entry under the id: a node that reconnects is online, named by its
      id, and without the credential version and authentication states it had. */
  lemma ReconnectForgets(s: R.Store, id: string, now: int, readOk: bool)
    requires id != ""
    ensures var t := R.After(s, OpOf(Online(id), now, Luck(readOk, true)));
            && id in t.cache && t.cache - {id} == s.cache - {id}
            && var n := t.cache[id];
               && n.id == n.hostname == id && n.status == "online"
               && n.lastHeartbeat == now && n.connectedAt == now
               && n.credVersion == 0 && n.credSyncStatus == R.Unknown && n.authStates == map[]
  {
    R.RegisterStores(s, EntryFor(id), now, true);
  }

  lemma OneCall(s: R.Store, call: StatusCall, now: int, luck: Luck, id: string)
    requires id != "" && call.id != "" && R.Keyed(s)
    ensures R.Keyed(R.After(s, OpOf(call, now, luck)))
    ensures IsOnline(R.After(s, OpOf(call, now, luck)), id)
            <==> if call.id == id && luck.writeOk then call.Online? else IsOnline(s, id)
  {
  }

  /** The cached status is online exactly when the last call about the id whose write succeeded said so; a failing
      read changes nothing, since only an uncached node is read. */
  lemma {:induction false} CachedStatusIsLastCall(table: map<string, R.Row>, calls: seq<StatusCall>, clock: nat -> int,
                                                  lucks: nat -> Luck, id: string)
    requires id != "" && forall c :: c in calls ==> c.id != ""
    ensures R.Keyed(RegistryAfter(table, calls, clock, lucks))
    ensures IsOnline(RegistryAfter(table, calls, clock, lucks), id)
            <==> Believed(Written(calls, lucks), id) == Some(true)
  {
    if calls != [] {
      var n := |calls| - 1;
      var before, call := calls[..n], calls[n];
      CachedStatusIsLastCall(table, before, clock, lucks, id);
      var ops, op := OpsOf(before, clock, lucks), OpOf(call, clock(n), lucks(n));
      assert (ops + [op])[..n] == ops by {
        OpsLength(before, clock, lucks);
      }
      OneCall(RegistryAfter(table, before, clock, lucks), call, clock(n), lucks(n), id);
      WrittenOneMore(calls, lucks, id);
    }
  }

  lemma {:induction false} OpsLength(calls: seq<StatusCall>, clock: nat -> int, lucks: nat -> Luck)
    ensures |OpsOf(calls, clock, lucks)| == |calls|
  {
    if calls != [] {
      OpsLength(calls[..|calls| - 1], clock, lucks);
    }
  }

  lemma WrittenOneMore(calls: seq<StatusCall>, lucks: nat -> Luck, id: string)
    requires calls != []
    ensures var n := |calls| - 1;
            Believed(Written(calls, lucks), id)
            == if lucks(n).writeOk && calls[n].id == id then Some(calls[n].Online?)
               else Believed(Written(calls[..n], lucks), id)
  {
    var n := |calls| - 1;
    var written := Written(calls[..n], lucks);
    assert (written + [calls[n]])[..|written|] == written && written + [] == written;
  }

  lemma {:induction false} OfflineCallsNamed(ids: seq<string>)
    ensures forall c :: c in OfflineCalls(ids) ==> c.id != ""
  {
    if ids != [] {
      OfflineCallsNamed(ids[..|ids| - 1]);
    }
  }

  /** The hub never calls the registry about the empty id. */
  lemma {:induction false} CallsNamed(steps: seq<Step>)
    ensures forall c :: c in CallsAfter(steps) ==> c.id != ""
  {
    if steps != [] {
      CallsNamed(steps[..|steps| - 1]);
      if steps[|steps| - 1].Ticked? {
        OfflineCallsNamed(steps[|steps| - 1].timedOut);
      }
    }
  }

  lemma {:induction false} AllWritten(calls: seq<StatusCall>, lucks: nat -> Luck)
    requires forall i: nat :: i < |calls| ==> lucks(i).writeOk
    ensures Written(calls, lucks) == calls
  {
    if calls != [] {
      AllWritten(calls[..|calls| - 1], lucks);
    }
  }

  /** Over every run of the hub, whatever statements fail, the registry's cached status of an id is that of the last
      successful call about it. When every write succeeds it is online exactly when no tick found the id
      silent since it registered and it is on the table or was taken off by a drop or the shutdown. */
  lemma RegistryStatusOverRuns(table: map<string, R.Row>, steps: seq<Step>, clock: nat -> int, lucks: nat -> Luck,
                               id: string)
    requires id != ""
    ensures var calls := CallsAfter(steps); var online := IsOnline(RegistryAfter(table, calls, clock, lucks), id);
            && (online <==> Believed(Written(calls, lucks), id) == Some(true))
            && ((forall i: nat :: i < |calls| ==> lucks(i).writeOk) ==>
                  (online <==> !SilentSince(steps, id) && (id in TableAfter(steps) || TakenSince(steps, id))))
  {
    var calls := CallsAfter(steps);
    CallsNamed(steps);
    CachedStatusIsLastCall(table, calls, clock, lucks, id);
    RegistryFollowsTable(steps, id);
    if forall i: nat :: i < |calls| ==> lucks(i).writeOk {
      AllWritten(calls, lucks);
    }
  }
}
