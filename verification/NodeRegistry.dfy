/** The node registry: an in-memory map written through to the nodes table.
    Credential and authentication state lives in memory only. */
module NodeRegistry {
  import opened Wrappers

  const ONLINE := "online"
  const OFFLINE := "offline"

  datatype SyncStatus = Unset | InSync | DriftDetected | Unknown

  datatype AuthState = AuthState(tool: string, status: string, reason: string, checkedAt: int)

  /** Instants are integers; this one stands for Go's zero time. */
  const ZERO_TIME: int := 0

  datatype Node = Node(
    id: string, hostname: string, address: string, projects: seq<string>, capabilities: seq<string>, status: string,
    lastHeartbeat: int, connectedAt: int, credSyncStatus: SyncStatus, credVersion: int,
    authStates: map<string, AuthState>, authUpdatedAt: int)

  /** A nullable timestamp column; Garbled text does not parse. */
  datatype Column = Null | At(time: int) | Garbled

  /** A row of the nodes table, without its id. */
  datatype Row = Row(hostname: string, status: string, lastHeartbeat: Column, connectedAt: Column)

  datatype Store = Store(cache: map<string, Node>, table: map<string, Row>)

  datatype Error = Missing | NotFound | Corrupt | Database

  function TimeOf(c: Column): int {
    match c
    case At(time) => time
    case _ => ZERO_TIME
  }

  predicate Readable(row: Row) {
    !row.lastHeartbeat.Garbled? && !row.connectedAt.Garbled?
  }

  function Decode(id: string, row: Row): Option<Node> {
    if !Readable(row) then None
    else Some(Node(id, row.hostname, "", [], [], row.status, TimeOf(row.lastHeartbeat), TimeOf(row.connectedAt),
                   Unknown, 0, map[], ZERO_TIME))
  }

  function RowOf(n: Node): Row {
    Row(n.hostname, n.status, At(n.lastHeartbeat), At(n.connectedAt))
  }

  /** The row reads back, with NULL as the zero time, as the persisted columns of the node. */
  predicate Matches(n: Node, row: Row) {
    && Readable(row) && row.hostname == n.hostname && row.status == n.status
    && TimeOf(row.lastHeartbeat) == n.lastHeartbeat && TimeOf(row.connectedAt) == n.connectedAt
  }

  ghost predicate Keyed(s: Store) {
    forall id :: id in s.cache ==> s.cache[id].id == id
  }

  /** Every cached node matches its database row on all persisted columns. */
  ghost predicate Agrees(s: Store) {
    Keyed(s) && forall id :: id in s.cache ==> id in s.table && Matches(s.cache[id], s.table[id])
  }

  function Upsert(s: Store, n: Node): Store {
    Store(s.cache[n.id := n], s.table[n.id := RowOf(n)])
  }

  function Online(n: Node, now: int): Node {
    n.(connectedAt := if n.connectedAt == ZERO_TIME then now else n.connectedAt,
       status := ONLINE, lastHeartbeat := now,
       credSyncStatus := if n.credSyncStatus == Unset then Unknown else n.credSyncStatus)
  }

  function AfterRegister(s: Store, n: Node, now: int, dbOk: bool): Store {
    if n.id == "" || n.hostname == "" || !dbOk then s else Upsert(s, Online(n, now))
  }

  function Lookup(s: Store, id: string, readOk: bool): Result<Node, Error> {
    if id in s.cache then Ok(s.cache[id])
    else if !readOk then Err(Database)
    else if id !in s.table then Err(NotFound)
    else
      match Decode(id, s.table[id])
      case None => Err(Corrupt)
      case Some(n) => Ok(n)
  }

  function AfterMarkOffline(s: Store, id: string, now: int, readOk: bool, dbOk: bool): Store {
    match Lookup(s, id, readOk)
    case Ok(n) => if dbOk then Upsert(s, n.(status := OFFLINE, lastHeartbeat := now)) else s
    case Err(_) => s
  }

  function AfterGet(s: Store, id: string, readOk: bool): Store {
    match Lookup(s, id, readOk)
    case Ok(n) => s.(cache := s.cache[id := n])
    case Err(_) => s
  }

  function AfterAuthUpdate(s: Store, id: string, states: map<string, AuthState>, now: int, readOk: bool): Store {
    match Lookup(s, id, readOk)
    case Ok(n) => s.(cache := s.cache[id := n.(authStates := n.authStates + states, authUpdatedAt := now)])
    case Err(_) => s
  }

  function AfterReconcile(s: Store, id: string, reported: int, expected: int, readOk: bool): Store {
    match Lookup(s, id, readOk)
    case Ok(n) =>
      s.(cache := s.cache[id := n.(credVersion := reported,
                                   credSyncStatus := if reported == expected then InSync else DriftDetected)])
    case Err(_) => s
  }

  function Silenced(table: map<string, Row>): map<string, Row> {
    map id | id in table :: table[id].(status := OFFLINE)
  }

  function Loaded(table: map<string, Row>): map<string, Node> {
    map id | id in table && Decode(id, table[id]).Some? :: Decode(id, table[id]).value
  }

  /** The table is set offline first; when the read that follows fails, the old cache stays. */
  function AfterLoad(s: Store, updateOk: bool, readOk: bool): Store {
    if !updateOk then s
    else Store(if readOk then Loaded(Silenced(s.table)) else s.cache, Silenced(s.table))
  }

  datatype Op =
    | Register(node: Node, now: int, dbOk: bool)
    | MarkOffline(id: string, now: int, readOk: bool, dbOk: bool)
    | Get(id: string, readOk: bool)
    | UpdateAuth(id: string, states: map<string, AuthState>, now: int, readOk: bool)
    | Reconcile(id: string, reported: int, expected: int, readOk: bool)
    | Load(updateOk: bool, readOk: bool)

  function After(s: Store, op: Op): Store {
    match op
    case Register(n, now, dbOk) => AfterRegister(s, n, now, dbOk)
    case MarkOffline(id, now, readOk, dbOk) => AfterMarkOffline(s, id, now, readOk, dbOk)
    case Get(id, readOk) => AfterGet(s, id, readOk)
    case UpdateAuth(id, states, now, readOk) => AfterAuthUpdate(s, id, states, now, readOk)
    case Reconcile(id, reported, expected, readOk) => AfterReconcile(s, id, reported, expected, readOk)
    case Load(updateOk, readOk) => AfterLoad(s, updateOk, readOk)
  }

  function AfterAll(s: Store, ops: seq<Op>): Store {
    if ops == [] then s else After(AfterAll(s, ops[..|ops| - 1]), ops[|ops| - 1])
  }

  /** A reload whose read fails after its update took effect, while some cached node was not already offline. */
  ghost predicate BreaksAgreement(s: Store, op: Op) {
    op.Load? && op.updateOk && !op.readOk && exists id :: id in s.cache && s.cache[id].status != OFFLINE
  }

  lemma LookupMatches(s: Store, id: string, readOk: bool)
    requires Agrees(s) && Lookup(s, id, readOk).Ok?
    ensures var n := Lookup(s, id, readOk).value; n.id == id && id in s.table && Matches(n, s.table[id])
  {
  }

  /** Each operation, with working or failing statements, keeps the agreement exactly unless it is such a reload. */
  lemma StepAgreesIff(s: Store, op: Op)
    requires Agrees(s)
    ensures Agrees(After(s, op)) <==> !BreaksAgreement(s, op)
  {
    match op {
      case Register(n, now, dbOk) => UpsertAgrees(s, Online(n, now));
      case Load(updateOk, readOk) => LoadAgreesIff(s, updateOk, readOk);
      case MarkOffline(id, now, readOk, _) =>
        if Lookup(s, id, readOk).Ok? {
          UpsertAgrees(s, Lookup(s, id, readOk).value.(status := OFFLINE, lastHeartbeat := now));
        }
      case _ => CacheAgrees(s, op);
    }
  }

  lemma UpsertAgrees(s: Store, n: Node)
    requires Agrees(s)
    ensures Agrees(Upsert(s, n))
  {
  }

  lemma LoadAgreesIff(s: Store, updateOk: bool, readOk: bool)
    requires Agrees(s)
    ensures Agrees(AfterLoad(s, updateOk, readOk)) <==> !BreaksAgreement(s, Load(updateOk, readOk))
  {
    if updateOk && !readOk {
      if id :| id in s.cache && s.cache[id].status != OFFLINE {
        assert AfterLoad(s, updateOk, readOk).table[id].status == OFFLINE;
      }
    }
  }

  /** Operations that touch the cache alone leave the persisted columns as they are. */
  lemma CacheAgrees(s: Store, op: Op)
    requires Agrees(s) && (op.Get? || op.UpdateAuth? || op.Reconcile?)
    ensures Agrees(After(s, op))
  {
    if Lookup(s, op.id, op.readOk).Ok? {
      LookupMatches(s, op.id, op.readOk);
    }
  }

  ghost predicate NeverBreaks(s: Store, ops: seq<Op>) {
    ops != [] ==> NeverBreaks(s, ops[..|ops| - 1]) && !BreaksAgreement(AfterAll(s, ops[..|ops| - 1]), ops[|ops| - 1])
  }

  /** Over every run without such a reload, from an empty cache, every cached node matches its row. */
  lemma {:induction false} RunAgrees(table: map<string, Row>, ops: seq<Op>)
    requires NeverBreaks(Store(map[], table), ops)
    ensures Agrees(AfterAll(Store(map[], table), ops))
  {
    if ops != [] {
      RunAgrees(table, ops[..|ops| - 1]);
      StepAgreesIff(AfterAll(Store(map[], table), ops[..|ops| - 1]), ops[|ops| - 1]);
    }
  }

  /** A reload that fails half-way after one node registered: the cache still says online, the table offline. */
  lemma HalfFailedReloadBreaks(n: Node, now: int)
    requires n.id != "" && n.hostname != ""
    ensures var s := AfterAll(Store(map[], map[]), [Register(n, now, true)]); var t := After(s, Load(true, false));
            && Agrees(s) && !Agrees(t) && n.id in t.cache
            && t.cache[n.id].status == ONLINE && t.table[n.id].status == OFFLINE
  {
    var ops := [Register(n, now, true)];
    var none: seq<Op> := [];
    assert ops[..0] == none && AfterAll(Store(map[], map[]), none) == Store(map[], map[]);
    var s := AfterAll(Store(map[], map[]), ops);
    assert s == After(AfterAll(Store(map[], map[]), ops[..0]), ops[0]);
    assert s.cache[n.id].status != OFFLINE;
    StepAgreesIff(s, Load(true, false));
  }

  /** Reads through an agreeing cache are reads of the table. */
  lemma ReadsRefineTable(s: Store, id: string)
    requires Agrees(s)
    ensures Lookup(s, id, true).Ok? ==> id in s.table && Matches(Lookup(s, id, true).value, s.table[id])
    ensures Lookup(s, id, true) == Err(NotFound) <==> id !in s.table
    ensures Lookup(s, id, true) == Err(Corrupt) <==> id in s.table && !Readable(s.table[id])
  {
  }

  /** After a reload the cache is exactly the readable rows, every one offline and in agreement. */
  lemma ReloadSilencesAll(s: Store)
    ensures var t := AfterLoad(s, true, true);
            && t.cache.Keys == (set id | id in s.table && Readable(s.table[id]))
            && (forall id :: id in t.cache ==> t.cache[id].status == OFFLINE)
            && Agrees(t)
  {
  }

  // ----- What the operations do to single entries

  /** A registered node is cached and stored as online and just heard from, connected since it first was and with
      everything else as given; nothing else changes. A rejected one changes nothing. */
  lemma RegisterStores(s: Store, n: Node, now: int, dbOk: bool)
    ensures var t := AfterRegister(s, n, now, dbOk);
            if n.id == "" || n.hostname == "" || !dbOk then t == s
            else
              && n.id in t.cache && n.id in t.table
              && var c := t.cache[n.id];
                 && c.status == "online" && c.lastHeartbeat == now
                 && c.connectedAt == (if n.connectedAt == ZERO_TIME then now else n.connectedAt)
                 && c.credSyncStatus == (if n.credSyncStatus.Unset? then Unknown else n.credSyncStatus)
                 && c.(status := n.status, lastHeartbeat := n.lastHeartbeat, connectedAt := n.connectedAt,
                       credSyncStatus := n.credSyncStatus) == n
                 && t.table[n.id] == Row(n.hostname, "online", At(now), At(c.connectedAt))
                 && t.cache - {n.id} == s.cache - {n.id} && t.table - {n.id} == s.table - {n.id}
  {
  }

  /** A node that is read back from the row it was written to has its persisted columns, and NULL times read as the
      zero time; what only memory held is gone. */
  lemma RowReadsBack(n: Node)
    ensures Decode(n.id, RowOf(n))
            == Some(n.(address := "", projects := [], capabilities := [], credSyncStatus := Unknown, credVersion := 0,
                       authStates := map[], authUpdatedAt := ZERO_TIME))
    ensures Decode(n.id, Row(n.hostname, n.status, Null, Null))
            == Decode(n.id, RowOf(n.(lastHeartbeat := ZERO_TIME, connectedAt := ZERO_TIME)))
  {
  }

  /** A node marked offline is so in cache and table, with the time of the mark as its last heartbeat. */
  lemma OfflineStores(s: Store, id: string, now: int, readOk: bool)
    requires Keyed(s) && Lookup(s, id, readOk).Ok?
    ensures var (n, t) := (Lookup(s, id, readOk).value, AfterMarkOffline(s, id, now, readOk, true));
            && t.cache == s.cache[id := n.(status := "offline", lastHeartbeat := now)]
            && t.table == s.table[id := Row(n.hostname, "offline", At(now), At(n.connectedAt))]
    ensures AfterMarkOffline(s, id, now, readOk, false) == s
  {
  }

  /** The reported version is recorded, in sync exactly when it is the expected one and drifted otherwise; no other
      field, no other node and no row changes. */
  lemma ReconcileRecords(s: Store, id: string, reported: int, expected: int, readOk: bool)
    ensures var (found, t) := (Lookup(s, id, readOk), AfterReconcile(s, id, reported, expected, readOk));
            if found.Err? then t == s
            else
              && t.table == s.table && id in t.cache && t.cache - {id} == s.cache - {id}
              && var c := t.cache[id];
                 && c.credVersion == reported
                 && (c.credSyncStatus == InSync <==> reported == expected)
                 && (c.credSyncStatus == DriftDetected <==> reported != expected)
                 && c.(credVersion := found.value.credVersion, credSyncStatus := found.value.credSyncStatus)
                    == found.value
  {
  }

  function StateOf(s: Store, id: string, tool: string): Option<AuthState>
    requires id in s.cache
  {
    if tool in s.cache[id].authStates then Some(s.cache[id].authStates[tool]) else None
  }

  /** An update for a node sets the tools it names and keeps the others, and leaves the rest of the node, every
      other node and every row alone. */
  lemma AuthMerges(s: Store, op: Op, id: string, tool: string)
    requires op.UpdateAuth? && id in s.cache
    ensures var t := After(s, op);
            && id in t.cache && t.table == s.table
            && StateOf(t, id, tool) == (if op.id == id && tool in op.states then Some(op.states[tool])
                                        else StateOf(s, id, tool))
            && t.cache[id].authUpdatedAt == (if op.id == id then op.now else s.cache[id].authUpdatedAt)
            && t.cache[id].(authStates := map[], authUpdatedAt := 0)
               == s.cache[id].(authStates := map[], authUpdatedAt := 0)
  {
  }

  /** The state that the last update naming the tool for the node gave it. */
  ghost function LastNamed(ops: seq<Op>, id: string, tool: string): Option<AuthState> {
    if ops == [] then None
    else
      var last := ops[|ops| - 1];
      if last.UpdateAuth? && last.id == id && tool in last.states then Some(last.states[tool])
      else LastNamed(ops[..|ops| - 1], id, tool)
  }

  /** Over any run of authentication updates, of this and of other nodes, a tool's state is the one last named for
      the node, or what it was before when none was; nothing else of the node changes, and no row. */
  lemma {:induction false} LastAuthWins(s: Store, ops: seq<Op>, id: string, tool: string)
    requires id in s.cache && forall op :: op in ops ==> op.UpdateAuth?
    ensures var t := AfterAll(s, ops);
            && id in t.cache && t.table == s.table
            && StateOf(t, id, tool) == (if LastNamed(ops, id, tool).Some? then LastNamed(ops, id, tool)
                                        else StateOf(s, id, tool))
            && t.cache[id].(authStates := map[], authUpdatedAt := 0)
               == s.cache[id].(authStates := map[], authUpdatedAt := 0)
  {
    if ops != [] {
      var before, op := ops[..|ops| - 1], ops[|ops| - 1];
      LastAuthWins(s, before, id, tool);
      AuthMerges(AfterAll(s, before), op, id, tool);
    }
  }

  class NodeRegistry {
    var nodes: map<string, Node>
    var table: map<string, Row>
    var recoveryErrors: nat

    ghost predicate Valid()
      reads this
    {
      Keyed(State())
    }

    ghost function State(): Store
      reads this
    {
      Store(nodes, table)
    }

    constructor (table: map<string, Row>)
      ensures Valid() && State() == Store(map[], table) && recoveryErrors == 0
    {
      nodes, this.table, recoveryErrors := map[], table, 0;
    }

    method UpsertNode(n: Node, dbOk: bool) returns (ok: bool)
      modifies this`table
      ensures ok == dbOk && table == if ok then old(table)[n.id := RowOf(n)] else old(table)
    {
      if dbOk {
        table := table[n.id := RowOf(n)];
      }
      return dbOk;
    }

    /** The cached node, or the one read from the table; the cache is left alone. */
    method Find(id: string, readOk: bool) returns (r: Result<Node, Error>)
      requires Valid()
      ensures r == Lookup(State(), id, readOk) && (r.Ok? ==> r.value.id == id)
    {
      if id in nodes {
        return Ok(nodes[id]);
      }
      if !readOk {
        return Err(Database);
      }
      if id !in table {
        return Err(NotFound);
      }
      match Decode(id, table[id])
      case None => return Err(Corrupt);
      case Some(n) => return Ok(n);
    }

    method Register(node: Node, now: int, dbOk: bool) returns (r: Result<(), Error>)
      requires Valid()
      modifies this`nodes, this`table
      ensures Valid() && State() == old(AfterRegister(State(), node, now, dbOk))
      ensures r.Ok? <==> node.id != "" && node.hostname != "" && dbOk
    {
      if node.id == "" || node.hostname == "" {
        return Err(Missing);
      }
      var n := node;
      if n.connectedAt == ZERO_TIME {
        n := n.(connectedAt := now);
      }
      n := n.(status := ONLINE, lastHeartbeat := now);
      if n.credSyncStatus == Unset {
        n := n.(credSyncStatus := Unknown);
      }
      var ok := UpsertNode(n, dbOk);
      if !ok {
        return Err(Database);
      }
      nodes := nodes[n.id := n];
      return Ok(());
    }

    method MarkOffline(id: string, now: int, readOk: bool, dbOk: bool) returns (r: Result<(), Error>)
      requires Valid()
      modifies this`nodes, this`table
      ensures Valid() && State() == old(AfterMarkOffline(State(), id, now, readOk, dbOk))
      ensures r.Ok? <==> old(Lookup(State(), id, readOk)).Ok? && dbOk
    {
      var found := Find(id, readOk);
      if found.Err? {
        return Err(found.error);
      }
      var n := found.value.(status := OFFLINE, lastHeartbeat := now);
      var ok := UpsertNode(n, dbOk);
      if !ok {
        return Err(Database);
      }
      nodes := nodes[id := n];
      return Ok(());
    }

    method GetNode(id: string, readOk: bool) returns (r: Result<Node, Error>)
      requires Valid()
      modifies this`nodes
      ensures Valid() && r == old(Lookup(State(), id, readOk)) && State() == old(AfterGet(State(), id, readOk))
    {
      r := Find(id, readOk);
      if r.Ok? {
        nodes := nodes[id := r.value];
      }
    }

    method UpdateAuthState(id: string, states: map<string, AuthState>, now: int, readOk: bool)
      returns (r: Result<(), Error>)
      requires Valid()
      modifies this`nodes
      ensures Valid() && State() == old(AfterAuthUpdate(State(), id, states, now, readOk))
      ensures r.Ok? == old(Lookup(State(), id, readOk)).Ok?
    {
      var found := Find(id, readOk);
      if found.Err? {
        return Err(found.error);
      }
      var merged := found.value.authStates;
      var tools := states.Keys;
      while tools != {}
        invariant tools <= states.Keys && nodes == old(nodes)
        invariant merged == found.value.authStates + map k | k in states && k !in tools :: states[k]
      {
        var tool :| tool in tools;
        merged := merged[tool := states[tool]];
        tools := tools - {tool};
      }
      assert (map k | k in states && k !in tools :: states[k]) == states;
      nodes := nodes[id := found.value.(authStates := merged, authUpdatedAt := now)];
      return Ok(());
    }

    method ReconcileCredentialVersion(id: string, reported: int, expected: int, readOk: bool)
      returns (r: Result<(), Error>)
      requires Valid()
      modifies this`nodes
      ensures Valid() && State() == old(AfterReconcile(State(), id, reported, expected, readOk))
      ensures r.Ok? == old(Lookup(State(), id, readOk)).Ok?
    {
      var found := Find(id, readOk);
      if found.Err? {
        return Err(found.error);
      }
      var n := found.value.(credVersion := reported);
      if reported == expected {
        n := n.(credSyncStatus := InSync);
      } else {
        n := n.(credSyncStatus := DriftDetected);
      }
      nodes := nodes[id := n];
      return Ok(());
    }

    method LoadNodesFromDB(updateOk: bool, read: Read) returns (r: Result<(), Error>)
      requires Valid()
      modifies this
      ensures Valid() && State() == old(AfterLoad(State(), updateOk, read.ReadsAll?))
      ensures r.Ok? == (updateOk && read.ReadsAll?)
      ensures recoveryErrors == old(recoveryErrors)
                                + if updateOk then |old(Unreadable(Delivered(table, read)))| else 0
    {
      if !updateOk {
        return Err(Database);
      }
      table := Silenced(table);
      if read.QueryFails? {
        return Err(Database);
      }
      var loaded, corrupt := ScanRows(Delivered(table, read));
      recoveryErrors := recoveryErrors + corrupt;
      assert Unreadable(Delivered(table, read)) == Unreadable(Delivered(old(table), read));
      if read.BreaksAfter? {
        return Err(Database);
      }
      nodes := loaded;
      return Ok(());
    }
  }

  /** How reading the table goes: the query fails, the iteration breaks off after some rows, or all rows come. */
  datatype Read = QueryFails | BreaksAfter(ids: set<string>) | ReadsAll

  function Delivered(table: map<string, Row>, read: Read): map<string, Row> {
    match read
    case QueryFails => map[]
    case BreaksAfter(ids) => map id | id in table && id in ids :: table[id]
    case ReadsAll => table
  }

  ghost function Unreadable(table: map<string, Row>): set<string> {
    set id | id in table && !Readable(table[id])
  }

  lemma ScanOne(table: map<string, Row>, id: string, row: Row)
    requires id !in table
    ensures var more := table[id := row];
            && Loaded(more) == (if Readable(row) then Loaded(table)[id := Decode(id, row).value] else Loaded(table))
            && Unreadable(more) == (if Readable(row) then Unreadable(table) else Unreadable(table) + {id})
  {
  }

  method ScanRows(table: map<string, Row>) returns (loaded: map<string, Node>, corrupt: nat)
    requires forall id :: id in table ==> table[id].status == OFFLINE
    ensures loaded == Loaded(table)
    ensures corrupt == |Unreadable(table)|
  {
    loaded, corrupt := map[], 0;
    var ids := table.Keys;
    ghost var scanned: map<string, Row> := map[];
    while ids != {}
      invariant ids <= table.Keys && scanned.Keys == table.Keys - ids
      invariant forall id :: id in scanned ==> scanned[id] == table[id]
      invariant loaded == Loaded(scanned) && corrupt == |Unreadable(scanned)|
    {
      var id :| id in ids;
      ids := ids - {id};
      ScanOne(scanned, id, table[id]);
      scanned := scanned[id := table[id]];
      match Decode(id, table[id]) {
        case None =>
          corrupt := corrupt + 1;
        case Some(n) =>
          loaded := loaded[id := n.(status := OFFLINE)];
      }
    }
    assert scanned == table;
  }
}
