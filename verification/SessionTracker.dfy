/** The session tracker: an in-memory map written through to the sessions table.
    The flags `dbOk`, `readOk`, ... say whether the database statement succeeds. */
module SessionTracker {
  import opened Wrappers

  const RUNNING := "running"
  const IDLE := "idle"
  const ERROR := "error"
  const UNREACHABLE := "unreachable"

  /** Instants are integers; this one stands for Go's zero time. */
  const ZERO_TIME: int := 0

  datatype TokenUsage = TokenUsage(prompt: int, completion: int, total: int)

  datatype Session = Session(
    sessionId: string, nodeId: string, project: string, status: string, tokenUsage: TokenUsage,
    compactionCount: int, currentTask: string, lastActivity: int, sessionCost: real, model: string, startedAt: int)

  /** A row of the sessions table, without its id; `startedAt` is None when the text does not parse. */
  datatype Row = Row(nodeId: string, project: string, status: string, tokens: int, cost: real, startedAt: Option<int>)

  datatype Store = Store(cache: map<string, Session>, table: map<string, Row>)

  datatype Error = Missing | NotFound | Corrupt | Database | BadUpdate | UnsupportedEvent

  function RowOf(s: Session): Row {
    Row(s.nodeId, s.project, s.status, s.tokenUsage.total, s.sessionCost, Some(s.startedAt))
  }

  function Decode(id: string, row: Row): Option<Session> {
    if row.startedAt.None? then None
    else Some(Session(id, row.nodeId, row.project, row.status, TokenUsage(0, 0, row.tokens), 0, "", ZERO_TIME,
                      row.cost, "", row.startedAt.value))
  }

  /** Every cached session matches its database row on all persisted columns. */
  ghost predicate Agrees(s: Store) {
    forall id :: id in s.cache ==> s.cache[id].sessionId == id && id in s.table && s.table[id] == RowOf(s.cache[id])
  }

  /** Cached sessions sit under their own id. */
  ghost predicate Keyed(s: Store) {
    forall id :: id in s.cache ==> s.cache[id].sessionId == id
  }

  function Upsert(s: Store, session: Session): Store {
    Store(s.cache[session.sessionId := session], s.table[session.sessionId := RowOf(session)])
  }

  function Completed(session: Session, now: int): Session {
    session.(startedAt := if session.startedAt == ZERO_TIME then now else session.startedAt,
             lastActivity := if session.lastActivity == ZERO_TIME then now else session.lastActivity,
             status := if session.status == "" then RUNNING else session.status)
  }

  predicate Addable(session: Session) {
    session.sessionId != "" && session.nodeId != "" && session.project != ""
  }

  function AfterAdd(s: Store, session: Session, now: int, dbOk: bool): Store {
    if Addable(session) && dbOk then Upsert(s, Completed(session, now)) else s
  }

  function Lookup(s: Store, id: string, readOk: bool): Result<Session, Error> {
    if id in s.cache then Ok(s.cache[id])
    else if !readOk then Err(Database)
    else if id !in s.table then Err(NotFound)
    else
      match Decode(id, s.table[id])
      case None => Err(Corrupt)
      case Some(session) => Ok(session)
  }

  /** A successful lookup leaves the session in the cache. */
  function AfterGet(s: Store, id: string, readOk: bool): Store {
    match Lookup(s, id, readOk)
    case Ok(session) => s.(cache := s.cache[id := session])
    case Err(_) => s
  }

  datatype Value = Text(s: string) | Int(i: int) | Float(r: real) | Time(t: int) | Usage(u: TokenUsage) | OtherValue

  /** The update keys the tracker knows; any other key text is Unsupported. */
  datatype Field =
    | NodeId | Project | Status | Tokens | Cost | StartedAt | TokenUsageField
    | SessionCost | LastActivity | CurrentTask | Model | CompactionCount | Unsupported(key: string)

  type Updates = map<Field, Value>

  predicate BadField(field: Field, value: Value) {
    match field
    case NodeId | Project | Status | CurrentTask | Model => !value.Text?
    case Tokens | CompactionCount => !value.Int?
    case Cost | SessionCost => !value.Float?
    case StartedAt | LastActivity => !value.Time?
    case TokenUsageField => !value.Usage?
    case Unsupported(_) => true
  }

  function SetField(s: Session, field: Field, value: Value): Session
    requires !BadField(field, value)
  {
    match field
    case NodeId => s.(nodeId := value.s)
    case Project => s.(project := value.s)
    case Status => s.(status := value.s)
    case Tokens => s.(tokenUsage := s.tokenUsage.(total := value.i))
    case Cost => s.(sessionCost := value.r)
    case StartedAt => s.(startedAt := value.t)
    case TokenUsageField => s.(tokenUsage := value.u)
    case SessionCost => s.(sessionCost := value.r)
    case LastActivity => s.(lastActivity := value.t)
    case CurrentTask => s.(currentTask := value.s)
    case Model => s.(model := value.s)
    case CompactionCount => s.(compactionCount := value.i)
  }

  ghost predicate AllGood(updates: Updates) {
    forall k :: k in updates ==> !BadField(k, updates[k])
  }

  /** The fields that one update key alone writes. */
  ghost function Plain(before: Session, u: Updates): Session
    requires AllGood(u)
  {
    before.(
      nodeId := if NodeId in u then u[NodeId].s else before.nodeId,
      project := if Project in u then u[Project].s else before.project,
      status := if Status in u then u[Status].s else before.status,
      startedAt := if StartedAt in u then u[StartedAt].t else before.startedAt,
      lastActivity := if LastActivity in u then u[LastActivity].t else before.lastActivity,
      currentTask := if CurrentTask in u then u[CurrentTask].s else before.currentTask,
      model := if Model in u then u[Model].s else before.model,
      compactionCount := if CompactionCount in u then u[CompactionCount].i else before.compactionCount)
  }

  /** What `after` may be once every update has been applied to `before`, in whatever order the map is iterated. */
  ghost predicate Updated(before: Session, after: Session, u: Updates)
    requires AllGood(u)
  {
    && after == Plain(before, u).(sessionCost := after.sessionCost, tokenUsage := after.tokenUsage)
    && after.sessionCost in CostOutcomes(before, u)
    && after.tokenUsage in UsageOutcomes(before, u)
  }

  lemma SetFieldUpdates(before: Session, session: Session, done: Updates, field: Field, value: Value)
    requires AllGood(done) && Updated(before, session, done) && field !in done && !BadField(field, value)
    ensures AllGood(done[field := value])
    ensures Updated(before, SetField(session, field, value), done[field := value])
  {
    SetFieldPlain(before, session, done, field, value);
    SetFieldCost(before, session, done, field, value);
    SetFieldUsage(before, session, done, field, value);
  }

  lemma SetFieldPlain(before: Session, session: Session, done: Updates, field: Field, value: Value)
    requires AllGood(done) && Updated(before, session, done) && field !in done && !BadField(field, value)
    ensures AllGood(done[field := value])
    ensures var after := SetField(session, field, value);
            after == Plain(before, done[field := value]).(sessionCost := after.sessionCost,
                                                          tokenUsage := after.tokenUsage)
  {
  }

  lemma SetFieldCost(before: Session, session: Session, done: Updates, field: Field, value: Value)
    requires AllGood(done) && field !in done && !BadField(field, value)
    requires session.sessionCost in CostOutcomes(before, done)
    ensures AllGood(done[field := value])
    ensures SetField(session, field, value).sessionCost in CostOutcomes(before, done[field := value])
  {
  }

  lemma SetFieldUsage(before: Session, session: Session, done: Updates, field: Field, value: Value)
    requires AllGood(done) && field !in done && !BadField(field, value)
    requires session.tokenUsage in UsageOutcomes(before, done)
    ensures AllGood(done[field := value])
    ensures SetField(session, field, value).tokenUsage in UsageOutcomes(before, done[field := value])
  {
  }

  ghost function CostOutcomes(before: Session, u: Updates): set<real>
    requires AllGood(u)
  {
    if Cost in u && SessionCost in u then {u[Cost].r, u[SessionCost].r}
    else if Cost in u then {u[Cost].r}
    else if SessionCost in u then {u[SessionCost].r}
    else {before.sessionCost}
  }

  ghost function UsageOutcomes(before: Session, u: Updates): set<TokenUsage>
    requires AllGood(u)
  {
    if TokenUsageField in u && Tokens in u then {u[TokenUsageField].u, u[TokenUsageField].u.(total := u[Tokens].i)}
    else if TokenUsageField in u then {u[TokenUsageField].u}
    else if Tokens in u then {before.tokenUsage.(total := u[Tokens].i)}
    else {before.tokenUsage}
  }

  /** Two update keys write one field with different values. */
  ghost predicate Ambiguous(u: Updates)
    requires AllGood(u)
  {
    || (Cost in u && SessionCost in u && u[Cost].r != u[SessionCost].r)
    || (Tokens in u && TokenUsageField in u && u[Tokens].i != u[TokenUsageField].u.total)
  }

  // ----- The update loop over an explicit key order

  /** The keys of the updates in some order, each once. */
  ghost predicate IsOrder(u: Updates, order: seq<Field>) {
    && (forall k :: k in order <==> k in u)
    && (forall i, j :: 0 <= i < j < |order| ==> order[i] != order[j])
  }

  /** What the loop makes of a session when it meets the keys in this order; a bad update stops it. */
  function ApplyIn(before: Session, u: Updates, order: seq<Field>): Option<Session>
    requires forall k :: k in order ==> k in u
  {
    if order == [] then Some(before)
    else
      var key := order[|order| - 1];
      match ApplyIn(before, u, order[..|order| - 1])
      case None => None
      case Some(session) => if BadField(key, u[key]) then None else Some(SetField(session, key, u[key]))
  }

  lemma {:induction false} ApplyFailsIff(before: Session, u: Updates, order: seq<Field>)
    requires forall k :: k in order ==> k in u
    ensures ApplyIn(before, u, order).None? <==> exists k :: k in order && BadField(k, u[k])
  {
    if order != [] {
      var init, key := order[..|order| - 1], order[|order| - 1];
      ApplyFailsIff(before, u, init);
      assert order == init + [key];
    }
  }

  /** The updates met so far. */
  ghost function Met(u: Updates, order: seq<Field>): Updates
    requires forall k :: k in order ==> k in u
  {
    map k | k in order :: u[k]
  }

  /** Whatever the order, the result is one of the outcomes. */
  lemma {:induction false} ApplyInUpdates(before: Session, u: Updates, order: seq<Field>)
    requires AllGood(u) && (forall k :: k in order ==> k in u)
    requires forall i, j :: 0 <= i < j < |order| ==> order[i] != order[j]
    ensures ApplyIn(before, u, order).Some? && Updated(before, ApplyIn(before, u, order).value, Met(u, order))
  {
    if order == [] {
      assert Met(u, order) == map[];
    } else {
      var init, key := order[..|order| - 1], order[|order| - 1];
      ApplyInUpdates(before, u, init);
      assert order == init + [key];
      assert Met(u, order) == Met(u, init)[key := u[key]];
      SetFieldUpdates(before, ApplyIn(before, u, init).value, Met(u, init), key, u[key]);
    }
  }

  lemma OrderUpdates(before: Session, u: Updates, order: seq<Field>)
    requires AllGood(u) && IsOrder(u, order)
    ensures ApplyIn(before, u, order).Some? && Updated(before, ApplyIn(before, u, order).value, u)
  {
    ApplyInUpdates(before, u, order);
    assert Met(u, order) == u;
  }

  /** Some order of a set of keys. */
  lemma {:induction false} SomeOrder(keys: set<Field>) returns (order: seq<Field>)
    ensures forall k :: k in order <==> k in keys
    ensures forall i, j :: 0 <= i < j < |order| ==> order[i] != order[j]
    decreases keys
  {
    if keys == {} {
      order := [];
    } else {
      var k :| k in keys;
      var rest := SomeOrder(keys - {k});
      order := rest + [k];
    }
  }

  lemma JoinOrders(a: seq<Field>, b: seq<Field>)
    requires forall i, j :: 0 <= i < j < |a| ==> a[i] != a[j]
    requires forall i, j :: 0 <= i < j < |b| ==> b[i] != b[j]
    requires forall k :: k in a ==> k !in b
    ensures forall i, j :: 0 <= i < j < |a + b| ==> (a + b)[i] != (a + b)[j]
  {
    forall i, j | 0 <= i < j < |a + b|
      ensures (a + b)[i] != (a + b)[j]
    {
      assert i < |a| <= j ==> a[i] in a && b[j - |a|] in b;
    }
  }

  /** An order that ends with these two keys. */
  lemma EndingWith(u: Updates, x: Field, y: Field) returns (rest: seq<Field>)
    requires x in u && y in u && x != y
    ensures IsOrder(u, rest + [x, y]) && IsOrder(u, rest + [y, x])
  {
    rest := SomeOrder(u.Keys - {x, y});
  }

  lemma LastTwo(before: Session, u: Updates, rest: seq<Field>, x: Field, y: Field)
    requires AllGood(u) && x != y && IsOrder(u, rest + [x, y])
    ensures ApplyIn(before, u, rest).Some?
    ensures ApplyIn(before, u, rest + [x, y])
            == Some(SetField(SetField(ApplyIn(before, u, rest).value, x, u[x]), y, u[y]))
  {
    var all := rest + [x, y];
    assert all[..|rest| + 1] == rest + [x] && (rest + [x])[..|rest|] == rest;
    assert x in all && y in all && forall k :: k in rest ==> k in all;
    ApplyFailsIff(before, u, rest);
    assert ApplyIn(before, u, rest + [x]) == Some(SetField(ApplyIn(before, u, rest).value, x, u[x]));
  }

  /** Two update keys that write one field with different values: the one met last wins. */
  lemma AmbiguousOrders(before: Session, u: Updates) returns (order: seq<Field>, other: seq<Field>)
    requires AllGood(u) && Ambiguous(u)
    ensures IsOrder(u, order) && IsOrder(u, other)
    ensures ApplyIn(before, u, order) != ApplyIn(before, u, other)
  {
    var (x, y) := if Cost in u && SessionCost in u && u[Cost].r != u[SessionCost].r
                  then (Cost, SessionCost) else (Tokens, TokenUsageField);
    var rest := EndingWith(u, x, y);
    LastTwo(before, u, rest, x, y);
    LastTwo(before, u, rest, y, x);
    order, other := rest + [x, y], rest + [y, x];
  }

  ghost predicate OrderDoesNotMatter(before: Session, u: Updates) {
    forall order, other :: IsOrder(u, order) && IsOrder(u, other) ==>
                             ApplyIn(before, u, order) == ApplyIn(before, u, other)
  }

  /** All iteration orders of the update map end alike exactly when no two keys write one field with
      different values. */
  lemma UpdateDeterministicIff(before: Session, u: Updates)
    requires AllGood(u)
    ensures OrderDoesNotMatter(before, u) <==> !Ambiguous(u)
  {
    if Ambiguous(u) {
      var order, other := AmbiguousOrders(before, u);
    } else {
      forall order, other | IsOrder(u, order) && IsOrder(u, other)
        ensures ApplyIn(before, u, order) == ApplyIn(before, u, other)
      {
        OrderUpdates(before, u, order);
        OrderUpdates(before, u, other);
      }
    }
  }

  /** A map with a bad update fails in every order. */
  lemma BadUpdateFails(before: Session, u: Updates, order: seq<Field>)
    requires IsOrder(u, order)
    ensures ApplyIn(before, u, order).None? <==> !AllGood(u)
  {
    ApplyFailsIff(before, u, order);
  }

  function Silenced(table: map<string, Row>): map<string, Row> {
    map id | id in table :: table[id].(status := UNREACHABLE)
  }

  function Loaded(table: map<string, Row>): map<string, Session> {
    map id | id in table && Decode(id, table[id]).Some? :: Decode(id, table[id]).value
  }

  /** The table is silenced first; when the read that follows fails, the old cache stays. */
  function AfterLoad(s: Store, updateOk: bool, readOk: bool): Store {
    if !updateOk then s
    else Store(if readOk then Loaded(Silenced(s.table)) else s.cache, Silenced(s.table))
  }

  function AfterMarkUnreachable(s: Store, nodeId: string, dbOk: bool): Store {
    if !dbOk then s
    else
      Store(map id | id in s.cache ::
              if s.cache[id].nodeId == nodeId then s.cache[id].(status := UNREACHABLE) else s.cache[id],
            map id | id in s.table ::
              if s.table[id].nodeId == nodeId then s.table[id].(status := UNREACHABLE) else s.table[id])
  }

  /** Snapshot sessions are added one by one under the given node until one fails. */
  function AfterRestore(s: Store, nodeId: string, sessions: seq<Session>, now: int, dbOk: seq<bool>): Store
    requires |dbOk| == |sessions|
    decreases |sessions|
  {
    if sessions == [] then s
    else
      var session := sessions[0].(nodeId := nodeId);
      if !Addable(session) || !dbOk[0] then s
      else AfterRestore(AfterAdd(s, session, now, true), nodeId, sessions[1..], now, dbOk[1..])
  }

  datatype Op =
    | Add(session: Session, now: int, dbOk: bool)
    | Update(id: string, updates: Updates, readOk: bool, dbOk: bool)
    | Get(id: string, readOk: bool)
    | MarkUnreachable(nodeId: string, dbOk: bool)
    | Load(updateOk: bool, readOk: bool)
    | Restore(underNode: string, sessions: seq<Session>, at: int, writesOk: seq<bool>)

  ghost predicate Next(s: Store, op: Op, t: Store) {
    match op
    case Add(session, now, dbOk) => t == AfterAdd(s, session, now, dbOk)
    case Get(id, readOk) => t == AfterGet(s, id, readOk)
    case MarkUnreachable(nodeId, dbOk) => t == AfterMarkUnreachable(s, nodeId, dbOk)
    case Load(updateOk, readOk) => t == AfterLoad(s, updateOk, readOk)
    case Restore(node, sessions, at, writesOk) =>
      |writesOk| == |sessions| && t == AfterRestore(s, node, sessions, at, writesOk)
    case Update(id, updates, readOk, dbOk) =>
      var found := Lookup(s, id, readOk);
      if found.Ok? && AllGood(updates) && dbOk
      then exists order :: IsOrder(updates, order) && IsResult(found.value, updates, order, AfterGet(s, id, readOk), t)
      else t == AfterGet(s, id, readOk)
  }

  /** The store after writing through what the loop yields in this order. */
  ghost predicate IsResult(found: Session, u: Updates, order: seq<Field>, s: Store, t: Store)
    requires IsOrder(u, order)
  {
    ApplyIn(found, u, order).Some? && t == Upsert(s, ApplyIn(found, u, order).value)
  }

  /** The one failure that separates the cache from the table: a reload whose read fails after its
      update took effect, while some cached session was not already unreachable. */
  ghost predicate BreaksAgreement(s: Store, op: Op) {
    op.Load? && op.updateOk && !op.readOk && exists id :: id in s.cache && s.cache[id].status != UNREACHABLE
  }

  /** Each operation, with working or failing statements, keeps the agreement
      exactly unless it is such a reload. */
  lemma StepAgreesIff(s: Store, op: Op, t: Store)
    requires Agrees(s) && Next(s, op, t)
    ensures Agrees(t) <==> !BreaksAgreement(s, op)
  {
    match op {
      case Load(updateOk, readOk) => LoadAgreesIff(s, updateOk, readOk);
      case MarkUnreachable(nodeId, dbOk) => MarkAgrees(s, nodeId, dbOk);
      case Update(id, updates, readOk, dbOk) => UpdateAgrees(s, id, updates, readOk, dbOk, t);
      case Get(id, readOk) => GetAgrees(s, id, readOk);
      case Restore(node, sessions, at, writesOk) => RestoreAgrees(s, node, sessions, at, writesOk);
      case Add(_, _, _) =>
    }
  }

  lemma LoadAgreesIff(s: Store, updateOk: bool, readOk: bool)
    requires Agrees(s)
    ensures Agrees(AfterLoad(s, updateOk, readOk)) <==> !BreaksAgreement(s, Load(updateOk, readOk))
  {
    var t := AfterLoad(s, updateOk, readOk);
    if updateOk && !readOk {
      if id :| id in s.cache && s.cache[id].status != UNREACHABLE {
        assert t.table[id].status == UNREACHABLE;
      }
    }
  }

  lemma MarkAgrees(s: Store, nodeId: string, dbOk: bool)
    requires Agrees(s)
    ensures Agrees(AfterMarkUnreachable(s, nodeId, dbOk))
  {
  }

  lemma UpdateAgrees(s: Store, id: string, updates: Updates, readOk: bool, dbOk: bool, t: Store)
    requires Agrees(s) && Next(s, Update(id, updates, readOk, dbOk), t)
    ensures Agrees(t)
  {
    GetAgrees(s, id, readOk);
    if Lookup(s, id, readOk).Ok? && AllGood(updates) && dbOk {
      var found := Lookup(s, id, readOk).value;
      var order :| IsOrder(updates, order) && IsResult(found, updates, order, AfterGet(s, id, readOk), t);
      OrderUpdates(found, updates, order);
      UpsertAgrees(AfterGet(s, id, readOk), ApplyIn(found, updates, order).value);
    }
  }

  lemma UpsertAgrees(s: Store, session: Session)
    requires Agrees(s)
    ensures Agrees(Upsert(s, session))
  {
  }

  /** A reload that fails half-way after one session was added: the cache still says what the table no longer does. */
  lemma HalfFailedReloadBreaks(session: Session, now: int)
    requires Addable(session) && session.status != UNREACHABLE
    ensures var s := AfterAdd(Store(map[], map[]), session, now, true); var t := AfterLoad(s, true, false);
            && Agrees(s) && !Agrees(t) && session.sessionId in t.cache
            && t.cache[session.sessionId].status != UNREACHABLE && t.table[session.sessionId].status == UNREACHABLE
  {
    var s := AfterAdd(Store(map[], map[]), session, now, true);
    assert s.cache[session.sessionId].status != UNREACHABLE;
    LoadAgreesIff(s, true, false);
  }

  lemma {:induction false} RestoreAgrees(s: Store, nodeId: string, sessions: seq<Session>, now: int, dbOk: seq<bool>)
    requires Agrees(s) && |dbOk| == |sessions|
    ensures Agrees(AfterRestore(s, nodeId, sessions, now, dbOk))
    decreases |sessions|
  {
    if sessions != [] {
      var session := sessions[0].(nodeId := nodeId);
      if Addable(session) && dbOk[0] {
        RestoreAgrees(AfterAdd(s, session, now, true), nodeId, sessions[1..], now, dbOk[1..]);
      }
    }
  }

  lemma GetAgrees(s: Store, id: string, readOk: bool)
    requires Agrees(s)
    ensures Agrees(AfterGet(s, id, readOk))
    ensures Lookup(s, id, readOk).Ok? ==> Lookup(s, id, readOk).value.sessionId == id
  {
  }

  /** Over every run without such a reload, every cached session matches its row throughout. */
  lemma {:induction false} RunAgrees(states: seq<Store>, ops: seq<Op>)
    requires |states| == |ops| + 1 && Agrees(states[0])
    requires forall i :: 0 <= i < |ops| ==>
                           Next(states[i], ops[i], states[i + 1]) && !BreaksAgreement(states[i], ops[i])
    ensures forall i :: 0 <= i < |states| ==> Agrees(states[i])
  {
    if ops != [] {
      var k := |ops| - 1;
      RunAgrees(states[..k + 1], ops[..k]);
      assert states[..k + 1][k] == states[k];
      StepAgreesIff(states[k], ops[k], states[k + 1]);
      forall i | 0 <= i < |states|
        ensures Agrees(states[i])
      {
        assert i <= k ==> states[i] == states[..k + 1][i];
      }
    }
  }

  /** Reads through an agreeing cache are reads of the table: same persisted columns, and absent exactly together. */
  lemma ReadsRefineTable(s: Store, id: string)
    requires Agrees(s)
    ensures Lookup(s, id, true).Ok? ==> id in s.table && RowOf(Lookup(s, id, true).value) == s.table[id]
    ensures Lookup(s, id, true) == Err(NotFound) <==> id !in s.table
    ensures Lookup(s, id, true) == Err(Corrupt) <==> id in s.table && Decode(id, s.table[id]).None?
  {
  }

  /** After a reload the cache is exactly the readable rows, every one unreachable. */
  lemma ReloadSilencesAll(s: Store)
    ensures var t := AfterLoad(s, true, true);
            && t.cache.Keys == (set id | id in s.table && Decode(id, s.table[id]).Some?)
            && (forall id :: id in t.cache ==> t.cache[id].status == UNREACHABLE)
            && (forall id :: id in t.cache ==> t.table[id] == RowOf(t.cache[id])
                                               && t.table[id] == s.table[id].(status := UNREACHABLE))
  {
  }

  // ----- What the operations do to single entries

  /** A lost node's sessions become unreachable, cached or not, and keep everything else; no other entry changes. */
  lemma MarkSilencesNode(s: Store, nodeId: string, id: string)
    ensures AfterMarkUnreachable(s, nodeId, false) == s
    ensures var t := AfterMarkUnreachable(s, nodeId, true);
            && t.cache.Keys == s.cache.Keys && t.table.Keys == s.table.Keys
            && (id in s.cache ==> t.cache[id] == if s.cache[id].nodeId == nodeId
                                                 then s.cache[id].(status := "unreachable") else s.cache[id])
            && (id in s.table ==> t.table[id] == if s.table[id].nodeId == nodeId
                                                 then s.table[id].(status := "unreachable") else s.table[id])
  {
  }

  /** An added session is cached as given, with a missing start, activity or status filled in, and its row
      holds its persisted columns; nothing else changes. A rejected one changes nothing. */
  lemma AddStores(s: Store, session: Session, now: int, dbOk: bool)
    ensures var t, id := AfterAdd(s, session, now, dbOk), session.sessionId;
            if id == "" || session.nodeId == "" || session.project == "" || !dbOk then t == s
            else
              && id in t.cache && id in t.table
              && var c := t.cache[id];
                 && c.(startedAt := session.startedAt, lastActivity := session.lastActivity,
                       status := session.status) == session
                 && c.startedAt == (if session.startedAt == ZERO_TIME then now else session.startedAt)
                 && c.lastActivity == (if session.lastActivity == ZERO_TIME then now else session.lastActivity)
                 && c.status == (if session.status == "" then "running" else session.status)
                 && t.table[id] == Row(c.nodeId, c.project, c.status, c.tokenUsage.total, c.sessionCost,
                                       Some(c.startedAt))
                 && t.cache - {id} == s.cache - {id} && t.table - {id} == s.table - {id}
  {
  }

  /** A session that is read back from the row it was written to has its persisted columns; what only memory
      held is gone. */
  lemma RowReadsBack(session: Session)
    ensures Decode(session.sessionId, RowOf(session))
            == Some(session.(tokenUsage := TokenUsage(0, 0, session.tokenUsage.total), compactionCount := 0,
                             currentTask := "", lastActivity := ZERO_TIME, model := ""))
  {
  }

  /** Every session of a snapshot that was restored in full sits under the given node, cached and in
      the table; sessions the snapshot does not name keep their entries. */
  lemma {:induction false} RestorePutsUnderNode(
      s: Store, nodeId: string, sessions: seq<Session>, now: int, dbOk: seq<bool>, id: string)
    requires |dbOk| == |sessions|
    requires forall i :: 0 <= i < |sessions| ==> Addable(sessions[i].(nodeId := nodeId)) && dbOk[i]
    ensures var t := AfterRestore(s, nodeId, sessions, now, dbOk);
            if exists i :: 0 <= i < |sessions| && sessions[i].sessionId == id
            then id in t.cache && id in t.table && t.cache[id].nodeId == nodeId == t.table[id].nodeId
            else (id in t.cache <==> id in s.cache) && (id in s.cache ==> t.cache[id] == s.cache[id])
                 && (id in t.table <==> id in s.table) && (id in s.table ==> t.table[id] == s.table[id])
    decreases |sessions|
  {
    if sessions != [] {
      var session := sessions[0].(nodeId := nodeId);
      assert Addable(session);
      var t := AfterAdd(s, session, now, true);
      RestorePutsUnderNode(t, nodeId, sessions[1..], now, dbOk[1..], id);
      if i :| 0 <= i < |sessions| && sessions[i].sessionId == id && i > 0 {
        assert sessions[1..][i - 1].sessionId == id;
      }
    }
  }

  function EventFields(status: string, now: int): Updates {
    map[Status := Text(status), LastActivity := Time(now)]
  }

  lemma EventSets(found: Session, status: string, now: int, order: seq<Field>)
    requires IsOrder(EventFields(status, now), order)
    ensures AllGood(EventFields(status, now))
    ensures ApplyIn(found, EventFields(status, now), order) == Some(found.(status := status, lastActivity := now))
  {
    OrderUpdates(found, EventFields(status, now), order);
  }

  lemma UpsertOverGet(s: Store, id: string, readOk: bool, session: Session)
    requires Keyed(s) && Lookup(s, id, readOk).Ok? && session.sessionId == id
    ensures Upsert(AfterGet(s, id, readOk), session) == Upsert(s, session)
  {
  }

  /** Updating status and last activity writes these two fields through, in either order. */
  lemma EventUpdates(s: Store, id: string, status: string, now: int, readOk: bool, t: Store)
    requires Keyed(s) && Lookup(s, id, readOk).Ok?
    requires Next(s, Update(id, EventFields(status, now), readOk, true), t)
    ensures t == Upsert(s, Lookup(s, id, readOk).value.(status := status, lastActivity := now))
  {
    var u, found := EventFields(status, now), Lookup(s, id, readOk).value;
    assert AllGood(u);
    var order :| IsOrder(u, order) && IsResult(found, u, order, AfterGet(s, id, readOk), t);
    EventSets(found, status, now, order);
    UpsertOverGet(s, id, readOk, found.(status := status, lastActivity := now));
  }

  class SessionTracker {
    var sessions: map<string, Session>
    var table: map<string, Row>
    var recoveryErrors: nat

    ghost predicate Valid()
      reads this
    {
      Keyed(State())
    }

    ghost function State(): Store
      reads this
    {
      Store(sessions, table)
    }

    constructor (table: map<string, Row>)
      ensures Valid() && State() == Store(map[], table) && recoveryErrors == 0
    {
      sessions, this.table, recoveryErrors := map[], table, 0;
    }

    method UpsertSession(session: Session, dbOk: bool) returns (ok: bool)
      modifies this`table
      ensures ok == dbOk
      ensures table == if ok then old(table)[session.sessionId := RowOf(session)] else old(table)
    {
      if dbOk {
        table := table[session.sessionId := RowOf(session)];
      }
      return dbOk;
    }

    method AddSession(session: Session, now: int, dbOk: bool) returns (r: Result<(), Error>)
      requires Valid()
      modifies this`sessions, this`table
      ensures Valid()
      ensures State() == old(AfterAdd(State(), session, now, dbOk))
      ensures r.Ok? <==> session.sessionId != "" && session.nodeId != "" && session.project != "" && dbOk
    {
      if session.sessionId == "" || session.nodeId == "" || session.project == "" {
        return Err(Missing);
      }
      var completed := session;
      if completed.startedAt == ZERO_TIME {
        completed := completed.(startedAt := now);
      }
      if completed.lastActivity == ZERO_TIME {
        completed := completed.(lastActivity := now);
      }
      if completed.status == "" {
        completed := completed.(status := RUNNING);
      }
      var ok := UpsertSession(completed, dbOk);
      if !ok {
        return Err(Database);
      }
      sessions := sessions[completed.sessionId := completed];
      return Ok(());
    }

    method GetSession(id: string, readOk: bool) returns (r: Result<Session, Error>)
      requires Valid()
      modifies this`sessions
      ensures Valid()
      ensures r == old(Lookup(State(), id, readOk))
      ensures State() == old(AfterGet(State(), id, readOk))
    {
      if id in sessions {
        assert sessions[id := sessions[id]] == sessions;
        return Ok(sessions[id]);
      }
      if !readOk {
        return Err(Database);
      }
      if id !in table {
        return Err(NotFound);
      }
      match Decode(id, table[id])
      case None => return Err(Corrupt);
      case Some(session) =>
        sessions := sessions[session.sessionId := session];
        return Ok(session);
    }

    /** Applies the updates to a copy in map order, then writes the copy through. */
    method UpdateSession(id: string, updates: Updates, readOk: bool, dbOk: bool) returns (r: Result<(), Error>)
      requires Valid()
      modifies this`sessions, this`table
      ensures Valid()
      ensures Next(old(State()), Update(id, updates, readOk, dbOk), State())
      ensures r.Ok? <==> old(Lookup(State(), id, readOk)).Ok? && AllGood(updates) && dbOk
    {
      var found := GetSession(id, readOk);
      if found.Err? {
        return Err(found.error);
      }
      var applied, order := ApplyUpdates(found.value, updates);
      if applied.None? {
        return Err(BadUpdate);
      }
      var session := applied.value;
      var ok := UpsertSession(session, dbOk);
      if !ok {
        return Err(Database);
      }
      sessions := sessions[session.sessionId := session];
      return Ok(());
    }

    /** A session event sets the status it names and the time of the last activity. */
    method ApplyEvent(eventType: string, id: string, now: int, readOk: bool, dbOk: bool)
      returns (r: Result<(), Error>)
      requires Valid()
      modifies this`sessions, this`table
      ensures Valid()
      ensures eventType !in {"session.running", "session.idle", "session.error"} ==>
                r == Err(UnsupportedEvent) && State() == old(State())
      ensures r.Ok? ==>
                && old(Lookup(State(), id, readOk)).Ok?
                && var status := if eventType == "session.running" then "running"
                                 else if eventType == "session.idle" then "idle" else "error";
                   var session := old(Lookup(State(), id, readOk)).value.(status := status, lastActivity := now);
                   State() == Upsert(old(State()), session)
      ensures r.Err? ==> State() == old(State()) || State() == old(AfterGet(State(), id, readOk))
    {
      var status;
      if eventType == "session.running" {
        status := RUNNING;
      } else if eventType == "session.idle" {
        status := IDLE;
      } else if eventType == "session.error" {
        status := ERROR;
      } else {
        return Err(UnsupportedEvent);
      }
      r := UpdateSession(id, EventFields(status, now), readOk, dbOk);
      if r.Ok? {
        EventUpdates(old(State()), id, status, now, readOk, State());
      }
    }

    method GetSessionsByProject(project: string) returns (found: seq<Session>)
      ensures forall session :: session in found <==>
                session.project == project && exists id :: id in sessions && sessions[id] == session
    {
      found := [];
      var ids := sessions.Keys;
      while ids != {}
        invariant ids <= sessions.Keys
        invariant forall session :: session in found <==>
                    session.project == project && exists id :: id in sessions && id !in ids && sessions[id] == session
      {
        var id :| id in ids;
        ids := ids - {id};
        if sessions[id].project == project {
          found := found + [sessions[id]];
        }
      }
    }

    method MarkUnreachable(nodeId: string, dbOk: bool) returns (r: Result<(), Error>)
      requires Valid()
      modifies this`sessions, this`table
      ensures Valid()
      ensures State() == old(AfterMarkUnreachable(State(), nodeId, dbOk)) && r.Ok? == dbOk
    {
      if !dbOk {
        return Err(Database);
      }
      table := map id | id in table ::
        if table[id].nodeId == nodeId then table[id].(status := UNREACHABLE) else table[id];
      MarkCached(nodeId);
      return Ok(());
    }

    /** The loop over the cached sessions. */
    method MarkCached(nodeId: string)
      modifies this`sessions
      ensures sessions == map id | id in old(sessions) ::
                            if old(sessions)[id].nodeId == nodeId then old(sessions)[id].(status := UNREACHABLE)
                            else old(sessions)[id]
    {
      var ids := sessions.Keys;
      while ids != {}
        invariant ids <= old(sessions).Keys == sessions.Keys
        invariant forall id :: id in old(sessions) ==>
                    sessions[id] == if id !in ids && old(sessions)[id].nodeId == nodeId
                                    then old(sessions)[id].(status := UNREACHABLE) else old(sessions)[id]
      {
        var id :| id in ids;
        ids := ids - {id};
        if sessions[id].nodeId == nodeId {
          sessions := sessions[id := sessions[id].(status := UNREACHABLE)];
        }
      }
    }

    method LoadSessionsFromDB(updateOk: bool, read: Read) returns (r: Result<(), Error>)
      requires Valid()
      modifies this
      ensures Valid() && State() == old(AfterLoad(State(), updateOk, read.ReadsAll?))
      ensures r.Ok? == (updateOk && read.ReadsAll?)
      ensures recoveryErrors == old(recoveryErrors)
                                + if updateOk then |old(Unreadable(Delivered(table, read)))| else 0
    {
      if !updateOk {
        return Err(Database);
      }
      table := Silenced(table);
      if read.QueryFails? {
        return Err(Database);
      }
      var loaded, corrupt := ScanRows(Delivered(table, read));
      recoveryErrors := recoveryErrors + corrupt;
      assert Unreadable(Delivered(table, read)) == Unreadable(Delivered(old(table), read));
      if read.BreaksAfter? {
        return Err(Database);
      }
      sessions := loaded;
      return Ok(());
    }

    method RestoreFromSnapshot(nodeId: string, snapshot: seq<Session>, now: int, dbOk: seq<bool>)
      returns (r: Result<(), Error>)
      requires |dbOk| == |snapshot|
      requires Valid()
      modifies this`sessions, this`table
      ensures Valid()
      ensures State() == old(AfterRestore(State(), nodeId, snapshot, now, dbOk))
      ensures r.Ok? <==> forall i :: 0 <= i < |snapshot| ==> Addable(snapshot[i].(nodeId := nodeId)) && dbOk[i]
    {
      for i := 0 to |snapshot|
        invariant Valid()
        invariant AfterRestore(State(), nodeId, snapshot[i..], now, dbOk[i..])
                  == old(AfterRestore(State(), nodeId, snapshot, now, dbOk))
        invariant forall j :: 0 <= j < i ==> Addable(snapshot[j].(nodeId := nodeId)) && dbOk[j]
      {
        var session := snapshot[i].(nodeId := nodeId);
        assert snapshot[i..][0] == snapshot[i] && snapshot[i..][1..] == snapshot[i + 1..];
        assert dbOk[i..][0] == dbOk[i] && dbOk[i..][1..] == dbOk[i + 1..];
        if session.status == "" {
          session := session.(status := RUNNING);
        }
        r := AddSession(session, now, dbOk[i]);
        if r.Err? {
          return;
        }
      }
      return Ok(());
    }
  }

  /** The loop: it meets the keys in some order, any one, and stops at the first bad update. */
  method ApplyUpdates(before: Session, updates: Updates) returns (after: Option<Session>, ghost order: seq<Field>)
    ensures after.Some? <==> AllGood(updates)
    ensures after.Some? ==> Updated(before, after.value, updates)
    ensures IsOrder(updates, order) && after == ApplyIn(before, updates, order)
  {
    var session := before;
    var keys := updates.Keys;
    order := [];
    while keys != {}
      invariant keys <= updates.Keys
      invariant forall k :: k in order <==> k in updates && k !in keys
      invariant forall i, j :: 0 <= i < j < |order| ==> order[i] != order[j]
      invariant ApplyIn(before, updates, order) == Some(session)
    {
      var key :| key in keys;
      if BadField(key, updates[key]) {
        ghost var rest := SomeOrder(keys);
        JoinOrders(order, rest);
        order := order + rest;
        BadUpdateFails(before, updates, order);
        return None, order;
      }
      session := SetField(session, key, updates[key]);
      assert (order + [key])[..|order|] == order;
      order := order + [key];
      keys := keys - {key};
    }
    BadUpdateFails(before, updates, order);
    OrderUpdates(before, updates, order);
    return Some(session), order;
  }

  /** How reading the table goes: the query fails, the iteration breaks off after some rows, or all rows come. */
  datatype Read = QueryFails | BreaksAfter(ids: set<string>) | ReadsAll

  function Delivered(table: map<string, Row>, read: Read): map<string, Row> {
    match read
    case QueryFails => map[]
    case BreaksAfter(ids) => map id | id in table && id in ids :: table[id]
    case ReadsAll => table
  }

  ghost function Unreadable(table: map<string, Row>): set<string> {
    set id | id in table && Decode(id, table[id]).None?
  }

  lemma ScanOne(table: map<string, Row>, id: string, row: Row)
    requires id !in table
    ensures var more := table[id := row];
            && Loaded(more) == (if Decode(id, row).Some?
                                then Loaded(table)[id := Decode(id, row).value] else Loaded(table))
            && Unreadable(more) == (if Decode(id, row).Some? then Unreadable(table) else Unreadable(table) + {id})
  {
  }

  method ScanRows(table: map<string, Row>) returns (loaded: map<string, Session>, corrupt: nat)
    requires forall id :: id in table ==> table[id].status == UNREACHABLE
    ensures loaded == Loaded(table)
    ensures corrupt == |Unreadable(table)|
  {
    loaded, corrupt := map[], 0;
    var ids := table.Keys;
    ghost var scanned: map<string, Row> := map[];
    while ids != {}
      invariant ids <= table.Keys && scanned.Keys == table.Keys - ids
      invariant forall id :: id in scanned ==> scanned[id] == table[id]
      invariant loaded == Loaded(scanned) && corrupt == |Unreadable(scanned)|
    {
      var id :| id in ids;
      ids := ids - {id};
      ScanOne(scanned, id, table[id]);
      scanned := scanned[id := table[id]];
      match Decode(id, table[id]) {
        case None =>
          corrupt := corrupt + 1;
        case Some(session) =>
          loaded := loaded[id := session.(status := UNREACHABLE)];
      }
    }
    assert scanned == table;
  }
}
