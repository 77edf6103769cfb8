/** DispatchCommand with an idempotency key: at most one delivery per key and
    payload within 24 hours. Instants are integers (nanoseconds). */
module IdempotentDispatch {
  import opened Wrappers
  import opened CommandDispatcher
  import EventDedup

  const DAY := 24 * 3600 * 1_000_000_000

  /** `kind` is the parsed intent and `payload` the canonical JSON, each absent when the source's
      parser or encoder rejects the command; `idIsUuid` says whether a given id parses. */
  datatype Command = Command(
    commandId: string, idIsUuid: bool, idempotencyKey: string, kind: Option<string>, payload: Option<string>)

  /** What reaching the target brings: no target, a transport error, or a result (a timeout is one too). */
  datatype Attempt = Unresolved(reason: string) | SendError(message: string) | Answered(result: CommandResult)

  /** One call: when the cache is checked, when the result is cached, a fresh id, what delivery would
      bring, and which storage calls fail. */
  datatype Call = Call(
    cmd: Command, start: int, end: int, freshId: string, attempt: Attempt,
    lookupFails: bool, purgeFails: bool, storeFails: bool)

  datatype Row = Row(result: CommandResult, expiresAt: int)

  /** `db` is None when the dispatcher has no database. Row keys stand for their SHA-256 digests. */
  type Db = Option<map<string, Row>>

  datatype Reply = Reply(db: Db, outcome: Result<CommandResult, string>, sends: nat)

  function Buffer(cmd: Command): string
    requires cmd.payload.Some?
  {
    cmd.idempotencyKey + ":" + cmd.payload.value
  }

  predicate WellFormed(cmd: Command) {
    cmd.kind.Some? && (cmd.commandId == "" || cmd.idIsUuid)
  }

  predicate Keyed(cmd: Command) {
    WellFormed(cmd) && cmd.idempotencyKey != "" && cmd.payload.Some?
  }

  function EffectiveId(c: Call): string {
    if c.cmd.commandId == "" then c.freshId else c.cmd.commandId
  }

  /** dispatchToTarget: an unresolved target is a failure result, not an error, and sends nothing. */
  function Deliver(c: Call): (r: (Result<CommandResult, string>, nat)) {
    match c.attempt
    case Unresolved(reason) => (Ok(CommandResult(EffectiveId(c), Failure, reason)), 0)
    case SendError(message) => (Err(message), 1)
    case Answered(result) => (Ok(if result.commandId == "" then result.(commandId := EffectiveId(c)) else result), 1)
  }

  class Dispatcher {
    var db: Db

    constructor (db: Db)
      ensures this.db == db
    {
      this.db := db;
    }

    method DispatchCommand(c: Call) returns (outcome: Result<CommandResult, string>, sends: nat)
      modifies this
      ensures Reply(db, outcome, sends) == Dispatched(old(db), c)
    {
      if c.cmd.kind.None? {
        return Err("unsupported command intent"), 0;
      }
      if c.cmd.commandId != "" && !c.cmd.idIsUuid {
        return Err("invalid command_id"), 0;
      }
      if c.cmd.idempotencyKey != "" {
        if c.cmd.payload.None? {
          return Err("build canonical command payload"), 0;
        }
        var key := Buffer(c.cmd);
        var cached := CheckIdempotency(key, c);
        if cached.Some? {
          return Ok(cached.value), 0;
        }
        var (result, sent) := Deliver(c);
        if result.Err? {
          return result, sent;
        }
        var stored := CacheResult(key, result.value, c);
        if stored.Err? {
          return Err(stored.error), sent;
        }
        return result, sent;
      }
      var (result, sent) := Deliver(c);
      return result, sent;
    }

    method CheckIdempotency(key: string, c: Call) returns (cached: Option<CommandResult>)
      modifies this
      ensures cached == Cached(old(db), key, c)
      ensures db == Purged(old(db), key, c)
    {
      if db.None? {
        return None;
      }
      if c.lookupFails || key !in db.value {
        return None;
      }
      var row := db.value[key];
      if c.start > row.expiresAt {
        if !c.purgeFails {
          db := Some(db.value - {key});
        }
        return None;
      }
      return Some(row.result);
    }

    method CacheResult(key: string, result: CommandResult, c: Call) returns (r: Result<(), string>)
      modifies this
      ensures r.Ok? <==> old(db).Some? && !c.storeFails
      ensures db == if r.Ok? then Some(old(db).value[key := Row(result, c.end + DAY)]) else old(db)
      ensures r.Err? ==> r.error == StoreError(old(db))
    {
      if db.None? {
        return Err("command idempotency storage unavailable");
      }
      var expiresAt := c.end + DAY;
      if c.storeFails {
        return Err("cache command result");
      }
      db := Some(db.value[key := Row(result, expiresAt)]);
      return Ok(());
    }
  }

  // ----- One call on values

  predicate Live(db: Db, key: string, c: Call) {
    db.Some? && !c.lookupFails && key in db.value && c.start <= db.value[key].expiresAt
  }

  function Cached(db: Db, key: string, c: Call): Option<CommandResult> {
    if Live(db, key, c) then Some(db.value[key].result) else None
  }

  function Purged(db: Db, key: string, c: Call): Db {
    if db.Some? && !c.lookupFails && key in db.value && !Live(db, key, c) && !c.purgeFails
    then Some(db.value - {key}) else db
  }

  function StoreError(db: Db): string {
    if db.None? then "command idempotency storage unavailable" else "cache command result"
  }

  function DispatchedKeyed(db: Db, key: string, c: Call): Reply {
    var (result, sent) := Deliver(c);
    if Live(db, key, c) then Reply(db, Ok(db.value[key].result), 0)
    else
      var db' := Purged(db, key, c);
      if result.Err? then Reply(db', result, sent)
      else if db.None? || c.storeFails then Reply(db', Err(StoreError(db)), sent)
      else Reply(Some(db'.value[key := Row(result.value, c.end + DAY)]), result, sent)
  }

  function Dispatched(db: Db, c: Call): Reply {
    if c.cmd.kind.None? then Reply(db, Err("unsupported command intent"), 0)
    else if !WellFormed(c.cmd) then Reply(db, Err("invalid command_id"), 0)
    else if c.cmd.idempotencyKey == "" then Reply(db, Deliver(c).0, Deliver(c).1)
    else if c.cmd.payload.None? then Reply(db, Err("build canonical command payload"), 0)
    else DispatchedKeyed(db, Buffer(c.cmd), c)
  }

  // ----- Sequential runs

  function After(calls: seq<Call>): Db {
    if calls == [] then Some(map[]) else Dispatched(After(calls[..|calls| - 1]), calls[|calls| - 1]).db
  }

  predicate HasKey(c: Call, key: string) {
    Keyed(c.cmd) && Buffer(c.cmd) == key
  }

  /** A call with this key that gets past the cache and returns a result. */
  ghost predicate Stores(db: Db, c: Call, key: string) {
    HasKey(c, key) && !Live(db, key, c) && Dispatched(db, c).outcome.Ok?
  }

  /** Calls follow one another on a forward clock, and the storage works; purging may fail. */
  ghost predicate Sequential(calls: seq<Call>) {
    && (forall i :: 0 <= i < |calls| ==>
                      calls[i].start <= calls[i].end && !calls[i].lookupFails && !calls[i].storeFails)
    && (forall i, j :: 0 <= i < j < |calls| ==> calls[i].end <= calls[j].start)
  }

  /** The result last stored under a key and the moment it was stored. */
  ghost function LastStored(calls: seq<Call>, key: string): Option<(CommandResult, int)> {
    if calls == [] then None
    else
      var before, c := calls[..|calls| - 1], calls[|calls| - 1];
      if Stores(After(before), c, key) then Some((Dispatched(After(before), c).outcome.value, c.end))
      else LastStored(before, key)
  }

  /** The table row of a key is its last stored result; it is missing only when nothing was
      stored or when the result has expired by now. */
  ghost predicate RowFits(table: map<string, Row>, key: string, last: Option<(CommandResult, int)>, now: int) {
    match last
    case None => key !in table
    case Some((result, at)) =>
      && at <= now
      && (key in table ==> table[key] == Row(result, at + DAY))
      && (key !in table ==> now > at + DAY)
  }

  ghost predicate RowIsLastStored(calls: seq<Call>, key: string)
    requires After(calls).Some?
  {
    && RowFits(After(calls).value, key, LastStored(calls, key), if calls == [] then 0 else calls[|calls| - 1].end)
    && (calls == [] ==> LastStored(calls, key).None?)
  }

  lemma CallKeepsRow(db: Db, key: string, last: Option<(CommandResult, int)>, now: int, c: Call)
    requires db.Some? && RowFits(db.value, key, last, now) && !c.lookupFails && !c.storeFails
    requires c.start <= c.end && (last.Some? ==> now <= c.start)
    ensures Dispatched(db, c).db.Some?
    ensures RowFits(Dispatched(db, c).db.value, key,
                    if Stores(db, c, key) then Some((Dispatched(db, c).outcome.value, c.end)) else last, c.end)
  {
  }

  lemma {:induction false} RunKeepsRow(calls: seq<Call>, key: string)
    requires Sequential(calls)
    ensures After(calls).Some? && RowIsLastStored(calls, key)
  {
    if calls != [] {
      var before, c := calls[..|calls| - 1], calls[|calls| - 1];
      SequentialTake(calls, |before|);
      RunKeepsRow(before, key);
      if before != [] {
        assert calls[|calls| - 2].end <= c.start;
      }
      var now := if before == [] then 0 else before[|before| - 1].end;
      CallKeepsRow(After(before), key, LastStored(before, key), now, c);
    }
  }

  /** The next call with this key: it is served from the cache, with no transport send, exactly when a result was
      stored under the key at most 24 hours before it starts; otherwise delivery decides. */
  lemma ServedFromCacheIff(calls: seq<Call>, c: Call, key: string)
    requires Sequential(calls + [c]) && HasKey(c, key)
    ensures var last := LastStored(calls, key); var reply := Dispatched(After(calls), c);
            if last.Some? && c.start <= last.value.1 + DAY
            then reply == Reply(After(calls), Ok(last.value.0), 0) && !Stores(After(calls), c, key)
            else
              && reply.outcome == Deliver(c).0 && reply.sends == Deliver(c).1
              && (Stores(After(calls), c, key) <==> Deliver(c).0.Ok?)
  {
    SequentialPrefix(calls, c);
    RunKeepsRow(calls, key);
    if calls != [] {
      var all := calls + [c];
      assert all[|calls| - 1].end <= all[|calls|].start;
    }
  }

  lemma SequentialPrefix(calls: seq<Call>, c: Call)
    requires Sequential(calls + [c])
    ensures Sequential(calls) && !c.lookupFails && !c.storeFails
  {
    var all := calls + [c];
    assert all[|calls|] == c;
    forall i | 0 <= i < |calls|
      ensures all[i] == calls[i]
    {
    }
  }

  lemma SequentialTake(calls: seq<Call>, n: nat)
    requires Sequential(calls) && n <= |calls|
    ensures Sequential(calls[..n])
  {
  }

  /** A result stored by the i-th call is still the last one, or a later one was stored over 24 hours after it. */
  lemma {:induction false} StoredStays(calls: seq<Call>, i: nat, key: string)
    requires Sequential(calls) && i < |calls| && Stores(After(calls[..i]), calls[i], key)
    ensures var first := Dispatched(After(calls[..i]), calls[i]).outcome.value;
            var last := LastStored(calls, key);
            last.Some? && (last.value == (first, calls[i].end) || last.value.1 > calls[i].end + DAY)
    decreases |calls|
  {
    var before, c := calls[..|calls| - 1], calls[|calls| - 1];
    assert calls == before + [c];
    if i < |calls| - 1 {
      assert before[..i] == calls[..i];
      SequentialTake(calls, |before|);
      StoredStays(before, i, key);
      if HasKey(c, key) {
        ServedFromCacheIff(before, c, key);
      }
    }
  }

  /** Two calls with the same key and canonical payload that both get past the cache and return a result are more
      than 24 hours apart, and every call in between within 24 hours returns the stored result and sends nothing. */
  lemma AtMostOnePerDay(calls: seq<Call>, i: nat, j: nat, key: string)
    requires Sequential(calls) && i < j < |calls| && HasKey(calls[j], key)
    requires Stores(After(calls[..i]), calls[i], key)
    ensures Stores(After(calls[..j]), calls[j], key) ==> calls[j].start > calls[i].end + DAY
    ensures calls[j].start <= calls[i].end + DAY ==>
              Dispatched(After(calls[..j]), calls[j])
              == Reply(After(calls[..j]), Dispatched(After(calls[..i]), calls[i]).outcome, 0)
  {
    var before := calls[..j];
    assert before[..i] == calls[..i] && before[i] == calls[i];
    SequentialTake(calls, j);
    StoredStays(before, i, key);
    assert before + [calls[j]] == calls[..j + 1];
    SequentialTake(calls, j + 1);
    ServedFromCacheIff(before, calls[j], key);
    if calls[j].start <= calls[i].end + DAY {
      assert LastStored(before, key).value.1 <= calls[j].start by {
        LastStoredBefore(calls, j, key);
      }
    }
  }

  /** What was stored before a call was stored by the time it starts. */
  lemma LastStoredBefore(calls: seq<Call>, j: nat, key: string)
    requires Sequential(calls) && 0 < j < |calls|
    ensures LastStored(calls[..j], key).Some? ==> LastStored(calls[..j], key).value.1 <= calls[j].start
  {
    SequentialTake(calls, j);
    RunKeepsRow(calls[..j], key);
    assert calls[..j][j - 1].end <= calls[j].start;
  }

  // ----- What each attempt brings

  const DAY_IN_NANOSECONDS := 86_400_000_000_000

  /** The id under which a result is returned: the command's own, or a fresh one. */
  ghost predicate IsIdOf(c: Call, id: string) {
    (c.cmd.commandId != "" ==> id == c.cmd.commandId) && (c.cmd.commandId == "" ==> id == c.freshId)
  }

  /** A keyed call that is not served from the cache: a send error is returned and nothing is stored; an unresolved
      target sends nothing and yields a failure that is stored; an answer is returned and stored, under the
      command's id when it carries none. What is stored expires after 24 hours. */
  lemma AttemptDecides(db: Db, c: Call, key: string)
    requires db.Some? && HasKey(c, key) && !Live(db, key, c) && !c.storeFails
    ensures Dispatched(db, c).db.Some?
    ensures var r := Dispatched(db, c);
            match c.attempt
            case SendError(message) =>
              && r.outcome == Err(message) && r.sends == 1 && !Stores(db, c, key)
              && (key in r.db.value ==> key in db.value && r.db.value[key] == db.value[key])
            case Unresolved(reason) =>
              && r.outcome.Ok? && r.sends == 0 && Stores(db, c, key)
              && r.outcome.value.status == Failure && r.outcome.value.output == reason
              && IsIdOf(c, r.outcome.value.commandId)
              && key in r.db.value && r.db.value[key] == Row(r.outcome.value, c.end + DAY_IN_NANOSECONDS)
            case Answered(result) =>
              && r.outcome.Ok? && r.sends == 1 && Stores(db, c, key)
              && r.outcome.value.status == result.status && r.outcome.value.output == result.output
              && (if result.commandId != "" then r.outcome.value.commandId == result.commandId
                  else IsIdOf(c, r.outcome.value.commandId))
              && key in r.db.value && r.db.value[key] == Row(r.outcome.value, c.end + DAY_IN_NANOSECONDS)
    ensures forall k :: k != key ==>
              var r := Dispatched(db, c); k in r.db.value <==> k in db.value
    ensures forall k :: k != key && k in db.value ==> Dispatched(db, c).db.value[k] == db.value[k]
  {
  }

  /** An expired row that is found is deleted, unless the delete fails; then only a stored result replaces it. */
  lemma ExpiredIsPurged(db: Db, c: Call, key: string)
    requires db.Some? && HasKey(c, key) && !c.lookupFails
    requires key in db.value && db.value[key].expiresAt < c.start && c.attempt.SendError?
    ensures Dispatched(db, c).db.Some?
    ensures key in Dispatched(db, c).db.value <==> c.purgeFails
    ensures c.purgeFails ==> Dispatched(db, c).db == db
  {
  }

  /** With broken storage: an answered command has been sent although its call fails, without storage at all or when
      the result cannot be stored; a failing lookup counts as a miss, so the command is sent again. */
  lemma BrokenStorage(db: Db, c: Call, key: string)
    requires HasKey(c, key) && c.attempt.Answered?
    ensures var r := Dispatched(db, c);
            && (db.None? ==> r.outcome.Err? && r.sends == 1 && r.db == None)
            && (db.Some? && c.storeFails && !Live(db, key, c) ==>
                  r.outcome.Err? && r.sends == 1 && (r.db == db || r.db == Some(db.value - {key})))
            && (db.Some? && c.lookupFails && !c.storeFails ==>
                  r.outcome.Ok? && r.sends == 1 && r.db == Some(db.value[key := Row(r.outcome.value, c.end + DAY)]))
  {
  }

  lemma LastStoredSnoc(calls: seq<Call>, c: Call, key: string)
    ensures After(calls + [c]) == Dispatched(After(calls), c).db
    ensures !Stores(After(calls), c, key) ==> LastStored(calls + [c], key) == LastStored(calls, key)
  {
    assert (calls + [c])[..|calls|] == calls;
  }

  /** After a call whose send failed, the next call with the same key and payload is not served from the cache:
      its own attempt decides. */
  lemma FailedSendIsRetried(calls: seq<Call>, c: Call, next: Call, key: string)
    requires Sequential(calls + [c] + [next]) && HasKey(c, key) && HasKey(next, key)
    requires !Live(After(calls), key, c) && c.attempt.SendError?
    ensures Dispatched(After(calls), c).outcome == Err(c.attempt.message)
    ensures !Live(After(calls + [c]), key, next)
    ensures next.attempt.SendError? || next.attempt.Answered? ==> Dispatched(After(calls + [c]), next).sends == 1
    ensures next.attempt.Answered? ==> Dispatched(After(calls + [c]), next).outcome.Ok?
  {
    var all := calls + [c];
    assert (all + [next])[..|all|] == all && all[..|calls|] == calls && all[|calls|] == c;
    assert (all + [next])[|all|] == next && (all + [next])[|calls|] == c;
    SequentialPrefix(all, next);
    SequentialPrefix(calls, c);
    RunKeepsRow(calls, key);
    AttemptDecides(After(calls), c, key);
    LastStoredSnoc(calls, c, key);
    AttemptDecides(After(all), next, key);
  }

  /** Rejected commands send nothing and touch nothing; a call without a key never touches the table. */
  lemma RejectedOrUnkeyed(db: Db, c: Call)
    ensures c.cmd.kind.None? || (c.cmd.commandId != "" && !c.cmd.idIsUuid) ==>
              Dispatched(db, c).outcome.Err? && Dispatched(db, c).sends == 0 && Dispatched(db, c).db == db
    ensures c.cmd.idempotencyKey == "" ==> Dispatched(db, c).db == db
    ensures c.cmd.idempotencyKey != "" && c.cmd.payload.None? ==>
              Dispatched(db, c).outcome.Err? && Dispatched(db, c).sends == 0 && Dispatched(db, c).db == db
    ensures c.cmd.kind.Some? && (c.cmd.commandId == "" || c.cmd.idIsUuid) && c.cmd.idempotencyKey == "" ==>
              (Dispatched(db, c).outcome.Err? <==> c.attempt.SendError?)
              && Dispatched(db, c).sends == (if c.attempt.Unresolved? then 0 else 1)
  {
  }

  /** One idempotency key with two different payloads makes two different row keys. */
  lemma PayloadTellsApart(a: Command, b: Command)
    requires a.payload.Some? && b.payload.Some? && a.idempotencyKey == b.idempotencyKey && Buffer(a) == Buffer(b)
    ensures a.payload == b.payload
  {
    var n := |a.idempotencyKey| + 1;
    assert Buffer(a)[n..] == a.payload.value && Buffer(b)[n..] == b.payload.value;
  }

  /** Keys without a colon make different row keys, whatever the payloads. */
  lemma KeyTellsApart(a: Command, b: Command)
    requires a.payload.Some? && b.payload.Some? && Buffer(a) == Buffer(b)
    requires ':' !in a.idempotencyKey && ':' !in b.idempotencyKey
    ensures a.idempotencyKey == b.idempotencyKey && a.payload == b.payload
  {
    EventDedup.CutAtFirstColon(a.idempotencyKey, a.payload.value);
    EventDedup.CutAtFirstColon(b.idempotencyKey, b.payload.value);
  }
}
