/** The caches let go of their lock between the database statement and the
    cache write. Two operations in two sections each, over any interleaving: which ones
    leave the cache out of step with the table. Holds of the session tracker and the node registry. */
module ConcurrentWrites {
  import opened Wrappers
  import T = SessionTracker
  import R = NodeRegistry

  datatype Store<E, D> = Store(cache: map<string, E>, table: map<string, D>)

  /** How a cache persists its entries. */
  datatype Codec<!E, !D> = Codec(rowOf: E -> D, decode: (string, D) -> Option<E>, matches: (E, D) -> bool)

  /** What was written reads back as a match, and so does what was read. */
  ghost predicate Sound<E(!new), D(!new)>(c: Codec<E, D>) {
    && (forall x :: c.matches(x, c.rowOf(x)))
    && (forall id, row :: c.decode(id, row).Some? ==> c.matches(c.decode(id, row).value, row))
  }

  /** A write-through writes its row, then its entry. A read-through reads a row, then caches what it read. */
  datatype Op<E> = Write(id: string, entry: E) | Fetch(id: string)

  /** Of two operations, `early` is the one whose statement comes first. What remains open is where its cache write
      falls: before the other's statement, between the other's two sections, or after both. */
  datatype Shape = OneAfterTheOther | WritesInOrder | WritesCrossed

  /** The first section: the table after it, and what the operation is about to cache. */
  function Statement<E, D>(c: Codec<E, D>, table: map<string, D>, op: Op<E>): (map<string, D>, Option<E>) {
    match op
    case Write(id, entry) => (table[id := c.rowOf(entry)], Some(entry))
    case Fetch(id) => (table, if id in table then c.decode(id, table[id]) else None)
  }

  /** The second section. */
  function CacheWrite<E>(cache: map<string, E>, op: Op<E>, held: Option<E>): map<string, E> {
    match held
    case None => cache
    case Some(entry) => cache[op.id := entry]
  }

  function Ran<E, D>(c: Codec<E, D>, s: Store<E, D>, shape: Shape, early: Op<E>, late: Op<E>): Store<E, D> {
    var (table1, held1) := Statement(c, s.table, early);
    var (table2, held2) := Statement(c, table1, late);
    Store(
      if shape.WritesCrossed? then CacheWrite(CacheWrite(s.cache, late, held2), early, held1)
      else CacheWrite(CacheWrite(s.cache, early, held1), late, held2),
      table2)
  }

  ghost predicate Agrees<E, D>(c: Codec<E, D>, s: Store<E, D>) {
    forall id :: id in s.cache ==> id in s.table && c.matches(s.cache[id], s.table[id])
  }

  /** The early operation leaves in the cache what no longer matches the row that the late one has written. */
  ghost predicate Overtaken<E, D>(c: Codec<E, D>, s: Store<E, D>, shape: Shape, early: Op<E>, late: Op<E>) {
    && shape.WritesCrossed? && early.id == late.id && late.Write?
    && var held := Statement(c, s.table, early).1;
       held.Some? && !c.matches(held.value, c.rowOf(late.entry))
  }

  /** From agreement, two operations end in agreement exactly unless one is overtaken. */
  lemma TwoOpsAgreeIff<E(!new), D(!new)>(c: Codec<E, D>, s: Store<E, D>, shape: Shape, early: Op<E>, late: Op<E>)
    requires Sound(c) && Agrees(c, s)
    ensures Agrees(c, Ran(c, s, shape, early, late)) <==> !Overtaken(c, s, shape, early, late)
  {
    var t := Ran(c, s, shape, early, late);
    if Overtaken(c, s, shape, early, late) {
      assert early.id in t.cache;
    } else {
      forall id | id in t.cache
        ensures id in t.table && c.matches(t.cache[id], t.table[id])
      {
        assert id in s.cache ==> id in s.table && c.matches(s.cache[id], s.table[id]);
      }
    }
  }

  // ----- The two caches

  const SESSIONS := Codec(T.RowOf, T.Decode, (x: T.Session, row: T.Row) => T.RowOf(x) == row)

  const NODES := Codec(R.RowOf, R.Decode, R.Matches)

  /** Two updates of one session leave the cache with the row that was overwritten exactly when their cache writes come
      in the other order than their statements and their rows differ. */
  lemma SessionWritesAgreeIff(s: T.Store, shape: Shape, x: T.Session, y: T.Session)
    requires T.Agrees(s)
    ensures var t := Ran(SESSIONS, Store(s.cache, s.table), shape, Write(x.sessionId, x), Write(y.sessionId, y));
            Agrees(SESSIONS, t)
            <==> !(shape.WritesCrossed? && x.sessionId == y.sessionId && T.RowOf(x) != T.RowOf(y))
  {
    TwoOpsAgreeIff(SESSIONS, Store(s.cache, s.table), shape, Write(x.sessionId, x), Write(y.sessionId, y));
  }

  /** Likewise for two writes of one node. */
  lemma NodeWritesAgreeIff(s: R.Store, shape: Shape, m: R.Node, n: R.Node)
    requires R.Agrees(s)
    ensures Agrees(NODES, Ran(NODES, Store(s.cache, s.table), shape, Write(m.id, m), Write(n.id, n)))
            <==> !(shape.WritesCrossed? && m.id == n.id && R.RowOf(m) != R.RowOf(n))
  {
    TwoOpsAgreeIff(NODES, Store(s.cache, s.table), shape, Write(m.id, m), Write(n.id, n));
  }

  /** A node that was read before a write and cached after it hides the write. */
  lemma StaleReadCached(s: R.Store, n: R.Node)
    requires R.Agrees(s) && n.id in s.table && R.Readable(s.table[n.id]) && !R.Matches(n, s.table[n.id])
    ensures !Agrees(NODES, Ran(NODES, Store(s.cache, s.table), WritesCrossed, Fetch(n.id), Write(n.id, n)))
  {
    TwoOpsAgreeIff(NODES, Store(s.cache, s.table), WritesCrossed, Fetch(n.id), Write(n.id, n));
  }
}
