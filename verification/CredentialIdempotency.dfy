/** The HTTP API's cache of credential-push results by idempotency key. */
module CredentialIdempotency {
  import opened Wrappers
  import opened BoundedWindow

  const MAX_ENTRIES: nat := 1000

  datatype CommandResult = CommandResult(
    commandId: string, status: string, output: string, error: string, timestamp: int)

  /** One call of the setter; an absent result stands for a nil pointer. */
  datatype Entry = Entry(key: string, result: Option<CommandResult>)

  predicate Stores(e: Entry) {
    e.key != "" && e.result.Some?
  }

  datatype Cache = Cache(results: map<string, CommandResult>, order: seq<string>)

  function AfterSet(c: Cache, e: Entry): Cache {
    if !Stores(e) then c
    else
      var order := Offer(c.order, e.key, MAX_ENTRIES);
      var kept := if e.key !in c.order && |c.order| + 1 > MAX_ENTRIES
                  then c.results - {(c.order + [e.key])[0]} else c.results;
      Cache(kept[e.key := e.result.value], order)
  }

  function AfterSets(entries: seq<Entry>): Cache {
    if entries == [] then Cache(map[], [])
    else AfterSet(AfterSets(entries[..|entries| - 1]), entries[|entries| - 1])
  }

  function Get(c: Cache, key: string): Option<CommandResult> {
    if key == "" || key !in c.results then None else Some(c.results[key])
  }

  ghost function StoredKeys(entries: seq<Entry>): seq<string> {
    if entries == [] then []
    else
      var e := entries[|entries| - 1];
      StoredKeys(entries[..|entries| - 1]) + (if Stores(e) then [e.key] else [])
  }

  /** The result most recently stored under a key, whether or not it was evicted since. */
  ghost function LastStored(entries: seq<Entry>, key: string): Option<CommandResult> {
    if entries == [] then None
    else
      var e := entries[|entries| - 1];
      if Stores(e) && e.key == key then e.result else LastStored(entries[..|entries| - 1], key)
  }

  ghost predicate Consistent(c: Cache) {
    && c.results.Keys == (set k | k in c.order)
    && NoRepeats(c.order) && |c.order| <= MAX_ENTRIES && "" !in c.order
  }

  lemma SetKeepsConsistent(c: Cache, e: Entry)
    requires Consistent(c)
    ensures Consistent(AfterSet(c, e))
    ensures Stores(e) ==> forall k :: k in AfterSet(c, e).order && k != e.key ==>
              k in c.results && AfterSet(c, e).results[k] == c.results[k]
    ensures forall k :: k in c.results && k !in AfterSet(c, e).results ==>
                          e.key !in c.results && |c.order| == MAX_ENTRIES && k == c.order[0]
  {
    if Stores(e) {
      OfferEvictsOldest(c.order, e.key, MAX_ENTRIES);
      var c' := AfterSet(c, e);
      if e.key !in c.order && |c.order| + 1 > MAX_ENTRIES {
        assert c.order == [c.order[0]] + c.order[1..];
        assert (c.order + [e.key])[1..] == c.order[1..] + [e.key];
      }
      assert c'.results.Keys == (set k | k in c'.order);
    }
  }

  /** Over every run of stores, a lookup answers with the last result stored under
      the key, exactly while the key is in the bounded window of stored keys. */
  lemma {:induction false} LookupIsLastStoreInWindow(entries: seq<Entry>, key: string)
    ensures Consistent(AfterSets(entries))
    ensures AfterSets(entries).order == Offers(StoredKeys(entries), MAX_ENTRIES)
    ensures Get(AfterSets(entries), key)
            == if key in Offers(StoredKeys(entries), MAX_ENTRIES) then LastStored(entries, key) else None
    ensures key in Offers(StoredKeys(entries), MAX_ENTRIES) ==> LastStored(entries, key).Some?
  {
    if entries != [] {
      var before, e := entries[..|entries| - 1], entries[|entries| - 1];
      LookupIsLastStoreInWindow(before, key);
      SetKeepsConsistent(AfterSets(before), e);
      var keys := StoredKeys(before);
      if Stores(e) {
        assert (keys + [e.key])[..|keys|] == keys;
        OfferEvictsOldest(AfterSets(before).order, e.key, MAX_ENTRIES);
      } else {
        assert keys + [] == keys;
      }
    }
  }

  lemma AfterSetsSnoc(entries: seq<Entry>, e: Entry)
    ensures AfterSets(entries + [e]) == AfterSet(AfterSets(entries), e)
  {
    assert (entries + [e])[..|entries|] == entries;
  }

  /** After any run a stored result is what the next lookup of its key answers; an empty key or an absent
      result stores nothing. */
  lemma StoredIsFound(entries: seq<Entry>, key: string, result: CommandResult)
    ensures key != "" ==> Get(AfterSets(entries + [Entry(key, Some(result))]), key) == Some(result)
    ensures AfterSets(entries + [Entry("", Some(result))]) == AfterSets(entries + [Entry(key, None)])
            == AfterSets(entries)
    ensures Get(AfterSets(entries), "") == None
  {
    AfterSetsSnoc(entries, Entry(key, Some(result)));
    AfterSetsSnoc(entries, Entry("", Some(result)));
    AfterSetsSnoc(entries, Entry(key, None));
  }

  /** The key lies in the order list with at most `n` keys after it. */
  ghost predicate NearEnd(order: seq<string>, key: string, n: nat) {
    exists i :: 0 <= i < |order| && order[i] == key && |order| - 1 - i <= n
  }

  lemma SetKeepsNear(c: Cache, e: Entry, key: string, n: nat)
    requires Consistent(c) && NearEnd(c.order, key, n) && n < 999 && e.key != key
    ensures NearEnd(AfterSet(c, e).order, key, n + 1)
    ensures key in c.results && key in AfterSet(c, e).results && AfterSet(c, e).results[key] == c.results[key]
  {
    var i :| 0 <= i < |c.order| && c.order[i] == key && |c.order| - 1 - i <= n;
    var t := AfterSet(c, e);
    if Stores(e) && e.key !in c.order {
      assert |c.order| + 1 <= 1000 ==> t.order[i] == key;
      assert |c.order| + 1 > 1000 ==> i > 0 && t.order[i - 1] == key;
    } else {
      assert t.order[i] == key;
    }
    SetKeepsConsistent(c, e);
  }

  /** A result stored under a new key is found for the next 999 stores under other keys, whatever they are. */
  lemma {:induction false} NewKeyIsKept(entries: seq<Entry>, key: string, result: CommandResult, later: seq<Entry>)
    requires key != "" && Get(AfterSets(entries), key).None?
    requires |later| <= 999 && forall e :: e in later ==> e.key != key
    ensures var c := AfterSets(entries + [Entry(key, Some(result))] + later);
            && Consistent(c) && NearEnd(c.order, key, |later|) && Get(c, key) == Some(result)
  {
    var stored := entries + [Entry(key, Some(result))];
    LookupIsLastStoreInWindow(entries, key);
    if later == [] {
      assert stored + later == stored;
      LookupIsLastStoreInWindow(stored, key);
      AfterSetsSnoc(entries, Entry(key, Some(result)));
      var order := AfterSets(stored).order;
      assert order[|order| - 1] == key;
    } else {
      var before, e := later[..|later| - 1], later[|later| - 1];
      NewKeyIsKept(entries, key, result, before);
      AfterSetsSnoc(stored + before, e);
      assert stored + later == stored + before + [e];
      SetKeepsNear(AfterSets(stored + before), e, key, |before|);
      LookupIsLastStoreInWindow(stored + later, key);
    }
  }

  /** The cache stores copies of results; the setter refuses nil, so no stored result is nil. */
  class IdempotencyCache {
    var results: map<string, CommandResult>
    var order: seq<string>

    ghost predicate Valid()
      reads this
    {
      Consistent(State())
    }

    ghost function State(): Cache
      reads this
    {
      Cache(results, order)
    }

    constructor ()
      ensures Valid() && State() == Cache(map[], [])
    {
      results, order := map[], [];
    }

    method CredentialPushIdempotencyGet(key: string) returns (r: Option<CommandResult>)
      requires Valid()
      ensures r == Get(State(), key)
    {
      if key == "" {
        return None;
      }
      if key !in results {
        return None;
      }
      return Some(results[key]);
    }

    method CredentialPushIdempotencySet(key: string, result: Option<CommandResult>)
      requires Valid()
      modifies this
      ensures Valid() && State() == old(AfterSet(State(), Entry(key, result)))
    {
      if key == "" || result.None? {
        return;
      }
      SetKeepsConsistent(State(), Entry(key, result));
      if key !in results {
        order := order + [key];
        if |order| > MAX_ENTRIES {
          var evicted := order[0];
          order := order[1..];
          results := results - {evicted};
        }
      }
      results := results[key := result.value];
    }
  }
}
