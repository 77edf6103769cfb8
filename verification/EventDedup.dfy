/** The supervisor's per-agent dedup cache: one bounded window of event ids for
    every agent, addressed by the text `agent:event`. The third-party LRU is
    trusted: it is only asked `Contains` and `Add` of absent keys, so it is the
    FIFO window of module BoundedWindow. */
module EventDedup {
  import opened Wrappers
  import opened BoundedWindow

  const DEDUP_CACHE_SIZE_PER_AGENT: nat := 1000

  type Windows = map<string, seq<string>>

  /** Splits at the first colon, as Go's `strings.Cut(s, ":")`. */
  function Cut(s: string): Option<(string, string)> {
    if s == "" then None
    else if s[0] == ':' then Some(("", s[1..]))
    else
      match Cut(s[1..])
      case None => None
      case Some((head, rest)) => Some(([s[0]] + head, rest))
  }

  function Key(agent: string, id: string): string {
    agent + ":" + id
  }

  function WindowAt(windows: Windows, agent: string): seq<string> {
    if agent in windows then windows[agent] else []
  }

  /** Whether the key is already in its window; keys without both parts are never recorded. */
  predicate IsDuplicate(windows: Windows, eventKey: string) {
    match Cut(eventKey)
    case None => false
    case Some((agent, id)) => agent != "" && id != "" && id in WindowAt(windows, agent)
  }

  function Recorded(windows: Windows, eventKey: string, cap: nat): Windows {
    match Cut(eventKey)
    case None => windows
    case Some((agent, id)) =>
      if agent == "" || id == "" then windows
      else windows[agent := Offer(WindowAt(windows, agent), id, cap)]
  }

  lemma {:induction false} CutAtFirstColon(head: string, rest: string)
    requires ':' !in head
    ensures Cut(head + ":" + rest) == Some((head, rest))
  {
    var s := head + ":" + rest;
    if head == "" {
      assert s[1..] == rest;
    } else {
      assert s[1..] == head[1..] + ":" + rest;
      CutAtFirstColon(head[1..], rest);
      assert [s[0]] + head[1..] == head;
    }
  }

  lemma {:induction false} CutRejoins(s: string)
    ensures Cut(s) == None <==> ':' !in s
    ensures Cut(s).Some? ==> s == Key(Cut(s).value.0, Cut(s).value.1) && ':' !in Cut(s).value.0
  {
    if s != "" {
      if s[0] == ':' {
        assert s == "" + ":" + s[1..];
      } else {
        CutRejoins(s[1..]);
        assert s == [s[0]] + s[1..];
      }
    }
  }

  /** Agent `b` is `a` followed by a colon and more text, so keys of `b` read as keys of `a`. */
  predicate Extends(b: string, a: string) {
    a + ":" <= b
  }

  /** Two agents share a key only when one's id extends the other's. */
  lemma SharedKeyMeansExtension(a: string, ia: string, b: string, ib: string)
    requires Key(a, ia) == Key(b, ib)
    ensures (a == b && ia == ib) || Extends(b, a) || Extends(a, b)
  {
    var ka, kb := Key(a, ia), Key(b, ib);
    assert ka[..|a|] == a && ka[|a|] == ':' && ka[|a| + 1..] == ia;
    assert kb[..|b|] == b && kb[|b|] == ':' && kb[|b| + 1..] == ib;
    if |a| < |b| {
      assert b[..|a|] == a && b[|a|] == ':';
    } else if |b| < |a| {
      assert a[..|b|] == b && a[|b|] == ':';
    }
  }

  class EventDedupCache {
    const cacheSize: nat
    var caches: Windows

    constructor (cacheSize: nat)
      requires cacheSize > 0
      ensures this.cacheSize == cacheSize && caches == map[]
    {
      this.cacheSize := cacheSize;
      caches := map[];
    }

    method Seen(eventKey: string) returns (duplicate: bool)
      modifies this
      ensures duplicate == old(IsDuplicate(caches, eventKey))
      ensures caches == old(Recorded(caches, eventKey, cacheSize))
    {
      var cut := Cut(eventKey);
      if cut.None? {
        return false;
      }
      var (agent, id) := cut.value;
      if agent == "" || id == "" {
        return false;
      }
      if agent !in caches {
        caches := caches[agent := []];
      }
      if id in caches[agent] {
        return true;
      }
      caches := caches[agent := Admit(caches[agent], id, cacheSize)];
      return false;
    }
  }

  /** A non-positive size is refused; the pipeline always asks for DEDUP_CACHE_SIZE_PER_AGENT. */
  method NewEventDedupCache(cacheSize: int) returns (cache: EventDedupCache?)
    ensures cache == null <==> cacheSize <= 0
    ensures cache != null ==> fresh(cache) && cache.cacheSize == cacheSize && cache.caches == map[]
  {
    if cacheSize <= 0 {
      return null;
    }
    cache := new EventDedupCache(cacheSize);
  }
}
