/** The window of recently admitted identifiers that three caches of the system
    implement: the event dedup cache, the credential applier's command ids and
    the HTTP idempotency cache. A key already inside is a duplicate; any other
    key is admitted and, past the capacity, the oldest entry leaves. */
module BoundedWindow {

  function Admit<K>(window: seq<K>, key: K, cap: nat): seq<K> {
    if |window| + 1 > cap then (window + [key])[1..] else window + [key]
  }

  function Offer<K(==)>(window: seq<K>, key: K, cap: nat): seq<K> {
    if key in window then window else Admit(window, key, cap)
  }

  /** The window after a whole run of offered keys. */
  function Offers<K(==)>(keys: seq<K>, cap: nat): seq<K> {
    if keys == [] then [] else Offer(Offers(keys[..|keys| - 1], cap), keys[|keys| - 1], cap)
  }

  /** The keys of the run that were admitted, in order; a key may return after its eviction. */
  ghost function Admitted<K>(keys: seq<K>, cap: nat): seq<K> {
    if keys == [] then []
    else
      var before := Admitted(keys[..|keys| - 1], cap);
      var key := keys[|keys| - 1];
      if key in Offers(keys[..|keys| - 1], cap) then before else before + [key]
  }

  function LastN<K>(s: seq<K>, n: nat): seq<K> {
    if |s| <= n then s else s[|s| - n..]
  }

  ghost predicate NoRepeats<K>(s: seq<K>) {
    forall i, j :: 0 <= i < j < |s| ==> s[i] != s[j]
  }

  lemma AdmitExtendsHistory<K>(h: seq<K>, key: K, cap: nat)
    requires cap > 0
    requires NoRepeats(LastN(h, cap)) && key !in LastN(h, cap)
    ensures Admit(LastN(h, cap), key, cap) == LastN(h + [key], cap)
    ensures NoRepeats(LastN(h + [key], cap))
  {
    var w, w' := LastN(h, cap), LastN(h + [key], cap);
    if |h| < cap {
      assert w' == w + [key];
    } else {
      assert w' == w[1..] + [key];
      assert (w + [key])[1..] == w[1..] + [key];
    }
  }

  /** The window is exactly the last `cap` admissions, without repeats. */
  lemma {:induction false} WindowIsLastAdmissions<K>(keys: seq<K>, cap: nat)
    requires cap > 0
    ensures Offers(keys, cap) == LastN(Admitted(keys, cap), cap)
    ensures NoRepeats(Offers(keys, cap))
    ensures |Offers(keys, cap)| <= cap
  {
    if keys != [] {
      var before, key := keys[..|keys| - 1], keys[|keys| - 1];
      WindowIsLastAdmissions(before, cap);
      if key !in Offers(before, cap) {
        AdmitExtendsHistory(Admitted(before, cap), key, cap);
      }
    }
  }

  /** A key is reported as a duplicate exactly when it was admitted and fewer
      than `cap` keys were admitted after it. */
  lemma DuplicateIffRecent<K>(keys: seq<K>, cap: nat, key: K)
    requires cap > 0
    ensures key in Offers(keys, cap) <==>
            exists i :: 0 <= i < |Admitted(keys, cap)| && Admitted(keys, cap)[i] == key
                        && |Admitted(keys, cap)| - 1 - i < cap
  {
    WindowIsLastAdmissions(keys, cap);
    InLastN(Admitted(keys, cap), cap, key);
  }

  lemma InLastN<K>(h: seq<K>, n: nat, key: K)
    ensures key in LastN(h, n) <==> exists i :: 0 <= i < |h| && h[i] == key && |h| - 1 - i < n
  {
    var w := LastN(h, n);
    var gone := |h| - |w|;
    if key in w {
      var j :| 0 <= j < |w| && w[j] == key;
      assert h[gone + j] == key;
    }
    if i :| 0 <= i < |h| && h[i] == key && |h| - 1 - i < n {
      assert w[i - gone] == key;
    }
  }

  /** One offer admits at most one key, evicts at most the oldest, and keeps the window duplicate-free. */
  lemma OfferEvictsOldest<K>(window: seq<K>, key: K, cap: nat)
    requires cap > 0 && NoRepeats(window) && |window| <= cap
    ensures var w := Offer(window, key, cap);
            && NoRepeats(w) && |w| <= cap && key in w
            && (forall k :: k in w ==> k in window || k == key)
            && (forall k :: k in window && k !in w ==> key !in window && |window| == cap && k == window[0])
  {
    var w := Offer(window, key, cap);
    if key !in window {
      assert w[|w| - 1] == key;
      forall i | 0 <= i < |window| && (|window| < cap || i > 0)
        ensures window[i] in w
      {
        assert window[i] == w[if |window| < cap then i else i - 1];
      }
    }
  }
}
