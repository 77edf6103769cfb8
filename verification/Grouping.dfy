/** Sums of tokens and cost by key: what a combining loop and a GROUP BY both
    compute, and why group sums add up to the grand total. */
module Grouping {

  datatype Amount = Amount(tokens: int, cost: real)

  const NOTHING := Amount(0, 0.0)

  function Plus(a: Amount, b: Amount): Amount {
    Amount(a.tokens + b.tokens, a.cost + b.cost)
  }

  datatype Entry<+K> = Entry(key: K, amount: Amount)

  ghost function Sum<K>(entries: seq<Entry<K>>): Amount {
    if entries == [] then NOTHING
    else Plus(Sum(entries[..|entries| - 1]), entries[|entries| - 1].amount)
  }

  /** The sum of the entries whose key lies in a set. */
  ghost function SumIn<K>(entries: seq<Entry<K>>, keys: set<K>): Amount {
    if entries == [] then NOTHING
    else
      var rest := SumIn(entries[..|entries| - 1], keys);
      if entries[|entries| - 1].key in keys then Plus(rest, entries[|entries| - 1].amount) else rest
  }

  ghost predicate HasKey<K>(entries: seq<Entry<K>>, k: K) {
    exists i :: 0 <= i < |entries| && entries[i].key == k
  }

  /** Different keys, each with its exact sum. */
  ghost predicate AreGroups<K>(groups: seq<Entry<K>>, entries: seq<Entry<K>>) {
    && (forall i, j :: 0 <= i < j < |groups| ==> groups[i].key != groups[j].key)
    && (forall i :: 0 <= i < |groups| ==> groups[i].amount == SumIn(entries, {groups[i].key}))
  }

  /** One group per key that occurs, carrying exactly the sum of the entries with that key. */
  ghost predicate IsGrouping<K(!new)>(groups: seq<Entry<K>>, entries: seq<Entry<K>>) {
    AreGroups(groups, entries) && forall k :: HasKey(groups, k) <==> HasKey(entries, k)
  }

  ghost function KeysOf<K>(entries: seq<Entry<K>>): set<K> {
    if entries == [] then {} else KeysOf(entries[..|entries| - 1]) + {entries[|entries| - 1].key}
  }

  lemma {:induction false} KeysOfHas<K>(entries: seq<Entry<K>>, k: K)
    ensures k in KeysOf(entries) <==> HasKey(entries, k)
  {
    if entries != [] {
      var before := entries[..|entries| - 1];
      KeysOfHas(before, k);
      if HasKey(before, k) {
        var i :| 0 <= i < |before| && before[i].key == k;
        assert entries[i].key == k;
      }
      if HasKey(entries, k) {
        var i :| 0 <= i < |entries| && entries[i].key == k;
        assert i < |before| ==> before[i].key == k;
      }
    }
  }

  lemma {:induction false} SumInNone<K>(entries: seq<Entry<K>>)
    ensures SumIn(entries, {}) == NOTHING
  {
    if entries != [] {
      SumInNone(entries[..|entries| - 1]);
    }
  }

  lemma {:induction false} SumInAdd<K>(entries: seq<Entry<K>>, keys: set<K>, k: K)
    requires k !in keys
    ensures SumIn(entries, keys + {k}) == Plus(SumIn(entries, keys), SumIn(entries, {k}))
  {
    if entries != [] {
      SumInAdd(entries[..|entries| - 1], keys, k);
    }
  }

  lemma {:induction false} SumInAll<K>(entries: seq<Entry<K>>, keys: set<K>)
    requires forall i :: 0 <= i < |entries| ==> entries[i].key in keys
    ensures SumIn(entries, keys) == Sum(entries)
  {
    if entries != [] {
      SumInAll(entries[..|entries| - 1], keys);
    }
  }

  lemma LastGroup<K>(groups: seq<Entry<K>>, entries: seq<Entry<K>>)
    requires AreGroups(groups, entries) && groups != []
    ensures var (before, last) := (groups[..|groups| - 1], groups[|groups| - 1]);
            && AreGroups(before, entries)
            && last.key !in KeysOf(before) && last.amount == SumIn(entries, {last.key})
  {
    KeysOfHas(groups[..|groups| - 1], groups[|groups| - 1].key);
  }

  lemma {:induction false} GroupsCover<K>(groups: seq<Entry<K>>, entries: seq<Entry<K>>)
    requires AreGroups(groups, entries)
    ensures Sum(groups) == SumIn(entries, KeysOf(groups))
  {
    if groups == [] {
      SumInNone(entries);
    } else {
      var n := |groups| - 1;
      LastGroup(groups, entries);
      GroupsCover(groups[..n], entries);
      SumInAdd(entries, KeysOf(groups[..n]), groups[n].key);
    }
  }

  /** However entries are grouped, the group sums add up to the grand total. */
  lemma GroupsSumToTotal<K(!new)>(groups: seq<Entry<K>>, entries: seq<Entry<K>>)
    requires IsGrouping(groups, entries)
    ensures Sum(groups) == Sum(entries)
  {
    GroupsCover(groups, entries);
    forall i | 0 <= i < |entries|
      ensures entries[i].key in KeysOf(groups)
    {
      assert HasKey(entries, entries[i].key);
      KeysOfHas(groups, entries[i].key);
    }
    SumInAll(entries, KeysOf(groups));
  }

  ghost predicate DistinctKeys<K>(entries: seq<Entry<K>>) {
    forall i, j :: 0 <= i < j < |entries| ==> entries[i].key != entries[j].key
  }

  lemma {:induction false} SumInOnce<K>(entries: seq<Entry<K>>, i: nat)
    requires DistinctKeys(entries) && i < |entries|
    ensures SumIn(entries, {entries[i].key}) == entries[i].amount
    decreases |entries|
  {
    var before, k := entries[..|entries| - 1], entries[i].key;
    if i < |before| {
      SumInOnce(before, i);
    } else {
      KeysOfHas(before, k);
      SumInAbsent(before, k);
    }
  }

  /** Two lists of the same entries, each key once, in any orders, have one sum. */
  lemma ReorderedSum<K(!new)>(a: seq<Entry<K>>, b: seq<Entry<K>>)
    requires DistinctKeys(a) && DistinctKeys(b)
    requires forall e :: e in a <==> e in b
    ensures Sum(a) == Sum(b)
  {
    forall i | 0 <= i < |a|
      ensures a[i].amount == SumIn(b, {a[i].key})
    {
      assert a[i] in b;
      var j :| 0 <= j < |b| && b[j] == a[i];
      SumInOnce(b, j);
    }
    forall k
      ensures HasKey(a, k) <==> HasKey(b, k)
    {
      SameEntriesSameKeys(a, b, k);
      SameEntriesSameKeys(b, a, k);
    }
    GroupsSumToTotal(a, b);
  }

  lemma SameEntriesSameKeys<K>(a: seq<Entry<K>>, b: seq<Entry<K>>, k: K)
    requires forall e :: e in a ==> e in b
    ensures HasKey(a, k) ==> HasKey(b, k)
  {
    if HasKey(a, k) {
      var i :| 0 <= i < |a| && a[i].key == k;
      assert a[i] in b;
      var j :| 0 <= j < |b| && b[j] == a[i];
    }
  }

  /** A map from each key that occurs to the sum of its entries. */
  ghost predicate AreTotals<K>(totals: map<K, Amount>, entries: seq<Entry<K>>) {
    totals.Keys == KeysOf(entries) && forall k :: k in totals ==> totals[k] == SumIn(entries, {k})
  }

  /** One turn of a combining loop. */
  method AddTo<K(==)>(totals: map<K, Amount>, e: Entry<K>, ghost before: seq<Entry<K>>) returns (grown: map<K, Amount>)
    requires AreTotals(totals, before)
    ensures AreTotals(grown, before + [e])
  {
    var item := if e.key in totals then totals[e.key] else NOTHING;
    grown := totals[e.key := Plus(item, e.amount)];
    SumInAbsent(before, e.key);
    assert (before + [e])[..|before|] == before;
  }

  lemma {:induction false} SumInAbsent<K>(entries: seq<Entry<K>>, k: K)
    ensures k !in KeysOf(entries) ==> SumIn(entries, {k}) == NOTHING
  {
    if entries != [] {
      SumInAbsent(entries[..|entries| - 1], k);
    }
  }

  lemma OneMoreGroup<K>(groups: seq<Entry<K>>, entries: seq<Entry<K>>, g: Entry<K>)
    requires AreGroups(groups, entries) && g.key !in KeysOf(groups) && g.amount == SumIn(entries, {g.key})
    ensures AreGroups(groups + [g], entries) && KeysOf(groups + [g]) == KeysOf(groups) + {g.key}
  {
    KeysOfHas(groups, g.key);
    assert (groups + [g])[..|groups|] == groups;
  }

  lemma SameKeysGrouping<K(!new)>(groups: seq<Entry<K>>, entries: seq<Entry<K>>)
    requires AreGroups(groups, entries) && KeysOf(groups) == KeysOf(entries)
    ensures IsGrouping(groups, entries)
  {
    forall k
      ensures HasKey(groups, k) <==> HasKey(entries, k)
    {
      KeysOfHas(groups, k);
      KeysOfHas(entries, k);
    }
  }

  /** The map written out in some order. */
  method Listed<K(==, !new)>(totals: map<K, Amount>, ghost entries: seq<Entry<K>>) returns (groups: seq<Entry<K>>)
    requires AreTotals(totals, entries)
    ensures IsGrouping(groups, entries)
  {
    groups := [];
    var todo := totals.Keys;
    while todo != {}
      invariant todo <= totals.Keys && KeysOf(groups) == totals.Keys - todo
      invariant AreGroups(groups, entries)
      decreases todo
    {
      var k :| k in todo;
      OneMoreGroup(groups, entries, Entry(k, totals[k]));
      groups := groups + [Entry(k, totals[k])];
      todo := todo - {k};
    }
    SameKeysGrouping(groups, entries);
  }

  /** Tokens and costs add up separately, whatever way a list is cut. */
  lemma {:induction false} SumSplits<K>(a: seq<Entry<K>>, b: seq<Entry<K>>)
    ensures Sum(a + b).tokens == Sum(a).tokens + Sum(b).tokens
    ensures Sum(a + b).cost == Sum(a).cost + Sum(b).cost
    ensures |a| == 1 ==> Sum(a) == a[0].amount
  {
    if |a| == 1 {
      assert a[..0] == [];
    }
    if b == [] {
      assert a + b == a;
    } else {
      SumSplits(a, b[..|b| - 1]);
      assert (a + b)[..|a + b| - 1] == a + b[..|b| - 1];
    }
  }
}
