/** Daily cost buckets in the database, and the reports computed from them. */
module Cost {
  import opened Wrappers
  import opened Grouping
  import opened Dates
  import Decimal

  datatype UsageRow = UsageRow(provider: string, model: string, date: string, tokens: int, cost: real)

  datatype CostRow = CostRow(provider: string, model: string, date: string, amount: Amount)

  type CostTable = map<string, CostRow>

  /** What is missing in a row is filled in: today's date, an unknown model. */
  function Fill(row: UsageRow, today: string): UsageRow {
    row.(date := if row.date == "" then today else row.date,
         model := if row.model == "" then "unknown" else row.model)
  }

  function BucketKey(provider: string, model: string, date: string): string {
    provider + "|" + model + "|" + date
  }

  function KeyOf(row: UsageRow): string {
    BucketKey(row.provider, row.model, row.date)
  }

  function FirstBar(s: string): nat {
    if s == "" || s[0] == '|' then 0 else 1 + FirstBar(s[1..])
  }

  function AfterLastBar(s: string): nat {
    if s == "" || s[|s| - 1] == '|' then 0 else 1 + AfterLastBar(s[..|s| - 1])
  }

  lemma {:induction false} FirstBarAt(a: string, rest: string)
    requires '|' !in a
    ensures FirstBar(a + "|" + rest) == |a|
  {
    if a != "" {
      FirstBarAt(a[1..], rest);
      assert (a + "|" + rest)[1..] == a[1..] + "|" + rest;
    }
  }

  lemma {:induction false} LastBarAt(start: string, a: string)
    requires '|' !in a
    ensures AfterLastBar(start + "|" + a) == |a|
  {
    if a != "" {
      LastBarAt(start, a[..|a| - 1]);
      var s := start + "|" + a;
      assert s[..|s| - 1] == start + "|" + a[..|a| - 1];
    }
  }

  lemma SplitAtFirst(a: string, a': string, b: string, b': string)
    requires '|' !in a && '|' !in b && a + "|" + a' == b + "|" + b'
    ensures a == b && a' == b'
  {
    FirstBarAt(a, a');
    FirstBarAt(b, b');
    SplitAt(a, a', b, b');
  }

  lemma SplitAtLast(a: string, a': string, b: string, b': string)
    requires '|' !in a' && '|' !in b' && a + "|" + a' == b + "|" + b'
    ensures a == b && a' == b'
  {
    LastBarAt(a, a');
    LastBarAt(b, b');
    assert |a + "|" + a'| == |b + "|" + b'|;
    SplitAt(a, a', b, b');
  }

  lemma SplitAt(a: string, a': string, b: string, b': string)
    requires |a| == |b| && a + "|" + a' == b + "|" + b'
    ensures a == b && a' == b'
  {
    var s, t := a + "|" + a', b + "|" + b';
    assert a == s[..|a|] && b == t[..|b|];
    assert a' == s[|a| + 1..] && b' == t[|b| + 1..];
  }

  /** The key names one bucket, even when model names contain the separator: a provider never does, nor does a date
      in the form that normalisation yields. */
  lemma KeyInjective(p: string, m: string, d: string, p': string, m': string, d': string)
    requires '|' !in p && '|' !in p' && IsPlain(d) && IsPlain(d')
    requires BucketKey(p, m, d) == BucketKey(p', m', d')
    ensures p == p' && m == m' && d == d'
  {
    SplitAtLast(p + "|" + m, d, p' + "|" + m', d');
    SplitAtFirst(p, m, p', m');
  }

  // ----- Persisting

  function EntryOf(row: UsageRow): Entry<string> {
    Entry(KeyOf(row), Amount(row.tokens, row.cost))
  }

  ghost function Entries(rows: seq<UsageRow>): seq<Entry<string>> {
    if rows == [] then [] else Entries(rows[..|rows| - 1]) + [EntryOf(rows[|rows| - 1])]
  }

  /** Every row as it is bucketed; `today` gives the date at the moment the row is looked at. */
  ghost function Filled(rows: seq<UsageRow>, today: nat -> string): seq<UsageRow> {
    if rows == [] then []
    else Filled(rows[..|rows| - 1], today) + [Fill(rows[|rows| - 1], today(|rows| - 1))]
  }

  /** Every row is bucketed as it came, save that an undated one counts on the day it is looked at and one without a
      model under "unknown". */
  lemma {:induction false} FilledKeepsRows(rows: seq<UsageRow>, today: nat -> string)
    ensures |Filled(rows, today)| == |rows|
    ensures forall i :: 0 <= i < |rows| ==>
              Filled(rows, today)[i]
              == UsageRow(rows[i].provider, if rows[i].model != "" then rows[i].model else "unknown",
                          if rows[i].date != "" then rows[i].date else today(i), rows[i].tokens, rows[i].cost)
  {
    if rows != [] {
      FilledKeepsRows(rows[..|rows| - 1], today);
    }
  }

  /** The last row with this key labels the bucket. */
  ghost predicate IsLabelled(b: CostRow, rows: seq<UsageRow>, key: string) {
    rows != [] &&
    var r := rows[|rows| - 1];
    if KeyOf(r) == key then b.provider == r.provider && b.model == r.model && b.date == r.date
    else IsLabelled(b, rows[..|rows| - 1], key)
  }

  /** The bucket of a key holds the exact sums of its rows. */
  ghost predicate IsBucket(b: CostRow, rows: seq<UsageRow>, key: string) {
    IsLabelled(b, rows, key) && b.amount == SumIn(Entries(rows), {key})
  }

  /** All buckets of these rows written over the table, nothing else touched. */
  ghost predicate IsUpserted(after: CostTable, before: CostTable, rows: seq<UsageRow>) {
    && after.Keys == before.Keys + KeysOf(Entries(rows))
    && (forall k :: k in KeysOf(Entries(rows)) ==> IsBucket(after[k], rows, k))
    && (forall k :: k in before && k !in KeysOf(Entries(rows)) ==> after[k] == before[k])
  }

  class CostAggregator {
    var db: Option<CostTable>

    constructor (db: Option<CostTable>)
      ensures this.db == db
    {
      this.db := db;
    }

    /** One transaction: on any failure the table is as it was. */
    method PersistDailyBuckets(rows: seq<UsageRow>, today: nat -> string, beginFails: bool,
                               execFails: string -> bool, commitFails: bool) returns (r: Result<(), string>)
      modifies this
      ensures db.None? <==> old(db).None?
      ensures old(db).None? || rows == [] ==> r.Ok? && db == old(db)
      ensures r.Err? ==> db == old(db)
      ensures r.Err? <==>
                && old(db).Some? && rows != []
                && (beginFails || commitFails
                    || exists k :: k in KeysOf(Entries(Filled(rows, today))) && execFails(k))
      ensures r.Ok? && old(db).Some? ==> IsUpserted(db.value, old(db).value, Filled(rows, today))
    {
      if db.None? || rows == [] {
        return Ok(());
      }
      var combined := CombineRows(rows, today);
      if beginFails {
        return Err("begin costs transaction");
      }
      var tx := db.value;
      var todo := combined.Keys;
      while todo != {}
        invariant todo <= combined.Keys && db == old(db)
        invariant tx.Keys == db.value.Keys + (combined.Keys - todo)
        invariant forall k :: k in combined.Keys - todo ==> tx[k] == combined[k] && !execFails(k)
        invariant forall k :: k in db.value && k !in combined.Keys ==> tx[k] == db.value[k]
        decreases todo
      {
        var k :| k in todo;
        var row := combined[k];
        var id := BucketKey(row.provider, row.model, row.date);
        if execFails(id) {
          return Err("upsert cost row");
        }
        tx := tx[id := row];
        todo := todo - {k};
      }
      if commitFails {
        return Err("commit costs transaction");
      }
      db := Some(tx);
      return Ok(());
    }

    /** The combining loop. */
    method CombineRows(rows: seq<UsageRow>, today: nat -> string) returns (combined: map<string, CostRow>)
      ensures AreBuckets(combined, Filled(rows, today))
      ensures forall k :: k in combined ==> BucketKey(combined[k].provider, combined[k].model, combined[k].date) == k
    {
      combined := map[];
      for n := 0 to |rows|
        invariant AreBuckets(combined, Filled(rows[..n], today))
      {
        var row := rows[n];
        if row.date == "" {
          row := row.(date := today(n));
        }
        if row.model == "" {
          row := row.(model := "unknown");
        }
        assert row == Fill(rows[n], today(n));
        FilledGrow(rows, n, today);
        combined := AddRow(combined, row, Filled(rows[..n], today));
      }
      assert rows[..|rows|] == rows;
      forall k | k in combined
        ensures BucketKey(combined[k].provider, combined[k].model, combined[k].date) == k
      {
        LabelHasKey(combined[k], Filled(rows, today), k);
      }
    }

    method AddRow(combined: map<string, CostRow>, row: UsageRow, ghost before: seq<UsageRow>)
      returns (grown: map<string, CostRow>)
      requires AreBuckets(combined, before)
      ensures AreBuckets(grown, before + [row])
    {
      var key := row.provider + "|" + row.model + "|" + row.date;
      var current := if key in combined then combined[key].amount else NOTHING;
      BucketsGrow(before, row, combined, current);
      grown := combined[key := CostRow(row.provider, row.model, row.date, Plus(current, Amount(row.tokens, row.cost)))];
    }
  }

  lemma FilledGrow(rows: seq<UsageRow>, n: nat, today: nat -> string)
    requires n < |rows|
    ensures Filled(rows[..n + 1], today) == Filled(rows[..n], today) + [Fill(rows[n], today(n))]
  {
    assert rows[..n + 1][..n] == rows[..n];
  }

  lemma {:induction false} LabelHasKey(b: CostRow, rows: seq<UsageRow>, key: string)
    requires IsLabelled(b, rows, key)
    ensures BucketKey(b.provider, b.model, b.date) == key
  {
    if KeyOf(rows[|rows| - 1]) != key {
      LabelHasKey(b, rows[..|rows| - 1], key);
    }
  }

  ghost predicate AreBuckets(combined: map<string, CostRow>, rows: seq<UsageRow>) {
    && combined.Keys == KeysOf(Entries(rows))
    && (forall k :: k in combined ==> IsBucket(combined[k], rows, k))
  }

  /** One more row: its bucket takes its amount and label, the others stay buckets. */
  lemma BucketsGrow(rows: seq<UsageRow>, r: UsageRow, combined: map<string, CostRow>, current: Amount)
    requires AreBuckets(combined, rows)
    requires current == if KeyOf(r) in combined then combined[KeyOf(r)].amount else NOTHING
    ensures AreBuckets(
              combined[KeyOf(r) := CostRow(r.provider, r.model, r.date, Plus(current, Amount(r.tokens, r.cost)))],
              rows + [r])
  {
    var key := KeyOf(r);
    var grown := combined[key := CostRow(r.provider, r.model, r.date, Plus(current, Amount(r.tokens, r.cost)))];
    EntriesGrow(rows, r);
    SumInAbsent(Entries(rows), key);
    forall k | k in grown
      ensures IsBucket(grown[k], rows + [r], k)
    {
      assert (rows + [r])[..|rows|] == rows;
      assert k != key ==> IsBucket(combined[k], rows, k);
    }
  }

  lemma EntriesGrow(rows: seq<UsageRow>, r: UsageRow)
    ensures Entries(rows + [r]) == Entries(rows) + [EntryOf(r)]
    ensures KeysOf(Entries(rows + [r])) == KeysOf(Entries(rows)) + {KeyOf(r)}
    ensures forall k :: SumIn(Entries(rows + [r]), {k})
                        == if k == KeyOf(r) then Plus(SumIn(Entries(rows), {k}), Amount(r.tokens, r.cost))
                           else SumIn(Entries(rows), {k})
  {
    assert (rows + [r])[..|rows|] == rows;
    assert (Entries(rows) + [EntryOf(r)])[..|Entries(rows)|] == Entries(rows);
  }

  // ----- What an upsert means

  lemma {:induction false} LabelDetermined(b: CostRow, b': CostRow, rows: seq<UsageRow>, k: string)
    requires IsLabelled(b, rows, k) && IsLabelled(b', rows, k) && b.amount == b'.amount
    ensures b == b'
  {
    if KeyOf(rows[|rows| - 1]) != k {
      LabelDetermined(b, b', rows[..|rows| - 1], k);
    }
  }

  /** The upsert determines the whole table. */
  lemma UpsertDetermined(after: CostTable, after': CostTable, before: CostTable, rows: seq<UsageRow>)
    requires IsUpserted(after, before, rows) && IsUpserted(after', before, rows)
    ensures after == after'
  {
    forall k | k in after
      ensures after[k] == after'[k]
    {
      if k in KeysOf(Entries(rows)) {
        LabelDetermined(after[k], after'[k], rows, k);
      }
    }
  }

  lemma {:induction false} DatedFillsAlike(rows: seq<UsageRow>, today: nat -> string, later: nat -> string)
    requires forall r :: r in rows ==> r.date != ""
    ensures Filled(rows, today) == Filled(rows, later)
  {
    if rows != [] {
      DatedFillsAlike(rows[..|rows| - 1], today, later);
    }
  }

  /** Persisting the same dated rows again, on whatever later day, changes nothing. */
  lemma PersistAgainIsNoop(before: CostTable, once: CostTable, twice: CostTable, rows: seq<UsageRow>,
                           today: nat -> string, later: nat -> string)
    requires forall r :: r in rows ==> r.date != ""
    requires IsUpserted(once, before, Filled(rows, today)) && IsUpserted(twice, once, Filled(rows, later))
    ensures twice == once
  {
    DatedFillsAlike(rows, today, later);
    UpsertDetermined(twice, once, once, Filled(rows, today));
  }

  /** Rows as a usage parser yields them: a provider without the separator and a normalised date. */
  ghost predicate Parsed(rows: seq<UsageRow>) {
    forall r :: r in rows ==> '|' !in r.provider && IsPlain(r.date)
  }

  /** The rows of one provider, model and date. */
  ghost function SumOfDay(rows: seq<UsageRow>, provider: string, model: string, date: string): Amount {
    if rows == [] then NOTHING
    else
      var r := rows[|rows| - 1];
      var rest := SumOfDay(rows[..|rows| - 1], provider, model, date);
      if r.provider == provider && r.model == model && r.date == date
      then Plus(rest, Amount(r.tokens, r.cost)) else rest
  }

  /** With parsed rows, the row written for a provider, model and date bears their names and holds exactly the sum of
      the rows that have all three: no two of them share a bucket. */
  lemma {:induction false} BucketPerDay(b: CostRow, rows: seq<UsageRow>, provider: string, model: string, date: string)
    requires Parsed(rows) && '|' !in provider && IsPlain(date)
    requires IsBucket(b, rows, BucketKey(provider, model, date))
    ensures b == CostRow(provider, model, date, SumOfDay(rows, provider, model, date))
  {
    SumPerDay(rows, provider, model, date);
    LabelPerDay(b, rows, provider, model, date);
  }

  lemma {:induction false} SumPerDay(rows: seq<UsageRow>, provider: string, model: string, date: string)
    requires Parsed(rows) && '|' !in provider && IsPlain(date)
    ensures SumIn(Entries(rows), {BucketKey(provider, model, date)}) == SumOfDay(rows, provider, model, date)
  {
    if rows != [] {
      var before, r := rows[..|rows| - 1], rows[|rows| - 1];
      SumPerDay(before, provider, model, date);
      EntriesGrow(before, r);
      assert rows == before + [r] && r in rows;
      if KeyOf(r) == BucketKey(provider, model, date) {
        KeyInjective(r.provider, r.model, r.date, provider, model, date);
      }
    }
  }

  lemma {:induction false} LabelPerDay(b: CostRow, rows: seq<UsageRow>, provider: string, model: string, date: string)
    requires Parsed(rows) && '|' !in provider && IsPlain(date)
    requires IsLabelled(b, rows, BucketKey(provider, model, date))
    ensures b.provider == provider && b.model == model && b.date == date
  {
    var r := rows[|rows| - 1];
    assert r in rows;
    if KeyOf(r) == BucketKey(provider, model, date) {
      KeyInjective(r.provider, r.model, r.date, provider, model, date);
    } else {
      LabelPerDay(b, rows[..|rows| - 1], provider, model, date);
    }
  }

  /** Nothing is lost or counted twice: the buckets of the rows add up to the rows. */
  lemma BucketsConserve(after: CostTable, before: CostTable, rows: seq<UsageRow>, groups: seq<Entry<string>>)
    requires IsUpserted(after, before, rows)
    requires forall i, j :: 0 <= i < j < |groups| ==> groups[i].key != groups[j].key
    requires KeysOf(groups) == KeysOf(Entries(rows))
    requires forall i :: 0 <= i < |groups| ==> groups[i].key in after && groups[i].amount == after[groups[i].key].amount
    ensures Sum(groups) == Sum(Entries(rows))
  {
    var entries := Entries(rows);
    forall i | 0 <= i < |groups|
      ensures groups[i].amount == SumIn(entries, {groups[i].key})
    {
      assert HasKey(groups, groups[i].key);
      KeysOfHas(groups, groups[i].key);
      assert IsBucket(after[groups[i].key], rows, groups[i].key);
    }
    SameKeysGrouping(groups, entries);
    GroupsSumToTotal(groups, entries);
  }

  // ----- Reports

  /** The ids of the rows a query with `date >= start` looks at, in any order. */
  ghost predicate Selects(ids: seq<string>, table: CostTable, start: string) {
    && (forall i, j :: 0 <= i < j < |ids| ==> ids[i] != ids[j])
    && (forall id :: id in ids <==> id in table && TextLe(start, table[id].date))
  }

  ghost function ByProvider(ids: seq<string>, table: CostTable): seq<Entry<string>>
    requires forall id :: id in ids ==> id in table
  {
    seq(|ids|, i requires 0 <= i < |ids| && ids[i] in table => Entry(table[ids[i]].provider, table[ids[i]].amount))
  }

  ghost function ByModel(ids: seq<string>, table: CostTable): seq<Entry<(string, string)>>
    requires forall id :: id in ids ==> id in table
  {
    seq(|ids|, i requires 0 <= i < |ids| && ids[i] in table =>
        Entry((table[ids[i]].provider, table[ids[i]].model), table[ids[i]].amount))
  }

  datatype Session = Session(project: string, startedAt: int, tokens: int, cost: real)

  datatype CostReport = CostReport(
    total: Amount, byProvider: seq<Entry<string>>, byModel: seq<Entry<(string, string)>>, byProject: seq<Entry<string>>)

  ghost function ById(ids: seq<string>, table: CostTable): seq<Entry<string>>
    requires forall id :: id in ids ==> id in table
  {
    seq(|ids|, i requires 0 <= i < |ids| && ids[i] in table => Entry(ids[i], table[ids[i]].amount))
  }

  lemma ByIdMembers(ids: seq<string>, more: seq<string>, table: CostTable)
    requires (forall id :: id in ids ==> id in table) && (forall id :: id in more ==> id in table)
    requires forall id :: id in ids ==> id in more
    ensures forall e :: e in ById(ids, table) ==> e in ById(more, table)
  {
    forall e | e in ById(ids, table)
      ensures e in ById(more, table)
    {
      var i :| 0 <= i < |ids| && ById(ids, table)[i] == e;
      assert ids[i] in more;
      var j :| 0 <= j < |more| && more[j] == ids[i];
      assert ById(more, table)[j] == e;
    }
  }

  /** The order in which a query looks at the rows does not matter to their sum. */
  lemma SelectionSum(ids: seq<string>, other: seq<string>, table: CostTable, start: string)
    requires Selects(ids, table, start) && Selects(other, table, start)
    ensures Sum(ByProvider(ids, table)) == Sum(ByModel(other, table))
  {
    ByIdMembers(ids, other, table);
    ByIdMembers(other, ids, table);
    ReorderedSum(ById(ids, table), ById(other, table));
    SameAmountsSameSum(ByProvider(ids, table), ById(ids, table));
    SameAmountsSameSum(ById(other, table), ByModel(other, table));
  }

  /** What the selected rows of one provider amount to. */
  ghost function SumOfProvider(ids: seq<string>, table: CostTable, provider: string): Amount
    requires forall id :: id in ids ==> id in table
  {
    if ids == [] then NOTHING
    else
      var rest, row := SumOfProvider(ids[..|ids| - 1], table, provider), table[ids[|ids| - 1]];
      if row.provider == provider then Plus(rest, row.amount) else rest
  }

  /** What the selected rows of one provider's model amount to. */
  ghost function SumOfModel(ids: seq<string>, table: CostTable, provider: string, model: string): Amount
    requires forall id :: id in ids ==> id in table
  {
    if ids == [] then NOTHING
    else
      var rest, row := SumOfModel(ids[..|ids| - 1], table, provider, model), table[ids[|ids| - 1]];
      if row.provider == provider && row.model == model then Plus(rest, row.amount) else rest
  }

  lemma {:induction false} ProviderSums(ids: seq<string>, table: CostTable, provider: string)
    requires forall id :: id in ids ==> id in table
    ensures SumIn(ByProvider(ids, table), {provider}) == SumOfProvider(ids, table, provider)
  {
    if ids != [] {
      var n := |ids| - 1;
      ProviderSums(ids[..n], table, provider);
      assert ByProvider(ids, table)[..n] == ByProvider(ids[..n], table);
    }
  }

  lemma {:induction false} ModelSums(ids: seq<string>, table: CostTable, provider: string, model: string)
    requires forall id :: id in ids ==> id in table
    ensures SumIn(ByModel(ids, table), {(provider, model)}) == SumOfModel(ids, table, provider, model)
  {
    if ids != [] {
      var n := |ids| - 1;
      ModelSums(ids[..n], table, provider, model);
      assert ByModel(ids, table)[..n] == ByModel(ids[..n], table);
    }
  }

  /** A provider's line of a report is there exactly when a selected row is the provider's, and holds what these
      rows amount to. */
  lemma ProviderLines(ids: seq<string>, table: CostTable, groups: seq<Entry<string>>, provider: string)
    requires forall id :: id in ids ==> id in table
    requires IsGrouping(groups, ByProvider(ids, table))
    ensures HasKey(groups, provider) <==> exists id :: id in ids && table[id].provider == provider
    ensures forall i :: 0 <= i < |groups| && groups[i].key == provider ==>
                          groups[i].amount == SumOfProvider(ids, table, provider)
  {
    ProviderSums(ids, table, provider);
    var entries := ByProvider(ids, table);
    if id :| id in ids && table[id].provider == provider {
      var i :| 0 <= i < |ids| && ids[i] == id;
      assert entries[i].key == provider;
    }
    if i :| 0 <= i < |entries| && entries[i].key == provider {
      assert ids[i] in ids;
    }
  }

  /** Likewise for a provider's model. */
  lemma ModelLines(ids: seq<string>, table: CostTable, groups: seq<Entry<(string, string)>>,
                   provider: string, model: string)
    requires forall id :: id in ids ==> id in table
    requires IsGrouping(groups, ByModel(ids, table))
    ensures HasKey(groups, (provider, model))
            <==> exists id :: id in ids && table[id].provider == provider && table[id].model == model
    ensures forall i :: 0 <= i < |groups| && groups[i].key == (provider, model) ==>
                          groups[i].amount == SumOfModel(ids, table, provider, model)
  {
    ModelSums(ids, table, provider, model);
    var entries := ByModel(ids, table);
    if id :| id in ids && table[id].provider == provider && table[id].model == model {
      var i :| 0 <= i < |ids| && ids[i] == id;
      assert entries[i].key == (provider, model);
    }
    if i :| 0 <= i < |entries| && entries[i].key == (provider, model) {
      assert ids[i] in ids;
    }
  }

  /** One query: the table it sees, the rows it looks at (their order left open), and its groups or its failure. */
  datatype Query<K> = Query(table: CostTable, ids: seq<string>, rows: Result<seq<Entry<K>>, string>)

  /** Report: the two queries return groupings of the rows they select, as GROUP BY does; the total is added up from
      the model groups. Each query's groups add up to the rows it selected, and when no write came between the
      queries the two agree. Without a database both lists are empty and the total is nothing. */
  method Report(hasDb: bool, start: string, byProvider: Query<string>, byModel: Query<(string, string)>,
                startedFrom: int, sessions: Option<seq<Session>>) returns (report: Result<CostReport, string>)
    requires Selects(byProvider.ids, byProvider.table, start) && Selects(byModel.ids, byModel.table, start)
    requires byProvider.rows.Ok? ==> IsGrouping(byProvider.rows.value, ByProvider(byProvider.ids, byProvider.table))
    requires byModel.rows.Ok? ==> IsGrouping(byModel.rows.value, ByModel(byModel.ids, byModel.table))
    ensures report.Err? <==> hasDb && (byProvider.rows.Err? || byModel.rows.Err?)
    ensures report.Ok? && !hasDb ==>
              report.value.byProvider == [] && report.value.byModel == [] && report.value.total == NOTHING
    ensures report.Ok? && hasDb ==>
              && report.value.byProvider == byProvider.rows.value && report.value.byModel == byModel.rows.value
              && Sum(report.value.byProvider) == Sum(ByProvider(byProvider.ids, byProvider.table))
              && report.value.total == Sum(report.value.byModel) == Sum(ByModel(byModel.ids, byModel.table))
              && (byProvider.table == byModel.table ==> report.value.total == Sum(report.value.byProvider))
    ensures report.Ok? ==> match sessions
                           case None => report.value.byProject == []
                           case Some(list) => IsGrouping(report.value.byProject, StartedEntries(list, startedFrom))
  {
    var result := CostReport(NOTHING, [], [], []);
    if hasDb {
      if byProvider.rows.Err? {
        return Err(byProvider.rows.error);
      }
      if byModel.rows.Err? {
        return Err(byModel.rows.error);
      }
      var total := AddUp(byModel.rows.value);
      GroupsSumToTotal(byProvider.rows.value, ByProvider(byProvider.ids, byProvider.table));
      GroupsSumToTotal(byModel.rows.value, ByModel(byModel.ids, byModel.table));
      if byProvider.table == byModel.table {
        SelectionSum(byProvider.ids, byModel.ids, byModel.table, start);
      }
      result := CostReport(total, byProvider.rows.value, byModel.rows.value, []);
    }
    if sessions.Some? {
      var byProject := ProjectTotals(sessions.value, startedFrom);
      result := result.(byProject := byProject);
    }
    return Ok(result);
  }

  method AddUp(rows: seq<Entry<(string, string)>>) returns (total: Amount)
    ensures total == Sum(rows)
  {
    total := NOTHING;
    for i := 0 to |rows|
      invariant total == Sum(rows[..i])
    {
      assert rows[..i + 1][..i] == rows[..i];
      total := Plus(total, rows[i].amount);
    }
    assert rows[..|rows|] == rows;
  }

  lemma {:induction false} SameAmountsSameSum<K, L>(a: seq<Entry<K>>, b: seq<Entry<L>>)
    requires |a| == |b| && forall i :: 0 <= i < |a| ==> a[i].amount == b[i].amount
    ensures Sum(a) == Sum(b)
  {
    if a != [] {
      SameAmountsSameSum(a[..|a| - 1], b[..|b| - 1]);
    }
  }

  /** The sessions that a report counts, by project. */
  function StartedEntries(sessions: seq<Session>, startedFrom: int): seq<Entry<string>> {
    if sessions == [] then []
    else
      var s := sessions[|sessions| - 1];
      StartedEntries(sessions[..|sessions| - 1], startedFrom)
      + (if s.startedAt < startedFrom then [] else [Entry(s.project, Amount(s.tokens, s.cost))])
  }

  function SessionEntry(s: Session): Entry<string> {
    Entry(s.project, Amount(s.tokens, s.cost))
  }

  /** The places of the sessions that started in time, in order. */
  ghost function PlacesSince(sessions: seq<Session>, startedFrom: int): seq<nat> {
    if sessions == [] then []
    else
      var n := |sessions| - 1;
      PlacesSince(sessions[..n], startedFrom) + (if sessions[n].startedAt >= startedFrom then [n] else [])
  }

  lemma {:induction false} PlacesMembers(sessions: seq<Session>, startedFrom: int, i: nat)
    ensures i in PlacesSince(sessions, startedFrom) <==> i < |sessions| && sessions[i].startedAt >= startedFrom
  {
    if sessions != [] {
      PlacesMembers(sessions[..|sessions| - 1], startedFrom, i);
    }
  }

  lemma {:induction false} PlacesIncrease(sessions: seq<Session>, startedFrom: int, i: nat, j: nat)
    requires i < j < |PlacesSince(sessions, startedFrom)|
    ensures PlacesSince(sessions, startedFrom)[i] < PlacesSince(sessions, startedFrom)[j]
  {
    var n := |sessions| - 1;
    var before := PlacesSince(sessions[..n], startedFrom);
    if j < |before| {
      PlacesIncrease(sessions[..n], startedFrom, i, j);
    } else {
      assert before[i] in before;
      PlacesMembers(sessions[..n], startedFrom, before[i]);
    }
  }

  lemma PlacesAreRight(sessions: seq<Session>, startedFrom: int)
    ensures var picked := PlacesSince(sessions, startedFrom);
            && (forall i, j :: 0 <= i < j < |picked| ==> picked[i] < picked[j])
            && (forall i :: i in picked <==> 0 <= i < |sessions| && sessions[i].startedAt >= startedFrom)
  {
    var picked := PlacesSince(sessions, startedFrom);
    forall i, j | 0 <= i < j < |picked|
      ensures picked[i] < picked[j]
    {
      PlacesIncrease(sessions, startedFrom, i, j);
    }
    forall i: nat
      ensures i in picked <==> i < |sessions| && sessions[i].startedAt >= startedFrom
    {
      PlacesMembers(sessions, startedFrom, i);
    }
  }

  /** A report counts exactly the sessions started at or after its start, each once, under its project and
      with its tokens and cost. */
  lemma {:induction false} StartedAreThoseSince(sessions: seq<Session>, startedFrom: int)
    ensures var (entries, picked) := (StartedEntries(sessions, startedFrom), PlacesSince(sessions, startedFrom));
            && |entries| == |picked|
            && forall j :: 0 <= j < |picked| ==>
                 picked[j] < |sessions| && entries[j] == SessionEntry(sessions[picked[j]])
  {
    if sessions != [] {
      StartedAreThoseSince(sessions[..|sessions| - 1], startedFrom);
    }
  }

  method ProjectTotals(sessions: seq<Session>, startedFrom: int) returns (out: seq<Entry<string>>)
    ensures IsGrouping(out, StartedEntries(sessions, startedFrom))
    ensures Sum(out) == Sum(StartedEntries(sessions, startedFrom))
  {
    var totals: map<string, Amount> := map[];
    for i := 0 to |sessions|
      invariant AreTotals(totals, StartedEntries(sessions[..i], startedFrom))
    {
      var session := sessions[i];
      ghost var before := StartedEntries(sessions[..i], startedFrom);
      assert sessions[..i + 1][..i] == sessions[..i];
      if session.startedAt < startedFrom {
        assert before + [] == before;
        continue;
      }
      totals := AddTo(totals, Entry(session.project, Amount(session.tokens, session.cost)), before);
    }
    assert sessions[..|sessions|] == sessions;
    ghost var entries := StartedEntries(sessions, startedFrom);
    out := Listed(totals, entries);
    GroupsSumToTotal(out, entries);
  }

  /** The text filter of a report selects a dated row exactly when the row is dated on or after the start, exactly when
      their years compare: from a start with a four-digit year, unless the row's year has more digits and its first
      four are below the start's year. */
  lemma ReportSelectsByDate(ids: seq<string>, table: CostTable, start: Date, id: string, d: Date)
    requires IsValid(start) && Selects(ids, table, Format(start))
    requires id in table && IsValid(d) && table[id].date == Format(d)
    ensures (id in ids <==> NotAfter(start, d)) <==> YearsCompare(start.year, d.year)
    ensures IsUsual(start) ==>
              (YearsCompare(start.year, d.year) <==> d.year < 10000 || start.year <= LeadingFour(d.year))
  {
    TextOrderIsDateOrderIff(start, d);
    if IsUsual(start) {
      TextOrderFromUsualIff(start, d);
    }
  }

  /** A provider's row with the epoch of 10000-01-01 is stored, and a report from 2024 does not see it. */
  method FarRowStoredAndMissed(clock: Clock, provider: string, model: string, tokens: int, cost: real,
                               ghost ids: seq<string>) returns (table: CostTable)
    requires IsCalendar(clock) && clock.epoch(FIRST_FAR_SECOND) == Date(10000, 1, 1) && model != ""
    ensures var id := BucketKey(provider, model, Format(Date(10000, 1, 1)));
            && id in table && table[id].date == Format(Date(10000, 1, 1))
            && table[id].amount == Amount(tokens, cost)
            && (Selects(ids, table, Format(Date(2024, 1, 1))) ==> id !in ids)
  {
    FarEpochLost(clock);
    var date := NormalizeDate(clock, [Decimal.Digits(FIRST_FAR_SECOND)]);
    var row := UsageRow(provider, model, date, tokens, cost);
    var costs := new CostAggregator(Some(map[]));
    var r := costs.PersistDailyBuckets([row], _ => "", false, _ => false, false);
    table := costs.db.value;
    OneRowBucket(row, _ => "");
    assert IsBucket(table[KeyOf(row)], [row], KeyOf(row));
    if Selects(ids, table, Format(Date(2024, 1, 1))) {
      LateRowMissed(ids, table, KeyOf(row));
    }
  }

  lemma OneRowBucket(row: UsageRow, today: nat -> string)
    requires row.date != "" && row.model != ""
    ensures Filled([row], today) == [row] && KeysOf(Entries([row])) == {KeyOf(row)}
    ensures SumIn(Entries([row]), {KeyOf(row)}) == Amount(row.tokens, row.cost)
  {
    var none: seq<UsageRow> := [];
    assert [row][..0] == none && Entries(none) == [] && Filled(none, today) == [];
    EntriesGrow(none, row);
    assert none + [row] == [row];
  }

  /** A row dated 10000-01-01 is missing from a report that starts in 2024. */
  lemma LateRowMissed(ids: seq<string>, table: CostTable, id: string)
    requires Selects(ids, table, Format(Date(2024, 1, 1)))
    requires id in table && table[id].date == Format(Date(10000, 1, 1))
    ensures id !in ids
  {
    LateYearSortsEarly();
  }
}
