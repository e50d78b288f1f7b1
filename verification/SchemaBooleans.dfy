/**
 Commands on a store without booleans: it keeps the logical rows with every boolean field as a
 number, and tests, keys and answers come out as they would on the logical rows.
 */
module SchemaBooleans {
  import opened Wrappers
  import opened Records
  import opened MemoryStore
  import opened SchemaMapping
  import opened SchemaSimulation
  import Scan

  // ---------------------------------------------------------------- rows as numbers

  function Kept(model: Model, record: Record): (r: Record)
    ensures r.Keys == record.Keys
  {
    InputValues(model, false, record)
  }

  predicate TypedTable(model: Model, table: Table) {
    forall id | id in table :: WellTyped(model, table[id])
  }

  function KeptTable(model: Model, table: Table): (r: Table)
    ensures r.Keys == table.Keys
  {
    map id | id in table :: Kept(model, table[id])
  }

  ghost predicate TypedRows(schema: Schema, rows: Rows) {
    forall m | m in schema :: TypedTable(schema[m], TableOf(rows, m))
  }

  function KeptRows(schema: Schema, rows: Rows): Rows {
    map m | m in rows :: if m in schema then KeptTable(schema[m], rows[m]) else rows[m]
  }

  lemma KeptTableOf(schema: Schema, rows: Rows, m: string)
    requires m in schema
    ensures TableOf(KeptRows(schema, rows), m) == KeptTable(schema[m], TableOf(rows, m))
  {
  }

  lemma KeptGet(model: Model, record: Record, f: string)
    ensures Get(Kept(model, record), f) == InputValue(model, false, f, Get(record, f))
  {
  }

  lemma TypedGet(model: Model, record: Record, f: string)
    requires WellTyped(model, record)
    ensures IsBoolean(model, f) ==> Plain(Get(record, f))
  {
  }

  // ---------------------------------------------------------------- tests

  /** A test of a boolean field is against a boolean or nil and does not ask for an order; any
      other field may be tested in any way. */
  predicate SafeTest(model: Model, c: Where) {
    IsBoolean(model, c.field) ==> Plain(c.value) && !OrderOperator(c.operator)
  }

  predicate SafeWhere(model: Model, where_: seq<Where>) {
    forall i | 0 <= i < |where_| :: SafeTest(model, where_[i])
  }

  function KeptTest(model: Model, c: Where): Where {
    c.(value := InputValue(model, false, c.field, c.value))
  }

  function KeptWhere(model: Model, where_: seq<Where>): (r: seq<Where>)
    ensures |r| == |where_| && forall i | 0 <= i < |r| :: r[i] == KeptTest(model, where_[i])
  {
    seq(|where_|, i requires 0 <= i < |where_| => KeptTest(model, where_[i]))
  }

  lemma KeptMatchesAt(model: Model, record: Record, c: Where)
    requires WellTyped(model, record) && SafeTest(model, c)
    ensures MatchesAt(Kept(model, record), KeptTest(model, c)) == MatchesAt(record, c)
  {
    KeptGet(model, record, c.field);
    TypedGet(model, record, c.field);
    if IsBoolean(model, c.field) { BooleanTests(model, Get(record, c.field), c); }
  }

  lemma KeptMatches(model: Model, record: Record, where_: seq<Where>)
    requires WellTyped(model, record) && SafeWhere(model, where_)
    ensures Matches(Kept(model, record), KeptWhere(model, where_)) == Matches(record, where_)
  {
    var r, w := Kept(model, record), KeptWhere(model, where_);
    forall i | 0 <= i < |w|
      ensures MatchesAt(r, w[i]) == MatchesAt(record, where_[i]) && w[i].connector == where_[i].connector
    {
      KeptMatchesAt(model, record, where_[i]);
    }
    SameByIndex(record, where_, r, w);
    MatchesByIndex(record, where_);
    MatchesByIndex(r, w);
  }

  lemma KeptValidWhere(model: Model, where_: seq<Where>, allowEmpty: bool)
    ensures ValidWhere(KeptWhere(model, where_), allowEmpty) == ValidWhere(where_, allowEmpty)
  {
    NamedByIndex(where_);
    NamedByIndex(KeptWhere(model, where_));
  }

  lemma KeptHit(model: Model, table: Table, id: string, where_: seq<Where>)
    requires TypedTable(model, table) && SafeWhere(model, where_)
    ensures Hit(KeptTable(model, table), id, KeptWhere(model, where_)) == Hit(table, id, where_)
  {
    if id in table { KeptMatches(model, table[id], where_); }
  }

  lemma {:induction false} KeptFirst(model: Model, table: Table, order: seq<string>, where_: seq<Where>)
    requires TypedTable(model, table) && SafeWhere(model, where_)
    ensures FirstMatch(KeptTable(model, table), order, KeptWhere(model, where_)) == FirstMatch(table, order, where_)
  {
    if order != [] {
      KeptHit(model, table, order[0], where_);
      KeptFirst(model, table, order[1..], where_);
    }
  }

  lemma {:induction false} KeptAll(model: Model, table: Table, order: seq<string>, where_: seq<Where>)
    requires TypedTable(model, table) && SafeWhere(model, where_)
    ensures AllMatches(KeptTable(model, table), order, KeptWhere(model, where_)) == AllMatches(table, order, where_)
  {
    if order != [] {
      KeptHit(model, table, order[0], where_);
      KeptAll(model, table, order[1..], where_);
    }
  }

  // ---------------------------------------------------------------- unique keys

  lemma KeptSameAt(model: Model, a: Record, b: Record, f: string)
    requires WellTyped(model, a) && WellTyped(model, b)
    ensures SameAt(Kept(model, a), Kept(model, b), f) == SameAt(a, b, f)
  {
    KeptGet(model, a, f);
    KeptGet(model, b, f);
    TypedGet(model, a, f);
    TypedGet(model, b, f);
  }

  lemma KeptSharesKey(model: Model, a: Record, b: Record, keys: seq<seq<string>>)
    requires WellTyped(model, a) && WellTyped(model, b)
    ensures SharesKey(Kept(model, a), Kept(model, b), keys) == SharesKey(a, b, keys)
  {
    forall key
      ensures SameUniqueKey(Kept(model, a), Kept(model, b), key) == SameUniqueKey(a, b, key)
    {
      forall i | 0 <= i < |key|
        ensures SameAt(Kept(model, a), Kept(model, b), key[i]) == SameAt(a, b, key[i])
      {
        KeptSameAt(model, a, b, key[i]);
      }
      SameKeyByIndex(a, b, key);
      SameKeyByIndex(Kept(model, a), Kept(model, b), key);
    }
  }

  lemma KeptConflicts(model: Model, table: Table, candidate: Record, keys: seq<seq<string>>, except: string)
    requires TypedTable(model, table) && WellTyped(model, candidate)
    ensures Conflicts(KeptTable(model, table), keys, Kept(model, candidate), except) == Conflicts(table, keys, candidate, except)
  {
    forall id | id in table
      ensures SharesKey(KeptTable(model, table)[id], Kept(model, candidate), keys) == SharesKey(table[id], candidate, keys)
    {
      KeptSharesKey(model, table[id], candidate, keys);
    }
  }

  // ---------------------------------------------------------------- changes of one record

  lemma KeptChanged(model: Model, record: Record, update: Record, idField: string)
    requires WellTyped(model, record) && WellTyped(model, update)
    ensures WellTyped(model, Changed(record, update, idField))
    ensures Kept(model, Changed(record, update, idField)) == Changed(Kept(model, record), Kept(model, update), idField)
  {
  }

  /** Numbers may be added to any field but a boolean one. */
  predicate SafeIncrement(model: Model, increment: map<string, real>) {
    forall f | f in increment :: !IsBoolean(model, f)
  }

  lemma KeptIncremented(model: Model, record: Record, increment: map<string, real>)
    requires WellTyped(model, record) && SafeIncrement(model, increment)
    ensures var logical, kept := Incremented(record, increment), Incremented(Kept(model, record), increment);
            && logical.Some? == kept.Some?
            && (logical.Some? ==> WellTyped(model, logical.value) && Kept(model, logical.value) == kept.value)
  {
    forall f | f in increment
      ensures Get(Kept(model, record), f) == Get(record, f)
    {
      KeptGet(model, record, f);
    }
    assert AllNumbers(record, increment) == AllNumbers(Kept(model, record), increment);
    IncrementedIs(record, increment);
    IncrementedIs(Kept(model, record), increment);
    if AllNumbers(record, increment) { KeptIncreased(model, record, increment); }
  }

  lemma KeptIncreased(model: Model, record: Record, increment: map<string, real>)
    requires WellTyped(model, record) && SafeIncrement(model, increment) && AllNumbers(record, increment)
    requires forall f | f in increment :: Get(Kept(model, record), f) == Get(record, f)
    ensures WellTyped(model, record + Increased(record, increment))
    ensures Kept(model, record + Increased(record, increment)) == Kept(model, record) + Increased(Kept(model, record), increment)
  {
    assert Increased(Kept(model, record), increment) == Increased(record, increment);
  }

  /** An increment of a boolean field is refused on booleans and goes through on the numbers
      that stand for them. */
  lemma IncrementDiffers(model: Model, f: string, flag: bool, amount: real)
    requires IsBoolean(model, f)
    ensures var record: Record, increment := map[f := Boolean(flag)], map[f := amount];
            WellTyped(model, record) && Incremented(record, increment).None? && Incremented(Kept(model, record), increment).Some?
  {
    var record: Record, increment := map[f := Boolean(flag)], map[f := amount];
    KeptGet(model, record, f);
    assert f in increment && Get(record, f) == Boolean(flag);
  }

  // ---------------------------------------------------------------- reading

  predicate TypedRecords(model: Model, records: seq<Record>) {
    forall i | 0 <= i < |records| :: WellTyped(model, records[i])
  }

  function KeptRecords(model: Model, records: seq<Record>): (r: seq<Record>)
    ensures |r| == |records| && forall i | 0 <= i < |r| :: r[i] == Kept(model, records[i])
  {
    seq(|records|, i requires 0 <= i < |records| => Kept(model, records[i]))
  }

  lemma KeptRecordsOf(model: Model, table: Table, ids: seq<string>)
    requires TypedTable(model, table) && forall id | id in ids :: id in table
    ensures TypedRecords(model, RecordsOf(table, ids))
    ensures RecordsOf(KeptTable(model, table), ids) == KeptRecords(model, RecordsOf(table, ids))
  {
    var a, b := RecordsOf(KeptTable(model, table), ids), RecordsOf(table, ids);
    forall i | 0 <= i < |ids|
      ensures WellTyped(model, b[i]) && a[i] == Kept(model, b[i])
    {
      assert ids[i] in ids;
    }
  }

  lemma KeptSortsAfter(model: Model, left: Record, right: Record, sort: Sort)
    requires !IsBoolean(model, sort.field)
    ensures SortsAfter(Kept(model, left), Kept(model, right), sort) == SortsAfter(left, right, sort)
  {
    KeptGet(model, left, sort.field);
    KeptGet(model, right, sort.field);
  }

  lemma KeptInit(model: Model, records: seq<Record>)
    requires records != []
    ensures KeptRecords(model, records)[..|records| - 1] == KeptRecords(model, records[..|records| - 1])
    ensures KeptRecords(model, records)[|records| - 1] == Kept(model, records[|records| - 1])
  {
  }

  lemma KeptAppend(model: Model, records: seq<Record>, record: Record)
    ensures KeptRecords(model, records + [record]) == KeptRecords(model, records) + [Kept(model, record)]
    ensures TypedRecords(model, records) && WellTyped(model, record) ==> TypedRecords(model, records + [record])
  {
  }

  lemma {:induction false} KeptInsert(model: Model, sorted: seq<Record>, record: Record, sort: Sort)
    requires TypedRecords(model, sorted) && WellTyped(model, record) && !IsBoolean(model, sort.field)
    ensures TypedRecords(model, InsertSorted(sorted, record, sort))
    ensures InsertSorted(KeptRecords(model, sorted), Kept(model, record), sort) == KeptRecords(model, InsertSorted(sorted, record, sort))
  {
    if sorted == [] {
      KeptAppend(model, sorted, record);
    } else {
      var n := |sorted| - 1;
      KeptInit(model, sorted);
      KeptSortsAfter(model, sorted[n], record, sort);
      if SortsAfter(sorted[n], record, sort) {
        KeptInsert(model, sorted[..n], record, sort);
        KeptAppend(model, InsertSorted(sorted[..n], record, sort), sorted[n]);
      } else {
        KeptAppend(model, sorted, record);
      }
    }
  }

  lemma {:induction false} KeptSorted(model: Model, records: seq<Record>, sort: Sort)
    requires TypedRecords(model, records) && !IsBoolean(model, sort.field)
    ensures TypedRecords(model, SortedBy(records, sort))
    ensures SortedBy(KeptRecords(model, records), sort) == KeptRecords(model, SortedBy(records, sort))
  {
    if records != [] {
      var n := |records| - 1;
      KeptInit(model, records);
      KeptSorted(model, records[..n], sort);
      KeptInsert(model, SortedBy(records[..n], sort), records[n], sort);
    }
  }

  lemma KeptPage(model: Model, records: seq<Record>, limit: nat, offset: nat)
    requires TypedRecords(model, records)
    ensures TypedRecords(model, Scan.Page(records, limit, offset))
    ensures Scan.Page(KeptRecords(model, records), limit, offset) == KeptRecords(model, Scan.Page(records, limit, offset))
  {
  }

  predicate TypedAnswer(model: Model, answer: Answer) {
    && (answer.Row? && answer.record.Some? ==> WellTyped(model, answer.record.value))
    && (answer.RowList? ==> TypedRecords(model, answer.records))
  }

  function KeptAnswer(model: Model, answer: Answer): Answer {
    if answer.Row? && answer.record.Some? then Row(Some(Kept(model, answer.record.value)))
    else if answer.RowList? then RowList(KeptRecords(model, answer.records))
    else answer
  }

  lemma KeptFound(model: Model, table: Table, order: seq<string>, w: seq<Where>, limit: int, offset: int, sort: Option<Sort>)
    requires TypedTable(model, table) && SafeWhere(model, w) && (sort.Some? ==> !IsBoolean(model, sort.value.field))
    ensures var answer := Found(table, order, w, limit, offset, sort);
            TypedAnswer(model, answer) && Found(KeptTable(model, table), order, KeptWhere(model, w), limit, offset, sort) == KeptAnswer(model, answer)
  {
    KeptValidWhere(model, w, true);
    KeptAll(model, table, order, w);
    var ids := AllMatches(table, order, w);
    KeptRecordsOf(model, table, ids);
    var records := RecordsOf(table, ids);
    if sort.Some? { KeptSorted(model, records, sort.value); }
    var effective := if limit == 0 then 100 else limit;
    if 0 <= effective && 0 <= offset {
      KeptPage(model, if sort.Some? then SortedBy(records, sort.value) else records, effective, offset);
    }
  }

  // ---------------------------------------------------------------- writing

  predicate SafeChange(model: Model, change: Change) {
    && (change.SetOne? || change.SetMany? ==> WellTyped(model, change.update))
    && (change.IncrementOne? ==> WellTyped(model, change.set_) && SafeIncrement(model, change.increment))
  }

  function KeptChange(model: Model, change: Change): Change {
    match change
    case SetOne(update) => SetOne(Kept(model, update))
    case SetMany(update) => SetMany(Kept(model, update))
    case IncrementOne(increment, set_) => IncrementOne(increment, Kept(model, set_))
    case RemoveOne => RemoveOne
    case RemoveMany => RemoveMany
    case ConsumeOne => ConsumeOne
  }

  /** The command that the adapter passes on: operands and records converted field by field. */
  function KeptCommand(model: Model, command: Command): Command {
    match command
    case Create(m, data) => Create(m, Kept(model, data))
    case FindOne(m, w) => FindOne(m, KeptWhere(model, w))
    case FindMany(m, w, limit, offset, sort) => FindMany(m, KeptWhere(model, w), limit, offset, sort)
    case Count(m, w) => Count(m, KeptWhere(model, w))
    case Write(m, w, change) => Write(m, KeptWhere(model, w), KeptChange(model, change))
  }

  /** Boolean fields get booleans or nil, are not sorted by, added to or compared by order. */
  predicate SafeCommand(model: Model, command: Command) {
    && (command.Create? ==> WellTyped(model, command.data))
    && (!command.Create? ==> SafeWhere(model, command.where_))
    && (command.FindMany? && command.sort.Some? ==> !IsBoolean(model, command.sort.value.field))
    && (command.Write? ==> SafeChange(model, command.change))
  }

  /** The second step is the first one on rows kept as numbers. */
  ghost predicate SameKept(schema: Schema, m: string, logical: (Rows, Answer), kept: (Rows, Answer))
    requires m in schema
  {
    && TypedRows(schema, logical.0) && TypedAnswer(schema[m], logical.1)
    && kept == (KeptRows(schema, logical.0), KeptAnswer(schema[m], logical.1))
  }

  lemma KeptPut(schema: Schema, rows: Rows, m: string, table: Table)
    requires TypedRows(schema, rows) && m in schema && TypedTable(schema[m], table)
    ensures TypedRows(schema, rows[m := table])
    ensures KeptRows(schema, rows[m := table]) == KeptRows(schema, rows)[m := KeptTable(schema[m], table)]
  {
    forall n | n in schema
      ensures TypedTable(schema[n], TableOf(rows[m := table], n))
    {
      if n != m { assert TableOf(rows[m := table], n) == TableOf(rows, n); }
    }
  }

  lemma KeptPutRow(schema: Schema, rows: Rows, m: string, id: string, record: Record)
    requires TypedRows(schema, rows) && m in schema && WellTyped(schema[m], record)
    ensures var next := rows[m := TableOf(rows, m)[id := record]];
            && TypedRows(schema, next)
            && KeptRows(schema, next) == KeptRows(schema, rows)[m := TableOf(KeptRows(schema, rows), m)[id := Kept(schema[m], record)]]
  {
    var table := TableOf(rows, m);
    assert KeptTable(schema[m], table[id := record]) == KeptTable(schema[m], table)[id := Kept(schema[m], record)];
    KeptTableOf(schema, rows, m);
    KeptPut(schema, rows, m, table[id := record]);
  }

  lemma KeptDrop(schema: Schema, rows: Rows, m: string, ids: set<string>)
    requires TypedRows(schema, rows) && m in schema
    ensures var next := rows[m := TableOf(rows, m) - ids];
            && TypedRows(schema, next)
            && KeptRows(schema, next) == KeptRows(schema, rows)[m := TableOf(KeptRows(schema, rows), m) - ids]
  {
    var table := TableOf(rows, m);
    assert KeptTable(schema[m], table - ids) == KeptTable(schema[m], table) - ids;
    KeptTableOf(schema, rows, m);
    KeptPut(schema, rows, m, table - ids);
  }

  lemma KeptReplace(schema: Schema, rules: Rules, rows: Rows, m: string, id: string, record: Record)
    requires TypedRows(schema, rows) && m in schema && WellTyped(schema[m], record)
    ensures var logical, kept := Replace(rules, rows, m, id, record), Replace(rules, KeptRows(schema, rows), m, id, Kept(schema[m], record));
            && logical.Some? == kept.Some?
            && (logical.Some? ==> TypedRows(schema, logical.value) && kept.value == KeptRows(schema, logical.value))
  {
    KeptTableOf(schema, rows, m);
    KeptConflicts(schema[m], TableOf(rows, m), record, rules.Keys(m), id);
    KeptPutRow(schema, rows, m, id, record);
  }

  lemma KeptRewritten(schema: Schema, rules: Rules, rows: Rows, m: string, id: string, record: Record)
    requires TypedRows(schema, rows) && m in schema && WellTyped(schema[m], record)
    ensures SameKept(schema, m, Rewritten(rules, rows, m, id, record), Rewritten(rules, KeptRows(schema, rows), m, id, Kept(schema[m], record)))
  {
    KeptReplace(schema, rules, rows, m, id, record);
  }

  lemma KeptUpdateStep(schema: Schema, rules: Rules, rows: Rows, m: string, id: string, update: Record)
    requires TypedRows(schema, rows) && m in schema && WellTyped(schema[m], update) && id in TableOf(rows, m)
    ensures id in TableOf(KeptRows(schema, rows), m)
    ensures var logical, kept := UpdateStep(rules, rows, m, id, update), UpdateStep(rules, KeptRows(schema, rows), m, id, Kept(schema[m], update));
            && logical.Some? == kept.Some?
            && (logical.Some? ==> TypedRows(schema, logical.value) && kept.value == KeptRows(schema, logical.value))
  {
    KeptTableOf(schema, rows, m);
    var record := TableOf(rows, m)[id];
    KeptChanged(schema[m], record, update, rules.IdField(m));
    KeptReplace(schema, rules, rows, m, id, Changed(record, update, rules.IdField(m)));
  }

  lemma {:induction false} KeptUpdateEach(schema: Schema, rules: Rules, rows: Rows, m: string, ids: seq<string>, update: Record, count: nat)
    requires TypedRows(schema, rows) && m in schema && WellTyped(schema[m], update)
    ensures SameKept(schema, m, UpdateEach(rules, rows, m, ids, update, count),
                     UpdateEach(rules, KeptRows(schema, rows), m, ids, Kept(schema[m], update), count))
    decreases |ids|
  {
    KeptTableOf(schema, rows, m);
    if ids != [] && ids[0] in TableOf(rows, m) {
      KeptUpdateStep(schema, rules, rows, m, ids[0], update);
      UpdateEachStep(rules, rows, m, ids, update, count);
      UpdateEachStep(rules, KeptRows(schema, rows), m, ids, Kept(schema[m], update), count);
      var next := UpdateStep(rules, rows, m, ids[0], update);
      if next.Some? { KeptUpdateEach(schema, rules, next.value, m, ids[1..], update, count + 1); }
    }
  }

  lemma KeptCreated(schema: Schema, rules: Rules, rows: Rows, m: string, data: Record)
    requires TypedRows(schema, rows) && m in schema && WellTyped(schema[m], data)
    ensures SameKept(schema, m, Created(rules, rows, m, data), Created(rules, KeptRows(schema, rows), m, Kept(schema[m], data)))
  {
    var id := rules.IdField(m);
    KeptTableOf(schema, rows, m);
    KeptGet(schema[m], data, id);
    TypedGet(schema[m], data, id);
    KeptConflicts(schema[m], TableOf(rows, m), data, rules.Keys(m), "");
    if Get(data, id).Text? { KeptPutRow(schema, rows, m, Get(data, id).text, data); }
  }

  lemma KeptWrittenAt(schema: Schema, rules: Rules, rows: Rows, m: string, id: string, change: Change)
    requires TypedRows(schema, rows) && m in schema && SafeChange(schema[m], change)
    requires id in TableOf(rows, m) && !change.SetMany? && !change.RemoveMany?
    ensures id in TableOf(KeptRows(schema, rows), m)
    ensures SameKept(schema, m, WrittenAt(rules, rows, m, id, change), WrittenAt(rules, KeptRows(schema, rows), m, id, KeptChange(schema[m], change)))
  {
    KeptTableOf(schema, rows, m);
    var record, idField := TableOf(rows, m)[id], rules.IdField(m);
    if change.SetOne? {
      KeptChanged(schema[m], record, change.update, idField);
      KeptRewritten(schema, rules, rows, m, id, Changed(record, change.update, idField));
    } else if change.IncrementOne? {
      KeptIncrementAt(schema, rules, rows, m, id, change.increment, change.set_);
    } else {
      KeptDrop(schema, rows, m, {id});
    }
  }

  lemma KeptIncrementAt(schema: Schema, rules: Rules, rows: Rows, m: string, id: string, increment: map<string, real>, set_: Record)
    requires TypedRows(schema, rows) && m in schema && WellTyped(schema[m], set_) && SafeIncrement(schema[m], increment)
    requires id in TableOf(rows, m)
    ensures id in TableOf(KeptRows(schema, rows), m)
    ensures SameKept(schema, m, WrittenAt(rules, rows, m, id, IncrementOne(increment, set_)),
                     WrittenAt(rules, KeptRows(schema, rows), m, id, IncrementOne(increment, Kept(schema[m], set_))))
  {
    KeptTableOf(schema, rows, m);
    var record, idField := TableOf(rows, m)[id], rules.IdField(m);
    KeptIncremented(schema[m], record, increment);
    WrittenIncrement(rules, rows, m, id, increment, set_);
    WrittenIncrement(rules, KeptRows(schema, rows), m, id, increment, Kept(schema[m], set_));
    var increased := Incremented(record, increment);
    if increased.Some? {
      KeptChanged(schema[m], increased.value, set_, idField);
      KeptRewritten(schema, rules, rows, m, id, Changed(increased.value, set_, idField));
    }
  }

  lemma KeptWritten(schema: Schema, rules: Rules, rows: Rows, m: string, w: seq<Where>, change: Change, order: seq<string>)
    requires TypedRows(schema, rows) && m in schema && SafeWhere(schema[m], w) && SafeChange(schema[m], change)
    ensures SameKept(schema, m, Written(rules, rows, m, w, change, order),
                     Written(rules, KeptRows(schema, rows), m, KeptWhere(schema[m], w), KeptChange(schema[m], change), order))
  {
    var table := TableOf(rows, m);
    KeptTableOf(schema, rows, m);
    KeptAll(schema[m], table, order, w);
    KeptFirst(schema[m], table, order, w);
    var matching, first := AllMatches(table, order, w), FirstMatch(table, order, w);
    if change.SetMany? {
      KeptUpdateEach(schema, rules, rows, m, matching, change.update, 0);
    } else if change.RemoveMany? {
      KeptDrop(schema, rows, m, IdSet(matching));
    } else if first.Some? {
      KeptWrittenAt(schema, rules, rows, m, first.value, change);
    }
  }

  // ---------------------------------------------------------------- the simulation

  lemma KeptFindOne(schema: Schema, rules: Rules, rows: Rows, m: string, w: seq<Where>, order: seq<string>)
    requires TypedRows(schema, rows) && m in schema && SafeWhere(schema[m], w)
    ensures SameKept(schema, m, Apply(rules, rows, FindOne(m, w), order),
                     Apply(rules, KeptRows(schema, rows), FindOne(m, KeptWhere(schema[m], w)), order))
  {
    KeptTableOf(schema, rows, m);
    KeptValidWhere(schema[m], w, true);
    KeptFirst(schema[m], TableOf(rows, m), order, w);
  }

  /** Every safe command, on the numbers: the same step as on the booleans, the rows written and
      the answer kept as numbers, from every well-typed store and in every iteration order. */
  lemma KeptApply(schema: Schema, rules: Rules, rows: Rows, command: Command, order: seq<string>)
    requires TypedRows(schema, rows) && command.model in schema && SafeCommand(schema[command.model], command)
    ensures SameKept(schema, command.model, Apply(rules, rows, command, order),
                     Apply(rules, KeptRows(schema, rows), KeptCommand(schema[command.model], command), order))
  {
    var m := command.model;
    KeptTableOf(schema, rows, m);
    match command
    case Create(_, data) => KeptCreated(schema, rules, rows, m, data);
    case FindOne(_, w) => KeptFindOne(schema, rules, rows, m, w, order);
    case FindMany(_, w, limit, offset, sort) => KeptFound(schema[m], TableOf(rows, m), order, w, limit, offset, sort);
    case Count(_, w) => KeptFound(schema[m], TableOf(rows, m), order, w, 1000, 0, None);
    case Write(_, w, change) =>
      KeptValidWhere(schema[m], w, false);
      KeptWritten(schema, rules, rows, m, w, change, order);
  }
}
