/**
 Commands through the mapping adapter: the stored rows always are the logical rows under
 their stored names, and every answer is the logical answer.
 */
module SchemaSimulation {
  import opened Wrappers
  import opened Records
  import opened MemoryStore
  import opened SchemaMapping
  import Scan

  // ---------------------------------------------------------------- the store's rules

  function StoredNames(model: Model, fields: seq<string>): seq<string> {
    seq(|fields|, i requires 0 <= i < |fields| => StoredField(model, fields[i]))
  }

  predicate UniqueField(model: Model, f: string) {
    f in model.fields && model.fields[f].unique && StoredField(model, f) != StoredField(model, Id)
  }

  predicate FieldKey(model: Model, key: seq<string>) {
    exists f | f in model.fields :: UniqueField(model, f) && key == [StoredField(model, f)]
  }

  predicate IndexKey(model: Model, indexes: seq<Index>, key: seq<string>) {
    exists index | index in indexes :: index.unique && index.fields != [] && key == StoredNames(model, index.fields)
  }

  ghost predicate KeysOf(model: Model, keys: seq<seq<string>>) {
    forall key: seq<string> {:trigger key in keys} ::
      key in keys <==> FieldKey(model, key) || IndexKey(model, model.indexes, key)
  }

  /** The rules that rulesFromSchema gives the store. */
  ghost predicate RulesFor(schema: Schema, rules: Rules) {
    forall m | m in schema ::
      && rules.IdField(StoredModel(schema, m)) == StoredField(schema[m], Id)
      && KeysOf(schema[m], rules.Keys(StoredModel(schema, m)))
  }

  method FieldKeys(model: Model) returns (keys: seq<seq<string>>)
    ensures forall key: seq<string> :: key in keys <==> FieldKey(model, key)
  {
    keys := [];
    var rest := model.fields.Keys;
    while rest != {}
      invariant rest <= model.fields.Keys
      invariant forall key | key in keys :: FieldKey(model, key)
      invariant forall f | f in model.fields.Keys - rest :: UniqueField(model, f) ==> [StoredField(model, f)] in keys
    {
      var f :| f in rest;
      if model.fields[f].unique && StoredField(model, f) != StoredField(model, Id) {
        assert UniqueField(model, f);
        keys := keys + [[StoredField(model, f)]];
      }
      rest := rest - {f};
    }
  }

  method IndexKeys(model: Model) returns (keys: seq<seq<string>>)
    ensures forall key: seq<string> :: key in keys <==> IndexKey(model, model.indexes, key)
  {
    keys := [];
    for i := 0 to |model.indexes|
      invariant forall key: seq<string> :: key in keys <==> IndexKey(model, model.indexes[..i], key)
    {
      var index := model.indexes[i];
      assert model.indexes[..i + 1] == model.indexes[..i] + [index];
      if index.unique && |index.fields| > 0 {
        keys := keys + [StoredNames(model, index.fields)];
      }
    }
    assert model.indexes[..|model.indexes|] == model.indexes;
  }

  /** rulesFromSchema. */
  method RulesFromSchema(schema: Schema) returns (rules: Rules)
    requires DistinctModels(schema)
    ensures RulesFor(schema, rules)
  {
    var ids: map<string, string> := map[];
    var unique: map<string, seq<seq<string>>> := map[];
    var rest := schema.Keys;
    while rest != {}
      invariant rest <= schema.Keys
      invariant forall m | m in schema.Keys - rest ::
                  && StoredModel(schema, m) in ids && StoredModel(schema, m) in unique
                  && ids[StoredModel(schema, m)] == StoredField(schema[m], Id)
                  && KeysOf(schema[m], unique[StoredModel(schema, m)])
    {
      var m :| m in rest;
      var model, stored := schema[m], StoredModel(schema, m);
      var fields := FieldKeys(model);
      var indexes := IndexKeys(model);
      ids := ids[stored := StoredField(model, Id)];
      unique := unique[stored := fields + indexes];
      rest := rest - {m};
    }
    return Rules(ids, unique);
  }

  // ---------------------------------------------------------------- the same schema without mapping

  function UnmappedModel(model: Model): Model {
    Model("", map f | f in model.fields :: model.fields[f].(storedName := ""), model.indexes)
  }

  /** The schema in which every stored name is the logical one. */
  function Unmapped(schema: Schema): Schema {
    map m | m in schema :: UnmappedModel(schema[m])
  }

  predicate IndexesDeclared(model: Model) {
    forall index | index in model.indexes :: forall f | f in index.fields :: f in model.fields
  }

  /** The names give every declared field its stored name. */
  predicate NamesFields(names: Names, model: Model) {
    forall f | f in model.fields :: f in names && names[f] == StoredField(model, f)
  }

  lemma KeysAgree(model: Model, names: Names, logical: seq<seq<string>>, stored: seq<seq<string>>)
    requires ValidModel(model) && KeepsId(model) && NamesFields(names, model)
    requires KeysOf(UnmappedModel(model), logical) && KeysOf(model, stored)
    ensures KeysCorrespond(logical, stored, names)
  {
    var plain := UnmappedModel(model);
    assert IndexesDeclared(model);
    forall key | key in logical
      ensures StoredAs(key, stored, names)
    {
      if FieldKey(plain, key) {
        var f :| f in plain.fields && UniqueField(plain, f) && key == [StoredField(plain, f)];
        assert UniqueField(model, f);
        assert RenameKey(key, names) == [StoredField(model, f)];
      } else {
        var index :| index in plain.indexes && index.unique && index.fields != [] && key == StoredNames(plain, index.fields);
        assert key == index.fields;
        assert RenameKey(key, names) == StoredNames(model, key);
        assert IndexKey(model, model.indexes, RenameKey(key, names));
      }
    }
    forall key | key in stored
      ensures ComesFrom(key, logical, names)
    {
      LogicalKeyOf(model, names, logical, key);
    }
  }

  lemma LogicalKeyOf(model: Model, names: Names, logical: seq<seq<string>>, key: seq<string>)
    requires DistinctFields(model) && KeepsId(model) && IndexesDeclared(model) && NamesFields(names, model)
    requires KeysOf(UnmappedModel(model), logical)
    requires FieldKey(model, key) || IndexKey(model, model.indexes, key)
    ensures ComesFrom(key, logical, names)
  {
    var plain := UnmappedModel(model);
    if FieldKey(model, key) {
      var f :| f in model.fields && UniqueField(model, f) && key == [StoredField(model, f)];
      assert UniqueField(plain, f) && [StoredField(plain, f)] == [f];
      assert FieldKey(plain, [f]);
      assert RenameKey([f], names) == key;
    } else {
      var index :| index in model.indexes && index.unique && index.fields != [] && key == StoredNames(model, index.fields);
      assert StoredNames(plain, index.fields) == index.fields;
      assert IndexKey(plain, plain.indexes, index.fields);
      assert RenameKey(index.fields, names) == key;
    }
  }

  // ---------------------------------------------------------------- representation

  /** What the adapter needs beyond an accepted schema; `SchemaExactness` shows that it needs all
      of it. */
  predicate Usable(schema: Schema) {
    && ValidSchema(schema)
    && forall m | m in schema :: UsableModel(schema[m])
  }

  predicate UsableModel(model: Model) {
    KeepsId(model) && KeepsUnnamed(model) && !Confusable(model)
  }

  ghost predicate Declared(schema: Schema, rows: Rows) {
    forall m | m in rows :: m in schema && forall id | id in rows[m] :: rows[m][id].Keys <= NamesOf(schema[m]).Keys
  }

  /** Each stored table is the logical one under its stored names. */
  ghost predicate Represents(schema: Schema, logical: Rows, stored: Rows)
  {
    && Usable(schema) && Declared(schema, logical)
    && forall m | m in schema :: TableRepresents(schema, logical, stored, m)
  }

  ghost predicate TableRepresents(schema: Schema, logical: Rows, stored: Rows, m: string)
    requires m in schema
  {
    && RenamableTable(TableOf(logical, m), NamesOf(schema[m]))
    && TableOf(stored, StoredModel(schema, m)) == RenameTable(TableOf(logical, m), NamesOf(schema[m]))
  }

  lemma Represented(schema: Schema, logical: Rows, stored: Rows, m: string)
    requires Represents(schema, logical, stored) && m in schema
    ensures TableRepresents(schema, logical, stored, m)
  {
  }

  lemma PutTableAt(schema: Schema, logical: Rows, stored: Rows, m: string, table: Table, n: string)
    requires DistinctModels(schema) && m in schema && n in schema
    requires RenamableTable(table, NamesOf(schema[m])) && TableRepresents(schema, logical, stored, n)
    ensures TableRepresents(schema, logical[m := table], stored[StoredModel(schema, m) := RenameTable(table, NamesOf(schema[m]))], n)
  {
    if n != m { assert StoredModel(schema, n) != StoredModel(schema, m); }
  }

  lemma PutDeclared(schema: Schema, logical: Rows, m: string, table: Table)
    requires Usable(schema) && m in schema && Declared(schema, logical)
    requires forall id | id in table :: table[id].Keys <= NamesOf(schema[m]).Keys
    ensures RenamableTable(table, NamesOf(schema[m])) && Declared(schema, logical[m := table])
  {
    assert UsableModel(schema[m]) && ValidModel(schema[m]);
  }

  /** Writing one table on both sides keeps the representation of all of them. */
  lemma PutTable(schema: Schema, logical: Rows, stored: Rows, m: string, table: Table)
    requires Represents(schema, logical, stored) && m in schema
    requires forall id | id in table :: table[id].Keys <= NamesOf(schema[m]).Keys
    ensures RenamableTable(table, NamesOf(schema[m]))
    ensures Represents(schema, logical[m := table], stored[StoredModel(schema, m) := RenameTable(table, NamesOf(schema[m]))])
  {
    PutDeclared(schema, logical, m, table);
    forall n | n in schema
      ensures TableRepresents(schema, logical[m := table], stored[StoredModel(schema, m) := RenameTable(table, NamesOf(schema[m]))], n)
    {
      PutTableAt(schema, logical, stored, m, table, n);
    }
  }

  // ---------------------------------------------------------------- mapped commands

  /** A command over declared fields. */
  predicate DeclaredIn(command: Command, names: Names) {
    && (command.Create? ==> command.data.Keys <= names.Keys)
    && (!command.Create? ==> DeclaredWhere(command.where_, names))
    && (command.FindMany? && command.sort.Some? ==> command.sort.value.field in names)
    && (command.Write? ==> DeclaredChange(command.change, names.Keys))
  }

  predicate DeclaredCommand(schema: Schema, command: Command) {
    command.model in schema && DeclaredIn(command, NamesOf(schema[command.model]))
  }

  predicate DeclaredChange(change: Change, fields: set<string>) {
    && (change.SetOne? || change.SetMany? ==> change.update.Keys <= fields)
    && (change.IncrementOne? ==> change.increment.Keys <= fields && change.set_.Keys <= fields)
  }

  function RenameAmounts(amounts: map<string, real>, names: Names): (r: map<string, real>)
    requires amounts.Keys <= names.Keys && Injective(names)
  {
    map f | f in amounts :: names[f] := amounts[f]
  }

  function RenameChange(change: Change, names: Names): Change
    requires Injective(names) && DeclaredChange(change, names.Keys)
  {
    match change
    case SetOne(update) => SetOne(Rename(update, names))
    case SetMany(update) => SetMany(Rename(update, names))
    case RemoveOne => RemoveOne
    case RemoveMany => RemoveMany
    case ConsumeOne => ConsumeOne
    case IncrementOne(increment, set_) => IncrementOne(RenameAmounts(increment, names), Rename(set_, names))
  }

  function RenameCommand(command: Command, names: Names, stored: string): Command
    requires Injective(names) && DeclaredIn(command, names)
  {
    match command
    case Create(_, data) => Create(stored, Rename(data, names))
    case FindOne(_, w) => FindOne(stored, RenameWhere(w, names))
    case FindMany(_, w, limit, offset, sort) =>
      FindMany(stored, RenameWhere(w, names), limit, offset, RenameSort(sort, names))
    case Count(_, w) => Count(stored, RenameWhere(w, names))
    case Write(_, w, change) => Write(stored, RenameWhere(w, names), RenameChange(change, names))
  }

  /** What the adapter passes on for a command, when the store keeps every type natively. */
  function MapCommand(schema: Schema, command: Command): Command
    requires Usable(schema) && DeclaredCommand(schema, command)
  {
    RenameCommand(command, NamesOf(schema[command.model]), StoredModel(schema, command.model))
  }

  function RenameSort(sort: Option<Sort>, names: Names): Option<Sort>
    requires sort.Some? ==> sort.value.field in names
  {
    if sort.Some? then Some(sort.value.(field := names[sort.value.field])) else None
  }

  predicate DeclaredAnswer(answer: Answer, names: Names) {
    && (answer.Row? && answer.record.Some? ==> Renamable(answer.record.value, names))
    && (answer.RowList? ==> AllRenamable(answer.records, names))
  }

  predicate AllRenamable(records: seq<Record>, names: Names) {
    forall r | r in records :: Renamable(r, names)
  }

  function RenameRecords(records: seq<Record>, names: Names): (r: seq<Record>)
    requires AllRenamable(records, names)
    ensures |r| == |records| && forall i | 0 <= i < |r| :: r[i] == Rename(records[i], names)
  {
    seq(|records|, i requires 0 <= i < |records| => Rename(records[i], names))
  }

  function RenameAnswer(answer: Answer, names: Names): Answer
    requires DeclaredAnswer(answer, names)
  {
    if answer.Row? && answer.record.Some? then Row(Some(Rename(answer.record.value, names)))
    else if answer.RowList? then RowList(RenameRecords(answer.records, names))
    else answer
  }

  // ---------------------------------------------------------------- changes of one record

  function Lookup(record: Record, f: string): Option<Value> {
    if f in record then Some(record[f]) else None
  }

  lemma RenameLookup(record: Record, names: Names, f: string)
    requires Renamable(record, names) && f in names
    ensures Lookup(Rename(record, names), names[f]) == Lookup(record, f)
  {
  }

  lemma RenameKeys(record: Record, names: Names)
    requires Renamable(record, names)
    ensures Rename(record, names).Keys <= names.Values
  {
  }

  lemma SameByNames(a: Record, b: Record, names: Names)
    requires a.Keys <= names.Values && b.Keys <= names.Values
    requires forall f | f in names :: Lookup(a, names[f]) == Lookup(b, names[f])
    ensures a == b
  {
    forall s | s in names.Values
      ensures Lookup(a, s) == Lookup(b, s)
    {
      var f :| f in names && names[f] == s;
    }
    SameByLookup(a, b, names.Values);
  }

  lemma SameByLookup(a: Record, b: Record, all: set<string>)
    requires a.Keys <= all && b.Keys <= all && forall s | s in all :: Lookup(a, s) == Lookup(b, s)
    ensures a == b
  {
    forall s | s in all
      ensures s in a <==> s in b
      ensures s in a ==> a[s] == b[s]
    {
      assert Lookup(a, s) == Lookup(b, s);
    }
    assert a.Keys == b.Keys;
  }

  lemma ChangedLookup(record: Record, update: Record, idField: string, f: string)
    ensures Lookup(Changed(record, update, idField), f)
         == if f in update && f != idField then Lookup(update, f) else Lookup(record, f)
  {
  }

  /** The two sides agree on the id field, declared or not. */
  predicate IdAgrees(names: Names, id: string, sid: string) {
    if id in names then names[id] == sid else sid !in names.Values
  }

  lemma RenameChanged(record: Record, update: Record, names: Names, id: string, sid: string)
    requires Renamable(record, names) && Renamable(update, names) && IdAgrees(names, id, sid)
    ensures Renamable(Changed(record, update, id), names)
    ensures Rename(Changed(record, update, id), names) == Changed(Rename(record, names), Rename(update, names), sid)
  {
    var a, b := Rename(Changed(record, update, id), names), Changed(Rename(record, names), Rename(update, names), sid);
    forall f | f in names
      ensures Lookup(a, names[f]) == Lookup(b, names[f])
    {
      RenameChangedAt(record, update, names, id, sid, f);
    }
    RenameKeys(Changed(record, update, id), names);
    RenameKeys(record, names);
    RenameKeys(update, names);
    SameByNames(a, b, names);
  }

  lemma RenameChangedAt(record: Record, update: Record, names: Names, id: string, sid: string, f: string)
    requires Renamable(record, names) && Renamable(update, names) && IdAgrees(names, id, sid) && f in names
    ensures Renamable(Changed(record, update, id), names)
    ensures Lookup(Rename(Changed(record, update, id), names), names[f])
         == Lookup(Changed(Rename(record, names), Rename(update, names), sid), names[f])
  {
    RenameLookup(Changed(record, update, id), names, f);
    ChangedLookup(record, update, id, f);
    ChangedLookup(Rename(record, names), Rename(update, names), sid, names[f]);
    RenameLookup(record, names, f);
    RenameLookup(update, names, f);
  }

  predicate AllNumbers(record: Record, increment: map<string, real>) {
    forall f | f in increment :: Get(record, f).Number?
  }

  function Increased(record: Record, increment: map<string, real>): Record
    requires AllNumbers(record, increment)
  {
    map f | f in increment :: Number(Float, Get(record, f).amount + increment[f])
  }

  lemma AmountsLookup(amounts: map<string, real>, names: Names, f: string)
    requires amounts.Keys <= names.Keys && Injective(names) && f in names
    ensures names[f] in RenameAmounts(amounts, names) <==> f in amounts
    ensures f in amounts ==> RenameAmounts(amounts, names)[names[f]] == amounts[f]
  {
  }

  lemma NumbersTogether(record: Record, increment: map<string, real>, names: Names)
    requires Renamable(record, names) && increment.Keys <= names.Keys
    ensures AllNumbers(record, increment) == AllNumbers(Rename(record, names), RenameAmounts(increment, names))
  {
    var r, amounts := Rename(record, names), RenameAmounts(increment, names);
    forall f | f in increment
      ensures Get(r, names[f]) == Get(record, f) && names[f] in amounts
    {
      RenameGet(record, names, f);
      AmountsLookup(increment, names, f);
    }
    if AllNumbers(record, increment) {
      forall s | s in amounts
        ensures Get(r, s).Number?
      {
        var f :| f in increment && names[f] == s;
      }
    }
  }

  lemma IncreasedAt(record: Record, increment: map<string, real>, names: Names, f: string)
    requires Renamable(record, names) && increment.Keys <= names.Keys && f in names
    requires AllNumbers(record, increment) && AllNumbers(Rename(record, names), RenameAmounts(increment, names))
    ensures Lookup(Increased(Rename(record, names), RenameAmounts(increment, names)), names[f])
         == Lookup(Increased(record, increment), f)
  {
    AmountsLookup(increment, names, f);
    RenameGet(record, names, f);
  }

  lemma RenameIncreased(record: Record, increment: map<string, real>, names: Names)
    requires Renamable(record, names) && increment.Keys <= names.Keys
    requires AllNumbers(record, increment) && AllNumbers(Rename(record, names), RenameAmounts(increment, names))
    ensures Rename(record + Increased(record, increment), names)
         == Rename(record, names) + Increased(Rename(record, names), RenameAmounts(increment, names))
  {
    var more := Increased(record, increment);
    var more' := Increased(Rename(record, names), RenameAmounts(increment, names));
    var a, b := Rename(record + more, names), Rename(record, names) + more';
    forall f | f in names
      ensures Lookup(a, names[f]) == Lookup(b, names[f])
    {
      RenameLookup(record + more, names, f);
      RenameLookup(record, names, f);
      IncreasedAt(record, increment, names, f);
      PlusLookup(record, more, f);
      PlusLookup(Rename(record, names), more', names[f]);
    }
    RenameKeys(record + more, names);
    RenameKeys(record, names);
    AmountKeys(increment, names);
    SameByNames(a, b, names);
  }

  lemma PlusLookup(a: Record, b: Record, f: string)
    ensures Lookup(a + b, f) == if f in b then Lookup(b, f) else Lookup(a, f)
  {
  }

  lemma AmountKeys(amounts: map<string, real>, names: Names)
    requires amounts.Keys <= names.Keys && Injective(names)
    ensures RenameAmounts(amounts, names).Keys <= names.Values
  {
  }

  lemma RenameIncremented(record: Record, increment: map<string, real>, names: Names)
    requires Renamable(record, names) && increment.Keys <= names.Keys
    ensures var logical, stored := Incremented(record, increment), Incremented(Rename(record, names), RenameAmounts(increment, names));
            && logical.Some? == stored.Some?
            && (logical.Some? ==> Renamable(logical.value, names) && Rename(logical.value, names) == stored.value)
  {
    NumbersTogether(record, increment, names);
    IncrementedIs(record, increment);
    IncrementedIs(Rename(record, names), RenameAmounts(increment, names));
    if AllNumbers(record, increment) { RenameIncreased(record, increment, names); }
  }

  lemma IncrementedIs(record: Record, increment: map<string, real>)
    ensures Incremented(record, increment).Some? <==> AllNumbers(record, increment)
    ensures AllNumbers(record, increment) ==> Incremented(record, increment).value == record + Increased(record, increment)
  {
  }

  // ---------------------------------------------------------------- reading

  lemma RenameRecordsOf(table: Table, names: Names, ids: seq<string>)
    requires RenamableTable(table, names) && forall id | id in ids :: id in table
    ensures AllRenamable(RecordsOf(table, ids), names)
    ensures RecordsOf(RenameTable(table, names), ids) == RenameRecords(RecordsOf(table, ids), names)
  {
    forall r | r in RecordsOf(table, ids)
      ensures Renamable(r, names)
    {
      var i :| 0 <= i < |ids| && r == table[ids[i]];
      assert ids[i] in ids;
    }
    forall i | 0 <= i < |ids|
      ensures RecordsOf(RenameTable(table, names), ids)[i] == Rename(table[ids[i]], names)
    {
      assert ids[i] in ids;
    }
  }

  lemma RenameSortsAfter(left: Record, right: Record, sort: Sort, names: Names)
    requires Renamable(left, names) && Renamable(right, names) && sort.field in names
    ensures SortsAfter(Rename(left, names), Rename(right, names), sort.(field := names[sort.field])) == SortsAfter(left, right, sort)
  {
    RenameGet(left, names, sort.field);
    RenameGet(right, names, sort.field);
  }

  lemma RenameAppend(records: seq<Record>, record: Record, names: Names)
    requires AllRenamable(records, names) && Renamable(record, names)
    ensures AllRenamable(records + [record], names)
    ensures RenameRecords(records + [record], names) == RenameRecords(records, names) + [Rename(record, names)]
  {
  }

  lemma RenameInit(records: seq<Record>, names: Names)
    requires AllRenamable(records, names) && records != []
    ensures AllRenamable(records[..|records| - 1], names) && Renamable(records[|records| - 1], names)
    ensures RenameRecords(records, names)[..|records| - 1] == RenameRecords(records[..|records| - 1], names)
  {
  }

  predicate Moves(sorted: seq<Record>, record: Record, sort: Sort) {
    sorted != [] && SortsAfter(sorted[|sorted| - 1], record, sort)
  }

  lemma RenameMoves(sorted: seq<Record>, record: Record, sort: Sort, names: Names)
    requires AllRenamable(sorted, names) && Renamable(record, names) && sort.field in names
    ensures Moves(RenameRecords(sorted, names), Rename(record, names), sort.(field := names[sort.field])) == Moves(sorted, record, sort)
  {
    if sorted != [] {
      RenameInit(sorted, names);
      RenameSortsAfter(sorted[|sorted| - 1], record, sort, names);
    }
  }

  lemma {:induction false} RenameInsert(sorted: seq<Record>, record: Record, sort: Sort, names: Names)
    requires AllRenamable(sorted, names) && Renamable(record, names) && sort.field in names
    ensures AllRenamable(InsertSorted(sorted, record, sort), names)
    ensures InsertSorted(RenameRecords(sorted, names), Rename(record, names), sort.(field := names[sort.field]))
         == RenameRecords(InsertSorted(sorted, record, sort), names)
  {
    RenameMoves(sorted, record, sort, names);
    if Moves(sorted, record, sort) {
      RenameInit(sorted, names);
      RenameInsert(sorted[..|sorted| - 1], record, sort, names);
      RenameAppend(InsertSorted(sorted[..|sorted| - 1], record, sort), sorted[|sorted| - 1], names);
    } else {
      RenameAppend(sorted, record, names);
    }
  }

  lemma SortedStep(records: seq<Record>, sort: Sort)
    requires records != []
    ensures SortedBy(records, sort) == InsertSorted(SortedBy(records[..|records| - 1], sort), records[|records| - 1], sort)
  {
  }

  lemma {:induction false} RenameSorted(records: seq<Record>, sort: Sort, names: Names)
    requires AllRenamable(records, names) && sort.field in names
    ensures AllRenamable(SortedBy(records, sort), names)
    ensures SortedBy(RenameRecords(records, names), sort.(field := names[sort.field]))
         == RenameRecords(SortedBy(records, sort), names)
  {
    if records != [] {
      var n := |records| - 1;
      RenameInit(records, names);
      RenameSorted(records[..n], sort, names);
      RenameInsert(SortedBy(records[..n], sort), records[n], sort, names);
      SortedStep(records, sort);
      SortedStep(RenameRecords(records, names), sort.(field := names[sort.field]));
    }
  }

  lemma RenamePage(records: seq<Record>, names: Names, limit: nat, offset: nat)
    requires AllRenamable(records, names)
    ensures AllRenamable(Scan.Page(records, limit, offset), names)
    ensures Scan.Page(RenameRecords(records, names), limit, offset) == RenameRecords(Scan.Page(records, limit, offset), names)
  {
  }

  lemma RenameFound(table: Table, names: Names, order: seq<string>, w: seq<Where>, limit: int, offset: int, sort: Option<Sort>)
    requires RenamableTable(table, names) && DeclaredWhere(w, names) && UnnamedStay(names)
    requires sort.Some? ==> sort.value.field in names
    ensures var answer := Found(table, order, w, limit, offset, sort);
            && DeclaredAnswer(answer, names)
            && Found(RenameTable(table, names), order, RenameWhere(w, names), limit, offset, RenameSort(sort, names))
               == RenameAnswer(answer, names)
  {
    RenameValidWhere(w, names, true);
    RenameAll(table, names, order, w);
    var ids := AllMatches(table, order, w);
    RenameRecordsOf(table, names, ids);
    var records := RecordsOf(table, ids);
    if sort.Some? { RenameSorted(records, sort.value, names); }
    var effective := if limit == 0 then 100 else limit;
    if 0 <= effective && 0 <= offset {
      RenamePage(if sort.Some? then SortedBy(records, sort.value) else records, names, effective, offset);
    }
  }

  // ---------------------------------------------------------------- writing

  /** One model on both sides: its names, its id field and its unique keys. */
  ghost predicate RulesAgree(names: Names, id: string, logical: Rules, stored: Rules, m: string, s: string) {
    && logical.IdField(m) == id && IdAgrees(names, id, stored.IdField(s))
    && KeysCorrespond(logical.Keys(m), stored.Keys(s), names)
  }

  predicate Mirrors(names: Names, logical: Table, stored: Table) {
    RenamableTable(logical, names) && stored == RenameTable(logical, names)
  }

  predicate OnlyChanged(before: Rows, after: Rows, m: string) {
    after == before || (m in after && after == before[m := after[m]])
  }

  ghost predicate AnswersAgree(names: Names, logical: Answer, stored: Answer) {
    DeclaredAnswer(logical, names) && stored == RenameAnswer(logical, names)
  }

  /** Both sides did the same to their tables and gave the same answer. */
  ghost predicate SameStep(names: Names, l: Rows, p: Rows, m: string, s: string, logical: (Rows, Answer), stored: (Rows, Answer)) {
    && OnlyChanged(l, logical.0, m) && OnlyChanged(p, stored.0, s)
    && Mirrors(names, TableOf(logical.0, m), TableOf(stored.0, s))
    && AnswersAgree(names, logical.1, stored.1)
  }

  lemma RenameTablePut(table: Table, names: Names, id: string, record: Record)
    requires RenamableTable(table, names) && Renamable(record, names)
    ensures Mirrors(names, table[id := record], RenameTable(table, names)[id := Rename(record, names)])
  {
  }

  lemma RenameTableDrop(table: Table, names: Names, ids: set<string>)
    requires RenamableTable(table, names)
    ensures Mirrors(names, table - ids, RenameTable(table, names) - ids)
  {
  }

  /** The same table written on both sides. */
  lemma PutBoth(names: Names, l: Rows, p: Rows, m: string, s: string, logical: Table, stored: Table)
    requires Mirrors(names, logical, stored)
    ensures OnlyChanged(l, l[m := logical], m) && OnlyChanged(p, p[s := stored], s)
    ensures Mirrors(names, TableOf(l[m := logical], m), TableOf(p[s := stored], s))
  {
  }

  lemma SameConflicts(names: Names, idField: string, lrules: Rules, prules: Rules, l: Rows, p: Rows, m: string, s: string, id: string, record: Record)
    requires Renamable(record, names) && RulesAgree(names, idField, lrules, prules, m, s) && Mirrors(names, TableOf(l, m), TableOf(p, s))
    ensures Conflicts(TableOf(p, s), prules.Keys(s), Rename(record, names), id) == Conflicts(TableOf(l, m), lrules.Keys(m), record, id)
  {
    RenameConflicts(TableOf(l, m), record, names, lrules.Keys(m), prules.Keys(s), id);
  }

  lemma SimulateReplace(names: Names, idField: string, lrules: Rules, prules: Rules, l: Rows, p: Rows, m: string, s: string, id: string, record: Record)
    requires Renamable(record, names) && RulesAgree(names, idField, lrules, prules, m, s) && Mirrors(names, TableOf(l, m), TableOf(p, s))
    ensures var logical, stored := Replace(lrules, l, m, id, record), Replace(prules, p, s, id, Rename(record, names));
            && logical.Some? == stored.Some?
            && (logical.Some? ==> OnlyChanged(l, logical.value, m) && OnlyChanged(p, stored.value, s)
                                  && Mirrors(names, TableOf(logical.value, m), TableOf(stored.value, s)))
  {
    SameConflicts(names, idField, lrules, prules, l, p, m, s, id, record);
    RenameTablePut(TableOf(l, m), names, id, record);
    PutBoth(names, l, p, m, s, TableOf(l, m)[id := record], TableOf(p, s)[id := Rename(record, names)]);
  }

  lemma SimulateDrop(names: Names, l: Rows, p: Rows, m: string, s: string, ids: set<string>, answer: Answer)
    requires Mirrors(names, TableOf(l, m), TableOf(p, s)) && DeclaredAnswer(answer, names)
    ensures SameStep(names, l, p, m, s, (l[m := TableOf(l, m) - ids], answer), (p[s := TableOf(p, s) - ids], RenameAnswer(answer, names)))
  {
    RenameTableDrop(TableOf(l, m), names, ids);
  }

  lemma SameAnswer(names: Names, answer: Answer)
    requires answer.Failed? || answer.Done? || answer.Counted? || answer == Row(None)
    ensures AnswersAgree(names, answer, answer)
  {
  }

  lemma RowAnswer(names: Names, record: Record)
    requires Renamable(record, names)
    ensures AnswersAgree(names, Row(Some(record)), Row(Some(Rename(record, names))))
  {
  }

  lemma Unchanged(names: Names, l: Rows, p: Rows, m: string, s: string, logical: Answer, stored: Answer)
    requires Mirrors(names, TableOf(l, m), TableOf(p, s)) && AnswersAgree(names, logical, stored)
    ensures SameStep(names, l, p, m, s, (l, logical), (p, stored))
  {
  }

  lemma SimulateRewrite(names: Names, idField: string, lrules: Rules, prules: Rules, l: Rows, p: Rows, m: string, s: string, id: string, record: Record)
    requires RulesAgree(names, idField, lrules, prules, m, s) && Mirrors(names, TableOf(l, m), TableOf(p, s)) && Renamable(record, names)
    ensures SameStep(names, l, p, m, s, Rewritten(lrules, l, m, id, record), Rewritten(prules, p, s, id, Rename(record, names)))
  {
    SimulateReplace(names, idField, lrules, prules, l, p, m, s, id, record);
    SameAnswer(names, Failed(Conflict));
    Unchanged(names, l, p, m, s, Failed(Conflict), Failed(Conflict));
    RowAnswer(names, record);
  }

  lemma SimulateChange(names: Names, idField: string, lrules: Rules, prules: Rules, l: Rows, p: Rows, m: string, s: string, id: string, base: Record, update: Record)
    requires RulesAgree(names, idField, lrules, prules, m, s) && Mirrors(names, TableOf(l, m), TableOf(p, s))
    requires Renamable(base, names) && Renamable(update, names)
    ensures SameStep(names, l, p, m, s, Rewritten(lrules, l, m, id, Changed(base, update, idField)),
                     Rewritten(prules, p, s, id, Changed(Rename(base, names), Rename(update, names), prules.IdField(s))))
  {
    RenameChanged(base, update, names, idField, prules.IdField(s));
    SimulateRewrite(names, idField, lrules, prules, l, p, m, s, id, Changed(base, update, idField));
  }

  lemma OnlyChangedTwice(a: Rows, b: Rows, c: Rows, m: string)
    requires OnlyChanged(a, b, m) && OnlyChanged(b, c, m)
    ensures OnlyChanged(a, c, m)
  {
  }

  lemma SameStepAfter(names: Names, l: Rows, p: Rows, l': Rows, p': Rows, m: string, s: string, logical: (Rows, Answer), stored: (Rows, Answer))
    requires OnlyChanged(l, l', m) && OnlyChanged(p, p', s) && SameStep(names, l', p', m, s, logical, stored)
    ensures SameStep(names, l, p, m, s, logical, stored)
  {
    OnlyChangedTwice(l, l', logical.0, m);
    OnlyChangedTwice(p, p', stored.0, s);
  }

  function UpdateStep(rules: Rules, rows: Rows, m: string, id: string, update: Record): Option<Rows>
    requires id in TableOf(rows, m)
  {
    Replace(rules, rows, m, id, Changed(TableOf(rows, m)[id], update, rules.IdField(m)))
  }

  lemma UpdateEachStep(rules: Rules, rows: Rows, m: string, ids: seq<string>, update: Record, count: nat)
    requires ids != [] && ids[0] in TableOf(rows, m)
    ensures var next := UpdateStep(rules, rows, m, ids[0], update);
            UpdateEach(rules, rows, m, ids, update, count)
            == if next.None? then (rows, Failed(Conflict)) else UpdateEach(rules, next.value, m, ids[1..], update, count + 1)
  {
  }

  lemma SimulateUpdateStep(names: Names, idField: string, lrules: Rules, prules: Rules, l: Rows, p: Rows, m: string, s: string, id: string, update: Record)
    requires RulesAgree(names, idField, lrules, prules, m, s) && Mirrors(names, TableOf(l, m), TableOf(p, s))
    requires Renamable(update, names) && id in TableOf(l, m)
    ensures var logical, stored := UpdateStep(lrules, l, m, id, update), UpdateStep(prules, p, s, id, Rename(update, names));
            && logical.Some? == stored.Some?
            && (logical.Some? ==> OnlyChanged(l, logical.value, m) && OnlyChanged(p, stored.value, s)
                                  && Mirrors(names, TableOf(logical.value, m), TableOf(stored.value, s)))
  {
    var record := TableOf(l, m)[id];
    RenameChanged(record, update, names, idField, prules.IdField(s));
    SimulateReplace(names, idField, lrules, prules, l, p, m, s, id, Changed(record, update, idField));
  }

  lemma {:induction false} SimulateUpdateEach(names: Names, idField: string, lrules: Rules, prules: Rules, l: Rows, p: Rows, m: string, s: string, ids: seq<string>, update: Record, count: nat)
    requires RulesAgree(names, idField, lrules, prules, m, s) && Mirrors(names, TableOf(l, m), TableOf(p, s))
    requires Renamable(update, names)
    ensures SameStep(names, l, p, m, s, UpdateEach(lrules, l, m, ids, update, count), UpdateEach(prules, p, s, ids, Rename(update, names), count))
    decreases |ids|
  {
    if ids == [] || ids[0] !in TableOf(l, m) {
      SameAnswer(names, Counted(count));
      Unchanged(names, l, p, m, s, Counted(count), Counted(count));
    } else {
      var logical, stored := UpdateStep(lrules, l, m, ids[0], update), UpdateStep(prules, p, s, ids[0], Rename(update, names));
      SimulateUpdateStep(names, idField, lrules, prules, l, p, m, s, ids[0], update);
      UpdateEachStep(lrules, l, m, ids, update, count);
      UpdateEachStep(prules, p, s, ids, Rename(update, names), count);
      if logical.Some? {
        SimulateUpdateEach(names, idField, lrules, prules, logical.value, stored.value, m, s, ids[1..], update, count + 1);
        SameStepAfter(names, l, p, logical.value, stored.value, m, s, UpdateEach(lrules, logical.value, m, ids[1..], update, count + 1),
                      UpdateEach(prules, stored.value, s, ids[1..], Rename(update, names), count + 1));
      } else {
        SameAnswer(names, Failed(Conflict));
        Unchanged(names, l, p, m, s, Failed(Conflict), Failed(Conflict));
      }
    }
  }

  /** A create that finds its id free. */
  lemma SimulateInsert(names: Names, l: Rows, p: Rows, m: string, s: string, id: string, data: Record)
    requires Mirrors(names, TableOf(l, m), TableOf(p, s)) && Renamable(data, names)
    ensures SameStep(names, l, p, m, s, (l[m := TableOf(l, m)[id := data]], Row(Some(data))),
                     (p[s := TableOf(p, s)[id := Rename(data, names)]], Row(Some(Rename(data, names)))))
  {
    RenameTablePut(TableOf(l, m), names, id, data);
    PutBoth(names, l, p, m, s, TableOf(l, m)[id := data], TableOf(p, s)[id := Rename(data, names)]);
    RowAnswer(names, data);
  }

  lemma RenameId(data: Record, names: Names, id: string, sid: string)
    requires Renamable(data, names) && IdAgrees(names, id, sid)
    ensures Get(Rename(data, names), sid) == Get(data, id)
  {
    RenameKeys(data, names);
    if id in names { RenameGet(data, names, id); }
  }

  lemma SimulateCreate(names: Names, idField: string, lrules: Rules, prules: Rules, l: Rows, p: Rows, m: string, s: string, data: Record)
    requires RulesAgree(names, idField, lrules, prules, m, s) && Mirrors(names, TableOf(l, m), TableOf(p, s))
    requires Renamable(data, names)
    ensures SameStep(names, l, p, m, s, Created(lrules, l, m, data), Created(prules, p, s, Rename(data, names)))
  {
    RenameId(data, names, idField, prules.IdField(s));
    SameConflicts(names, idField, lrules, prules, l, p, m, s, "", data);
    var key := Get(data, idField);
    SameAnswer(names, Failed(IdRequired));
    SameAnswer(names, Failed(Conflict));
    Unchanged(names, l, p, m, s, Failed(IdRequired), Failed(IdRequired));
    Unchanged(names, l, p, m, s, Failed(Conflict), Failed(Conflict));
    if key.Text? { SimulateInsert(names, l, p, m, s, key.text, data); }
  }

  lemma SimulateWrittenAt(names: Names, idField: string, lrules: Rules, prules: Rules, l: Rows, p: Rows, m: string, s: string, id: string, change: Change)
    requires RulesAgree(names, idField, lrules, prules, m, s) && Mirrors(names, TableOf(l, m), TableOf(p, s))
    requires DeclaredChange(change, names.Keys) && Injective(names)
    requires id in TableOf(l, m) && !change.SetMany? && !change.RemoveMany?
    ensures SameStep(names, l, p, m, s, WrittenAt(lrules, l, m, id, change), WrittenAt(prules, p, s, id, RenameChange(change, names)))
  {
    if change.SetOne? {
      SimulateChange(names, idField, lrules, prules, l, p, m, s, id, TableOf(l, m)[id], change.update);
    } else if change.IncrementOne? {
      SimulateIncrement(names, idField, lrules, prules, l, p, m, s, id, change.increment, change.set_);
    } else {
      SimulateRemove(names, lrules, prules, l, p, m, s, id, change);
    }
  }

  lemma SimulateRemove(names: Names, lrules: Rules, prules: Rules, l: Rows, p: Rows, m: string, s: string, id: string, change: Change)
    requires Mirrors(names, TableOf(l, m), TableOf(p, s)) && id in TableOf(l, m)
    requires (change.RemoveOne? || change.ConsumeOne?) && Injective(names)
    ensures SameStep(names, l, p, m, s, WrittenAt(lrules, l, m, id, change), WrittenAt(prules, p, s, id, RenameChange(change, names)))
  {
    var record := TableOf(l, m)[id];
    RowAnswer(names, record);
    if change.ConsumeOne? {
      SimulateDrop(names, l, p, m, s, {id}, Row(Some(record)));
    } else {
      SimulateDrop(names, l, p, m, s, {id}, Done);
    }
  }

  lemma WrittenIncrement(rules: Rules, rows: Rows, m: string, id: string, increment: map<string, real>, set_: Record)
    requires id in TableOf(rows, m)
    ensures var increased, result := Incremented(TableOf(rows, m)[id], increment), WrittenAt(rules, rows, m, id, IncrementOne(increment, set_));
            && (increased.None? ==> result == (rows, Failed(NotNumeric)))
            && (increased.Some? ==> result == Rewritten(rules, rows, m, id, Changed(increased.value, set_, rules.IdField(m))))
  {
  }

  lemma SimulateIncrement(names: Names, idField: string, lrules: Rules, prules: Rules, l: Rows, p: Rows, m: string, s: string, id: string, increment: map<string, real>, set_: Record)
    requires RulesAgree(names, idField, lrules, prules, m, s) && Mirrors(names, TableOf(l, m), TableOf(p, s))
    requires increment.Keys <= names.Keys && Renamable(set_, names) && id in TableOf(l, m)
    ensures SameStep(names, l, p, m, s, WrittenAt(lrules, l, m, id, IncrementOne(increment, set_)),
                     WrittenAt(prules, p, s, id, IncrementOne(RenameAmounts(increment, names), Rename(set_, names))))
  {
    var record := TableOf(l, m)[id];
    RenameIncremented(record, increment, names);
    WrittenIncrement(lrules, l, m, id, increment, set_);
    WrittenIncrement(prules, p, s, id, RenameAmounts(increment, names), Rename(set_, names));
    var increased := Incremented(record, increment);
    if increased.Some? {
      SimulateChange(names, idField, lrules, prules, l, p, m, s, id, increased.value, set_);
    } else {
      SameAnswer(names, Failed(NotNumeric));
      Unchanged(names, l, p, m, s, Failed(NotNumeric), Failed(NotNumeric));
    }
  }

  lemma SimulateWritten(names: Names, idField: string, lrules: Rules, prules: Rules, l: Rows, p: Rows, m: string, s: string, w: seq<Where>, change: Change, order: seq<string>)
    requires RulesAgree(names, idField, lrules, prules, m, s) && Mirrors(names, TableOf(l, m), TableOf(p, s))
    requires DeclaredChange(change, names.Keys) && Injective(names) && DeclaredWhere(w, names)
    ensures SameStep(names, l, p, m, s, Written(lrules, l, m, w, change, order), Written(prules, p, s, RenameWhere(w, names), RenameChange(change, names), order))
  {
    if change.SetMany? || change.RemoveMany? {
      SimulateBulk(names, idField, lrules, prules, l, p, m, s, w, change, order);
    } else {
      SimulateOne(names, idField, lrules, prules, l, p, m, s, w, change, order);
    }
  }

  lemma SimulateBulk(names: Names, idField: string, lrules: Rules, prules: Rules, l: Rows, p: Rows, m: string, s: string, w: seq<Where>, change: Change, order: seq<string>)
    requires RulesAgree(names, idField, lrules, prules, m, s) && Mirrors(names, TableOf(l, m), TableOf(p, s))
    requires DeclaredChange(change, names.Keys) && Injective(names) && DeclaredWhere(w, names) && (change.SetMany? || change.RemoveMany?)
    ensures SameStep(names, l, p, m, s, Written(lrules, l, m, w, change, order), Written(prules, p, s, RenameWhere(w, names), RenameChange(change, names), order))
  {
    RenameAll(TableOf(l, m), names, order, w);
    var matching := AllMatches(TableOf(l, m), order, w);
    if change.SetMany? {
      SimulateUpdateEach(names, idField, lrules, prules, l, p, m, s, matching, change.update, 0);
    } else {
      SimulateDrop(names, l, p, m, s, IdSet(matching), Counted(|matching|));
    }
  }

  lemma SimulateOne(names: Names, idField: string, lrules: Rules, prules: Rules, l: Rows, p: Rows, m: string, s: string, w: seq<Where>, change: Change, order: seq<string>)
    requires RulesAgree(names, idField, lrules, prules, m, s) && Mirrors(names, TableOf(l, m), TableOf(p, s))
    requires DeclaredChange(change, names.Keys) && Injective(names) && DeclaredWhere(w, names) && !change.SetMany? && !change.RemoveMany?
    ensures SameStep(names, l, p, m, s, Written(lrules, l, m, w, change, order), Written(prules, p, s, RenameWhere(w, names), RenameChange(change, names), order))
  {
    RenameFirst(TableOf(l, m), names, order, w);
    var first, stored := FirstMatch(TableOf(l, m), order, w), RenameChange(change, names);
    if first.Some? {
      SimulateWrittenAt(names, idField, lrules, prules, l, p, m, s, first.value, change);
    } else {
      var answer := if change.RemoveOne? then Done else Row(None);
      SameAnswer(names, answer);
      Unchanged(names, l, p, m, s, answer, answer);
    }
  }

  // ---------------------------------------------------------------- the simulation

  ghost predicate ModelRulesAgree(schema: Schema, logical: Rules, stored: Rules, m: string)
    requires m in schema
  {
    RulesAgree(NamesOf(schema[m]), Id, logical, stored, m, StoredModel(schema, m))
  }

  lemma SchemaRulesAgree(schema: Schema, logical: Rules, stored: Rules, m: string)
    requires Usable(schema) && m in schema && RulesFor(Unmapped(schema), logical) && RulesFor(schema, stored)
    ensures ModelRulesAgree(schema, logical, stored, m)
  {
    assert StoredModel(Unmapped(schema), m) == m;
    assert UsableModel(schema[m]) && ValidModel(schema[m]);
    KeysAgree(schema[m], NamesOf(schema[m]), logical.Keys(m), stored.Keys(StoredModel(schema, m)));
  }

  lemma StepRepresents(schema: Schema, l: Rows, p: Rows, m: string, logical: (Rows, Answer), stored: (Rows, Answer))
    requires Represents(schema, l, p) && m in schema
    requires SameStep(NamesOf(schema[m]), l, p, m, StoredModel(schema, m), logical, stored)
    ensures Represents(schema, logical.0, stored.0)
  {
    var table := TableOf(logical.0, m);
    Represented(schema, l, p, m);
    assert forall id | id in table :: table[id].Keys <= NamesOf(schema[m]).Keys;
    PutTable(schema, l, p, m, table);
    SameTables(l, logical.0, m);
    SameTables(p, stored.0, StoredModel(schema, m));
    if logical.0 != l { assert logical.0 == l[m := table]; }
  }

  lemma SameTables(before: Rows, after: Rows, m: string)
    requires OnlyChanged(before, after, m)
    ensures forall n {:trigger TableOf(after, n)} :: TableOf(after, n) == TableOf(before[m := TableOf(after, m)], n)
  {
  }

  lemma SimulateFindOne(names: Names, l: Rows, p: Rows, m: string, s: string, w: seq<Where>, order: seq<string>)
    requires Mirrors(names, TableOf(l, m), TableOf(p, s)) && DeclaredWhere(w, names)
    ensures var first := FirstMatch(TableOf(l, m), order, w);
            && FirstMatch(TableOf(p, s), order, RenameWhere(w, names)) == first
            && (first.Some? ==> AnswersAgree(names, Row(Some(TableOf(l, m)[first.value])), Row(Some(TableOf(p, s)[first.value]))))
  {
    RenameFirst(TableOf(l, m), names, order, w);
    var first := FirstMatch(TableOf(l, m), order, w);
    if first.Some? { RowAnswer(names, TableOf(l, m)[first.value]); }
  }

  lemma SimulateCommand(names: Names, id: string, lrules: Rules, prules: Rules, l: Rows, p: Rows, s: string, command: Command, order: seq<string>)
    requires RulesAgree(names, id, lrules, prules, command.model, s) && Mirrors(names, TableOf(l, command.model), TableOf(p, s))
    requires Injective(names) && DeclaredIn(command, names) && UnnamedStay(names)
    ensures SameStep(names, l, p, command.model, s, Apply(lrules, l, command, order), Apply(prules, p, RenameCommand(command, names, s), order))
  {
    var m := command.model;
    if command.Create? {
      SimulateCreate(names, id, lrules, prules, l, p, m, s, command.data);
    } else if command.FindOne? {
      RenameValidWhere(command.where_, names, true);
      SimulateFindOne(names, l, p, m, s, command.where_, order);
      SameAnswer(names, Row(None));
      SameAnswer(names, Failed(InvalidWhere));
    } else if command.FindMany? {
      RenameFound(TableOf(l, m), names, order, command.where_, command.limit, command.offset, command.sort);
    } else if command.Count? {
      RenameFound(TableOf(l, m), names, order, command.where_, 1000, 0, None);
    } else {
      RenameValidWhere(command.where_, names, false);
      SameAnswer(names, Failed(InvalidWhere));
      SameAnswer(names, Failed(EmptyIncrement));
      SimulateWritten(names, id, lrules, prules, l, p, m, s, command.where_, command.change, order);
      SameEmptiness(command.change, names);
    }
  }

  lemma SameEmptiness(change: Change, names: Names)
    requires Injective(names) && DeclaredChange(change, names.Keys)
    ensures change.IncrementOne? == RenameChange(change, names).IncrementOne?
    ensures change.IncrementOne? ==> ((change.increment == map[]) == (RenameChange(change, names).increment == map[]))
  {
    if change.IncrementOne? && change.increment != map[] {
      var f :| f in change.increment;
      AmountsLookup(change.increment, names, f);
    }
  }

  lemma UsableNames(schema: Schema, m: string)
    requires Usable(schema) && m in schema
    ensures Injective(NamesOf(schema[m])) && UnnamedStay(NamesOf(schema[m]))
  {
    assert UsableModel(schema[m]) && ValidModel(schema[m]);
  }

  /** One command through the mapping adapter, on any iteration order: the stored rows keep
      representing the logical rows, and the answer is the logical answer under stored names,
      which is what outputRecord undoes. */
  lemma SimulateApply(schema: Schema, lrules: Rules, prules: Rules, l: Rows, p: Rows, command: Command, order: seq<string>)
    requires RulesFor(Unmapped(schema), lrules) && RulesFor(schema, prules)
    requires Represents(schema, l, p) && DeclaredCommand(schema, command)
    ensures var logical, stored := Apply(lrules, l, command, order), Apply(prules, p, MapCommand(schema, command), order);
            && Represents(schema, logical.0, stored.0)
            && AnswersAgree(NamesOf(schema[command.model]), logical.1, stored.1)
  {
    var m := command.model;
    SchemaRulesAgree(schema, lrules, prules, m);
    Represented(schema, l, p, m);
    UsableNames(schema, m);
    SimulateCommand(NamesOf(schema[m]), Id, lrules, prules, l, p, StoredModel(schema, m), command, order);
    StepRepresents(schema, l, p, m, Apply(lrules, l, command, order), Apply(prules, p, MapCommand(schema, command), order));
  }

  ghost predicate DeclaredScript(schema: Schema, commands: seq<Command>) {
    forall c | c in commands :: DeclaredCommand(schema, c)
  }

  function MapScript(schema: Schema, commands: seq<Command>): (r: seq<Command>)
    requires Usable(schema) && DeclaredScript(schema, commands)
    ensures |r| == |commands|
  {
    if commands == [] then [] else [MapCommand(schema, commands[0])] + MapScript(schema, commands[1..])
  }

  /** Whole scripts, which is also what a transaction commits. */
  lemma {:induction false} SimulateScript(schema: Schema, lrules: Rules, prules: Rules, l: Rows, p: Rows, commands: seq<Command>, orders: seq<seq<string>>)
    requires RulesFor(Unmapped(schema), lrules) && RulesFor(schema, prules)
    requires Represents(schema, l, p) && DeclaredScript(schema, commands) && |orders| == |commands|
    ensures Represents(schema, RunAll(lrules, l, commands, orders), RunAll(prules, p, MapScript(schema, commands), orders))
    decreases |commands|
  {
    if commands != [] {
      SimulateApply(schema, lrules, prules, l, p, commands[0], orders[0]);
      SimulateScript(schema, lrules, prules, Apply(lrules, l, commands[0], orders[0]).0,
                     Apply(prules, p, MapCommand(schema, commands[0]), orders[0]).0, commands[1..], orders[1..]);
    }
  }
}
