/**
 The mapping adapter as callers use it: names mapped, and booleans converted when the store
 below has none. A caller sees the logical store.
 */
module MappingAdapter {
  import opened Wrappers
  import opened Records
  import opened MemoryStore
  import opened SchemaMapping
  import opened SchemaSimulation
  import opened SchemaBooleans

  // ---------------------------------------------------------------- both conversions together

  /** The logical rows in the values that the store below can keep. */
  function RowsAs(schema: Schema, booleans: bool, rows: Rows): Rows {
    if booleans then rows else KeptRows(schema, rows)
  }

  function CommandAs(model: Model, booleans: bool, command: Command): Command {
    if booleans then command else KeptCommand(model, command)
  }

  function AnswerAs(model: Model, booleans: bool, answer: Answer): Answer {
    if booleans then answer else KeptAnswer(model, answer)
  }

  /** Commands over declared fields; on a store without booleans, safe ones. */
  predicate Allowed(schema: Schema, booleans: bool, command: Command) {
    DeclaredCommand(schema, command) && (booleans || SafeCommand(schema[command.model], command))
  }

  /** The logical rows and the store below them. */
  ghost predicate Shows(schema: Schema, booleans: bool, logical: Rows, stored: Rows) {
    && (booleans || TypedRows(schema, logical))
    && Represents(schema, RowsAs(schema, booleans, logical), stored)
  }

  lemma DeclaredAs(schema: Schema, booleans: bool, command: Command)
    requires DeclaredCommand(schema, command)
    ensures CommandAs(schema[command.model], booleans, command).model == command.model
    ensures DeclaredCommand(schema, CommandAs(schema[command.model], booleans, command))
  {
  }

  /** What the adapter passes on. */
  function PassedOn(schema: Schema, booleans: bool, command: Command): Command
    requires Usable(schema) && DeclaredCommand(schema, command)
  {
    DeclaredAs(schema, booleans, command);
    MapCommand(schema, CommandAs(schema[command.model], booleans, command))
  }

  /** One command through the adapter, over a store with booleans or without: the store goes on
      showing the logical rows, and the answer is the logical one as the store keeps it. */
  lemma SimulatePassed(schema: Schema, booleans: bool, lrules: Rules, prules: Rules, l: Rows, p: Rows, command: Command, order: seq<string>)
    requires RulesFor(Unmapped(schema), lrules) && RulesFor(schema, prules)
    requires Shows(schema, booleans, l, p) && Allowed(schema, booleans, command)
    ensures var logical, stored := Apply(lrules, l, command, order), Apply(prules, p, PassedOn(schema, booleans, command), order);
            && Shows(schema, booleans, logical.0, stored.0)
            && (booleans || TypedAnswer(schema[command.model], logical.1))
            && AnswersAgree(NamesOf(schema[command.model]), AnswerAs(schema[command.model], booleans, logical.1), stored.1)
  {
    var model := schema[command.model];
    DeclaredAs(schema, booleans, command);
    SimulateApply(schema, lrules, prules, RowsAs(schema, booleans, l), p, CommandAs(model, booleans, command), order);
    if !booleans { KeptApply(schema, lrules, l, command, order); }
  }

  /** The column of a field: its stored name, or its own when it has none. */
  function ColumnOf(model: Model, f: string): string {
    if f in model.fields && model.fields[f].storedName != "" then model.fields[f].storedName else f
  }

  /** A record goes to the stored table, each value into the column of its field. */
  lemma StoredInItsColumns(schema: Schema, booleans: bool, m: string, data: Record, f: string)
    requires Usable(schema) && DeclaredCommand(schema, Create(m, data)) && f in data
    ensures var passed := PassedOn(schema, booleans, Create(m, data));
            && passed.Create? && passed.model == (if schema[m].storedName != "" then schema[m].storedName else m)
            && passed.data.Keys == (set g | g in data :: ColumnOf(schema[m], g))
            && passed.data[ColumnOf(schema[m], f)] ==
                 if booleans || !data[f].Boolean? || !IsBoolean(schema[m], f) then data[f]
                 else Number(Integer, if data[f].flag then 1.0 else 0.0)
  {
    var names := NamesOf(schema[m]);
    UsableNames(schema, m);
    assert names[f] == ColumnOf(schema[m], f);
    var kept := if booleans then data else Kept(schema[m], data);
    assert PassedOn(schema, booleans, Create(m, data)).data == Rename(kept, names);
    assert Rename(kept, names)[names[f]] == kept[f];
  }

  // ---------------------------------------------------------------- translating

  method FieldAmounts(model: Model, amounts: map<string, real>) returns (stored: map<string, real>)
    requires amounts.Keys <= NamesOf(model).Keys && Injective(NamesOf(model))
    ensures stored == RenameAmounts(amounts, NamesOf(model))
  {
    var names := NamesOf(model);
    stored := map[];
    var rest := amounts.Keys;
    while rest != {}
      invariant rest <= amounts.Keys
      invariant stored == RenameAmounts(amounts - rest, names)
    {
      var f :| f in rest;
      AmountsMore(amounts, names, rest, f);
      stored := stored[StoredField(model, f) := amounts[f]];
      rest := rest - {f};
    }
    assert amounts - rest == amounts;
  }

  lemma AmountsMore(amounts: map<string, real>, names: Names, rest: set<string>, f: string)
    requires amounts.Keys <= names.Keys && Injective(names) && f in amounts && f in rest
    ensures RenameAmounts(amounts - rest, names)[names[f] := amounts[f]] == RenameAmounts(amounts - (rest - {f}), names)
  {
    var a, b := RenameAmounts(amounts - rest, names)[names[f] := amounts[f]], RenameAmounts(amounts - (rest - {f}), names);
    forall g | g in names
      ensures (names[g] in a <==> names[g] in b) && (names[g] in a && names[g] in b ==> a[names[g]] == b[names[g]])
    {
      AmountsLookup(amounts - rest, names, g);
      AmountsLookup(amounts - (rest - {f}), names, g);
    }
    AmountKeys(amounts - rest, names);
    AmountKeys(amounts - (rest - {f}), names);
    SameAmounts(a, b, names);
  }

  lemma SameAmounts(a: map<string, real>, b: map<string, real>, names: Names)
    requires a.Keys <= names.Values && b.Keys <= names.Values
    requires forall f | f in names :: (names[f] in a <==> names[f] in b) && (names[f] in a && names[f] in b ==> a[names[f]] == b[names[f]])
    ensures a == b
  {
    forall s | s in names.Values
      ensures (s in a <==> s in b) && (s in a && s in b ==> a[s] == b[s])
    {
      var f :| f in names && names[f] == s;
    }
    assert forall s | s in a.Keys :: s in names.Values;
    assert forall s | s in b.Keys :: s in names.Values;
    assert a.Keys == b.Keys;
  }

  ghost predicate AllowedScript(schema: Schema, booleans: bool, commands: seq<Command>) {
    forall c | c in commands :: Allowed(schema, booleans, c)
  }

  lemma SameIds(schema: Schema, booleans: bool, logical: Rows, stored: Rows, m: string)
    requires Shows(schema, booleans, logical, stored) && m in schema
    ensures TableOf(stored, StoredModel(schema, m)).Keys == TableOf(logical, m).Keys
  {
    Represented(schema, RowsAs(schema, booleans, logical), stored, m);
    if !booleans { KeptTableOf(schema, logical, m); }
  }

  lemma ValuesAs(model: Model, booleans: bool, record: Record)
    ensures InputValues(model, booleans, record) == if booleans then record else Kept(model, record)
  {
  }

  /** The records of a stored answer are the logical ones, converted and under stored names. */
  lemma AnswerShown(model: Model, booleans: bool, logical: Answer, stored: Answer)
    requires AnswersAgree(NamesOf(model), AnswerAs(model, booleans, logical), stored)
    ensures stored.Row? && stored.record.Some? ==>
              && logical.Row? && logical.record.Some? && Renamable(logical.record.value, NamesOf(model))
              && stored.record.value == Rename(InputValues(model, booleans, logical.record.value), NamesOf(model))
    ensures stored.RowList? ==>
              && logical.RowList? && |stored.records| == |logical.records|
              && forall i | 0 <= i < |logical.records| ::
                   Renamable(logical.records[i], NamesOf(model))
                   && stored.records[i] == Rename(InputValues(model, booleans, logical.records[i]), NamesOf(model))
    ensures !(stored.Row? && stored.record.Some?) && !stored.RowList? ==> stored == logical
  {
    if logical.Row? && logical.record.Some? {
      ValuesAs(model, booleans, logical.record.value);
    } else if logical.RowList? {
      RecordsShown(model, booleans, logical.records, stored.records);
    }
  }

  lemma RecordsShown(model: Model, booleans: bool, logical: seq<Record>, stored: seq<Record>)
    requires var kept := if booleans then logical else KeptRecords(model, logical);
             AllRenamable(kept, NamesOf(model)) && stored == RenameRecords(kept, NamesOf(model))
    ensures |stored| == |logical|
    ensures forall i | 0 <= i < |logical| ::
              && Renamable(logical[i], NamesOf(model))
              && stored[i] == Rename(InputValues(model, booleans, logical[i]), NamesOf(model))
  {
    var kept := if booleans then logical else KeptRecords(model, logical);
    forall i | 0 <= i < |logical|
      ensures Renamable(logical[i], NamesOf(model)) && stored[i] == Rename(InputValues(model, booleans, logical[i]), NamesOf(model))
    {
      assert kept[i] in kept;
      ValuesAs(model, booleans, logical[i]);
    }
  }

  lemma WhereAs(model: Model, booleans: bool, where_: seq<Where>, mapped: seq<Where>)
    requires DeclaredWhere(where_, NamesOf(model)) && |mapped| == |where_|
    requires forall i | 0 <= i < |where_| ::
               mapped[i] == where_[i].(field := NamesOf(model)[where_[i].field],
                                       value := InputValue(model, booleans, where_[i].field, where_[i].value))
    ensures var converted := if booleans then where_ else KeptWhere(model, where_);
            DeclaredWhere(converted, NamesOf(model)) && mapped == RenameWhere(converted, NamesOf(model))
  {
  }

  /** The mapping adapter over an adapter that keeps its rows as the in-memory one does, with
      booleans or without. `logical` is the store a caller sees. */
  class SchemaAdapter {
    const schema: Schema
    const booleans: bool
    const inner: MemoryAdapter
    ghost const logicalRules: Rules
    ghost var logical: Rows

    ghost predicate Valid()
      reads this, inner
    {
      && RulesFor(Unmapped(schema), logicalRules) && RulesFor(schema, inner.rules)
      && Shows(schema, booleans, logical, inner.rows)
    }

    constructor (schema: Schema, booleans: bool, inner: MemoryAdapter, ghost logicalRules: Rules, ghost logical: Rows)
      requires RulesFor(Unmapped(schema), logicalRules) && RulesFor(schema, inner.rules)
      requires Shows(schema, booleans, logical, inner.rows)
      ensures Valid() && this.schema == schema && this.booleans == booleans && this.inner == inner
      ensures this.logicalRules == logicalRules && this.logical == logical
    {
      this.schema, this.booleans, this.inner := schema, booleans, inner;
      this.logicalRules, this.logical := logicalRules, logical;
    }

    method Translate(command: Command) returns (stored: Command)
      requires Usable(schema) && DeclaredCommand(schema, command)
      ensures stored == PassedOn(schema, booleans, command)
    {
      var model, name := schema[command.model], StoredModel(schema, command.model);
      UsableNames(schema, command.model);
      match command {
        case Create(_, data) =>
          var record := InputRecord(model, booleans, data);
          ValuesAs(model, booleans, data);
          return Create(name, record);
        case FindOne(_, w) =>
          var mapped := TranslateWhere(model, w);
          return FindOne(name, mapped);
        case FindMany(_, w, limit, offset, sort) =>
          var mapped := TranslateWhere(model, w);
          var order := sort;
          if sort.Some? {
            order := Some(sort.value.(field := StoredField(model, sort.value.field)));
          }
          return FindMany(name, mapped, limit, offset, order);
        case Count(_, w) =>
          var mapped := TranslateWhere(model, w);
          return Count(name, mapped);
        case Write(_, w, change) =>
          var mapped := TranslateWhere(model, w);
          var mappedChange := TranslateChange(model, change);
          return Write(name, mapped, mappedChange);
      }
    }

    method TranslateWhere(model: Model, w: seq<Where>) returns (mapped: seq<Where>)
      requires DeclaredWhere(w, NamesOf(model))
      ensures var converted := if booleans then w else KeptWhere(model, w);
              DeclaredWhere(converted, NamesOf(model)) && mapped == RenameWhere(converted, NamesOf(model))
    {
      mapped := MapWhere(model, booleans, w);
      WhereAs(model, booleans, w, mapped);
    }

    method TranslateChange(model: Model, change: Change) returns (stored: Change)
      requires Injective(NamesOf(model)) && DeclaredChange(change, NamesOf(model).Keys)
      ensures var converted := if booleans then change else KeptChange(model, change);
              DeclaredChange(converted, NamesOf(model).Keys) && stored == RenameChange(converted, NamesOf(model))
    {
      match change {
        case SetOne(update) =>
          var record := InputRecord(model, booleans, update);
          ValuesAs(model, booleans, update);
          return SetOne(record);
        case SetMany(update) =>
          var record := InputRecord(model, booleans, update);
          ValuesAs(model, booleans, update);
          return SetMany(record);
        case RemoveOne => return RemoveOne;
        case RemoveMany => return RemoveMany;
        case ConsumeOne => return ConsumeOne;
        case IncrementOne(increment, set_) =>
          var amounts := FieldAmounts(model, increment);
          var record := InputRecord(model, booleans, set_);
          ValuesAs(model, booleans, set_);
          return IncrementOne(amounts, record);
      }
    }

    method Logical(m: string, ghost original: Record, stored: Record) returns (record: Record)
      requires Usable(schema) && m in schema && original.Keys <= NamesOf(schema[m]).Keys
      requires booleans || WellTyped(schema[m], original)
      requires Injective(NamesOf(schema[m])) && stored == Rename(InputValues(schema[m], booleans, original), NamesOf(schema[m]))
      ensures record == original
    {
      assert ValidModel(schema[m]) && UsableModel(schema[m]);
      record := OutputRecord(schema[m], booleans, InputValues(schema[m], booleans, original), stored);
      ValuesRoundTrip(schema[m], booleans, original);
    }

    method LogicalRecords(m: string, ghost originals: seq<Record>, stored: seq<Record>) returns (records: seq<Record>)
      requires Usable(schema) && m in schema && (booleans || TypedRecords(schema[m], originals))
      requires |stored| == |originals|
      requires forall i | 0 <= i < |originals| ::
                 Renamable(originals[i], NamesOf(schema[m]))
                 && stored[i] == Rename(InputValues(schema[m], booleans, originals[i]), NamesOf(schema[m]))
      ensures records == originals
    {
      records := [];
      for i := 0 to |stored|
        invariant records == originals[..i]
      {
        var record := Logical(m, originals[i], stored[i]);
        records := records + [record];
      }
    }

    method LogicalAnswer(m: string, ghost expected: Answer, raw: Answer) returns (answer: Answer)
      requires Usable(schema) && m in schema && (booleans || TypedAnswer(schema[m], expected))
      requires AnswersAgree(NamesOf(schema[m]), AnswerAs(schema[m], booleans, expected), raw)
      ensures answer == expected
    {
      AnswerShown(schema[m], booleans, expected, raw);
      UsableNames(schema, m);
      if raw.Row? && raw.record.Some? {
        var record := Logical(m, expected.record.value, raw.record.value);
        return Row(Some(record));
      }
      if raw.RowList? {
        var records := LogicalRecords(m, expected.records, raw.records);
        return RowList(records);
      }
      return raw;
    }

    /** Every operation answers as the logical store would, and changes it as it would. */
    method Execute(command: Command) returns (answer: Answer, ghost order: seq<string>)
      requires Valid() && Allowed(schema, booleans, command)
      modifies this, inner
      ensures Valid()
      ensures Enumerates(order, TableOf(old(logical), command.model))
      ensures (logical, answer) == Apply(logicalRules, old(logical), command, order)
    {
      var m := command.model;
      var stored := Translate(command);
      SameIds(schema, booleans, logical, inner.rows, m);
      var raw;
      raw, order := inner.Execute(stored);
      SimulatePassed(schema, booleans, logicalRules, inner.rules, old(logical), old(inner.rows), command, order);
      ghost var expected := Apply(logicalRules, logical, command, order).1;
      logical := Apply(logicalRules, logical, command, order).0;
      answer := LogicalAnswer(m, expected, raw);
    }

    /** A transaction hands its callback a mapping adapter over the inner transaction. */
    method Transaction(commands: seq<Command>, fails: bool) returns (ghost orders: seq<seq<string>>)
      requires Valid() && AllowedScript(schema, booleans, commands)
      modifies this, inner
      ensures Valid() && |orders| == |commands|
      ensures logical == if fails then old(logical) else RunAll(logicalRules, old(logical), commands, orders)
    {
      var transaction := Begin();
      orders := transaction.RunCommands(commands);
      if !fails {
        inner.rows := transaction.inner.rows;
        logical := transaction.logical;
      }
    }

    method Begin() returns (transaction: SchemaAdapter)
      requires Valid()
      ensures fresh(transaction) && fresh(transaction.inner) && transaction.Valid()
      ensures transaction.schema == schema && transaction.booleans == booleans && transaction.logicalRules == logicalRules && transaction.inner.rules == inner.rules
      ensures transaction.logical == logical
    {
      var copy := new MemoryAdapter(inner.rules, inner.rows);
      transaction := new SchemaAdapter(schema, booleans, copy, logicalRules, logical);
    }

    method RunCommands(commands: seq<Command>) returns (ghost orders: seq<seq<string>>)
      requires Valid() && AllowedScript(schema, booleans, commands)
      modifies this, inner
      ensures Valid() && |orders| == |commands|
      ensures logical == RunAll(logicalRules, old(logical), commands, orders)
    {
      orders := [];
      for i := 0 to |commands|
        invariant Valid() && |orders| == i
        invariant logical == RunAll(logicalRules, old(logical), commands[..i], orders)
      {
        ghost var order;
        var answer;
        assert commands[i] in commands;
        answer, order := Execute(commands[i]);
        OneMore(logicalRules, old(logical), commands, i, orders, order);
        orders := orders + [order];
      }
      assert commands[..|commands|] == commands;
    }
  }

  lemma OneMore(rules: Rules, rows: Rows, commands: seq<Command>, i: nat, orders: seq<seq<string>>, order: seq<string>)
    requires i < |commands| && |orders| == i
    ensures RunAll(rules, rows, commands[..i + 1], orders + [order])
         == Apply(rules, RunAll(rules, rows, commands[..i], orders), commands[i], order).0
  {
    assert commands[..i + 1] == commands[..i] + [commands[i]];
    RunAllAppend(rules, rows, commands[..i], orders, [commands[i]], [order]);
    assert [commands[i]][1..] == [] && [order][1..] == [];
  }
}
