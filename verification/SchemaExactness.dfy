/**
 When the mapping adapter shows the logical store, over all the schemas it accepts: the
 conditions under which every command behaves alike, and schemas that fail them.
 */
module SchemaExactness {
  import opened Wrappers
  import opened Records
  import opened MemoryStore
  import opened SchemaMapping
  import opened SchemaSimulation

  /** The names of the declared fields alone, which is one-to-one for every accepted model. */
  function FieldNames(model: Model): (names: Names)
    ensures NamesFields(names, model) && names.Keys == model.fields.Keys
    ensures DistinctFields(model) ==> Injective(names)
  {
    map f | f in model.fields :: StoredField(model, f)
  }

  ghost predicate HoldsAt(schema: Schema, l: Rows, p: Rows, m: string)
    requires m in schema
  {
    Mirrors(FieldNames(schema[m]), TableOf(l, m), TableOf(p, StoredModel(schema, m)))
  }

  /** Every stored table is the logical one under its stored names. */
  ghost predicate Holds(schema: Schema, l: Rows, p: Rows) {
    forall m | m in schema :: HoldsAt(schema, l, p, m)
  }

  predicate FieldCommand(schema: Schema, command: Command) {
    command.model in schema && DeclaredIn(command, FieldNames(schema[command.model]))
  }

  function StoredCommand(schema: Schema, command: Command): Command
    requires ValidSchema(schema) && FieldCommand(schema, command)
  {
    assert ValidModel(schema[command.model]);
    RenameCommand(command, FieldNames(schema[command.model]), StoredModel(schema, command.model))
  }

  /** One command leaves both stores alike and answers alike. */
  ghost predicate Alike(schema: Schema, lrules: Rules, prules: Rules, l: Rows, p: Rows, command: Command, order: seq<string>)
    requires ValidSchema(schema) && FieldCommand(schema, command)
  {
    var logical, stored := Apply(lrules, l, command, order), Apply(prules, p, StoredCommand(schema, command), order);
    Holds(schema, logical.0, stored.0) && AnswersAgree(FieldNames(schema[command.model]), logical.1, stored.1)
  }

  /** Every command over declared fields, from any two stores that are alike. */
  ghost predicate AlwaysAlike(schema: Schema, lrules: Rules, prules: Rules)
    requires ValidSchema(schema)
  {
    forall l: Rows, p: Rows, command: Command, order: seq<string> {:trigger Alike(schema, lrules, prules, l, p, command, order)} |
      Holds(schema, l, p) && FieldCommand(schema, command) && Enumerates(order, TableOf(l, command.model)) ::
      Alike(schema, lrules, prules, l, p, command, order)
  }

  /** The same from two empty stores, for one command. */
  ghost predicate FirstAlike(schema: Schema, lrules: Rules, prules: Rules)
    requires ValidSchema(schema)
  {
    forall command: Command {:trigger FieldCommand(schema, command)} | FieldCommand(schema, command) ::
      Alike(schema, lrules, prules, map[], map[], command, [])
  }

  ghost predicate AllKeep(schema: Schema) {
    forall m | m in schema :: KeepsId(schema[m]) && KeepsUnnamed(schema[m])
  }

  ghost predicate AllReadBack(schema: Schema) {
    forall m | m in schema :: forall f | f in schema[m].fields :: ReadsBack(schema[m], f)
  }

  /** Over every accepted schema: all commands from all stores behave alike exactly when each
      model keeps "id" and "" for themselves, and one command on empty stores tells. */
  lemma AlikeIffKept(schema: Schema, lrules: Rules, prules: Rules)
    requires ValidSchema(schema) && RulesFor(Unmapped(schema), lrules) && RulesFor(schema, prules)
    ensures AlwaysAlike(schema, lrules, prules) <==> AllKeep(schema)
    ensures FirstAlike(schema, lrules, prules) <==> AllKeep(schema)
  {
    EmptyHolds(schema);
    if AllKeep(schema) {
      forall l: Rows, p: Rows, command: Command, order: seq<string> | Holds(schema, l, p) && FieldCommand(schema, command)
        ensures Alike(schema, lrules, prules, l, p, command, order)
      {
        KeptIsAlike(schema, lrules, prules, l, p, command, order);
      }
    } else {
      var command := FirstDiffers(schema, lrules, prules);
      assert Enumerates([], TableOf(map[], command.model));
    }
  }

  /** One command on empty stores tells when a model does not keep them. */
  lemma FirstDiffers(schema: Schema, lrules: Rules, prules: Rules) returns (command: Command)
    requires ValidSchema(schema) && RulesFor(Unmapped(schema), lrules) && RulesFor(schema, prules)
    requires !AllKeep(schema)
    ensures FieldCommand(schema, command) && !Alike(schema, lrules, prules, map[], map[], command, [])
  {
    var m :| m in schema && !(KeepsId(schema[m]) && KeepsUnnamed(schema[m]));
    if !KeepsId(schema[m]) {
      command := CreateDiffers(schema, lrules, prules, m, "x");
    } else {
      command := FindDiffers(schema, lrules, prules, m);
    }
  }

  /** What SimulateApply asks of a schema is what the adapter needs: alike stores and answers,
      and stored names that read back as the fields they came from in every search order. */
  lemma UsableIsExact(schema: Schema, lrules: Rules, prules: Rules)
    requires ValidSchema(schema) && RulesFor(Unmapped(schema), lrules) && RulesFor(schema, prules)
    ensures AlwaysAlike(schema, lrules, prules) && AllReadBack(schema) <==> Usable(schema)
  {
    AlikeIffKept(schema, lrules, prules);
    forall m | m in schema
      ensures (forall f | f in schema[m].fields :: ReadsBack(schema[m], f)) <==> !Confusable(schema[m])
    {
      assert ValidModel(schema[m]);
      SearchIsInverse(schema[m]);
    }
    assert forall m | m in schema :: UsableModel(schema[m]) <==> KeepsId(schema[m]) && KeepsUnnamed(schema[m]) && !Confusable(schema[m]);
  }

  // ---------------------------------------------------------------- the conditions suffice

  lemma FieldRulesAgree(schema: Schema, lrules: Rules, prules: Rules, m: string)
    requires ValidSchema(schema) && m in schema && KeepsId(schema[m])
    requires RulesFor(Unmapped(schema), lrules) && RulesFor(schema, prules)
    ensures RulesAgree(FieldNames(schema[m]), Id, lrules, prules, m, StoredModel(schema, m))
  {
    assert StoredModel(Unmapped(schema), m) == m;
    assert ValidModel(schema[m]);
    KeysAgree(schema[m], FieldNames(schema[m]), lrules.Keys(m), prules.Keys(StoredModel(schema, m)));
  }

  lemma StepHolds(schema: Schema, l: Rows, p: Rows, m: string, logical: (Rows, Answer), stored: (Rows, Answer))
    requires ValidSchema(schema) && Holds(schema, l, p) && m in schema
    requires SameStep(FieldNames(schema[m]), l, p, m, StoredModel(schema, m), logical, stored)
    ensures Holds(schema, logical.0, stored.0)
  {
    forall n | n in schema
      ensures HoldsAt(schema, logical.0, stored.0, n)
    {
      if n != m {
        assert StoredModel(schema, n) != StoredModel(schema, m) && HoldsAt(schema, l, p, n);
        assert TableOf(logical.0, n) == TableOf(l, n);
        assert TableOf(stored.0, StoredModel(schema, n)) == TableOf(p, StoredModel(schema, n));
      }
    }
  }

  lemma KeptIsAlike(schema: Schema, lrules: Rules, prules: Rules, l: Rows, p: Rows, command: Command, order: seq<string>)
    requires ValidSchema(schema) && AllKeep(schema) && RulesFor(Unmapped(schema), lrules) && RulesFor(schema, prules)
    requires Holds(schema, l, p) && FieldCommand(schema, command)
    ensures Alike(schema, lrules, prules, l, p, command, order)
  {
    var m := command.model;
    var s, names := StoredModel(schema, m), FieldNames(schema[m]);
    assert ValidModel(schema[m]) && HoldsAt(schema, l, p, m);
    FieldRulesAgree(schema, lrules, prules, m);
    assert UnnamedStay(names);
    SimulateCommand(names, Id, lrules, prules, l, p, s, command, order);
    StepHolds(schema, l, p, m, Apply(lrules, l, command, order), Apply(prules, p, StoredCommand(schema, command), order));
  }

  // ---------------------------------------------------------------- and they are needed

  lemma EmptyHolds(schema: Schema)
    requires ValidSchema(schema)
    ensures Holds(schema, map[], map[])
  {
    forall m | m in schema
      ensures HoldsAt(schema, map[], map[], m)
    {
      assert ValidModel(schema[m]);
    }
  }

  lemma IdFields(schema: Schema, lrules: Rules, prules: Rules, m: string)
    requires m in schema && RulesFor(Unmapped(schema), lrules) && RulesFor(schema, prules)
    ensures lrules.IdField(m) == Id && prules.IdField(StoredModel(schema, m)) == StoredField(schema[m], Id)
  {
    assert m in Unmapped(schema) && StoredModel(Unmapped(schema), m) == m;
    assert StoredField(UnmappedModel(schema[m]), Id) == Id;
  }

  lemma CreateOnEmpty(rules: Rules, m: string, data: Record)
    ensures var key, result := Get(data, rules.IdField(m)), Created(rules, map[], m, data).1;
            if key.Text? && key.text != "" then result == Row(Some(data)) else result == Failed(IdRequired)
  {
  }

  lemma StoredCreate(schema: Schema, m: string, f: string, text: string)
    requires ValidSchema(schema) && m in schema && f in schema[m].fields
    ensures var command := Create(m, map[f := Text(text)]);
            && FieldCommand(schema, command)
            && StoredCommand(schema, command) == Create(StoredModel(schema, m), map[StoredField(schema[m], f) := Text(text)])
  {
    assert ValidModel(schema[m]);
    RenamedField(FieldNames(schema[m]), f, Text(text));
  }

  lemma RefusedOnOneSide(schema: Schema, lrules: Rules, prules: Rules, l: Rows, p: Rows, command: Command, order: seq<string>)
    requires ValidSchema(schema) && FieldCommand(schema, command)
    requires Apply(lrules, l, command, order).1.Failed? && Apply(prules, p, StoredCommand(schema, command), order).1.Row?
    ensures !Alike(schema, lrules, prules, l, p, command, order)
  {
  }

  lemma CreateAnswers(rules: Rules, m: string, data: Record)
    ensures var key, result := Get(data, rules.IdField(m)), Apply(rules, map[], Create(m, data), []).1;
            if key.Text? && key.text != "" then result == Row(Some(data)) else result == Failed(IdRequired)
  {
    CreateOnEmpty(rules, m, data);
  }

  /** Where another field is stored as "id", a record without an id is refused by the logical
      store and stored by the adapter. */
  lemma CreateDiffers(schema: Schema, lrules: Rules, prules: Rules, m: string, text: string) returns (command: Command)
    requires ValidSchema(schema) && RulesFor(Unmapped(schema), lrules) && RulesFor(schema, prules)
    requires m in schema && !KeepsId(schema[m]) && text != ""
    ensures command.Create? && FieldCommand(schema, command) && Get(command.data, Id) == Nil
    ensures Apply(lrules, map[], command, []).1 == Failed(IdRequired)
    ensures Apply(prules, map[], StoredCommand(schema, command), []).1 == Row(Some(map[Id := Text(text)]))
    ensures !Alike(schema, lrules, prules, map[], map[], command, [])
  {
    var f :| f in schema[m].fields && StoredField(schema[m], f) == Id;
    command := Create(m, map[f := Text(text)]);
    IdFields(schema, lrules, prules, m);
    StoredCreate(schema, m, f, text);
    CreateAnswers(lrules, m, command.data);
    CreateAnswers(prules, StoredModel(schema, m), map[Id := Text(text)]);
    RefusedOnOneSide(schema, lrules, prules, map[], map[], command, []);
  }

  lemma RenamedField(names: Names, f: string, value: Value)
    requires Injective(names) && f in names
    ensures Renamable(map[f := value], names) && Rename(map[f := value], names) == map[names[f] := value]
  {
    RenamePut(map[], names, f, value);
    assert Rename(map[], names) == map[] && map[][f := value] == map[f := value];
  }

  /** Where a field named "" has a stored name, a search for it is refused by the logical store
      and runs on the adapter. */
  lemma FindDiffers(schema: Schema, lrules: Rules, prules: Rules, m: string) returns (command: Command)
    requires ValidSchema(schema) && m in schema && !KeepsUnnamed(schema[m])
    ensures command.FindOne? && FieldCommand(schema, command)
    ensures Apply(lrules, map[], command, []).1 == Failed(InvalidWhere)
    ensures Apply(prules, map[], StoredCommand(schema, command), []).1 == Row(None)
    ensures !Alike(schema, lrules, prules, map[], map[], command, [])
  {
    var c := Where("", EQ, Nil, And, Sensitive);
    command := FindOne(m, [c]);
    assert ValidModel(schema[m]);
    assert [c][0].field == "" && c in [c];
    var stored := StoredCommand(schema, command);
    assert stored.where_[0].field == schema[m].fields[""].storedName;
    assert ValidWhere(stored.where_, true);
  }

  // ---------------------------------------------------------------- accepted schemas that differ

  /** A model whose only field is stored as "id". */
  function HandleSchema(): Schema {
    map["member" := Model("", map["handle" := Field("id", false, false)], [])]
  }

  /** A model that stores a field named "". */
  function UnnamedSchema(): Schema {
    map["member" := Model("", map["" := Field("blank", false, false)], [])]
  }

  lemma HandleDiffers(lrules: Rules, prules: Rules)
    ensures ValidSchema(HandleSchema())
    ensures RulesFor(Unmapped(HandleSchema()), lrules) && RulesFor(HandleSchema(), prules) ==>
              !FirstAlike(HandleSchema(), lrules, prules) && !AlwaysAlike(HandleSchema(), lrules, prules)
  {
    var schema, model, handle := HandleSchema(), "member", "handle";
    assert StoredField(schema[model], handle) == Id && !KeepsId(schema[model]);
    if RulesFor(Unmapped(schema), lrules) && RulesFor(schema, prules) { AlikeIffKept(schema, lrules, prules); }
  }

  lemma UnnamedDiffers(lrules: Rules, prules: Rules)
    ensures ValidSchema(UnnamedSchema())
    ensures RulesFor(Unmapped(UnnamedSchema()), lrules) && RulesFor(UnnamedSchema(), prules) ==>
              !FirstAlike(UnnamedSchema(), lrules, prules) && !AlwaysAlike(UnnamedSchema(), lrules, prules)
  {
    var schema, model := UnnamedSchema(), "member";
    assert !KeepsUnnamed(schema[model]);
    if RulesFor(Unmapped(schema), lrules) && RulesFor(schema, prules) { AlikeIffKept(schema, lrules, prules); }
  }

  /** The adapter's own names, "id" included, are one-to-one exactly when "id" is kept. */
  lemma NamesAreInjective(model: Model)
    requires DistinctFields(model)
    ensures Injective(NamesOf(model)) <==> KeepsId(model)
  {
    if !KeepsId(model) {
      var f :| f in model.fields && StoredField(model, f) == Id;
      assert NamesOf(model)[f] == NamesOf(model)[Id];
    }
  }
}
