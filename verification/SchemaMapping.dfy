/**
 The adapter that maps logical model and field names to stored ones. Running a command
 through it on stored names is the same as running it on a store with logical names.
 */
module SchemaMapping {
  import opened Strings
  import opened Records
  import opened MemoryStore

  /** Of the field types only boolean matters here: a store without booleans keeps numbers. */
  datatype Field = Field(storedName: string, unique: bool, boolean: bool)

  datatype Index = Index(name: string, fields: seq<string>, unique: bool)

  datatype Model = Model(storedName: string, fields: map<string, Field>, indexes: seq<Index>)

  type Schema = map<string, Model>

  // ---------------------------------------------------------------- names

  function StoredModel(schema: Schema, logical: string): string {
    if logical in schema && schema[logical].storedName != "" then schema[logical].storedName else logical
  }

  function StoredField(model: Model, logical: string): string {
    if logical in model.fields && model.fields[logical].storedName != "" then model.fields[logical].storedName else logical
  }

  predicate DistinctFields(model: Model) {
    forall f, g | f in model.fields && g in model.fields && StoredField(model, f) == StoredField(model, g) :: f == g
  }

  predicate ValidIndexes(model: Model) {
    && (forall i | 0 <= i < |model.indexes| :: ValidIndex(model, model.indexes[i]))
    && (forall i, j | 0 <= i < j < |model.indexes| :: model.indexes[i].name != model.indexes[j].name)
  }

  predicate ValidModel(model: Model) {
    DistinctFields(model) && ValidIndexes(model)
  }

  predicate DistinctModels(schema: Schema) {
    forall m, n | m in schema && n in schema && StoredModel(schema, m) == StoredModel(schema, n) :: m == n
  }

  /** What validateSchema accepts. */
  predicate ValidSchema(schema: Schema) {
    DistinctModels(schema) && forall m | m in schema :: ValidModel(schema[m])
  }

  method ValidateFields(model: Model) returns (valid: bool)
    ensures valid == DistinctFields(model)
  {
    var seen: map<string, string> := map[];
    var rest := model.fields.Keys;
    while rest != {}
      invariant rest <= model.fields.Keys
      invariant forall f | f in model.fields.Keys - rest :: StoredField(model, f) in seen
      invariant forall s | s in seen :: seen[s] in model.fields.Keys - rest && StoredField(model, seen[s]) == s
      invariant forall f, g | f in model.fields.Keys - rest && g in model.fields.Keys - rest
                  && StoredField(model, f) == StoredField(model, g) :: f == g
    {
      var f :| f in rest;
      var stored := StoredField(model, f);
      if stored in seen && seen[stored] != f {
        return false;
      }
      seen := seen[stored := f];
      rest := rest - {f};
    }
    return true;
  }

  predicate ValidIndex(model: Model, index: Index) {
    index.name != "" && |index.fields| >= 2 && forall f | f in index.fields :: f in model.fields
  }

  method ValidateIndexes(model: Model) returns (valid: bool)
    ensures valid == ValidIndexes(model)
  {
    var names: set<string> := {};
    for i := 0 to |model.indexes|
      invariant names == set k | 0 <= k < i :: model.indexes[k].name
      invariant forall k | 0 <= k < i :: ValidIndex(model, model.indexes[k])
      invariant forall j, k | 0 <= j < k < i :: model.indexes[j].name != model.indexes[k].name
    {
      var index := model.indexes[i];
      if index.name == "" || |index.fields| < 2 || index.name in names {
        return false;
      }
      if !(forall f | f in index.fields :: f in model.fields) {
        return false;
      }
      names := names + {index.name};
    }
    return true;
  }

  method ValidateSchema(schema: Schema) returns (valid: bool)
    ensures valid == ValidSchema(schema)
  {
    var seen: map<string, string> := map[];
    var rest := schema.Keys;
    while rest != {}
      invariant rest <= schema.Keys
      invariant forall m | m in schema.Keys - rest :: StoredModel(schema, m) in seen && ValidModel(schema[m])
      invariant forall s | s in seen :: seen[s] in schema.Keys - rest && StoredModel(schema, seen[s]) == s
      invariant forall m, n | m in schema.Keys - rest && n in schema.Keys - rest
                  && StoredModel(schema, m) == StoredModel(schema, n) :: m == n
    {
      var m :| m in rest;
      var stored := StoredModel(schema, m);
      if stored in seen && seen[stored] != m {
        return false;
      }
      var fields := ValidateFields(schema[m]);
      var indexes := ValidateIndexes(schema[m]);
      if !fields || !indexes {
        return false;
      }
      seen := seen[stored := m];
      rest := rest - {m};
    }
    return true;
  }

  // ---------------------------------------------------------------- renaming one record

  /** Logical to stored field names of one model. */
  type Names = map<string, string>

  predicate Injective(names: Names) {
    forall f, g | f in names && g in names && names[f] == names[g] :: f == g
  }

  const Id := "id"

  /** The names a record of the model may use: the declared fields, and "id", which a model need
      not declare. */
  function NamesOf(model: Model): (names: Names)
    ensures names.Keys == model.fields.Keys + {Id}
    ensures DistinctFields(model) && KeepsId(model) ==> Injective(names)
  {
    map f | f in model.fields.Keys + {Id} :: StoredField(model, f)
  }

  /** A model without an "id" of its own maps no other field there. */
  predicate KeepsId(model: Model) {
    Id in model.fields || forall f | f in model.fields :: StoredField(model, f) != Id
  }

  /** A field named "" keeps that name. No other field can be stored as "". */
  predicate KeepsUnnamed(model: Model) {
    "" in model.fields ==> model.fields[""].storedName == ""
  }

  /** Only "" itself may be stored as "": predicates refuse that name on either side. */
  predicate UnnamedStay(names: Names) {
    forall f | f in names :: f == "" <==> names[f] == ""
  }

  predicate Renamable(record: Record, names: Names) {
    record.Keys <= names.Keys && Injective(names)
  }

  function Rename(record: Record, names: Names): (r: Record)
    requires Renamable(record, names)
  {
    map f | f in record :: names[f] := record[f]
  }

  // ---------------------------------------------------------------- values

  predicate IsBoolean(model: Model, field: string) {
    field in model.fields && model.fields[field].boolean
  }

  /** inputValue: a store without booleans gets 1 or 0. */
  function InputValue(model: Model, booleans: bool, field: string, value: Value): Value {
    if IsBoolean(model, field) && !booleans && value.Boolean?
    then Number(Integer, if value.flag then 1.0 else 0.0) else value
  }

  const TrueTexts: set<string> := {"1", "t", "T", "TRUE", "true", "True"}

  /** outputValue: any kind of number reads as "not zero", and text through strconv.ParseBool. */
  function OutputValue(model: Model, booleans: bool, field: string, value: Value): Value {
    if IsBoolean(model, field) && !booleans then
      if value.Number? then Boolean(value.amount != 0.0)
      else if value.Text? then Boolean(value.text in TrueTexts)
      else value
    else value
  }

  function InputValues(model: Model, booleans: bool, record: Record): (r: Record)
    ensures r.Keys == record.Keys
  {
    map f | f in record :: InputValue(model, booleans, f, record[f])
  }

  function OutputValues(model: Model, booleans: bool, record: Record): (r: Record)
    ensures r.Keys == record.Keys
  {
    map f | f in record :: OutputValue(model, booleans, f, record[f])
  }

  /** A store without booleans can be written only booleans and nil in a boolean field. */
  predicate WellTyped(model: Model, record: Record) {
    forall f | f in record && IsBoolean(model, f) :: record[f].Nil? || record[f].Boolean?
  }

  lemma ValuesRoundTrip(model: Model, booleans: bool, record: Record)
    requires booleans || WellTyped(model, record)
    ensures OutputValues(model, booleans, InputValues(model, booleans, record)) == record
    ensures booleans ==> InputValues(model, booleans, record) == record && OutputValues(model, booleans, record) == record
  {
  }

  // ---------------------------------------------------------------- reading and writing records

  /** inputRecord. */
  method InputRecord(model: Model, booleans: bool, record: Record) returns (stored: Record)
    requires Renamable(record, NamesOf(model))
    ensures stored == Rename(InputValues(model, booleans, record), NamesOf(model))
  {
    var names := NamesOf(model);
    ghost var converted := InputValues(model, booleans, record);
    stored := map[];
    var rest := record.Keys;
    while rest != {}
      invariant rest <= record.Keys
      invariant stored == Rename(converted - rest, names)
    {
      var logical :| logical in rest;
      stored := stored[StoredField(model, logical) := InputValue(model, booleans, logical, record[logical])];
      RenameMore(converted, names, rest, logical);
      rest := rest - {logical};
    }
    assert converted - rest == converted;
  }

  lemma RenameMore(record: Record, names: Names, rest: set<string>, f: string)
    requires Renamable(record, names) && f in record && f in rest
    ensures Renamable(record - rest, names) && Renamable(record - (rest - {f}), names)
    ensures Rename(record - rest, names)[names[f] := record[f]] == Rename(record - (rest - {f}), names)
  {
    var after := record - (rest - {f});
    assert after == (record - rest)[f := record[f]];
    RenamePut(record - rest, names, f, record[f]);
  }

  lemma RenamePut(record: Record, names: Names, f: string, value: Value)
    requires Renamable(record, names) && f in names
    ensures Renamable(record[f := value], names)
    ensures Rename(record[f := value], names) == Rename(record, names)[names[f] := value]
  {
    var a, b := Rename(record[f := value], names), Rename(record, names)[names[f] := value];
    forall s | s in a
      ensures s in b && b[s] == a[s]
    {
      var g := StoredFrom(record[f := value], names, s);
      if g != f { assert g in record && Rename(record, names)[names[g]] == record[g]; }
    }
    forall s | s in b
      ensures s in a
    {
      if s == names[f] {
        assert f in record[f := value];
      } else {
        var g := StoredFrom(record, names, s);
        assert g in record[f := value];
      }
    }
    assert a.Keys == b.Keys;
  }

  predicate IsStoredName(model: Model, stored: string) {
    exists f | f in model.fields :: model.fields[f].storedName == stored
  }

  /** What the search for the field with a stored name may return: Go ranges over the fields in
      any order. */
  predicate CanFind(model: Model, stored: string, found: string) {
    if IsStoredName(model, stored) then found in model.fields && model.fields[found].storedName == stored else found == stored
  }

  /** logicalField: the field whose stored name this is, or the name itself. */
  method LogicalField(model: Model, stored: string) returns (logical: string)
    ensures CanFind(model, stored, logical)
  {
    var rest := model.fields.Keys;
    while rest != {}
      invariant rest <= model.fields.Keys
      invariant forall f | f in model.fields.Keys - rest :: model.fields[f].storedName != stored
    {
      var f :| f in rest;
      if model.fields[f].storedName == stored {
        return f;
      }
      rest := rest - {f};
    }
    return stored;
  }

  /** The search confuses an unmapped field named "" with every other unmapped field. */
  predicate Confusable(model: Model) {
    "" in model.fields && model.fields[""].storedName == "" && exists g | g in model.fields :: g != "" && model.fields[g].storedName == ""
  }

  ghost predicate ReadsBack(model: Model, f: string)
    requires f in model.fields
  {
    forall found {:trigger CanFind(model, StoredField(model, f), found)} :: CanFind(model, StoredField(model, f), found) ==> found == f
  }

  /** Every stored field reads back as the field it came from, whatever order the search takes,
      exactly when no such confusion is possible. */
  lemma SearchIsInverse(model: Model)
    requires DistinctFields(model)
    ensures (forall f | f in model.fields :: ReadsBack(model, f)) <==> !Confusable(model)
  {
    if Confusable(model) {
      var g :| g in model.fields && g != "" && model.fields[g].storedName == "";
      assert CanFind(model, StoredField(model, ""), g);
      assert !ReadsBack(model, "");
    } else {
      forall f, found | f in model.fields && CanFind(model, StoredField(model, f), found)
        ensures found == f
      {
        LogicalIsInverse(model, f, found);
      }
    }
  }

  /** outputRecord finds every field under its own name again, also when names are swapped. */
  method OutputRecord(model: Model, booleans: bool, ghost original: Record, stored: Record) returns (logical: Record)
    requires ValidModel(model) && KeepsId(model) && !Confusable(model) && original.Keys <= NamesOf(model).Keys
    requires stored == Rename(original, NamesOf(model))
    ensures logical == OutputValues(model, booleans, original)
  {
    logical := map[];
    ghost var names, converted := NamesOf(model), OutputValues(model, booleans, original);
    var rest := stored.Keys;
    while rest != {}
      invariant rest <= stored.Keys
      invariant Restored(converted, names, rest, logical)
    {
      var s :| s in rest;
      var name := LogicalField(model, s);
      ghost var f := StoredFrom(original, names, s);
      LogicalIsInverse(model, f, name);
      RestoreMore(converted, names, rest, logical, f);
      logical := logical[name := OutputValue(model, booleans, name, stored[s])];
      rest := rest - {s};
    }
    RestoredAll(converted, names, logical);
  }

  lemma StoredFrom(record: Record, names: Names, s: string) returns (f: string)
    requires Renamable(record, names) && s in Rename(record, names)
    ensures f in record && names[f] == s && Rename(record, names)[s] == record[f]
  {
    f :| f in record && names[f] == s;
  }

  predicate Restored(original: Record, names: Names, rest: set<string>, logical: Record)
    requires original.Keys <= names.Keys
  {
    && (forall f | f in logical :: f in original && logical[f] == original[f])
    && (forall f | f in original :: f in logical <==> names[f] !in rest)
  }

  lemma RestoreMore(original: Record, names: Names, rest: set<string>, logical: Record, f: string)
    requires Renamable(original, names) && Restored(original, names, rest, logical)
    requires f in original && names[f] in rest
    ensures Restored(original, names, rest - {names[f]}, logical[f := original[f]])
  {
  }

  lemma RestoredAll(original: Record, names: Names, logical: Record)
    requires Renamable(original, names) && Restored(original, names, {}, logical)
    ensures logical == original
  {
  }

  lemma LogicalIsInverse(model: Model, f: string, found: string)
    requires DistinctFields(model) && !Confusable(model) && (f in model.fields || (f == Id && KeepsId(model)))
    requires CanFind(model, StoredField(model, f), found)
    ensures found == f
  {
    var s := StoredField(model, f);
    if f in model.fields {
      if model.fields[f].storedName != "" {
        assert model.fields[f].storedName == s;
        assert StoredField(model, found) == s;
      } else if IsStoredName(model, s) && s != "" {
        assert StoredField(model, found) == s;
      }
    } else {
      assert forall g | g in model.fields :: model.fields[g].storedName == s ==> StoredField(model, g) == s;
    }
  }

  lemma RenameGet(record: Record, names: Names, f: string)
    requires Renamable(record, names) && f in names
    ensures Get(Rename(record, names), names[f]) == Get(record, f)
  {
  }

  // ---------------------------------------------------------------- renaming predicates

  predicate DeclaredWhere(where_: seq<Where>, names: Names) {
    forall i | 0 <= i < |where_| :: where_[i].field in names
  }

  function RenameWhere(where_: seq<Where>, names: Names): (r: seq<Where>)
    requires DeclaredWhere(where_, names)
    ensures |r| == |where_|
    ensures forall i | 0 <= i < |r| :: r[i] == where_[i].(field := names[where_[i].field])
  {
    seq(|where_|, i requires 0 <= i < |where_| => where_[i].(field := names[where_[i].field]))
  }

  /** where: names and values of a predicate. */
  method MapWhere(model: Model, booleans: bool, where_: seq<Where>) returns (mapped: seq<Where>)
    requires DeclaredWhere(where_, NamesOf(model))
    ensures |mapped| == |where_|
    ensures forall i | 0 <= i < |where_| ::
              mapped[i] == where_[i].(field := NamesOf(model)[where_[i].field],
                                      value := InputValue(model, booleans, where_[i].field, where_[i].value))
    ensures booleans ==> mapped == RenameWhere(where_, NamesOf(model))
  {
    mapped := [];
    var names := NamesOf(model);
    for i := 0 to |where_|
      invariant |mapped| == i
      invariant forall k | 0 <= k < i ::
                  mapped[k] == where_[k].(field := names[where_[k].field],
                                          value := InputValue(model, booleans, where_[k].field, where_[k].value))
    {
      var c := where_[i];
      mapped := mapped + [c.(field := StoredField(model, c.field), value := InputValue(model, booleans, c.field, c.value))];
    }
  }

  lemma RenameMatches(record: Record, where_: seq<Where>, names: Names)
    requires Renamable(record, names) && DeclaredWhere(where_, names)
    ensures Matches(Rename(record, names), RenameWhere(where_, names)) == Matches(record, where_)
  {
    var r, w := Rename(record, names), RenameWhere(where_, names);
    forall i | 0 <= i < |w|
      ensures MatchesAt(r, w[i]) == MatchesAt(record, where_[i]) && w[i].connector == where_[i].connector
    {
      RenameGet(record, names, where_[i].field);
    }
    SameByIndex(record, where_, r, w);
    MatchesByIndex(record, where_);
    MatchesByIndex(r, w);
  }

  lemma SameByIndex(a: Record, v: seq<Where>, b: Record, w: seq<Where>)
    requires |v| == |w| && forall i | 0 <= i < |w| :: MatchesAt(b, w[i]) == MatchesAt(a, v[i]) && w[i].connector == v[i].connector
    ensures AndsByIndex(b, w) == AndsByIndex(a, v) && HasOr(w) == HasOr(v) && OrByIndex(b, w) == OrByIndex(a, v)
  {
  }

  predicate AndsByIndex(record: Record, where_: seq<Where>) {
    forall i | 0 <= i < |where_| :: where_[i].connector == And ==> MatchesAt(record, where_[i])
  }

  predicate HasOr(where_: seq<Where>) {
    exists i | 0 <= i < |where_| :: where_[i].connector == Or
  }

  predicate OrByIndex(record: Record, where_: seq<Where>) {
    exists i | 0 <= i < |where_| :: where_[i].connector == Or && MatchesAt(record, where_[i])
  }

  lemma MatchesByIndex(record: Record, where_: seq<Where>)
    ensures Matches(record, where_) <==> AndsByIndex(record, where_) && (HasOr(where_) ==> OrByIndex(record, where_))
  {
    if HasOr(where_) {
      var i :| 0 <= i < |where_| && where_[i].connector == Or;
      assert where_[i] in where_;
    }
    if OrByIndex(record, where_) {
      var i :| 0 <= i < |where_| && where_[i].connector == Or && MatchesAt(record, where_[i]);
      assert where_[i] in where_;
    }
    if AndsByIndex(record, where_) {
      assert forall c | c in where_ && c.connector == And :: MatchesAt(record, c);
    }
  }

  lemma RenameValidWhere(where_: seq<Where>, names: Names, allowEmpty: bool)
    requires DeclaredWhere(where_, names) && UnnamedStay(names)
    ensures ValidWhere(RenameWhere(where_, names), allowEmpty) == ValidWhere(where_, allowEmpty)
  {
    var w := RenameWhere(where_, names);
    assert forall i | 0 <= i < |w| :: w[i].field == "" <==> where_[i].field == "";
    NamedByIndex(where_);
    NamedByIndex(w);
  }

  lemma NamedByIndex(where_: seq<Where>)
    ensures (forall c | c in where_ :: c.field != "") <==> forall i | 0 <= i < |where_| :: where_[i].field != ""
  {
  }

  // ---------------------------------------------------------------- renaming a table

  predicate RenamableTable(table: Table, names: Names) {
    Injective(names) && forall id | id in table :: table[id].Keys <= names.Keys
  }

  function RenameTable(table: Table, names: Names): (r: Table)
    requires RenamableTable(table, names)
    ensures r.Keys == table.Keys
  {
    map id | id in table :: Rename(table[id], names)
  }

  lemma RenameHit(table: Table, names: Names, id: string, where_: seq<Where>)
    requires RenamableTable(table, names) && DeclaredWhere(where_, names)
    ensures Hit(RenameTable(table, names), id, RenameWhere(where_, names)) == Hit(table, id, where_)
  {
    if id in table { RenameMatches(table[id], where_, names); }
  }

  lemma {:induction false} RenameFirst(table: Table, names: Names, order: seq<string>, where_: seq<Where>)
    requires RenamableTable(table, names) && DeclaredWhere(where_, names)
    ensures FirstMatch(RenameTable(table, names), order, RenameWhere(where_, names)) == FirstMatch(table, order, where_)
  {
    if order != [] {
      RenameHit(table, names, order[0], where_);
      RenameFirst(table, names, order[1..], where_);
    }
  }

  lemma {:induction false} RenameAll(table: Table, names: Names, order: seq<string>, where_: seq<Where>)
    requires RenamableTable(table, names) && DeclaredWhere(where_, names)
    ensures AllMatches(RenameTable(table, names), order, RenameWhere(where_, names)) == AllMatches(table, order, where_)
  {
    if order != [] {
      RenameHit(table, names, order[0], where_);
      RenameAll(table, names, order[1..], where_);
    }
  }

  // ---------------------------------------------------------------- unique keys

  function RenameKey(key: seq<string>, names: Names): (r: seq<string>)
    requires forall f | f in key :: f in names
    ensures |r| == |key| && forall i | 0 <= i < |r| :: r[i] == names[key[i]]
  {
    seq(|key|, i requires 0 <= i < |key| => names[key[i]])
  }

  predicate StoredAs(key: seq<string>, stored: seq<seq<string>>, names: Names) {
    (forall f | f in key :: f in names) && RenameKey(key, names) in stored
  }

  predicate ComesFrom(key: seq<string>, logical: seq<seq<string>>, names: Names) {
    exists l | l in logical :: (forall f | f in l :: f in names) && RenameKey(l, names) == key
  }

  /** The stored keys are the logical keys with every field renamed. */
  ghost predicate KeysCorrespond(logical: seq<seq<string>>, stored: seq<seq<string>>, names: Names) {
    && (forall key {:trigger StoredAs(key, stored, names)} | key in logical :: StoredAs(key, stored, names))
    && (forall key {:trigger ComesFrom(key, logical, names)} | key in stored :: ComesFrom(key, logical, names))
  }

  lemma RenameSameKey(a: Record, b: Record, names: Names, key: seq<string>)
    requires Renamable(a, names) && Renamable(b, names) && forall f | f in key :: f in names
    ensures SameUniqueKey(Rename(a, names), Rename(b, names), RenameKey(key, names)) == SameUniqueKey(a, b, key)
  {
    var stored := RenameKey(key, names);
    forall i | 0 <= i < |key|
      ensures Get(Rename(a, names), stored[i]) == Get(a, key[i]) && Get(Rename(b, names), stored[i]) == Get(b, key[i])
    {
      assert key[i] in key;
      RenameGet(a, names, key[i]);
      RenameGet(b, names, key[i]);
    }
    SameKeyByIndex(a, b, key);
    SameKeyByIndex(Rename(a, names), Rename(b, names), stored);
  }

  predicate SameAt(a: Record, b: Record, f: string) {
    Get(a, f) != Nil && Get(b, f) != Nil && Get(a, f) == Get(b, f)
  }

  lemma SameKeyByIndex(a: Record, b: Record, key: seq<string>)
    ensures SameUniqueKey(a, b, key) <==> forall i | 0 <= i < |key| :: SameAt(a, b, key[i])
  {
    if forall i | 0 <= i < |key| :: SameAt(a, b, key[i]) {
      forall f | f in key
        ensures SameAt(a, b, f)
      {
      }
    } else {
      var i :| 0 <= i < |key| && !SameAt(a, b, key[i]);
      assert key[i] in key;
    }
  }

  lemma RenameSharesKey(a: Record, b: Record, names: Names, logical: seq<seq<string>>, stored: seq<seq<string>>)
    requires Renamable(a, names) && Renamable(b, names) && KeysCorrespond(logical, stored, names)
    ensures SharesKey(Rename(a, names), Rename(b, names), stored) == SharesKey(a, b, logical)
  {
    if SharesKey(a, b, logical) {
      var key :| key in logical && SameUniqueKey(a, b, key);
      assert StoredAs(key, stored, names);
      RenameSameKey(a, b, names, key);
    }
    if SharesKey(Rename(a, names), Rename(b, names), stored) {
      var key :| key in stored && SameUniqueKey(Rename(a, names), Rename(b, names), key);
      assert ComesFrom(key, logical, names);
      var l :| l in logical && (forall f | f in l :: f in names) && RenameKey(l, names) == key;
      RenameSameKey(a, b, names, l);
    }
  }

  lemma RenameConflicts(table: Table, candidate: Record, names: Names, logical: seq<seq<string>>, stored: seq<seq<string>>, except: string)
    requires RenamableTable(table, names) && candidate.Keys <= names.Keys && KeysCorrespond(logical, stored, names)
    ensures Conflicts(RenameTable(table, names), stored, Rename(candidate, names), except) == Conflicts(table, logical, candidate, except)
  {
    forall id | id in table
      ensures SharesKey(RenameTable(table, names)[id], Rename(candidate, names), stored) == SharesKey(table[id], candidate, logical)
    {
      RenameSharesKey(table[id], candidate, names, logical, stored);
    }
  }

  // ---------------------------------------------------------------- predicates without native booleans

  predicate Plain(v: Value) {
    v.Nil? || v.Boolean?
  }

  /** A boolean as a store without booleans keeps it. */
  function AsNumber(v: Value): Value {
    if v.Boolean? then Number(Integer, if v.flag then 1.0 else 0.0) else v
  }

  predicate OrderOperator(o: Operator) {
    o == LT || o == LTE || o == GT || o == GTE
  }

  lemma AsNumberIs(model: Model, field: string, v: Value)
    requires IsBoolean(model, field)
    ensures InputValue(model, false, field, v) == AsNumber(v)
  {
  }

  lemma CompareFirst(a: string, b: string)
    requires a != "" && b != "" && a[0] != b[0]
    ensures CompareText(a, b) == if a[0] < b[0] then Less else Greater
  {
  }

  lemma {:induction false} CompareSame(s: string)
    ensures CompareText(s, s) == Equal
  {
    if s != "" { CompareSame(s[1..]); }
  }

  /** Booleans and nil print to texts of which none occurs in another, in either form. */
  lemma PrintedPlain(v: Value, one: string, zero: string, yes: string, no: string, none: string)
    requires Plain(v) && one == "1" && zero == "0" && yes == "true" && no == "false" && none == "<nil>"
    ensures Printed(v) == if v.Nil? then none else if v.flag then yes else no
    ensures Printed(AsNumber(v)) == if v.Nil? then none else if v.flag then one else zero
    ensures ToLower(Printed(v)) == Printed(v) && ToLower(Printed(AsNumber(v))) == Printed(AsNumber(v))
  {
    assert (1.0).Floor == 1 && (0.0).Floor == 0;
    assert Digit(1) == '1' && Digit(0) == '0';
    LowerFixed(one);
    LowerFixed(zero);
    LowerFixed(yes);
    LowerFixed(no);
    LowerFixed(none);
  }

  lemma LowerFixed(s: string)
    requires forall i | 0 <= i < |s| :: LowerChar(s[i]) == s[i]
    ensures ToLower(s) == s
  {
  }

  /** Two texts that are equal, or of which neither holds the first character of the other. */
  predicate Apart(a: string, b: string) {
    a == b || Foreign(a, b)
  }

  predicate Foreign(a: string, b: string) {
    a != "" && b != "" && b[0] !in a && a[0] !in b
  }

  lemma ForeignTexts(one: string, zero: string, yes: string, no: string, none: string)
    requires one == "1" && zero == "0" && yes == "true" && no == "false" && none == "<nil>"
    ensures Foreign(yes, no) && Foreign(no, yes) && Foreign(one, zero) && Foreign(zero, one)
    ensures Foreign(yes, none) && Foreign(none, yes) && Foreign(no, none) && Foreign(none, no)
    ensures Foreign(one, none) && Foreign(none, one) && Foreign(zero, none) && Foreign(none, zero)
  {
  }

  lemma PlainApart(a: Value, b: Value)
    requires Plain(a) && Plain(b)
    ensures Apart(Printed(a), Printed(b)) && (Printed(a) == Printed(b) <==> a == b)
    ensures Apart(Printed(AsNumber(a)), Printed(AsNumber(b))) && (Printed(AsNumber(a)) == Printed(AsNumber(b)) <==> a == b)
  {
    var one, zero, yes, no, none := "1", "0", "true", "false", "<nil>";
    PrintedPlain(a, one, zero, yes, no, none);
    PrintedPlain(b, one, zero, yes, no, none);
    ForeignTexts(one, zero, yes, no, none);
  }

  lemma ApartTexts(a: string, b: string)
    requires Apart(a, b)
    ensures HasSubstring(a, b) <==> a == b
    ensures HasPrefix(a, b) <==> a == b
    ensures HasSuffix(a, b) <==> a == b
  {
    if a == b {
      assert a[0..] == a && HasPrefix(a[0..], b);
    } else {
      forall i | 0 <= i <= |a|
        ensures !HasPrefix(a[i..], b)
      {
        if i < |a| { assert a[i] in a && a[i..][0] == a[i]; }
      }
      assert a[0..] == a;
      NoForeignSuffix(a, b);
    }
  }

  lemma NoForeignSuffix(a: string, b: string)
    requires Foreign(a, b)
    ensures !HasSuffix(a, b)
  {
    if |b| <= |a| { assert a[|a| - |b|..][0] == a[|a| - |b|]; }
  }

  // ---------------------------------------------------------------- tests of a boolean field

  /** What a test of a boolean or nil against a boolean or nil comes to, order tests aside. */
  predicate PlainAnswer(v: Value, c: Where) {
    match c.operator
    case NE => v != c.value
    case In => false
    case NotIn => true
    case _ => v == c.value
  }

  /** The same of any two values that print apart. */
  lemma ApartTest(a: Value, b: Value, c: Where)
    requires c.value == b && !b.Items? && !OrderOperator(c.operator) && c.mode == Sensitive
    requires Apart(Printed(a), Printed(b)) && (Printed(a) == Printed(b) <==> a == b)
    ensures Match(a, c) == PlainAnswer(a, c)
  {
    ApartTexts(Printed(a), Printed(b));
  }

  /** A test that ignores case is one of the lowered texts. */
  lemma FoldedTest(a: Value, c: Where)
    requires c.mode == Insensitive
    ensures Match(a, c) == Match(Text(ToLower(Printed(a))), c.(value := Text(ToLower(Printed(c.value))), mode := Sensitive))
  {
  }

  lemma LowTest(a: Value, b: Value, c: Where)
    requires c.value == b && !b.Items? && !OrderOperator(c.operator)
    requires Apart(Printed(a), Printed(b)) && (Printed(a) == Printed(b) <==> a == b)
    requires ToLower(Printed(a)) == Printed(a) && ToLower(Printed(b)) == Printed(b)
    ensures Match(a, c) == PlainAnswer(a, c)
  {
    if c.mode == Sensitive {
      ApartTest(a, b, c);
    } else {
      FoldedTest(a, c);
      ApartTest(Text(Printed(a)), Text(Printed(b)), c.(value := Text(Printed(b)), mode := Sensitive));
    }
  }

  lemma PlainLowers(v: Value)
    requires Plain(v)
    ensures ToLower(Printed(v)) == Printed(v) && ToLower(Printed(AsNumber(v))) == Printed(AsNumber(v))
  {
    PrintedPlain(v, "1", "0", "true", "false", "<nil>");
  }

  lemma PlainTest(v: Value, c: Where)
    requires Plain(v) && Plain(c.value) && !OrderOperator(c.operator)
    ensures Match(v, c) == PlainAnswer(v, c)
    ensures Match(AsNumber(v), c.(value := AsNumber(c.value))) == PlainAnswer(v, c)
  {
    PlainApart(v, c.value);
    PlainLowers(v);
    PlainLowers(c.value);
    LowTest(v, c.value, c);
    LowTest(AsNumber(v), AsNumber(c.value), c.(value := AsNumber(c.value)));
  }

  /** Only nil moves: it sorts before both booleans and after both numbers. */
  lemma BooleansCompare(a: Value, b: Value)
    requires Plain(a) && Plain(b)
    ensures a.Nil? == b.Nil? ==> Compare(AsNumber(a), AsNumber(b)) == Compare(a, b)
    ensures a.Nil? && b.Boolean? ==> Compare(a, b) == Less && Compare(AsNumber(a), AsNumber(b)) == Greater
    ensures a.Boolean? && b.Nil? ==> Compare(a, b) == Greater && Compare(AsNumber(a), AsNumber(b)) == Less
  {
    var one, zero, yes, no, none := "1", "0", "true", "false", "<nil>";
    PrintedPlain(a, one, zero, yes, no, none);
    PrintedPlain(b, one, zero, yes, no, none);
    if a == b {
      CompareSame(Printed(a));
      CompareSame(Printed(AsNumber(a)));
    } else {
      CompareFirst(Printed(a), Printed(b));
      CompareFirst(Printed(AsNumber(a)), Printed(AsNumber(b)));
    }
  }

  /** A test of a boolean field, on a store without booleans, with the operand that the adapter
      passes on: it means the same unless it is an order test, which does exactly when either
      both sides are nil or neither is. The adapter does not convert the values in a list, so
      a test against one means the same exactly when it does not hold the boolean tested. */
  lemma BooleanTests(model: Model, v: Value, c: Where)
    requires IsBoolean(model, c.field) && Plain(v)
    ensures var stored, passed := InputValue(model, false, c.field, v), c.(value := InputValue(model, false, c.field, c.value));
            && (Plain(c.value) && !OrderOperator(c.operator) ==> Match(stored, passed) == Match(v, c))
            && (Plain(c.value) && OrderOperator(c.operator) && c.mode == Sensitive ==>
                  (Match(stored, passed) == Match(v, c) <==> v.Nil? == c.value.Nil?))
            && (c.value.Items? && (forall item | item in c.value.items :: Plain(item)) && ListOperator(c.operator) && c.mode == Sensitive ==>
                  (Match(stored, passed) == Match(v, c) <==> v.Nil? || v !in c.value.items))
  {
    AsNumberIs(model, c.field, v);
    AsNumberIs(model, c.field, c.value);
    if Plain(c.value) {
      if OrderOperator(c.operator) {
        BooleansCompare(v, c.value);
      } else {
        PlainTest(v, c);
      }
    }
  }
}
