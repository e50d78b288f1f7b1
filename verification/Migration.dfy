/**
 Additive schema migration: from the merged logical schema to stored tables, and the
 comparison of a live database with what the schema writes.
 */
module Migration {
  import opened Wrappers

  datatype FieldType = StringField | NumberField | BooleanField | DateField | JsonField | StringArrayField

  /** A static default, by the kind of Go value it holds. */
  datatype Default = NoDefault | TextDefault | BooleanDefault | NumberDefault(finite: bool) | DateDefault(zero: bool)

  datatype Field = Field(fieldType: FieldType, required: bool, default: Default, storedName: string, unique: bool, indexed: bool)

  datatype Model = Model(storedName: string, fields: map<string, Field>)

  type Schema = map<string, Model>

  /** Stored tables with the definition of each stored column. */
  type Physical = map<string, map<string, Field>>

  datatype Column = Column(nullable: bool, hasDefault: bool)

  datatype Index = Index(column: string, unique: bool)

  /** `repeated` holds the columns in which two rows share a value. */
  datatype Table = Table(columns: map<string, Column>, rows: nat, repeated: set<string>, indexes: set<Index>)

  type Tables = map<string, Table>

  datatype Error =
    | InvalidName(name: string)
    | NoIdField(table: string)
    | UnsafeMigration(table: string, column: string)
    | InvalidDefault(table: string, column: string)
    | IndexFailed(table: string, column: string)

  // ---------------------------------------------------------------- names

  function StoredModel(logical: string, model: Model): string {
    if model.storedName == "" then logical else model.storedName
  }

  function StoredField(logical: string, field: Field): string {
    if field.storedName == "" then logical else field.storedName
  }

  predicate IsLetter(c: char) { 'a' <= c <= 'z' || 'A' <= c <= 'Z' }

  predicate ValidIdentifier(name: string) {
    && 1 <= |name| <= 128
    && (IsLetter(name[0]) || name[0] == '_')
    && forall i | 1 <= i < |name| :: IsLetter(name[i]) || name[i] == '_' || '0' <= name[i] <= '9'
  }

  /** No two models, and no two fields of a model, share a stored name. */
  predicate DistinctNames(schema: Schema) {
    && (forall m, n | m in schema && n in schema && StoredModel(m, schema[m]) == StoredModel(n, schema[n]) :: m == n)
    && (forall m | m in schema :: DistinctFields(schema[m]))
  }

  predicate DistinctFields(model: Model) {
    forall f, g | f in model.fields && g in model.fields
      && StoredField(f, model.fields[f]) == StoredField(g, model.fields[g]) :: f == g
  }

  predicate WellNamedModel(logical: string, model: Model) {
    && ValidIdentifier(StoredModel(logical, model))
    && (forall f | f in model.fields :: ValidIdentifier(StoredField(f, model.fields[f])))
    && "id" in model.fields
  }

  predicate WellNamed(schema: Schema) {
    forall m | m in schema :: WellNamedModel(m, schema[m])
  }

  /** A stored table holds exactly the stored fields of its model. */
  ghost predicate StoresFields(model: Model, columns: map<string, Field>) {
    && (forall f | f in model.fields :: StoredField(f, model.fields[f]) in columns)
    && (forall c | c in columns :: exists f | f in model.fields :: StoredField(f, model.fields[f]) == c && model.fields[f] == columns[c])
  }

  ghost predicate StoresSchema(schema: Schema, physical: Physical) {
    && (forall m | m in schema :: StoredModel(m, schema[m]) in physical)
    && (forall t | t in physical :: exists m | m in schema :: StoredModel(m, schema[m]) == t && StoresFields(schema[m], physical[t]))
  }

  method PhysicalFields(model: Model) returns (result: Result<map<string, Field>, Error>)
    ensures result.Success? <==> forall f | f in model.fields :: ValidIdentifier(StoredField(f, model.fields[f]))
    ensures result.Success? ==> StoresFields(model, result.value)
  {
    var columns: map<string, Field> := map[];
    var rest := model.fields.Keys;
    while rest != {}
      invariant rest <= model.fields.Keys
      invariant forall f | f in model.fields.Keys - rest ::
                  ValidIdentifier(StoredField(f, model.fields[f])) && StoredField(f, model.fields[f]) in columns
      invariant forall c | c in columns :: exists f | f in model.fields ::
                  StoredField(f, model.fields[f]) == c && model.fields[f] == columns[c]
    {
      var logical :| logical in rest;
      var definition := model.fields[logical];
      var stored := StoredField(logical, definition);
      if !ValidIdentifier(stored) {
        return Failure(InvalidName(stored));
      }
      columns := columns[stored := definition];
      rest := rest - {logical};
    }
    return Success(columns);
  }

  method PhysicalSchema(schema: Schema) returns (result: Result<Physical, Error>)
    ensures result.Success? <==> WellNamed(schema)
    ensures result.Success? ==> StoresSchema(schema, result.value)
  {
    var physical: Physical := map[];
    var rest := schema.Keys;
    while rest != {}
      invariant rest <= schema.Keys
      invariant forall m | m in schema.Keys - rest :: WellNamedModel(m, schema[m]) && StoredModel(m, schema[m]) in physical
      invariant forall t | t in physical :: exists m | m in schema ::
                  StoredModel(m, schema[m]) == t && StoresFields(schema[m], physical[t])
    {
      var logical :| logical in rest;
      var model := schema[logical];
      var name := StoredModel(logical, model);
      if !ValidIdentifier(name) {
        return Failure(InvalidName(name));
      }
      var columns :- PhysicalFields(model);
      if "id" !in model.fields {
        return Failure(NoIdField(name));
      }
      physical := physical[name := columns];
      rest := rest - {logical};
    }
    return Success(physical);
  }

  // ---------------------------------------------------------------- index names

  /** An index is named after its table, its column and its kind; the database knows it by that
      name alone. */
  function IndexName(t: string, index: Index): string {
    t + "_" + index.column + (if index.unique then "_unique" else "_index")
  }

  predicate HoldsName(t: string, indexes: set<Index>, name: string) {
    exists index | index in indexes :: IndexName(t, index) == name
  }

  /** Some table has an index of this name. */
  predicate Taken(tables: Tables, name: string) {
    exists t | t in tables :: HoldsName(t, tables[t].indexes, name)
  }

  lemma SameEnding(a: string, b: string, x: string, y: string)
    requires a + x == b + y && x != "" && y != ""
    ensures x[|x| - 1] == y[|y| - 1]
    ensures |x| == |y| ==> a == b && x == y
  {
    assert (a + x)[|a + x| - 1] == x[|x| - 1] && (b + y)[|b + y| - 1] == y[|y| - 1];
    if |x| == |y| {
      assert (a + x)[..|a|] == a && (b + y)[..|b|] == b;
      assert (a + x)[|a|..] == x && (b + y)[|b|..] == y;
    }
  }

  lemma SameBeginning(t: string, a: string, b: string)
    requires t + a == t + b
    ensures a == b
  {
    assert (t + a)[|t|..] == a && (t + b)[|t|..] == b;
  }

  /** Within one table the names tell the indexes apart. */
  lemma NamesWithin(t: string, i: Index, j: Index)
    requires IndexName(t, i) == IndexName(t, j)
    ensures i == j
  {
    var suffix, other := if i.unique then "_unique" else "_index", if j.unique then "_unique" else "_index";
    SameEnding(t + "_" + i.column, t + "_" + j.column, suffix, other);
    assert i.unique == j.unique;
    SameBeginning(t + "_", i.column, j.column);
  }

  // ---------------------------------------------------------------- migration

  predicate ValidDefault(field: Field) {
    match field.default
    case NoDefault => true
    case TextDefault => field.fieldType in {StringField, JsonField, StringArrayField}
    case BooleanDefault => field.fieldType == BooleanField
    case NumberDefault(finite) => field.fieldType == NumberField && finite
    case DateDefault(zero) => field.fieldType == DateField && !zero
  }

  predicate ValidDefaults(columns: map<string, Field>) {
    forall c | c in columns :: ValidDefault(columns[c])
  }

  predicate AllDefaultsValid(physical: Physical) {
    forall t | t in physical :: ValidDefaults(physical[t])
  }

  function ColumnOf(field: Field): Column {
    Column(!field.required, field.default != NoDefault)
  }

  function ColumnNames(tables: Tables, t: string): set<string> {
    if t in tables then tables[t].columns.Keys else {}
  }

  /** Adding this column would leave existing rows without a value. */
  predicate UnsafeColumn(physical: Physical, tables: Tables, t: string, c: string) {
    && t in physical && c in physical[t]
    && t in tables && tables[t].columns.Keys != {} && tables[t].rows > 0
    && c !in tables[t].columns
    && physical[t][c].required && physical[t][c].default == NoDefault
  }

  predicate SafeTable(physical: Physical, tables: Tables, t: string)
    requires t in physical
  {
    forall c | c in physical[t] :: !UnsafeColumn(physical, tables, t, c)
  }

  predicate Safe(physical: Physical, tables: Tables) {
    forall t | t in physical :: SafeTable(physical, tables, t)
  }

  function FreshColumns(fields: map<string, Field>): map<string, Column> {
    map c | c in fields :: ColumnOf(fields[c])
  }

  /** The table once its columns are there: created whole, extended by its missing columns, or,
      when the database already has it without any column, left alone. A new column with a
      default repeats it in every row. */
  function WithColumns(fields: map<string, Field>, tables: Tables, t: string): Table {
    if t !in tables then Table(FreshColumns(fields), 0, {}, {})
    else if tables[t].columns.Keys == {} then tables[t]
    else tables[t].(columns := FreshColumns(fields) + tables[t].columns, repeated := tables[t].repeated + Filled(fields, tables[t]))
  }

  function Filled(fields: map<string, Field>, table: Table): set<string> {
    set c | c in fields && c !in table.columns && fields[c].default != NoDefault && table.rows >= 2
  }

  function WantedIndex(fields: map<string, Field>, c: string): Option<Index>
    requires c in fields
  {
    if fields[c].unique then Some(Index(c, true)) else if fields[c].indexed then Some(Index(c, false)) else None
  }

  function Wanted(fields: map<string, Field>): set<Index> {
    set c | c in fields && WantedIndex(fields, c).Some? :: WantedIndex(fields, c).value
  }

  /** The wanted indexes that CREATE INDEX IF NOT EXISTS does not skip. */
  function Lacking(fields: map<string, Field>, tables: Tables, t: string): set<Index> {
    set index | index in Wanted(fields) && !Taken(tables, IndexName(t, index))
  }

  /** CREATE INDEX needs its column, and distinct values for a unique index. */
  predicate CanIndex(table: Table, index: Index) {
    index.column in table.columns && (index.unique ==> index.column !in table.repeated)
  }

  predicate Indexable(fields: map<string, Field>, tables: Tables, t: string) {
    forall index | index in Lacking(fields, tables, t) :: CanIndex(WithColumns(fields, tables, t), index)
  }

  predicate CanMigrate(fields: map<string, Field>, tables: Tables, t: string) {
    ValidDefaults(fields) && Indexable(fields, tables, t)
  }

  function MigratedTable(fields: map<string, Field>, tables: Tables, t: string): Table {
    var table := WithColumns(fields, tables, t);
    table.(indexes := table.indexes + Lacking(fields, tables, t))
  }

  ghost predicate Covers(order: seq<string>, keys: set<string>) {
    && (forall i, j | 0 <= i < j < |order| :: order[i] != order[j])
    && (forall t {:trigger t in order} :: t in order <==> t in keys)
  }

  function Names(order: seq<string>): set<string> {
    set t | t in order
  }

  predicate Within(order: seq<string>, physical: Physical) {
    forall t | t in order :: t in physical
  }

  /** The tables migrated one after the other. */
  function MigrateAll(physical: Physical, tables: Tables, order: seq<string>): Option<Tables>
    requires Within(order, physical)
  {
    if order == [] then Some(tables)
    else
      var n := |order| - 1;
      var t, before := order[n], MigrateAll(physical, tables, order[..n]);
      if before.None? || !CanMigrate(physical[t], before.value, t) then None
      else Some(before.value[t := MigratedTable(physical[t], before.value, t)])
  }

  /** When a migration goes through, for one order of the tables. */
  ghost predicate GoesThrough(physical: Physical, tables: Tables, order: seq<string>) {
    Covers(order, physical.Keys) && Safe(physical, tables) && Within(order, physical) && MigrateAll(physical, tables, order).Some?
  }

  function Migrated(physical: Physical, tables: Tables, order: seq<string>): Tables
    requires GoesThrough(physical, tables, order)
  {
    MigrateAll(physical, tables, order).value
  }

  lemma {:induction false} PrefixFails(physical: Physical, tables: Tables, order: seq<string>, i: nat)
    requires Within(order, physical) && i <= |order|
    requires Within(order[..i], physical) && MigrateAll(physical, tables, order[..i]).None?
    ensures MigrateAll(physical, tables, order).None?
    decreases |order| - i
  {
    if i == |order| {
      assert order[..i] == order;
    } else {
      assert order[..i + 1][..i] == order[..i];
      PrefixFails(physical, tables, order, i + 1);
    }
  }

  ghost predicate CannotRun(schema: Schema, tables: Tables, order: seq<string>) {
    exists physical | StoresSchema(schema, physical) :: !GoesThrough(physical, tables, order)
  }

  function AddColumn(table: Table, c: string, field: Field): Table {
    table.(columns := table.columns[c := ColumnOf(field)],
           repeated := table.repeated + if field.default != NoDefault && table.rows >= 2 then {c} else {})
  }

  lemma NoColumnsYet(fields: map<string, Field>, tables: Tables, t: string)
    requires t in tables && tables[t].columns.Keys != {}
    ensures WithColumns(fields - fields.Keys, tables, t) == tables[t] && tables[t := tables[t]] == tables
  {
    assert FreshColumns(fields - fields.Keys) + tables[t].columns == tables[t].columns;
    assert Filled(fields - fields.Keys, tables[t]) == {};
  }

  lemma ColumnsMore(fields: map<string, Field>, rest: set<string>, c: string, tables: Tables, t: string)
    requires c in fields && c in rest && t in tables && tables[t].columns.Keys != {}
    ensures WithColumns(fields - (rest - {c}), tables, t)
         == if c in tables[t].columns then WithColumns(fields - rest, tables, t)
            else AddColumn(WithColumns(fields - rest, tables, t), c, fields[c])
  {
    var less, more := fields - rest, fields - (rest - {c});
    assert more == less[c := fields[c]];
    if c in tables[t].columns {
      assert FreshColumns(more) + tables[t].columns == FreshColumns(less) + tables[t].columns;
      assert Filled(more, tables[t]) == Filled(less, tables[t]);
    } else {
      assert FreshColumns(more) + tables[t].columns == (FreshColumns(less) + tables[t].columns)[c := ColumnOf(fields[c])];
      assert Filled(more, tables[t]) == Filled(less, tables[t]) + if fields[c].default != NoDefault && tables[t].rows >= 2 then {c} else {};
    }
  }

  lemma IndexesMore(fields: map<string, Field>, rest: set<string>, c: string)
    requires c in fields && c in rest
    ensures Wanted(fields - (rest - {c}))
         == Wanted(fields - rest) + if WantedIndex(fields, c).Some? then {WantedIndex(fields, c).value} else {}
  {
    var less, more := fields - rest, fields - (rest - {c});
    forall index: Index
      ensures index in Wanted(more) <==>
                index in Wanted(less) || (WantedIndex(fields, c).Some? && index == WantedIndex(fields, c).value)
    {
      WantedAt(less, index);
      WantedAt(more, index);
    }
  }

  lemma WantedAt(fields: map<string, Field>, index: Index)
    ensures index in Wanted(fields) <==> index.column in fields && WantedIndex(fields, index.column) == Some(index)
  {
  }

  lemma LackingMore(fields: map<string, Field>, rest: set<string>, c: string, tables: Tables, t: string)
    requires c in fields && c in rest
    ensures var wanted, less := WantedIndex(fields, c), Lacking(fields - rest, tables, t);
            && Lacking(fields - (rest - {c}), tables, t)
               == (if wanted.Some? && !Taken(tables, IndexName(t, wanted.value)) then less + {wanted.value} else less)
            && (wanted.Some? ==> wanted.value !in less)
  {
    IndexesMore(fields, rest, c);
  }

  /** More indexes on one table take their own names and no others. */
  lemma TakenMore(tables: Tables, t: string, more: set<Index>, name: string)
    requires t in tables
    ensures Taken(tables[t := tables[t].(indexes := tables[t].indexes + more)], name) <==> Taken(tables, name) || HoldsName(t, more, name)
  {
    var next := tables[t := tables[t].(indexes := tables[t].indexes + more)];
    if Taken(tables, name) {
      var u :| u in tables && HoldsName(u, tables[u].indexes, name);
      var index :| index in tables[u].indexes && IndexName(u, index) == name;
      assert u in next && index in next[u].indexes && HoldsName(u, next[u].indexes, name);
    }
    if HoldsName(t, more, name) {
      var index :| index in more && IndexName(t, index) == name;
      assert t in next && index in next[t].indexes && HoldsName(t, next[t].indexes, name);
    }
    if Taken(next, name) {
      var u :| u in next && HoldsName(u, next[u].indexes, name);
      var index :| index in next[u].indexes && IndexName(u, index) == name;
      if u == t && index in more {
        assert HoldsName(t, more, name);
      } else {
        assert index in tables[u].indexes && HoldsName(u, tables[u].indexes, name);
      }
    }
  }

  /** Columns take no index name. */
  lemma ColumnsTakeNone(fields: map<string, Field>, tables: Tables, t: string, name: string)
    ensures Taken(tables[t := WithColumns(fields, tables, t)], name) <==> Taken(tables, name)
  {
    var next := tables[t := WithColumns(fields, tables, t)];
    if Taken(tables, name) {
      var u :| u in tables && HoldsName(u, tables[u].indexes, name);
      assert u in next && HoldsName(u, next[u].indexes, name);
    }
    if Taken(next, name) {
      var u :| u in next && HoldsName(u, next[u].indexes, name);
      assert u in tables && HoldsName(u, tables[u].indexes, name);
    }
  }

  lemma ColumnsLeaveLacking(fields: map<string, Field>, tables: Tables, t: string)
    ensures Lacking(fields, tables[t := WithColumns(fields, tables, t)], t) == Lacking(fields, tables, t)
  {
    forall index | index in Wanted(fields)
      ensures Taken(tables[t := WithColumns(fields, tables, t)], IndexName(t, index)) <==> Taken(tables, IndexName(t, index))
    {
      ColumnsTakeNone(fields, tables, t, IndexName(t, index));
    }
  }

  /** The indexes made so far on the table do not take the name of one on another column. */
  lemma StillLacking(tables: Tables, t: string, made: set<Index>, index: Index)
    requires t in tables && index !in made
    ensures Taken(tables[t := tables[t].(indexes := tables[t].indexes + made)], IndexName(t, index)) <==> Taken(tables, IndexName(t, index))
  {
    TakenMore(tables, t, made, IndexName(t, index));
    if HoldsName(t, made, IndexName(t, index)) {
      var other :| other in made && IndexName(t, other) == IndexName(t, index);
      NamesWithin(t, other, index);
    }
  }

  /** The names of a set, in some order. */
  method Ordered(names: set<string>) returns (order: seq<string>)
    ensures Covers(order, names)
  {
    order := [];
    var rest := names;
    while rest != {}
      invariant rest <= names
      invariant forall i, j | 0 <= i < j < |order| :: order[i] != order[j]
      invariant forall t {:trigger t in order} :: t in order <==> t in names - rest
    {
      var t :| t in rest;
      assert t !in order;
      order := order + [t];
      rest := rest - {t};
    }
  }

  class Database {
    var tables: Tables

    /** The checks made before any statement that changes the database. */
    method Preflight(physical: Physical) returns (error: Option<Error>)
      ensures error.None? <==> Safe(physical, tables)
      ensures error.Some? ==> error.value.UnsafeMigration? && UnsafeColumn(physical, tables, error.value.table, error.value.column)
    {
      var names := physical.Keys;
      while names != {}
        invariant names <= physical.Keys
        invariant forall t | t in physical.Keys - names :: SafeTable(physical, tables, t)
      {
        var name :| name in names;
        var existing := ColumnNames(tables, name);
        if existing != {} {
          var fields, populated := physical[name].Keys, false;
          while fields != {}
            invariant fields <= physical[name].Keys
            invariant forall c | c in physical[name].Keys - fields :: !UnsafeColumn(physical, tables, name, c)
            invariant !populated
          {
            var field :| field in fields;
            var definition := physical[name][field];
            if !(field in existing || !definition.required || definition.default != NoDefault) {
              if !populated {
                populated := tables[name].rows > 0;
              }
              if populated {
                assert !SafeTable(physical, tables, name);
                return Some(UnsafeMigration(name, field));
              }
            }
            fields := fields - {field};
          }
        }
        names := names - {name};
      }
      return None;
    }

    method CheckDefaults(t: string, fields: map<string, Field>) returns (error: Option<Error>)
      ensures error.None? <==> ValidDefaults(fields)
      ensures error.Some? ==> error.value.InvalidDefault?
    {
      var rest := fields.Keys;
      while rest != {}
        invariant rest <= fields.Keys
        invariant forall c | c in fields.Keys - rest :: ValidDefault(fields[c])
      {
        var c :| c in rest;
        if !ValidDefault(fields[c]) {
          return Some(InvalidDefault(t, c));
        }
        rest := rest - {c};
      }
      return None;
    }

    /** CREATE TABLE IF NOT EXISTS followed by ALTER TABLE ADD COLUMN for missing columns. */
    method MigrateColumns(t: string, fields: map<string, Field>, existing: set<string>)
      requires existing == ColumnNames(tables, t)
      modifies this
      ensures tables == old(tables)[t := WithColumns(fields, old(tables), t)]
    {
      if t !in tables {
        tables := tables[t := Table(FreshColumns(fields), 0, {}, {})];
      }
      if existing != {} {
        var rest := fields.Keys;
        NoColumnsYet(fields, old(tables), t);
        while rest != {}
          invariant rest <= fields.Keys
          invariant tables == old(tables)[t := WithColumns(fields - rest, old(tables), t)]
        {
          var field :| field in rest;
          if field !in existing {
            tables := tables[t := AddColumn(tables[t], field, fields[field])];
          }
          ColumnsMore(fields, rest, field, old(tables), t);
          rest := rest - {field};
        }
        assert fields - rest == fields;
      }
    }

    /** One index for each unique or indexed column, unless its name is taken. */
    method CreateIndexes(t: string, fields: map<string, Field>) returns (error: Option<Error>)
      requires t in tables
      modifies this
      ensures error.None? <==> forall index | index in Lacking(fields, old(tables), t) :: CanIndex(old(tables)[t], index)
      ensures error.Some? ==> error.value.IndexFailed?
      ensures error.None? ==> tables == old(tables)[t := old(tables)[t].(indexes := old(tables)[t].indexes + Lacking(fields, old(tables), t))]
    {
      var table := tables[t];
      var rest := fields.Keys;
      ghost var made := Lacking(fields - rest, old(tables), t);
      assert made == {} && table.indexes + {} == table.indexes;
      while rest != {}
        invariant rest <= fields.Keys && made == Lacking(fields - rest, old(tables), t)
        invariant forall index | index in made :: CanIndex(table, index)
        invariant tables == old(tables)[t := table.(indexes := table.indexes + made)]
      {
        var c :| c in rest;
        var wanted := WantedIndex(fields, c);
        LackingMore(fields, rest, c, old(tables), t);
        if wanted.Some? {
          StillLacking(old(tables), t, made, wanted.value);
          if !Taken(tables, IndexName(t, wanted.value)) {
            if !CanIndex(tables[t], wanted.value) {
              WantedAt(fields, wanted.value);
              assert wanted.value in Lacking(fields, old(tables), t);
              return Some(IndexFailed(t, c));
            }
            assert table.indexes + made + {wanted.value} == table.indexes + (made + {wanted.value});
            tables := tables[t := tables[t].(indexes := tables[t].indexes + {wanted.value})];
            made := made + {wanted.value};
          }
        }
        rest := rest - {c};
      }
      assert fields - rest == fields;
      return None;
    }

    method MigrateTable(t: string, fields: map<string, Field>) returns (error: Option<Error>)
      modifies this
      ensures error.None? <==> CanMigrate(fields, old(tables), t)
      ensures error.Some? ==> !error.value.UnsafeMigration?
      ensures error.None? ==> tables == old(tables)[t := MigratedTable(fields, old(tables), t)]
    {
      error := CheckDefaults(t, fields);
      if error.Some? {
        return;
      }
      MigrateColumns(t, fields, ColumnNames(tables, t));
      ColumnsLeaveLacking(fields, old(tables), t);
      error := CreateIndexes(t, fields);
    }

    /** migrate: all checks first, then table by table. */
    method Apply(physical: Physical) returns (error: Option<Error>, ghost order: seq<string>)
      modifies this
      ensures Covers(order, physical.Keys)
      ensures error.None? <==> GoesThrough(physical, old(tables), order)
      ensures error.None? ==> tables == Migrated(physical, old(tables), order)
      ensures error.Some? && error.value.UnsafeMigration? ==> tables == old(tables)
    {
      var names := Ordered(physical.Keys);
      order := names;
      error := Preflight(physical);
      if error.Some? {
        return;
      }
      for i := 0 to |names|
        invariant Within(names[..i], physical) && MigrateAll(physical, old(tables), names[..i]) == Some(tables)
      {
        assert names[..i + 1][..i] == names[..i] && names[i] in names;
        error := MigrateTable(names[i], physical[names[i]]);
        if error.Some? {
          PrefixFails(physical, old(tables), names, i + 1);
          return;
        }
      }
      assert names[..|names|] == names;
      return None, names;
    }

    /** Migrate: inside one transaction, so any error leaves the database as it was. */
    method Migrate(schema: Schema) returns (result: Result<Physical, Error>, ghost order: seq<string>)
      modifies this
      ensures result.Failure? ==> tables == old(tables)
      ensures result.Success? ==>
                && WellNamed(schema) && StoresSchema(schema, result.value) && GoesThrough(result.value, old(tables), order)
                && tables == Migrated(result.value, old(tables), order)
      ensures result.Failure? ==> !WellNamed(schema) || CannotRun(schema, old(tables), order)
    {
      var physical := PhysicalSchema(schema);
      if physical.Failure? {
        return Failure(physical.error), [];
      }
      var snapshot := tables;
      var error;
      error, order := Apply(physical.value);
      if error.Some? {
        tables := snapshot;
        return Failure(error.value), order;
      }
      return Success(physical.value), order;
    }
  }

  // ---------------------------------------------------------------- comparison

  datatype Finding =
    | MissingTable(table: string)
    | MissingColumn(table: string, column: string)
    | UnexpectedRequiredColumn(table: string, column: string)

  predicate Writes(schema: Schema, t: string) {
    exists m | m in schema :: StoredModel(m, schema[m]) == t
  }

  /** The stored columns of a table; a table whose models name no id field still has "id". */
  predicate WritesColumn(schema: Schema, t: string, c: string) {
    NamesColumn(schema, t, c) || (c == "id" && NamesNoId(schema, t))
  }

  predicate NamesColumn(schema: Schema, t: string, c: string) {
    exists m, f | m in schema && StoredModel(m, schema[m]) == t && f in schema[m].fields ::
      StoredField(f, schema[m].fields[f]) == c
  }

  predicate NamesNoId(schema: Schema, t: string) {
    forall m | m in schema && StoredModel(m, schema[m]) == t :: "id" !in schema[m].fields
  }

  /** DiffSchema reports exactly these. */
  predicate IsFinding(schema: Schema, tables: Tables, finding: Finding) {
    && Writes(schema, finding.table)
    && match finding
       case MissingTable(t) => t !in tables
       case MissingColumn(t, c) => t in tables && WritesColumn(schema, t, c) && c !in tables[t].columns
       case UnexpectedRequiredColumn(t, c) =>
         && t in tables && c in tables[t].columns && !WritesColumn(schema, t, c)
         && !tables[t].columns[c].nullable && !tables[t].columns[c].hasDefault
  }

  function ExpectedColumns(schema: Schema, t: string): (columns: set<string>)
    ensures forall c :: c in columns <==> WritesColumn(schema, t, c)
  {
    (set m, f | m in schema && StoredModel(m, schema[m]) == t && f in schema[m].fields :: StoredField(f, schema[m].fields[f]))
    + (if NamesNoId(schema, t) then {"id"} else {})
  }

  method DiffTable(schema: Schema, tables: Tables, t: string) returns (findings: set<Finding>)
    requires Writes(schema, t)
    ensures forall f :: f in findings <==> f.table == t && IsFinding(schema, tables, f)
  {
    if t !in tables {
      return {MissingTable(t)};
    }
    var written, present := ExpectedColumns(schema, t), tables[t].columns.Keys;
    findings := {};
    var rest := written;
    while rest != {}
      invariant rest <= written
      invariant forall f :: f in findings <==> f.MissingColumn? && f.table == t && f.column in written - rest && f.column !in present
    {
      var column :| column in rest;
      if column !in present {
        findings := findings + {MissingColumn(t, column)};
      }
      rest := rest - {column};
    }
    rest := present;
    while rest != {}
      invariant rest <= present
      invariant forall f :: f in findings <==>
                  f.table == t && IsFinding(schema, tables, f) && (f.UnexpectedRequiredColumn? ==> f.column !in rest)
    {
      var column :| column in rest;
      var actual := tables[t].columns[column];
      if !(column in written || actual.nullable || actual.hasDefault) {
        findings := findings + {UnexpectedRequiredColumn(t, column)};
      }
      rest := rest - {column};
    }
  }

  method DiffSchema(schema: Schema, tables: Tables) returns (findings: set<Finding>)
    ensures forall f :: f in findings <==> IsFinding(schema, tables, f)
  {
    findings := {};
    var expected := set m | m in schema :: StoredModel(m, schema[m]);
    var rest := expected;
    while rest != {}
      invariant rest <= expected
      invariant forall f :: f in findings <==> IsFinding(schema, tables, f) && f.table !in rest
    {
      var t :| t in rest;
      var found := DiffTable(schema, tables, t);
      findings := findings + found;
      rest := rest - {t};
    }
  }

  // ---------------------------------------------------------------- what a migration leaves

  /** The second table differs from the first at most by more indexes. */
  predicate IndexedFurther(before: Table, after: Table) {
    after == before.(indexes := after.indexes) && before.indexes <= after.indexes
  }

  /** What any successful migration makes of the tables, indexes aside. */
  ghost predicate Extends(physical: Physical, before: Tables, after: Tables, done: set<string>)
    requires done <= physical.Keys
  {
    && after.Keys == before.Keys + done
    && forall t {:trigger after[t]} | t in after :: if t in done then IndexedFurther(WithColumns(physical[t], before, t), after[t]) else after[t] == before[t]
  }

  lemma {:induction false} MigratedExtends(physical: Physical, before: Tables, order: seq<string>)
    requires Within(order, physical) && MigrateAll(physical, before, order).Some?
    requires forall i, j | 0 <= i < j < |order| :: order[i] != order[j]
    ensures Names(order) <= physical.Keys
    ensures Extends(physical, before, MigrateAll(physical, before, order).value, Names(order))
  {
    if order != [] {
      var n := |order| - 1;
      var t, init := order[n], order[..n];
      MigratedExtends(physical, before, init);
      var mid := MigrateAll(physical, before, init).value;
      assert t !in init;
      assert order == init + [t];
      assert Names(order) == Names(init) + {t};
      assert WithColumns(physical[t], mid, t) == WithColumns(physical[t], before, t);
    }
  }

  lemma AfterMigration(physical: Physical, before: Tables, order: seq<string>)
    requires GoesThrough(physical, before, order)
    ensures Extends(physical, before, Migrated(physical, before, order), physical.Keys)
  {
    MigratedExtends(physical, before, order);
    assert Names(order) == physical.Keys;
  }

  /** Migration is additive: it drops no table, column, row or index, and changes no column. */
  lemma MigrationKeepsColumns(physical: Physical, tables: Tables, order: seq<string>, t: string)
    requires GoesThrough(physical, tables, order) && t in tables
    ensures var after := Migrated(physical, tables, order);
            && t in after && after[t].rows == tables[t].rows && tables[t].indexes <= after[t].indexes
            && tables[t].columns.Keys <= after[t].columns.Keys
            && forall c | c in tables[t].columns :: after[t].columns[c] == tables[t].columns[c]
  {
    AfterMigration(physical, tables, order);
  }

  /** A column that the migration adds is nullable unless its field is required, and has the
      field's default. */
  lemma ColumnsFollowFields(physical: Physical, tables: Tables, order: seq<string>, t: string, c: string)
    requires GoesThrough(physical, tables, order) && t in physical && c in physical[t]
    requires t in tables ==> tables[t].columns.Keys != {} && c !in tables[t].columns
    ensures var after := Migrated(physical, tables, order);
            && t in after && c in after[t].columns
            && after[t].columns[c].nullable == !physical[t][c].required
            && after[t].columns[c].hasDefault == !physical[t][c].default.NoDefault?
  {
    AfterMigration(physical, tables, order);
  }

  /** Only columns of fields are added, and only where the table has no rows or the column leaves
      them valid. */
  lemma RowsStayValid(physical: Physical, tables: Tables, order: seq<string>, t: string, c: string)
    requires GoesThrough(physical, tables, order) && t in Migrated(physical, tables, order)
    requires c in Migrated(physical, tables, order)[t].columns && (t in tables ==> c !in tables[t].columns)
    ensures t in physical && c in physical[t]
    ensures var column := Migrated(physical, tables, order)[t].columns[c];
            t in tables && tables[t].rows > 0 ==> column.nullable || column.hasDefault
  {
    AfterMigration(physical, tables, order);
    if t in tables { assert SafeTable(physical, tables, t); }
  }

  /** A migration is refused as unsafe only when a required column without a default is missing from
      a table that has columns and rows. */
  lemma UnsafeIff(physical: Physical, tables: Tables)
    ensures !Safe(physical, tables) <==>
              exists t, c | t in physical && c in physical[t] ::
                t in tables && tables[t].rows > 0 && |tables[t].columns| > 0 && c !in tables[t].columns
                && physical[t][c].required && physical[t][c].default.NoDefault?
  {
    forall t, c | t in physical && c in physical[t]
      ensures UnsafeColumn(physical, tables, t, c) <==>
                t in tables && tables[t].rows > 0 && |tables[t].columns| > 0 && c !in tables[t].columns
                && physical[t][c].required && physical[t][c].default.NoDefault?
    {
      if t in tables { assert |tables[t].columns| > 0 <==> tables[t].columns.Keys != {}; }
    }
    if !Safe(physical, tables) {
      var t :| t in physical && !SafeTable(physical, tables, t);
      var c :| c in physical[t] && UnsafeColumn(physical, tables, t, c);
    }
    if t, c :| t in physical && c in physical[t] && UnsafeColumn(physical, tables, t, c) {
      assert !SafeTable(physical, tables, t);
    }
  }

  ghost predicate NothingMissing(schema: Schema, tables: Tables) {
    forall f | IsFinding(schema, tables, f) :: f.UnexpectedRequiredColumn?
  }

  /** A table the schema writes that exists without any column. */
  predicate HasEmptyTable(schema: Schema, tables: Tables) {
    exists t | t in tables :: Writes(schema, t) && tables[t].columns.Keys == {}
  }

  /** After a successful migration nothing is missing, exactly when the database held no
      zero-column table that the schema writes. */
  lemma MigrationIsComplete(schema: Schema, physical: Physical, tables: Tables, order: seq<string>)
    requires DistinctNames(schema) && WellNamed(schema) && StoresSchema(schema, physical)
    requires GoesThrough(physical, tables, order)
    ensures NothingMissing(schema, Migrated(physical, tables, order)) <==> !HasEmptyTable(schema, tables)
  {
    var after := Migrated(physical, tables, order);
    AfterMigration(physical, tables, order);
    if HasEmptyTable(schema, tables) {
      EmptyTableStays(schema, physical, tables, after);
    } else {
      forall f | IsFinding(schema, after, f)
        ensures f.UnexpectedRequiredColumn?
      {
        FindingIsUnexpected(schema, physical, tables, after, f);
      }
    }
  }

  /** Distinct names leave one stored schema, so Migrate succeeds exactly when it goes through. */
  lemma CannotRunIff(schema: Schema, physical: Physical, tables: Tables, order: seq<string>)
    requires DistinctNames(schema) && StoresSchema(schema, physical)
    ensures CannotRun(schema, tables, order) <==> !GoesThrough(physical, tables, order)
  {
    forall other | StoresSchema(schema, other)
      ensures other == physical
    {
      StoredOnce(schema, physical, other);
    }
  }

  lemma StoredOnce(schema: Schema, p: Physical, q: Physical)
    requires DistinctNames(schema) && StoresSchema(schema, p) && StoresSchema(schema, q)
    ensures p == q
  {
    forall t
      ensures t in p <==> t in q
      ensures t in p && t in q ==> p[t] == q[t]
    {
      if t in p && t in q { SameColumns(schema, p, q, t); }
    }
  }

  lemma SameColumns(schema: Schema, p: Physical, q: Physical, t: string)
    requires DistinctNames(schema) && StoresSchema(schema, p) && StoresSchema(schema, q) && t in p && t in q
    ensures p[t] == q[t]
  {
    var m :| m in schema && StoredModel(m, schema[m]) == t && StoresFields(schema[m], p[t]);
    var n :| n in schema && StoredModel(n, schema[n]) == t && StoresFields(schema[n], q[t]);
    assert m == n;
    SameFields(schema[m], p[t], q[t]);
  }

  lemma SameFields(model: Model, a: map<string, Field>, b: map<string, Field>)
    requires DistinctFields(model) && StoresFields(model, a) && StoresFields(model, b)
    ensures a == b
  {
    forall c
      ensures c in a <==> c in b
      ensures c in a && c in b ==> a[c] == b[c]
    {
      if c in a {
        var f :| f in model.fields && StoredField(f, model.fields[f]) == c && model.fields[f] == a[c];
      }
      if c in b {
        var g :| g in model.fields && StoredField(g, model.fields[g]) == c && model.fields[g] == b[c];
      }
    }
  }

  lemma EmptyTableStays(schema: Schema, physical: Physical, tables: Tables, after: Tables)
    requires WellNamed(schema) && StoresSchema(schema, physical) && HasEmptyTable(schema, tables)
    requires Extends(physical, tables, after, physical.Keys)
    ensures !NothingMissing(schema, after)
  {
    var t :| t in tables && Writes(schema, t) && tables[t].columns.Keys == {};
    var c := WrittenId(schema, t);
    assert t in after && after[t].columns == tables[t].columns;
    MissingIsFinding(schema, after, t, c);
  }

  lemma MissingIsFinding(schema: Schema, tables: Tables, t: string, c: string)
    requires Writes(schema, t) && WritesColumn(schema, t, c)
    requires t in tables && tables[t].columns.Keys == {}
    ensures !NothingMissing(schema, tables)
  {
    assert c !in tables[t].columns;
    assert IsFinding(schema, tables, MissingColumn(t, c));
  }

  lemma WrittenId(schema: Schema, t: string) returns (c: string)
    requires WellNamed(schema) && Writes(schema, t)
    ensures WritesColumn(schema, t, c)
  {
    var m :| m in schema && StoredModel(m, schema[m]) == t;
    assert WellNamedModel(m, schema[m]);
    c := StoredField("id", schema[m].fields["id"]);
  }

  lemma FindingIsUnexpected(schema: Schema, physical: Physical, tables: Tables, after: Tables, f: Finding)
    requires DistinctNames(schema) && WellNamed(schema) && StoresSchema(schema, physical)
    requires Extends(physical, tables, after, physical.Keys) && IsFinding(schema, after, f)
    requires f.table in tables ==> tables[f.table].columns.Keys != {}
    ensures f.UnexpectedRequiredColumn?
  {
    var t := f.table;
    var m :| m in schema && StoredModel(m, schema[m]) == t;
    assert t in physical && t in after;
    forall c | Writes(schema, t) && WritesColumn(schema, t, c)
      ensures c in after[t].columns
    {
      WrittenIsStored(schema, physical, t, c);
      assert c in FreshColumns(physical[t]);
    }
  }

  /** Every column the schema writes is a column of the stored table. */
  lemma WrittenIsStored(schema: Schema, physical: Physical, t: string, c: string)
    requires DistinctNames(schema) && WellNamed(schema) && StoresSchema(schema, physical)
    requires Writes(schema, t) && WritesColumn(schema, t, c)
    ensures t in physical && c in physical[t]
  {
    var m :| m in schema && StoredModel(m, schema[m]) == t;
    assert WellNamedModel(m, schema[m]);
    var n :| n in schema && StoredModel(n, schema[n]) == t && StoresFields(schema[n], physical[t]);
    assert m == n;
  }

  /** The stored tables of a well-named schema are never empty, so a repeated migration is
      covered by the lemma below. */
  lemma StoredTablesHaveColumns(schema: Schema, physical: Physical, t: string)
    requires WellNamed(schema) && StoresSchema(schema, physical) && t in physical
    ensures physical[t].Keys != {}
  {
    var m :| m in schema && StoredModel(m, schema[m]) == t && StoresFields(schema[m], physical[t]);
    assert WellNamedModel(m, schema[m]);
    assert StoredField("id", schema[m].fields["id"]) in physical[t];
  }

  // ---------------------------------------------------------------- migrating again

  ghost predicate AllTaken(physical: Physical, tables: Tables, done: set<string>)
    requires done <= physical.Keys
  {
    forall t | t in done :: Lacking(physical[t], tables, t) == {}
  }

  lemma TakenStays(tables: Tables, t: string, table: Table, name: string)
    requires Taken(tables, name) && (t in tables ==> tables[t].indexes <= table.indexes)
    ensures Taken(tables[t := table], name)
  {
    var u :| u in tables && HoldsName(u, tables[u].indexes, name);
    var index :| index in tables[u].indexes && IndexName(u, index) == name;
    assert index in tables[t := table][u].indexes && HoldsName(u, tables[t := table][u].indexes, name);
  }

  /** After its migration no index of a table is lacking, made or skipped. */
  lemma StepTakes(fields: map<string, Field>, tables: Tables, t: string)
    ensures Lacking(fields, tables[t := MigratedTable(fields, tables, t)], t) == {}
  {
    var after := tables[t := MigratedTable(fields, tables, t)];
    forall index | index in Wanted(fields)
      ensures Taken(after, IndexName(t, index))
    {
      if index in Lacking(fields, tables, t) {
        assert index in after[t].indexes && HoldsName(t, after[t].indexes, IndexName(t, index));
      } else {
        TakenStays(tables, t, MigratedTable(fields, tables, t), IndexName(t, index));
      }
    }
  }

  lemma StepKeepsTaken(fields: map<string, Field>, other: map<string, Field>, tables: Tables, t: string, u: string)
    requires Lacking(other, tables, u) == {}
    ensures Lacking(other, tables[t := MigratedTable(fields, tables, t)], u) == {}
  {
    forall index | index in Wanted(other)
      ensures Taken(tables[t := MigratedTable(fields, tables, t)], IndexName(u, index))
    {
      assert index !in Lacking(other, tables, u);
      TakenStays(tables, t, MigratedTable(fields, tables, t), IndexName(u, index));
    }
  }

  lemma {:induction false} MigratedTakes(physical: Physical, before: Tables, order: seq<string>)
    requires Within(order, physical) && MigrateAll(physical, before, order).Some?
    ensures forall t | t in order :: Lacking(physical[t], MigrateAll(physical, before, order).value, t) == {}
  {
    if order != [] {
      var n := |order| - 1;
      var t, init := order[n], order[..n];
      MigratedTakes(physical, before, init);
      var mid := MigrateAll(physical, before, init).value;
      StepTakes(physical[t], mid, t);
      forall u | u in order
        ensures Lacking(physical[u], mid[t := MigratedTable(physical[t], mid, t)], u) == {}
      {
        if u != t {
          assert u in init;
          StepKeepsTaken(physical[t], physical[u], mid, t, u);
        }
      }
    }
  }

  /** A table that has its columns and lacks no index stays as it is. */
  ghost predicate Settled(fields: map<string, Field>, tables: Tables, t: string) {
    && t in tables && Lacking(fields, tables, t) == {} && ValidDefaults(fields)
    && (tables[t].columns.Keys != {} ==> fields.Keys <= tables[t].columns.Keys)
  }

  lemma SettledStays(fields: map<string, Field>, tables: Tables, t: string)
    requires Settled(fields, tables, t)
    ensures CanMigrate(fields, tables, t) && MigratedTable(fields, tables, t) == tables[t]
  {
    if tables[t].columns.Keys != {} {
      assert FreshColumns(fields) + tables[t].columns == tables[t].columns;
      assert Filled(fields, tables[t]) == {};
      assert tables[t].repeated + {} == tables[t].repeated;
    }
    assert tables[t].indexes + {} == tables[t].indexes;
  }

  lemma {:induction false} SettledRun(physical: Physical, tables: Tables, order: seq<string>)
    requires Within(order, physical) && forall t | t in order :: Settled(physical[t], tables, t)
    ensures MigrateAll(physical, tables, order) == Some(tables)
  {
    if order != [] {
      var n := |order| - 1;
      SettledRun(physical, tables, order[..n]);
      SettledStays(physical[order[n]], tables, order[n]);
      assert tables[order[n] := tables[order[n]]] == tables;
    }
  }

  lemma {:induction false} DefaultsHeld(physical: Physical, before: Tables, order: seq<string>)
    requires Within(order, physical) && MigrateAll(physical, before, order).Some?
    ensures forall t | t in order :: ValidDefaults(physical[t])
  {
    if order != [] {
      var n := |order| - 1;
      DefaultsHeld(physical, before, order[..n]);
      assert forall t | t in order :: t == order[n] || t in order[..n];
    }
  }

  /** Running the same migration again, in any order, goes through and adds nothing. */
  lemma MigrationIsIdempotent(physical: Physical, tables: Tables, order: seq<string>, again: seq<string>)
    requires forall t | t in physical :: physical[t].Keys != {}
    requires GoesThrough(physical, tables, order) && Covers(again, physical.Keys)
    ensures var after := Migrated(physical, tables, order);
            GoesThrough(physical, after, again) && Migrated(physical, after, again) == after
  {
    var after := Migrated(physical, tables, order);
    AfterMigration(physical, tables, order);
    MigratedTakes(physical, tables, order);
    DefaultsHeld(physical, tables, order);
    assert Safe(physical, after) by {
      forall t | t in physical
        ensures SafeTable(physical, after, t)
      {
        assert after[t].columns.Keys != {} ==> physical[t].Keys <= after[t].columns.Keys;
      }
    }
    forall t | t in again
      ensures Settled(physical[t], after, t)
    {
      assert t in order && t in after;
    }
    SettledRun(physical, after, again);
  }
}
