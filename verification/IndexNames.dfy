/**
 Index names belong to the whole database: when a migration makes all the indexes it wants, and
 when the order of its tables does not matter.
 */
module IndexNames {
  import opened Wrappers
  import opened Migration

  // ---------------------------------------------------------------- indexes of the same name

  /** What any database keeps: no two indexes have the same name. */
  ghost predicate NamesUnique(tables: Tables) {
    forall t, u, i, j {:trigger i in tables[t].indexes, j in tables[u].indexes} |
      t in tables && u in tables && i in tables[t].indexes && j in tables[u].indexes && IndexName(t, i) == IndexName(u, j) ::
      t == u && i == j
  }

  /** Wanted by the schema or there already. */
  predicate Claimed(physical: Physical, tables: Tables, t: string, index: Index) {
    (t in physical && index in Wanted(physical[t])) || (t in tables && index in tables[t].indexes)
  }

  /** No index the schema wants has the name of an index of another table. */
  ghost predicate NamesApart(physical: Physical, tables: Tables) {
    forall t, u, i, j {:trigger Claimed(physical, tables, u, j), i in Wanted(physical[t])} |
      t in physical && i in Wanted(physical[t]) && u != t && Claimed(physical, tables, u, j) ::
      IndexName(t, i) != IndexName(u, j)
  }

  ghost predicate AllIndexed(physical: Physical, tables: Tables) {
    forall t | t in physical :: t in tables && Wanted(physical[t]) <= tables[t].indexes
  }

  lemma StepKeepsUnique(fields: map<string, Field>, tables: Tables, t: string)
    requires NamesUnique(tables)
    ensures NamesUnique(tables[t := MigratedTable(fields, tables, t)])
  {
    var after, made := tables[t := MigratedTable(fields, tables, t)], Lacking(fields, tables, t);
    forall u, v, i, j | u in after && v in after && i in after[u].indexes && j in after[v].indexes && IndexName(u, i) == IndexName(v, j)
      ensures u == v && i == j
    {
      if u == v {
        NamesWithin(u, i, j);
      } else {
        OldName(tables, t, made, u, i, IndexName(v, j));
        OldName(tables, t, made, v, j, IndexName(u, i));
      }
    }
  }

  /** An index outside the made ones was there before, so its name was taken. */
  lemma OldName(tables: Tables, t: string, made: set<Index>, u: string, i: Index, name: string)
    requires IndexName(u, i) == name
    ensures u in tables && i in tables[u].indexes ==> Taken(tables, name)
  {
    if u in tables && i in tables[u].indexes { assert HoldsName(u, tables[u].indexes, name); }
  }

  lemma {:induction false} MigratedUnique(physical: Physical, before: Tables, order: seq<string>)
    requires Within(order, physical) && MigrateAll(physical, before, order).Some? && NamesUnique(before)
    ensures NamesUnique(MigrateAll(physical, before, order).value)
  {
    if order != [] {
      var n := |order| - 1;
      MigratedUnique(physical, before, order[..n]);
      StepKeepsUnique(physical[order[n]], MigrateAll(physical, before, order[..n]).value, order[n]);
    }
  }

  /** A successful migration makes every index the schema wants exactly when none has the name
      of an index of another table. */
  lemma AllIndexedIff(physical: Physical, tables: Tables, order: seq<string>)
    requires NamesUnique(tables) && GoesThrough(physical, tables, order)
    ensures AllIndexed(physical, Migrated(physical, tables, order)) <==> NamesApart(physical, tables)
  {
    var after := Migrated(physical, tables, order);
    AfterMigration(physical, tables, order);
    MigratedUnique(physical, tables, order);
    if AllIndexed(physical, after) {
      IndexedIsApart(physical, tables, after);
    }
    if NamesApart(physical, tables) {
      ApartIsOrderFree(physical, tables, order);
      ApartIndexed(physical, tables);
    }
  }

  lemma IndexedIsApart(physical: Physical, tables: Tables, after: Tables)
    requires Extends(physical, tables, after, physical.Keys) && AllIndexed(physical, after) && NamesUnique(after)
    ensures NamesApart(physical, tables)
  {
    forall t, u, i, j | t in physical && i in Wanted(physical[t]) && u != t && Claimed(physical, tables, u, j)
      ensures IndexName(t, i) != IndexName(u, j)
    {
      assert i in after[t].indexes;
      assert u in after && j in after[u].indexes;
    }
  }

  // ---------------------------------------------------------------- order-free migration

  /** Every table migrated from the database as it was. */
  function MigratedAlone(physical: Physical, tables: Tables): Tables {
    map t | t in tables.Keys + physical.Keys :: if t in physical then MigratedTable(physical[t], tables, t) else tables[t]
  }

  predicate EachCan(physical: Physical, tables: Tables) {
    forall t | t in physical :: CanMigrate(physical[t], tables, t)
  }

  /** The database once the tables in done have been migrated, each from the first state. */
  function PartlyAlone(physical: Physical, tables: Tables, done: set<string>): Tables
    requires done <= physical.Keys
  {
    map t | t in tables.Keys + done :: if t in done then MigratedTable(physical[t], tables, t) else tables[t]
  }

  lemma ApartLacking(physical: Physical, tables: Tables, done: set<string>, t: string)
    requires done <= physical.Keys && t in physical && t !in done && NamesApart(physical, tables)
    ensures Lacking(physical[t], PartlyAlone(physical, tables, done), t) == Lacking(physical[t], tables, t)
  {
    var mid := PartlyAlone(physical, tables, done);
    forall index | index in Wanted(physical[t])
      ensures Taken(mid, IndexName(t, index)) <==> Taken(tables, IndexName(t, index))
    {
      ApartTaken(physical, tables, done, t, index);
    }
  }

  lemma ApartTaken(physical: Physical, tables: Tables, done: set<string>, t: string, index: Index)
    requires done <= physical.Keys && t in physical && t !in done && NamesApart(physical, tables) && index in Wanted(physical[t])
    ensures Taken(PartlyAlone(physical, tables, done), IndexName(t, index)) <==> Taken(tables, IndexName(t, index))
  {
    var mid, name := PartlyAlone(physical, tables, done), IndexName(t, index);
    OnlyOwnName(physical, tables, t, index);
    if Taken(mid, name) {
      var u :| u in mid && HoldsName(u, mid[u].indexes, name);
      var j :| j in mid[u].indexes && IndexName(u, j) == name;
      assert Claimed(physical, tables, u, j);
      assert u == t && mid[t] == tables[t];
      assert HoldsName(t, tables[t].indexes, name);
    }
    if t in tables && HoldsName(t, tables[t].indexes, name) {
      assert t in mid && HoldsName(t, mid[t].indexes, name);
    }
  }

  /** With names apart only the table itself can hold the name. */
  lemma OnlyOwnName(physical: Physical, tables: Tables, t: string, index: Index)
    requires t in physical && NamesApart(physical, tables) && index in Wanted(physical[t])
    ensures Taken(tables, IndexName(t, index)) <==> t in tables && index in tables[t].indexes
  {
    var name := IndexName(t, index);
    if Taken(tables, name) {
      var u :| u in tables && HoldsName(u, tables[u].indexes, name);
      var j :| j in tables[u].indexes && IndexName(u, j) == name;
      assert Claimed(physical, tables, u, j);
      assert u == t;
      NamesWithin(t, index, j);
    }
    if t in tables && index in tables[t].indexes { assert HoldsName(t, tables[t].indexes, name); }
  }

  lemma PartlyStep(physical: Physical, tables: Tables, done: set<string>, t: string)
    requires done <= physical.Keys && t in physical && t !in done && NamesApart(physical, tables)
    ensures var mid := PartlyAlone(physical, tables, done);
            && CanMigrate(physical[t], mid, t) == CanMigrate(physical[t], tables, t)
            && mid[t := MigratedTable(physical[t], mid, t)] == PartlyAlone(physical, tables, done + {t})
  {
    ApartLacking(physical, tables, done, t);
    assert WithColumns(physical[t], PartlyAlone(physical, tables, done), t) == WithColumns(physical[t], tables, t);
  }

  predicate AllCan(physical: Physical, tables: Tables, order: seq<string>)
    requires Within(order, physical)
  {
    forall t | t in order :: CanMigrate(physical[t], tables, t)
  }

  lemma CanMore(physical: Physical, tables: Tables, init: seq<string>, t: string)
    requires Within(init + [t], physical)
    ensures Within(init, physical)
    ensures AllCan(physical, tables, init + [t]) <==> AllCan(physical, tables, init) && CanMigrate(physical[t], tables, t)
  {
    assert forall u :: u in init + [t] <==> u in init || u == t;
  }

  lemma OneName(init: seq<string>, t: string)
    ensures Names(init + [t]) == Names(init) + {t}
    ensures t in Names(init) <==> t in init
  {
  }

  lemma {:induction false} ApartRun(physical: Physical, tables: Tables, order: seq<string>)
    requires Within(order, physical) && NamesApart(physical, tables)
    requires forall i, j | 0 <= i < j < |order| :: order[i] != order[j]
    ensures Names(order) <= physical.Keys
    ensures MigrateAll(physical, tables, order)
         == if AllCan(physical, tables, order) then Some(PartlyAlone(physical, tables, Names(order))) else None
  {
    if order == [] {
      assert Names(order) == {} && PartlyAlone(physical, tables, Names(order)) == tables;
    } else {
      var n := |order| - 1;
      var t, init := order[n], order[..n];
      ApartRun(physical, tables, init);
      OneName(init, t);
      assert order == init + [t];
      PartlyStep(physical, tables, Names(init), t);
      CanMore(physical, tables, init, t);
    }
  }

  /** With names apart the order of the tables does not matter: the migration goes through when
      each table can be migrated alone, and leaves each as if it had been. */
  lemma ApartIsOrderFree(physical: Physical, tables: Tables, order: seq<string>)
    requires NamesApart(physical, tables) && Covers(order, physical.Keys)
    ensures GoesThrough(physical, tables, order) <==> Safe(physical, tables) && EachCan(physical, tables)
    ensures GoesThrough(physical, tables, order) ==> Migrated(physical, tables, order) == MigratedAlone(physical, tables)
  {
    assert Within(order, physical);
    ApartRun(physical, tables, order);
    assert Names(order) == physical.Keys;
    assert PartlyAlone(physical, tables, physical.Keys) == MigratedAlone(physical, tables);
  }

  lemma ApartIndexed(physical: Physical, tables: Tables)
    requires NamesApart(physical, tables)
    ensures AllIndexed(physical, MigratedAlone(physical, tables))
  {
    forall t, index | t in physical && index in Wanted(physical[t])
      ensures index in MigratedAlone(physical, tables)[t].indexes
    {
      OnlyOwnName(physical, tables, t, index);
      assert index in Lacking(physical[t], tables, t) || Taken(tables, IndexName(t, index));
    }
  }

  /** Then every unique column has its unique index and every other indexed column a plain one, and
      the migration has made no other. */
  lemma IndexesFollowFields(physical: Physical, tables: Tables, order: seq<string>, t: string, index: Index)
    requires NamesApart(physical, tables) && GoesThrough(physical, tables, order) && t in physical
    ensures var after := Migrated(physical, tables, order);
            && t in after
            && (index in after[t].indexes <==>
                  || (t in tables && index in tables[t].indexes)
                  || (index.column in physical[t]
                      && if index.unique then physical[t][index.column].unique
                         else physical[t][index.column].indexed && !physical[t][index.column].unique))
  {
    ApartIsOrderFree(physical, tables, order);
    WantedAt(physical[t], index);
    if index in Wanted(physical[t]) { OnlyOwnName(physical, tables, t, index); }
  }

  // ---------------------------------------------------------------- an empty database

  lemma {:induction false} FreshRun(physical: Physical, order: seq<string>)
    requires Within(order, physical) && AllDefaultsValid(physical)
    requires forall i, j | 0 <= i < j < |order| :: order[i] != order[j]
    ensures MigrateAll(physical, map[], order).Some? && MigrateAll(physical, map[], order).value.Keys == Names(order)
  {
    if order != [] {
      var n := |order| - 1;
      FreshRun(physical, order[..n]);
      var mid := MigrateAll(physical, map[], order[..n]).value;
      assert order[n] !in order[..n] && order == order[..n] + [order[n]];
      assert Names(order) == Names(order[..n]) + {order[n]};
      FreshCan(physical[order[n]], mid, order[n]);
    }
  }

  lemma FreshCan(fields: map<string, Field>, tables: Tables, t: string)
    requires t !in tables && ValidDefaults(fields)
    ensures CanMigrate(fields, tables, t)
  {
    forall index | index in Wanted(fields)
      ensures index.column in fields
    {
      WantedAt(fields, index);
    }
  }

  /** Two tables whose unique columns ask for the same index name. */
  function Clashing(first: string, second: string, third: string): Physical {
    var unique := Field(StringField, true, NoDefault, "", true, false);
    map[first := map[second + "_" + third := unique], first + "_" + second := map[third := unique]]
  }

  /** An empty database gets both tables, in either order, but not both indexes. */
  lemma SecondIndexSkipped(first: string, second: string, third: string, order: seq<string>)
    requires Covers(order, Clashing(first, second, third).Keys)
    ensures var physical := Clashing(first, second, third);
            && GoesThrough(physical, map[], order)
            && !AllIndexed(physical, Migrated(physical, map[], order))
  {
    var physical := Clashing(first, second, third);
    FreshRun(physical, order);
    ClashingNames(first, second, third);
    AllIndexedIff(physical, map[], order);
  }

  lemma ClashingNames(first: string, second: string, third: string)
    ensures !NamesApart(Clashing(first, second, third), map[])
  {
    var physical, other := Clashing(first, second, third), first + "_" + second;
    var i, j := Index(second + "_" + third, true), Index(third, true);
    assert |other| == |first| + 1 + |second|;
    WantedAt(physical[first], i);
    WantedAt(physical[other], j);
    assert first + "_" + (second + "_" + third) == (first + "_" + second) + "_" + third;
    assert IndexName(first, i) == IndexName(other, j);
    assert Claimed(physical, map[], other, j);
  }

  // ---------------------------------------------------------------- tables with an index

  predicate SoundIndexes(tables: Tables) {
    forall t | t in tables :: forall index | index in tables[t].indexes :: index.column in tables[t].columns
  }

  /** A model with at least one unique or indexed field, as every model with a unique id has. */
  predicate Indexes(fields: map<string, Field>) {
    exists c | c in fields :: WantedIndex(fields, c).Some?
  }

  /** Such a model cannot be migrated over a table without columns unless another table holds
      the names of its indexes, so with names apart nothing of it is missing after a migration
      that goes through. */
  lemma IndexedMigrationIsComplete(schema: Schema, physical: Physical, tables: Tables, order: seq<string>, f: Finding)
    requires DistinctNames(schema) && WellNamed(schema) && StoresSchema(schema, physical)
    requires SoundIndexes(tables) && NamesApart(physical, tables) && GoesThrough(physical, tables, order)
    requires f.table in physical && Indexes(physical[f.table]) && IsFinding(schema, Migrated(physical, tables, order), f)
    ensures f.UnexpectedRequiredColumn?
  {
    AfterMigration(physical, tables, order);
    ApartIsOrderFree(physical, tables, order);
    if f.table in tables { IndexedHasColumns(physical, tables, f.table); }
    FindingIsUnexpected(schema, physical, tables, Migrated(physical, tables, order), f);
  }

  lemma IndexedHasColumns(physical: Physical, tables: Tables, t: string)
    requires t in physical && t in tables && Indexes(physical[t]) && SoundIndexes(tables) && NamesApart(physical, tables)
    requires Indexable(physical[t], tables, t)
    ensures tables[t].columns.Keys != {}
  {
    var c :| c in physical[t] && WantedIndex(physical[t], c).Some?;
    var index := WantedIndex(physical[t], c).value;
    WantedAt(physical[t], index);
    OnlyOwnName(physical, tables, t, index);
    if index in Lacking(physical[t], tables, t) {
      assert CanIndex(WithColumns(physical[t], tables, t), index);
    } else {
      assert index in tables[t].indexes;
    }
  }
}
