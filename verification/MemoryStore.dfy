/**
 The in-memory adapter. Go ranges over a map in any order, so every operation takes the
 iteration order as a parameter of its specification; the methods choose one and return it.
 */
module MemoryStore {
  import opened Wrappers
  import opened Records
  import Scan

  type Table = map<string, Record>
  type Rows = map<string, Table>

  /** The stored id field of each model and the unique keys of each model. */
  datatype Rules = Rules(ids: map<string, string>, unique: map<string, seq<seq<string>>>) {
    function IdField(model: string): string {
      if model in ids && ids[model] != "" then ids[model] else "id"
    }

    function Keys(model: string): seq<seq<string>> {
      if model in unique then unique[model] else []
    }
  }

  datatype Sort = Sort(field: string, descending: bool)

  datatype Command =
    | Create(model: string, data: Record)
    | FindOne(model: string, where_: seq<Where>)
    | FindMany(model: string, where_: seq<Where>, limit: int, offset: int, sort: Option<Sort>)
    | Count(model: string, where_: seq<Where>)
    | Write(model: string, where_: seq<Where>, change: Change)

  /** Update, UpdateMany, Delete, DeleteMany, ConsumeOne and IncrementOne. */
  datatype Change =
    | SetOne(update: Record)
    | SetMany(update: Record)
    | RemoveOne
    | RemoveMany
    | ConsumeOne
    | IncrementOne(increment: map<string, real>, set_: Record)

  datatype Error = InvalidWhere | IdRequired | Conflict | OutOfBounds | EmptyIncrement | NotNumeric

  datatype Answer =
    | Failed(error: Error)
    | Row(record: Option<Record>)
    | RowList(records: seq<Record>)
    | Counted(count: nat)
    | Done

  function TableOf(rows: Rows, model: string): Table {
    if model in rows then rows[model] else map[]
  }

  ghost predicate Enumerates(order: seq<string>, table: Table) {
    && (forall i, j | 0 <= i < j < |order| :: order[i] != order[j])
    && (forall id {:trigger id in order} :: id in order <==> id in table)
  }

  method Iterate(table: Table) returns (order: seq<string>)
    ensures Enumerates(order, table)
  {
    order := [];
    var rest := table.Keys;
    while rest != {}
      invariant rest <= table.Keys
      invariant forall i, j | 0 <= i < j < |order| :: order[i] != order[j]
      invariant forall id :: id in order <==> id in table.Keys - rest
    {
      var id :| id in rest;
      assert id !in order;
      order := order + [id];
      rest := rest - {id};
    }
  }

  // ---------------------------------------------------------------- unique keys

  /** A key with a nil or missing value never collides. */
  predicate SameUniqueKey(left: Record, right: Record, fields: seq<string>) {
    forall f | f in fields :: Get(left, f) != Nil && Get(right, f) != Nil && Get(left, f) == Get(right, f)
  }

  predicate SharesKey(left: Record, right: Record, keys: seq<seq<string>>) {
    exists key | key in keys :: SameUniqueKey(left, right, key)
  }

  /** Whether another row than exceptId already holds one of the candidate's unique keys. */
  predicate Conflicts(table: Table, keys: seq<seq<string>>, candidate: Record, exceptId: string) {
    exists id | id in table :: id != exceptId && SharesKey(table[id], candidate, keys)
  }

  method FindConflict(table: Table, keys: seq<seq<string>>, candidate: Record, exceptId: string) returns (found: bool)
    ensures found == Conflicts(table, keys, candidate, exceptId)
  {
    if |keys| == 0 {
      return false;
    }
    var rest := table.Keys;
    while rest != {}
      invariant rest <= table.Keys
      invariant forall id | id in table.Keys - rest :: id == exceptId || !SharesKey(table[id], candidate, keys)
    {
      var id :| id in rest;
      if id != exceptId {
        for k := 0 to |keys|
          invariant forall key | key in keys[..k] :: !SameUniqueKey(table[id], candidate, key)
        {
          if SameUniqueKey(table[id], candidate, keys[k]) {
            return true;
          }
        }
        assert keys[..|keys|] == keys;
      }
      rest := rest - {id};
    }
    return false;
  }

  // ---------------------------------------------------------------- specification

  /** An update never writes the id field. */
  function Changed(record: Record, update: Record, idField: string): Record {
    record + (update - {idField})
  }

  function Incremented(record: Record, increment: map<string, real>): Option<Record> {
    if forall f | f in increment :: Get(record, f).Number? then
      Some(record + map f | f in increment :: Number(Float, Get(record, f).amount + increment[f]))
    else None
  }

  predicate Hit(table: Table, id: string, where_: seq<Where>) {
    id in table && Matches(table[id], where_)
  }

  /** The first row in iteration order that matches. */
  function FirstMatch(table: Table, order: seq<string>, where_: seq<Where>): (r: Option<string>)
    ensures r.Some? ==> r.value in order && Hit(table, r.value, where_)
    ensures r.None? ==> forall id | id in order :: !Hit(table, id, where_)
  {
    if order == [] then None
    else if Hit(table, order[0], where_) then Some(order[0])
    else FirstMatch(table, order[1..], where_)
  }

  /** All rows that match, in iteration order. */
  function AllMatches(table: Table, order: seq<string>, where_: seq<Where>): (r: seq<string>)
    ensures forall id :: id in r <==> id in order && Hit(table, id, where_)
  {
    if order == [] then []
    else if Hit(table, order[0], where_) then [order[0]] + AllMatches(table, order[1..], where_)
    else AllMatches(table, order[1..], where_)
  }

  function IdSet(ids: seq<string>): set<string> {
    set id | id in ids
  }

  function RecordsOf(table: Table, ids: seq<string>): (r: seq<Record>)
    requires forall id | id in ids :: id in table
    ensures |r| == |ids| && forall i | 0 <= i < |r| :: r[i] == table[ids[i]]
  {
    seq(|ids|, i requires 0 <= i < |ids| => table[ids[i]])
  }

  predicate SortsAfter(left: Record, right: Record, sort: Sort) {
    var order := Compare(Get(left, sort.field), Get(right, sort.field));
    if sort.descending then order == Less else order == Greater
  }

  /** A stable insertion from the right. */
  function InsertSorted(sorted: seq<Record>, record: Record, sort: Sort): seq<Record> {
    if sorted != [] && SortsAfter(sorted[|sorted| - 1], record, sort) then
      InsertSorted(sorted[..|sorted| - 1], record, sort) + [sorted[|sorted| - 1]]
    else sorted + [record]
  }

  function SortedBy(records: seq<Record>, sort: Sort): seq<Record> {
    if records == [] then []
    else InsertSorted(SortedBy(records[..|records| - 1], sort), records[|records| - 1], sort)
  }

  function Found(table: Table, order: seq<string>, where_: seq<Where>, limit: int, offset: int, sort: Option<Sort>): Answer {
    if !ValidWhere(where_, true) then Failed(InvalidWhere)
    else
      var effective := if limit == 0 then 100 else limit;
      if effective < 0 || effective > 1000 || offset < 0 then Failed(OutOfBounds)
      else
        var matching := RecordsOf(table, AllMatches(table, order, where_));
        RowList(Scan.Page(if sort.Some? then SortedBy(matching, sort.value) else matching, effective, offset))
  }

  /** One row replaced, unless that repeats another row's unique key. */
  function Replace(rules: Rules, rows: Rows, model: string, id: string, record: Record): Option<Rows> {
    if Conflicts(TableOf(rows, model), rules.Keys(model), record, id) then None
    else Some(rows[model := TableOf(rows, model)[id := record]])
  }

  function Removed(rows: Rows, model: string, id: string): Rows {
    rows[model := TableOf(rows, model) - {id}]
  }

  /** A bulk update works row by row and stops at the first conflict, keeping what it wrote. */
  function UpdateEach(rules: Rules, rows: Rows, model: string, ids: seq<string>, update: Record, count: nat): (Rows, Answer) {
    if ids == [] || ids[0] !in TableOf(rows, model) then (rows, Counted(count))
    else
      match Replace(rules, rows, model, ids[0], Changed(TableOf(rows, model)[ids[0]], update, rules.IdField(model)))
      case None => (rows, Failed(Conflict))
      case Some(next) => UpdateEach(rules, next, model, ids[1..], update, count + 1)
  }

  function Created(rules: Rules, rows: Rows, model: string, data: Record): (Rows, Answer) {
    var key := Get(data, rules.IdField(model));
    if !key.Text? || key.text == "" then (rows, Failed(IdRequired))
    else if key.text in TableOf(rows, model) || Conflicts(TableOf(rows, model), rules.Keys(model), data, "")
    then (rows, Failed(Conflict))
    else (rows[model := TableOf(rows, model)[key.text := data]], Row(Some(data)))
  }

  function Rewritten(rules: Rules, rows: Rows, model: string, id: string, record: Record): (Rows, Answer) {
    match Replace(rules, rows, model, id, record)
    case None => (rows, Failed(Conflict))
    case Some(next) => (next, Row(Some(record)))
  }

  /** The state and the answer after a command, for one iteration order of its table. */
  function Apply(rules: Rules, rows: Rows, command: Command, order: seq<string>): (Rows, Answer) {
    var table := TableOf(rows, command.model);
    match command
    case Create(model, data) => Created(rules, rows, model, data)
    case FindOne(_, w) =>
      if !ValidWhere(w, true) then (rows, Failed(InvalidWhere))
      else
        var first := FirstMatch(table, order, w);
        (rows, Row(if first.None? then None else Some(table[first.value])))
    case FindMany(_, w, limit, offset, sort) => (rows, Found(table, order, w, limit, offset, sort))
    case Count(_, w) =>
      var found := Found(table, order, w, 1000, 0, None);
      (rows, if found.RowList? then Counted(|found.records|) else found)
    case Write(model, w, change) =>
      if !ValidWhere(w, false) then (rows, Failed(InvalidWhere))
      else if change.IncrementOne? && change.increment == map[] then (rows, Failed(EmptyIncrement))
      else Written(rules, rows, model, w, change, order)
  }

  function Written(rules: Rules, rows: Rows, model: string, w: seq<Where>, change: Change, order: seq<string>): (Rows, Answer) {
    var table := TableOf(rows, model);
    var matching, first := AllMatches(table, order, w), FirstMatch(table, order, w);
    if change.SetMany? then UpdateEach(rules, rows, model, matching, change.update, 0)
    else if change.RemoveMany? then (rows[model := table - IdSet(matching)], Counted(|matching|))
    else if first.None? then (rows, if change.RemoveOne? then Done else Row(None))
    else WrittenAt(rules, rows, model, first.value, change)
  }

  /** The changes that touch one row. */
  function WrittenAt(rules: Rules, rows: Rows, model: string, id: string, change: Change): (Rows, Answer)
    requires id in TableOf(rows, model) && !change.SetMany? && !change.RemoveMany?
  {
    var record, idField := TableOf(rows, model)[id], rules.IdField(model);
    match change
    case SetOne(update) => Rewritten(rules, rows, model, id, Changed(record, update, idField))
    case IncrementOne(increment, set_) =>
      var increased := Incremented(record, increment);
      if increased.None? then (rows, Failed(NotNumeric))
      else Rewritten(rules, rows, model, id, Changed(increased.value, set_, idField))
    case RemoveOne => (Removed(rows, model, id), Done)
    case ConsumeOne => (Removed(rows, model, id), Row(Some(record)))
  }

  // ---------------------------------------------------------------- the invariant

  /** Every row sits under its own id, and no two rows share a fully non-nil unique key. */
  ghost predicate SoundTable(idField: string, keys: seq<seq<string>>, table: Table) {
    && (forall id | id in table :: id != "" && Get(table[id], idField) == Text(id))
    && (forall i, j | i in table && j in table && i != j :: !SharesKey(table[i], table[j], keys))
  }

  ghost predicate Sound(rules: Rules, rows: Rows) {
    forall model | model in rows :: SoundTable(rules.IdField(model), rules.Keys(model), rows[model])
  }

  lemma SharesKeySymmetric(left: Record, right: Record, keys: seq<seq<string>>)
    ensures SharesKey(left, right, keys) <==> SharesKey(right, left, keys)
  {
    assert forall key :: SameUniqueKey(left, right, key) <==> SameUniqueKey(right, left, key);
  }

  lemma PutKeepsSound(rules: Rules, rows: Rows, model: string, id: string, record: Record)
    requires Sound(rules, rows) && id != "" && Get(record, rules.IdField(model)) == Text(id)
    requires !Conflicts(TableOf(rows, model), rules.Keys(model), record, id)
    ensures Sound(rules, rows[model := TableOf(rows, model)[id := record]])
  {
    var table, keys := TableOf(rows, model), rules.Keys(model);
    var next := table[id := record];
    forall i, j | i in next && j in next && i != j
      ensures !SharesKey(next[i], next[j], keys)
    {
      SharesKeySymmetric(next[i], next[j], keys);
    }
  }

  lemma DropKeepsSound(rules: Rules, rows: Rows, model: string, ids: set<string>)
    requires Sound(rules, rows)
    ensures Sound(rules, rows[model := TableOf(rows, model) - ids])
  {
  }

  lemma ChangedKeepsId(record: Record, update: Record, idField: string)
    ensures Get(Changed(record, update, idField), idField) == Get(record, idField)
  {
  }

  lemma RewriteKeepsSound(rules: Rules, rows: Rows, model: string, id: string, base: Record, update: Record)
    requires Sound(rules, rows) && id in TableOf(rows, model)
    requires Get(base, rules.IdField(model)) == Get(TableOf(rows, model)[id], rules.IdField(model))
    ensures Sound(rules, Rewritten(rules, rows, model, id, Changed(base, update, rules.IdField(model))).0)
  {
    ChangedKeepsId(base, update, rules.IdField(model));
    var record := Changed(base, update, rules.IdField(model));
    if !Conflicts(TableOf(rows, model), rules.Keys(model), record, id) {
      PutKeepsSound(rules, rows, model, id, record);
    }
  }

  lemma {:induction false} UpdateEachKeepsSound(rules: Rules, rows: Rows, model: string, ids: seq<string>, update: Record, count: nat)
    requires Sound(rules, rows)
    ensures Sound(rules, UpdateEach(rules, rows, model, ids, update, count).0)
    decreases |ids|
  {
    if ids != [] && ids[0] in TableOf(rows, model) {
      var record := Changed(TableOf(rows, model)[ids[0]], update, rules.IdField(model));
      RewriteKeepsSound(rules, rows, model, ids[0], TableOf(rows, model)[ids[0]], update);
      if !Conflicts(TableOf(rows, model), rules.Keys(model), record, ids[0]) {
        UpdateEachKeepsSound(rules, Replace(rules, rows, model, ids[0], record).value, model, ids[1..], update, count + 1);
      }
    }
  }

  /** An id is text, so an increment that reaches the id field is refused, not applied. */
  lemma IncrementKeepsId(record: Record, increment: map<string, real>, idField: string)
    requires Get(record, idField).Text?
    ensures Incremented(record, increment).Some? ==>
              Get(Incremented(record, increment).value, idField) == Get(record, idField)
  {
  }

  /** Every command keeps the store sound, also a bulk update that fails part-way. */
  lemma ApplyKeepsSound(rules: Rules, rows: Rows, command: Command, order: seq<string>)
    requires Sound(rules, rows)
    ensures Sound(rules, Apply(rules, rows, command, order).0)
  {
    var model, table := command.model, TableOf(rows, command.model);
    if command.Create? {
      var key := Get(command.data, rules.IdField(model));
      if key.Text? && key.text != "" && key.text !in table && !Conflicts(table, rules.Keys(model), command.data, "") {
        assert "" !in table;
        PutKeepsSound(rules, rows, model, key.text, command.data);
      }
    } else if command.Write? {
      WrittenKeepsSound(rules, rows, model, command.where_, command.change, order);
    }
  }

  lemma WrittenKeepsSound(rules: Rules, rows: Rows, model: string, w: seq<Where>, change: Change, order: seq<string>)
    requires Sound(rules, rows)
    ensures Sound(rules, Written(rules, rows, model, w, change, order).0)
  {
    var table := TableOf(rows, model);
    var matching, first := AllMatches(table, order, w), FirstMatch(table, order, w);
    if change.SetMany? {
      UpdateEachKeepsSound(rules, rows, model, matching, change.update, 0);
    } else if change.RemoveMany? {
      DropKeepsSound(rules, rows, model, IdSet(matching));
    } else if first.Some? {
      WrittenAtKeepsSound(rules, rows, model, first.value, change);
    }
  }

  lemma WrittenAtKeepsSound(rules: Rules, rows: Rows, model: string, id: string, change: Change)
    requires Sound(rules, rows) && id in TableOf(rows, model) && !change.SetMany? && !change.RemoveMany?
    ensures Sound(rules, WrittenAt(rules, rows, model, id, change).0)
  {
    var record, idField := TableOf(rows, model)[id], rules.IdField(model);
    if change.SetOne? {
      RewriteKeepsSound(rules, rows, model, id, record, change.update);
    } else if change.IncrementOne? {
      IncrementKeepsId(record, change.increment, idField);
      var increased := Incremented(record, change.increment);
      if increased.Some? { RewriteKeepsSound(rules, rows, model, id, increased.value, change.set_); }
    } else {
      DropKeepsSound(rules, rows, model, {id});
    }
  }

  // ---------------------------------------------------------------- what bulk operations do

  ghost predicate UpdatedExactly(rules: Rules, before: Table, after: Table, model: string, ids: seq<string>, update: Record) {
    && after.Keys == before.Keys
    && forall id | id in before ::
         after[id] == if id in ids then Changed(before[id], update, rules.IdField(model)) else before[id]
  }

  /** A bulk update that succeeds has changed exactly the matching rows. */
  lemma {:induction false} UpdateEachExact(rules: Rules, rows: Rows, model: string, ids: seq<string>, update: Record, count: nat)
    requires forall id | id in ids :: id in TableOf(rows, model)
    requires forall i, j | 0 <= i < j < |ids| :: ids[i] != ids[j]
    ensures var (after, answer) := UpdateEach(rules, rows, model, ids, update, count);
            && (answer == Counted(count + |ids|) || answer == Failed(Conflict))
            && (answer.Counted? ==> UpdatedExactly(rules, TableOf(rows, model), TableOf(after, model), model, ids, update))
            && (forall other | other != model :: TableOf(after, other) == TableOf(rows, other))
    decreases |ids|
  {
    if ids != [] {
      var record := Changed(TableOf(rows, model)[ids[0]], update, rules.IdField(model));
      match Replace(rules, rows, model, ids[0], record)
      case None =>
      case Some(next) =>
        assert ids[0] !in ids[1..];
        UpdateEachExact(rules, next, model, ids[1..], update, count + 1);
    }
  }

  // ---------------------------------------------------------------- scripts and transactions

  /** What a transaction callback does: commands, and nested transactions, which run inline. */
  datatype Action = Run(command: Command) | Nested(body: seq<Action>)

  function Flatten(actions: seq<Action>): seq<Command> {
    if actions == [] then []
    else (match actions[0] case Run(c) => [c] case Nested(body) => Flatten(body)) + Flatten(actions[1..])
  }

  /** The rows after a list of commands, each with its own iteration order. */
  function RunAll(rules: Rules, rows: Rows, commands: seq<Command>, orders: seq<seq<string>>): Rows
    requires |orders| == |commands|
    decreases |commands|
  {
    if commands == [] then rows
    else RunAll(rules, Apply(rules, rows, commands[0], orders[0]).0, commands[1..], orders[1..])
  }

  lemma {:induction false} RunAllKeepsSound(rules: Rules, rows: Rows, commands: seq<Command>, orders: seq<seq<string>>)
    requires |orders| == |commands| && Sound(rules, rows)
    ensures Sound(rules, RunAll(rules, rows, commands, orders))
    decreases |commands|
  {
    if commands != [] {
      ApplyKeepsSound(rules, rows, commands[0], orders[0]);
      RunAllKeepsSound(rules, Apply(rules, rows, commands[0], orders[0]).0, commands[1..], orders[1..]);
    }
  }

  lemma {:induction false} RunAllAppend(rules: Rules, rows: Rows, a: seq<Command>, oa: seq<seq<string>>, b: seq<Command>, ob: seq<seq<string>>)
    requires |oa| == |a| && |ob| == |b|
    ensures RunAll(rules, rows, a + b, oa + ob) == RunAll(rules, RunAll(rules, rows, a, oa), b, ob)
    decreases |a|
  {
    if a == [] {
      assert a + b == b && oa + ob == ob;
    } else {
      assert (a + b)[1..] == a[1..] + b && (oa + ob)[1..] == oa[1..] + ob;
      RunAllAppend(rules, Apply(rules, rows, a[0], oa[0]).0, a[1..], oa[1..], b, ob);
    }
  }

  lemma {:induction false} FlattenAppend(a: seq<Action>, b: seq<Action>)
    ensures Flatten(a + b) == Flatten(a) + Flatten(b)
  {
    if a == [] {
      assert a + b == b;
    } else {
      assert (a + b)[1..] == a[1..] + b;
      FlattenAppend(a[1..], b);
    }
  }

  // ---------------------------------------------------------------- the adapter

  class MemoryAdapter {
    const rules: Rules
    var rows: Rows

    constructor (rules: Rules, rows: Rows)
      ensures this.rules == rules && this.rows == rows
    {
      this.rules, this.rows := rules, rows;
    }

    /** One command outside or inside a transaction; mutations change the rows in place. */
    method Execute(command: Command) returns (answer: Answer, ghost order: seq<string>)
      modifies this
      ensures Enumerates(order, TableOf(old(rows), command.model))
      ensures (rows, answer) == Apply(rules, old(rows), command, order)
      ensures Sound(rules, old(rows)) ==> Sound(rules, rows)
    {
      var table := TableOf(rows, command.model);
      var iteration := Iterate(table);
      order := iteration;
      if Sound(rules, rows) { ApplyKeepsSound(rules, rows, command, order); }
      match command {
        case Create(model, data) =>
          answer := CreateRow(model, data);
        case FindOne(_, w) =>
          if !ValidWhere(w, true) {
            return Failed(InvalidWhere), order;
          }
          var first := FindFirst(table, iteration, w);
          answer := Row(if first.None? then None else Some(table[first.value]));
        case FindMany(_, w, limit, offset, sort) =>
          answer := Find(table, iteration, w, limit, offset, sort);
        case Count(_, w) =>
          var found := Find(table, iteration, w, 1000, 0, None);
          answer := if found.RowList? then Counted(|found.records|) else found;
        case Write(model, w, change) =>
          if !ValidWhere(w, false) {
            return Failed(InvalidWhere), order;
          }
          if change.IncrementOne? && change.increment == map[] {
            return Failed(EmptyIncrement), order;
          }
          answer := WriteRows(model, w, change, iteration);
      }
    }

    method CreateRow(model: string, data: Record) returns (answer: Answer)
      modifies this
      ensures (rows, answer) == Created(rules, old(rows), model, data)
    {
      var key := Get(data, rules.IdField(model));
      if !key.Text? || key.text == "" {
        return Failed(IdRequired);
      }
      var conflict := FindConflict(TableOf(rows, model), rules.Keys(model), data, "");
      if key.text in TableOf(rows, model) || conflict {
        return Failed(Conflict);
      }
      rows := rows[model := TableOf(rows, model)[key.text := data]];
      return Row(Some(data));
    }

    method WriteRows(model: string, w: seq<Where>, change: Change, order: seq<string>) returns (answer: Answer)
      requires Enumerates(order, TableOf(rows, model))
      modifies this
      ensures (rows, answer) == Written(rules, old(rows), model, w, change, order)
    {
      var table := TableOf(rows, model);
      if change.SetMany? || change.RemoveMany? {
        var matching := FindAll(table, order, w);
        if change.SetMany? {
          answer := UpdateRows(model, matching, change.update);
        } else {
          answer := DeleteRows(model, matching);
        }
      } else {
        var first := FindFirst(table, order, w);
        if first.None? {
          return if change.RemoveOne? then Done else Row(None);
        }
        answer := WriteRow(model, first.value, change);
      }
    }

    method WriteRow(model: string, id: string, change: Change) returns (answer: Answer)
      requires id in TableOf(rows, model) && !change.SetMany? && !change.RemoveMany?
      modifies this
      ensures (rows, answer) == WrittenAt(rules, old(rows), model, id, change)
    {
      var record, idField := TableOf(rows, model)[id], rules.IdField(model);
      if change.SetOne? {
        answer := RewriteRow(model, id, Changed(record, change.update, idField));
      } else if change.IncrementOne? {
        var increased := Incremented(record, change.increment);
        if increased.None? {
          return Failed(NotNumeric);
        }
        answer := RewriteRow(model, id, Changed(increased.value, change.set_, idField));
      } else {
        rows := Removed(rows, model, id);
        return if change.ConsumeOne? then Row(Some(record)) else Done;
      }
    }

    method RewriteRow(model: string, id: string, record: Record) returns (answer: Answer)
      modifies this
      ensures (rows, answer) == Rewritten(rules, old(rows), model, id, record)
    {
      var conflict := FindConflict(TableOf(rows, model), rules.Keys(model), record, id);
      if conflict {
        return Failed(Conflict);
      }
      rows := rows[model := TableOf(rows, model)[id := record]];
      return Row(Some(record));
    }

    method UpdateRows(model: string, ids: seq<string>, update: Record) returns (answer: Answer)
      requires forall id | id in ids :: id in TableOf(rows, model)
      modifies this
      ensures (rows, answer) == UpdateEach(rules, old(rows), model, ids, update, 0)
    {
      var i := 0;
      assert ids[0..] == ids;
      while i < |ids|
        invariant 0 <= i <= |ids|
        invariant forall id | id in ids :: id in TableOf(rows, model)
        invariant UpdateEach(rules, old(rows), model, ids, update, 0) == UpdateEach(rules, rows, model, ids[i..], update, i)
      {
        assert ids[i..][0] == ids[i] && ids[i..][1..] == ids[i + 1..];
        var record := Changed(TableOf(rows, model)[ids[i]], update, rules.IdField(model));
        var conflict := FindConflict(TableOf(rows, model), rules.Keys(model), record, ids[i]);
        if conflict {
          return Failed(Conflict);
        }
        rows := rows[model := TableOf(rows, model)[ids[i] := record]];
        i := i + 1;
      }
      return Counted(i);
    }

    method DeleteRows(model: string, ids: seq<string>) returns (answer: Answer)
      modifies this
      ensures (rows, answer) == (old(rows)[model := TableOf(old(rows), model) - IdSet(ids)], Counted(|ids|))
    {
      rows := rows[model := TableOf(rows, model)];
      var i := 0;
      assert TableOf(rows, model) - IdSet(ids[..0]) == TableOf(rows, model);
      while i < |ids|
        invariant 0 <= i <= |ids|
        invariant rows == old(rows)[model := TableOf(old(rows), model) - IdSet(ids[..i])]
      {
        assert ids[..i + 1] == ids[..i] + [ids[i]];
        assert IdSet(ids[..i + 1]) == IdSet(ids[..i]) + {ids[i]};
        assert TableOf(rows, model) - {ids[i]} == TableOf(old(rows), model) - IdSet(ids[..i + 1]);
        rows := Removed(rows, model, ids[i]);
        i := i + 1;
      }
      assert ids[..i] == ids;
      return Counted(i);
    }

    /** A transaction works on a copy of the rows, which replaces them only when the callback
        succeeds. Nested transactions run inline. */
    method Transaction(actions: seq<Action>, fails: bool) returns (ok: bool, ghost orders: seq<seq<string>>)
      modifies this
      ensures ok == !fails && |orders| == |Flatten(actions)|
      ensures rows == if fails then old(rows) else RunAll(rules, old(rows), Flatten(actions), orders)
      ensures Sound(rules, old(rows)) ==> Sound(rules, rows)
    {
      var transaction := new MemoryAdapter(rules, rows);
      orders := transaction.RunActions(actions);
      if Sound(rules, rows) { RunAllKeepsSound(rules, rows, Flatten(actions), orders); }
      if fails {
        return false, orders;
      }
      rows := transaction.rows;
      return true, orders;
    }

    method RunActions(actions: seq<Action>) returns (ghost orders: seq<seq<string>>)
      modifies this
      ensures |orders| == |Flatten(actions)|
      ensures rows == RunAll(rules, old(rows), Flatten(actions), orders)
      decreases actions
    {
      orders := [];
      var i := 0;
      while i < |actions|
        invariant 0 <= i <= |actions|
        invariant |orders| == |Flatten(actions[..i])|
        invariant rows == RunAll(rules, old(rows), Flatten(actions[..i]), orders)
      {
        ghost var before, more;
        before := rows;
        match actions[i] {
          case Run(command) =>
            ghost var order;
            var answer;
            answer, order := Execute(command);
            more := [order];
          case Nested(body) =>
            more := RunActions(body);
        }
        OneAction(rules, before, actions[i], more, rows);
        FlattenAppend(actions[..i], [actions[i]]);
        RunAllAppend(rules, old(rows), Flatten(actions[..i]), orders, Flatten([actions[i]]), more);
        assert actions[..i + 1] == actions[..i] + [actions[i]];
        orders := orders + more;
        i := i + 1;
      }
      assert actions[..i] == actions;
    }
  }

  lemma OneAction(rules: Rules, before: Rows, action: Action, orders: seq<seq<string>>, after: Rows)
    requires action.Run? ==> |orders| == 1 && after == Apply(rules, before, action.command, orders[0]).0
    requires action.Nested? ==> |orders| == |Flatten(action.body)| && after == RunAll(rules, before, Flatten(action.body), orders)
    ensures |orders| == |Flatten([action])| && after == RunAll(rules, before, Flatten([action]), orders)
  {
    assert [action][1..] == [];
    if action.Run? {
      assert Flatten([action]) == [action.command];
      assert [action.command][1..] == [] && orders[1..] == [];
    } else {
      assert Flatten([action]) == Flatten(action.body);
    }
  }

  method FindFirst(table: Table, order: seq<string>, where_: seq<Where>) returns (first: Option<string>)
    requires Enumerates(order, table)
    ensures first == FirstMatch(table, order, where_)
  {
    var i := 0;
    assert order[0..] == order;
    while i < |order|
      invariant 0 <= i <= |order|
      invariant FirstMatch(table, order, where_) == FirstMatch(table, order[i..], where_)
    {
      assert order[i..][1..] == order[i + 1..];
      assert order[i] in order;
      var matches := MatchRecord(table[order[i]], where_);
      if matches {
        return Some(order[i]);
      }
      i := i + 1;
    }
    return None;
  }

  lemma AllMatchesStep(table: Table, order: seq<string>, where_: seq<Where>, i: nat, ids: seq<string>)
    requires i < |order|
    ensures ids + AllMatches(table, order[i..], where_)
         == (if Hit(table, order[i], where_) then ids + [order[i]] else ids) + AllMatches(table, order[i + 1..], where_)
  {
    assert order[i..][0] == order[i] && order[i..][1..] == order[i + 1..];
    var rest := AllMatches(table, order[i + 1..], where_);
    assert ids + ([order[i]] + rest) == ids + [order[i]] + rest;
  }

  method FindAll(table: Table, order: seq<string>, where_: seq<Where>) returns (ids: seq<string>)
    requires Enumerates(order, table)
    ensures ids == AllMatches(table, order, where_)
  {
    ids := [];
    var i := 0;
    assert order[0..] == order;
    while i < |order|
      invariant 0 <= i <= |order|
      invariant AllMatches(table, order, where_) == ids + AllMatches(table, order[i..], where_)
    {
      assert order[i] in order;
      AllMatchesStep(table, order, where_, i, ids);
      var matches := MatchRecord(table[order[i]], where_);
      if matches {
        ids := ids + [order[i]];
      }
      i := i + 1;
    }
  }

  method Find(table: Table, order: seq<string>, where_: seq<Where>, limit: int, offset: int, sort: Option<Sort>) returns (answer: Answer)
    requires Enumerates(order, table)
    ensures answer == Found(table, order, where_, limit, offset, sort)
  {
    if !ValidWhere(where_, true) {
      return Failed(InvalidWhere);
    }
    var effective := if limit == 0 then 100 else limit;
    if effective < 0 || effective > 1000 || offset < 0 {
      return Failed(OutOfBounds);
    }
    var ids := FindAll(table, order, where_);
    var result := RecordsOf(table, ids);
    if sort.Some? {
      result := SortedBy(result, sort.value);
    }
    return RowList(Scan.Page(result, effective, offset));
  }

  // ---------------------------------------------------------------- counting

  lemma {:induction false} AllMatchesDistinct(table: Table, order: seq<string>, where_: seq<Where>)
    requires forall i, j | 0 <= i < j < |order| :: order[i] != order[j]
    ensures var ids := AllMatches(table, order, where_);
            forall i, j | 0 <= i < j < |ids| :: ids[i] != ids[j]
  {
    if order != [] {
      var rest := order[1..];
      assert forall i | 0 <= i < |rest| :: rest[i] == order[i + 1];
      AllMatchesDistinct(table, rest, where_);
      assert order[0] !in AllMatches(table, rest, where_);
    }
  }

  /** Count sees at most 1000 rows, so a limit guard on it is exact only up to 1000. */
  lemma CountIsCapped(rules: Rules, rows: Rows, model: string, where_: seq<Where>, order: seq<string>)
    requires ValidWhere(where_, true)
    ensures var matching := |AllMatches(TableOf(rows, model), order, where_)|;
            Apply(rules, rows, Count(model, where_), order).1 == Counted(if matching > 1000 then 1000 else matching)
  {
  }

  /** The guard "count >= limit" refuses exactly when the limit is reached, for every number
      of rows, if and only if the limit is at most 1000. */
  lemma GuardIsExactUpTo1000(limit: nat)
    ensures (forall rows: nat {:trigger Scan.Capped(rows)} :: Scan.Capped(rows) >= limit <==> rows >= limit) <==> limit <= 1000
  {
    if limit > 1000 { assert Scan.Capped(limit) < limit; }
  }
}
