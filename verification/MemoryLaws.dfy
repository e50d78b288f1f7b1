/**
 What every command of the in-memory adapter does to the table and answers, for every order in
 which it may visit the rows: in terms of the rows that match, before and after.
 */
module MemoryLaws {
  import opened Wrappers
  import opened Records
  import opened MemoryStore
  import Scan

  // ---------------------------------------------------------------- vocabulary

  /** At most the table of this model has changed, to `table`. */
  ghost predicate OnlyTable(before: Rows, after: Rows, m: string, table: Table) {
    TableOf(after, m) == table && forall n | n != m :: TableOf(after, n) == TableOf(before, n)
  }

  predicate Hits(table: Table, id: string, w: seq<Where>) {
    id in table && Matches(table[id], w)
  }

  predicate NoneMatches(table: Table, w: seq<Where>) {
    forall id | id in table :: !Matches(table[id], w)
  }

  function MatchingIds(table: Table, w: seq<Where>): set<string> {
    set id | id in table && Matches(table[id], w)
  }

  /** Field by field: the update wins, except on the id field. */
  ghost predicate TakesUpdate(before: Record, update: Record, idField: string, after: Record) {
    && (forall f :: f in after <==> f in before || (f in update && f != idField))
    && forall f | f in after :: after[f] == if f in update && f != idField then update[f] else before[f]
  }

  /** Another row holds all fields of one of the unique keys, none of them nil. */
  predicate Repeats(table: Table, keys: seq<seq<string>>, record: Record, id: string) {
    exists j, key | j in table && key in keys ::
      j != id && forall f | f in key :: Get(record, f) != Nil && Get(table[j], f) == Get(record, f)
  }

  predicate Named(w: seq<Where>) {
    forall c | c in w :: c.field != ""
  }

  lemma RepeatsIff(table: Table, keys: seq<seq<string>>, record: Record, id: string)
    ensures Conflicts(table, keys, record, id) <==> Repeats(table, keys, record, id)
  {
    if Conflicts(table, keys, record, id) {
      var j :| j in table && j != id && SharesKey(table[j], record, keys);
      var key :| key in keys && SameUniqueKey(table[j], record, key);
      assert forall f | f in key :: Get(record, f) != Nil && Get(table[j], f) == Get(record, f);
    }
    if Repeats(table, keys, record, id) {
      var j, key :| j in table && key in keys && j != id && forall f | f in key :: Get(record, f) != Nil && Get(table[j], f) == Get(record, f);
      assert SameUniqueKey(table[j], record, key);
      assert SharesKey(table[j], record, keys);
    }
  }

  lemma ChangedTakes(record: Record, update: Record, idField: string)
    ensures TakesUpdate(record, update, idField, Changed(record, update, idField))
  {
  }

  // ---------------------------------------------------------------- one row

  /** No row matches and nothing happens, or one that does is taken. */
  lemma FirstIsMatch(table: Table, order: seq<string>, w: seq<Where>)
    requires Enumerates(order, table)
    ensures match FirstMatch(table, order, w)
            case None => NoneMatches(table, w)
            case Some(id) => Hits(table, id, w)
  {
    if FirstMatch(table, order, w).None? {
      forall id | id in table
        ensures !Matches(table[id], w)
      {
        assert id in order;
      }
    }
  }

  ghost predicate Takes(before: Rows, after: Rows, m: string, w: seq<Where>, id: string) {
    var table := TableOf(before, m);
    Hits(table, id, w) && OnlyTable(before, after, m, map i | i in table && i != id :: table[i])
  }

  /** Consuming answers a matching row and removes exactly that one, or there is none. */
  lemma ConsumeOneTakes(rules: Rules, rows: Rows, m: string, w: seq<Where>, order: seq<string>)
    requires Enumerates(order, TableOf(rows, m)) && w != [] && Named(w)
    ensures var (after, answer) := Apply(rules, rows, Write(m, w, ConsumeOne), order);
            || (answer == Row(None) && after == rows && NoneMatches(TableOf(rows, m), w))
            || exists id :: Takes(rows, after, m, w, id) && answer == Row(Some(TableOf(rows, m)[id]))
  {
    FirstIsMatch(TableOf(rows, m), order, w);
    var first := FirstMatch(TableOf(rows, m), order, w);
    if first.Some? { assert Takes(rows, Apply(rules, rows, Write(m, w, ConsumeOne), order).0, m, w, first.value); }
  }

  lemma RemoveOneTakes(rules: Rules, rows: Rows, m: string, w: seq<Where>, order: seq<string>)
    requires Enumerates(order, TableOf(rows, m)) && w != [] && Named(w)
    ensures var (after, answer) := Apply(rules, rows, Write(m, w, RemoveOne), order);
            && answer == Done
            && ((after == rows && NoneMatches(TableOf(rows, m), w)) || exists id :: Takes(rows, after, m, w, id))
  {
    FirstIsMatch(TableOf(rows, m), order, w);
    var first := FirstMatch(TableOf(rows, m), order, w);
    if first.Some? { assert Takes(rows, Apply(rules, rows, Write(m, w, RemoveOne), order).0, m, w, first.value); }
  }

  /** One matching row becomes `record`, unless that repeats a unique key of another row. */
  ghost predicate Puts(rules: Rules, before: Rows, after: Rows, answer: Answer, m: string, id: string, record: Record) {
    var table := TableOf(before, m);
    if Repeats(table, rules.Keys(m), record, id) then answer == Failed(Conflict) && after == before
    else answer == Row(Some(record)) && OnlyTable(before, after, m, table[id := record])
  }

  ghost predicate Sets(rules: Rules, before: Rows, after: Rows, answer: Answer, m: string, w: seq<Where>, update: Record, id: string, record: Record) {
    Hits(TableOf(before, m), id, w) && TakesUpdate(TableOf(before, m)[id], update, rules.IdField(m), record)
    && Puts(rules, before, after, answer, m, id, record)
  }

  /** An update changes the fields it names, the id field excepted, in one matching row. */
  lemma SetOneUpdates(rules: Rules, rows: Rows, m: string, w: seq<Where>, update: Record, order: seq<string>)
    requires Enumerates(order, TableOf(rows, m)) && w != [] && Named(w)
    ensures var (after, answer) := Apply(rules, rows, Write(m, w, SetOne(update)), order);
            || (answer == Row(None) && after == rows && NoneMatches(TableOf(rows, m), w))
            || exists id, record :: Sets(rules, rows, after, answer, m, w, update, id, record)
  {
    FirstIsMatch(TableOf(rows, m), order, w);
    var first := FirstMatch(TableOf(rows, m), order, w);
    if first.Some? {
      var (after, answer) := Apply(rules, rows, Write(m, w, SetOne(update)), order);
      var record := Changed(TableOf(rows, m)[first.value], update, rules.IdField(m));
      ChangedTakes(TableOf(rows, m)[first.value], update, rules.IdField(m));
      RepeatsIff(TableOf(rows, m), rules.Keys(m), record, first.value);
      assert Sets(rules, rows, after, answer, m, w, update, first.value, record);
    }
  }

  /** Each amount is added to a number; then the update of the other fields is taken. */
  ghost predicate Grows(before: Record, increment: map<string, real>, set_: Record, idField: string, after: Record)
    requires forall f | f in increment :: Get(before, f).Number?
  {
    && (forall f :: f in after <==> f in before || f in increment || (f in set_ && f != idField))
    && forall f | f in after :: after[f] ==
         if f in set_ && f != idField then set_[f]
         else if f in increment then Number(Float, Get(before, f).amount + increment[f])
         else before[f]
  }

  ghost predicate Increments(rules: Rules, before: Rows, after: Rows, answer: Answer, m: string, w: seq<Where>, increment: map<string, real>, set_: Record, id: string, record: Record) {
    && Hits(TableOf(before, m), id, w)
    && if forall f | f in increment :: Get(TableOf(before, m)[id], f).Number? then
         Grows(TableOf(before, m)[id], increment, set_, rules.IdField(m), record) && Puts(rules, before, after, answer, m, id, record)
       else answer == Failed(NotNumeric) && after == before
  }

  lemma IncrementOneAdds(rules: Rules, rows: Rows, m: string, w: seq<Where>, increment: map<string, real>, set_: Record, order: seq<string>)
    requires Enumerates(order, TableOf(rows, m)) && w != [] && Named(w)
    ensures var (after, answer) := Apply(rules, rows, Write(m, w, IncrementOne(increment, set_)), order);
            if increment == map[] then answer == Failed(EmptyIncrement) && after == rows
            else
              || (answer == Row(None) && after == rows && NoneMatches(TableOf(rows, m), w))
              || exists id, record :: Increments(rules, rows, after, answer, m, w, increment, set_, id, record)
  {
    FirstIsMatch(TableOf(rows, m), order, w);
    var first := FirstMatch(TableOf(rows, m), order, w);
    if first.Some? && increment != map[] {
      IncrementAt(rules, rows, m, w, increment, set_, order, first.value);
    }
  }

  lemma GrowsIs(record: Record, increment: map<string, real>, set_: Record, idField: string)
    requires Incremented(record, increment).Some?
    ensures forall f | f in increment :: Get(record, f).Number?
    ensures Grows(record, increment, set_, idField, Changed(Incremented(record, increment).value, set_, idField))
  {
    var grown := Incremented(record, increment).value;
    GrownIs(record, increment);
    ChangedTakes(grown, set_, idField);
  }

  lemma GrownIs(record: Record, increment: map<string, real>)
    requires Incremented(record, increment).Some?
    ensures forall f | f in increment :: Get(record, f).Number?
    ensures var grown := Incremented(record, increment).value;
            && (forall f :: f in grown <==> f in record || f in increment)
            && forall f | f in grown :: grown[f] == if f in increment then Number(Float, Get(record, f).amount + increment[f]) else record[f]
  {
  }

  lemma IncrementAt(rules: Rules, rows: Rows, m: string, w: seq<Where>, increment: map<string, real>, set_: Record, order: seq<string>, id: string)
    requires Hits(TableOf(rows, m), id, w) && FirstMatch(TableOf(rows, m), order, w) == Some(id)
    requires w != [] && Named(w) && increment != map[]
    ensures var (after, answer) := Apply(rules, rows, Write(m, w, IncrementOne(increment, set_)), order);
            exists record :: Increments(rules, rows, after, answer, m, w, increment, set_, id, record)
  {
    IncrementIs(rules, rows, m, w, increment, set_, order, id);
    var (after, answer) := Apply(rules, rows, Write(m, w, IncrementOne(increment, set_)), order);
    var record, idField := TableOf(rows, m)[id], rules.IdField(m);
    IncrementedIff(record, increment);
    if Incremented(record, increment).Some? {
      var next := Changed(Incremented(record, increment).value, set_, idField);
      GrowsIs(record, increment, set_, idField);
      RewrittenPuts(rules, rows, m, id, next);
      assert Increments(rules, rows, after, answer, m, w, increment, set_, id, next);
    } else {
      assert Increments(rules, rows, after, answer, m, w, increment, set_, id, record);
    }
  }

  lemma IncrementedIff(record: Record, increment: map<string, real>)
    ensures Incremented(record, increment).Some? <==> forall f | f in increment :: Get(record, f).Number?
  {
  }

  lemma RewrittenPuts(rules: Rules, rows: Rows, m: string, id: string, record: Record)
    ensures var (after, answer) := Rewritten(rules, rows, m, id, record); Puts(rules, rows, after, answer, m, id, record)
  {
    RepeatsIff(TableOf(rows, m), rules.Keys(m), record, id);
  }

  lemma IncrementIs(rules: Rules, rows: Rows, m: string, w: seq<Where>, increment: map<string, real>, set_: Record, order: seq<string>, id: string)
    requires id in TableOf(rows, m) && FirstMatch(TableOf(rows, m), order, w) == Some(id)
    requires w != [] && Named(w) && increment != map[]
    ensures var increased := Incremented(TableOf(rows, m)[id], increment);
            Apply(rules, rows, Write(m, w, IncrementOne(increment, set_)), order)
            == if increased.None? then (rows, Failed(NotNumeric))
               else Rewritten(rules, rows, m, id, Changed(increased.value, set_, rules.IdField(m)))
  {
  }

  /** A new row needs an id of its own, as text, and unique keys of its own. */
  lemma CreateIff(rules: Rules, rows: Rows, m: string, data: Record, order: seq<string>)
    ensures var (after, answer) := Apply(rules, rows, Create(m, data), order);
            var id, table := Get(data, rules.IdField(m)), TableOf(rows, m);
            if !id.Text? || id.text == "" then answer == Failed(IdRequired) && after == rows
            else if id.text in table || Repeats(table, rules.Keys(m), data, "") then answer == Failed(Conflict) && after == rows
            else answer == Row(Some(data)) && OnlyTable(rows, after, m, table[id.text := data])
  {
    RepeatsIff(TableOf(rows, m), rules.Keys(m), data, "");
  }

  // ---------------------------------------------------------------- many rows

  lemma DistinctMatches(table: Table, order: seq<string>, w: seq<Where>, ids: seq<string>)
    requires Enumerates(order, table) && ids == AllMatches(table, order, w)
    ensures forall i, j | 0 <= i < j < |ids| :: ids[i] != ids[j]
  {
    AllMatchesDistinct(table, order, w);
  }

  lemma MatchCount(table: Table, order: seq<string>, w: seq<Where>)
    requires Enumerates(order, table)
    ensures IdSet(AllMatches(table, order, w)) == MatchingIds(table, w)
    ensures |AllMatches(table, order, w)| == |MatchingIds(table, w)|
  {
    var ids := AllMatches(table, order, w);
    DistinctMatches(table, order, w, ids);
    DistinctSize(ids);
    forall id
      ensures id in IdSet(ids) <==> id in MatchingIds(table, w)
    {
      assert id in ids <==> id in order && Hit(table, id, w);
      assert id in order <==> id in table;
    }
  }

  lemma {:induction false} DistinctSize(ids: seq<string>)
    requires forall i, j | 0 <= i < j < |ids| :: ids[i] != ids[j]
    ensures |IdSet(ids)| == |ids|
  {
    if ids != [] {
      var n := |ids| - 1;
      DistinctSize(ids[..n]);
      assert ids == ids[..n] + [ids[n]];
      assert IdSet(ids) == IdSet(ids[..n]) + {ids[n]};
      assert ids[n] !in ids[..n];
    }
  }

  /** A bulk deletion removes exactly the matching rows and counts them. */
  lemma RemoveManyRemoves(rules: Rules, rows: Rows, m: string, w: seq<Where>, order: seq<string>)
    requires Enumerates(order, TableOf(rows, m)) && w != [] && Named(w)
    ensures var (after, answer) := Apply(rules, rows, Write(m, w, RemoveMany), order);
            var table := TableOf(rows, m);
            && answer == Counted(|MatchingIds(table, w)|)
            && OnlyTable(rows, after, m, map i | i in table && !Matches(table[i], w) :: table[i])
  {
    var table := TableOf(rows, m);
    MatchCount(table, order, w);
    assert table - MatchingIds(table, w) == map i | i in table && !Matches(table[i], w) :: table[i];
  }

  /** Some of the matching rows have taken the update, and no other row has changed. */
  ghost predicate Partly(rules: Rules, table: Table, after: Table, m: string, w: seq<Where>, update: Record) {
    && after.Keys == table.Keys
    && forall id | id in table ::
         after[id] == table[id] || (Matches(table[id], w) && TakesUpdate(table[id], update, rules.IdField(m), after[id]))
  }

  ghost predicate Stuck(rules: Rules, table: Table, after: Table, m: string, w: seq<Where>, update: Record, id: string, record: Record) {
    && Hits(table, id, w) && id in after && TakesUpdate(table[id], update, rules.IdField(m), record)
    && Repeats(after, rules.Keys(m), record, id)
  }

  /** A bulk update changes every matching row and counts them, or stops with the first one whose
      update repeats a unique key, keeping what it has written. */
  lemma SetManyUpdates(rules: Rules, rows: Rows, m: string, w: seq<Where>, update: Record, order: seq<string>)
    requires Enumerates(order, TableOf(rows, m)) && w != [] && Named(w)
    ensures var (after, answer) := Apply(rules, rows, Write(m, w, SetMany(update)), order);
            var table, now := TableOf(rows, m), TableOf(after, m);
            && OnlyTable(rows, after, m, now) && Partly(rules, table, now, m, w, update)
            && (if answer.Counted? then
                  && answer.count == |MatchingIds(table, w)|
                  && forall id | Hits(table, id, w) :: TakesUpdate(table[id], update, rules.IdField(m), now[id])
                else answer == Failed(Conflict) && SomeStuck(rules, table, now, m, w, update))
  {
    var table, ids := TableOf(rows, m), AllMatches(TableOf(rows, m), order, w);
    MatchCount(table, order, w);
    AllMatchesDistinct(table, order, w);
    UpdateEachExact(rules, rows, m, ids, update, 0);
    BulkStops(rules, rows, m, w, ids, update, 0, table);
    forall id | id in table
      ensures TakesUpdate(table[id], update, rules.IdField(m), Changed(table[id], update, rules.IdField(m)))
    {
      ChangedTakes(table[id], update, rules.IdField(m));
    }
    forall id | Hits(table, id, w)
      ensures id in ids
    {
      assert id in MatchingIds(table, w);
      assert id in IdSet(ids);
    }
  }

  /** `base` is the table before the bulk update, of which the rows in `ids` are still to come. */
  ghost predicate StillToCome(base: Table, table: Table, w: seq<Where>, ids: seq<string>) {
    && (forall id | id in ids :: Hits(base, id, w) && id in table && table[id] == base[id])
    && (forall i, j | 0 <= i < j < |ids| :: ids[i] != ids[j])
  }

  ghost predicate SomeStuck(rules: Rules, table: Table, after: Table, m: string, w: seq<Where>, update: Record) {
    exists id, record :: Stuck(rules, table, after, m, w, update, id, record)
  }

  lemma {:induction false} BulkStops(rules: Rules, rows: Rows, m: string, w: seq<Where>, ids: seq<string>, update: Record, count: nat, base: Table)
    requires StillToCome(base, TableOf(rows, m), w, ids) && Partly(rules, base, TableOf(rows, m), m, w, update)
    ensures var (after, answer) := UpdateEach(rules, rows, m, ids, update, count);
            && Partly(rules, base, TableOf(after, m), m, w, update)
            && (answer.Counted? || (answer == Failed(Conflict) && SomeStuck(rules, base, TableOf(after, m), m, w, update)))
    decreases |ids|
  {
    var table := TableOf(rows, m);
    if ids != [] {
      var id := ids[0];
      assert id in ids;
      var record := Changed(table[id], update, rules.IdField(m));
      ChangedTakes(table[id], update, rules.IdField(m));
      RepeatsIff(table, rules.Keys(m), record, id);
      match Replace(rules, rows, m, id, record)
      case None => assert Stuck(rules, base, table, m, w, update, id, record);
      case Some(next) =>
        BulkNext(rules, table, m, w, ids, update, base);
        BulkStops(rules, next, m, w, ids[1..], update, count + 1, base);
    }
  }

  lemma BulkNext(rules: Rules, table: Table, m: string, w: seq<Where>, ids: seq<string>, update: Record, base: Table)
    requires ids != [] && StillToCome(base, table, w, ids) && Partly(rules, base, table, m, w, update)
    ensures ids[0] in table
    ensures var next := table[ids[0] := Changed(table[ids[0]], update, rules.IdField(m))];
            StillToCome(base, next, w, ids[1..]) && Partly(rules, base, next, m, w, update)
  {
    assert ids[0] in ids;
    ChangedTakes(table[ids[0]], update, rules.IdField(m));
    assert forall id | id in ids[1..] :: id in ids && id != ids[0];
  }

  // ---------------------------------------------------------------- reading

  lemma FindOneFinds(rules: Rules, rows: Rows, m: string, w: seq<Where>, order: seq<string>)
    requires Enumerates(order, TableOf(rows, m)) && Named(w)
    ensures var (after, answer) := Apply(rules, rows, FindOne(m, w), order);
            && after == rows
            && ((answer == Row(None) && NoneMatches(TableOf(rows, m), w))
                || exists id :: Hits(TableOf(rows, m), id, w) && answer == Row(Some(TableOf(rows, m)[id])))
  {
    FirstIsMatch(TableOf(rows, m), order, w);
    var first := FirstMatch(TableOf(rows, m), order, w);
    if first.Some? { assert Hits(TableOf(rows, m), first.value, w); }
  }

  // ---------------------------------------------------------------- sorting

  /** No two neighbours the wrong way round. */
  predicate InOrder(records: seq<Record>, sort: Sort) {
    forall i | 0 <= i < |records| - 1 ::
      Compare(Get(records[i], sort.field), Get(records[i + 1], sort.field)) != if sort.descending then Less else Greater
  }

  /** The records with one value in the field, in the order in which they come. */
  function WithValue(records: seq<Record>, field: string, v: Value): seq<Record> {
    if records == [] then []
    else
      var last := records[|records| - 1];
      WithValue(records[..|records| - 1], field, v) + if Get(last, field) == v then [last] else []
  }

  lemma {:induction false} CompareTextFlips(a: string, b: string)
    ensures CompareText(a, b) == Less <==> CompareText(b, a) == Greater
    ensures CompareText(a, b) == Equal <==> CompareText(b, a) == Equal
  {
    if a != "" && b != "" { CompareTextFlips(a[1..], b[1..]); }
  }

  lemma CompareFlips(a: Value, b: Value)
    ensures Compare(a, b) == Less <==> Compare(b, a) == Greater
    ensures Compare(a, b) == Equal <==> Compare(b, a) == Equal
  {
    CompareTextFlips(Printed(a), Printed(b));
  }

  lemma CompareWithItself(v: Value)
    ensures Compare(v, v) == Equal
  {
    CompareFlips(v, v);
  }

  lemma {:induction false} InsertLast(sorted: seq<Record>, record: Record, sort: Sort)
    ensures |InsertSorted(sorted, record, sort)| == |sorted| + 1
    ensures multiset(InsertSorted(sorted, record, sort)) == multiset(sorted) + multiset{record}
    ensures var last := InsertSorted(sorted, record, sort)[|sorted|]; last == record || (sorted != [] && last == sorted[|sorted| - 1])
  {
    if sorted != [] {
      var n := |sorted| - 1;
      assert sorted == sorted[..n] + [sorted[n]];
      if SortsAfter(sorted[n], record, sort) { InsertLast(sorted[..n], record, sort); }
    }
  }

  lemma OrderMore(records: seq<Record>, last: Record, sort: Sort)
    requires InOrder(records, sort)
    requires records != [] ==>
               Compare(Get(records[|records| - 1], sort.field), Get(last, sort.field)) != if sort.descending then Less else Greater
    ensures InOrder(records + [last], sort)
  {
  }

  lemma {:induction false} InsertKeepsOrder(sorted: seq<Record>, record: Record, sort: Sort)
    requires InOrder(sorted, sort)
    ensures InOrder(InsertSorted(sorted, record, sort), sort)
  {
    if sorted != [] && SortsAfter(sorted[|sorted| - 1], record, sort) {
      var n := |sorted| - 1;
      InsertKeepsOrder(sorted[..n], record, sort);
      InsertLast(sorted[..n], record, sort);
      CompareFlips(Get(record, sort.field), Get(sorted[n], sort.field));
      OrderMore(InsertSorted(sorted[..n], record, sort), sorted[n], sort);
    } else {
      OrderMore(sorted, record, sort);
    }
  }

  lemma WithMore(records: seq<Record>, last: Record, field: string, v: Value)
    ensures WithValue(records + [last], field, v) == WithValue(records, field, v) + if Get(last, field) == v then [last] else []
  {
    assert (records + [last])[..|records|] == records;
  }

  lemma Exchange(a: seq<Record>, x: seq<Record>, y: seq<Record>)
    requires x == [] || y == []
    ensures a + x + y == a + y + x
  {
  }

  lemma {:induction false} InsertIsStable(sorted: seq<Record>, record: Record, sort: Sort, v: Value)
    ensures WithValue(InsertSorted(sorted, record, sort), sort.field, v)
         == WithValue(sorted, sort.field, v) + if Get(record, sort.field) == v then [record] else []
  {
    if sorted != [] && SortsAfter(sorted[|sorted| - 1], record, sort) {
      var n := |sorted| - 1;
      var last, f := sorted[n], sort.field;
      InsertIsStable(sorted[..n], record, sort, v);
      WithMore(InsertSorted(sorted[..n], record, sort), last, f, v);
      WithMore(sorted[..n], last, f, v);
      assert sorted == sorted[..n] + [last];
      CompareWithItself(v);
      Exchange(WithValue(sorted[..n], f, v), if Get(record, f) == v then [record] else [], if Get(last, f) == v then [last] else []);
    } else {
      WithMore(sorted, record, sort.field, v);
    }
  }

  /** Sorting arranges the records in the direction asked for, loses and adds none, and keeps
      those with the same value in their order. */
  lemma {:induction false} SortingSorts(records: seq<Record>, sort: Sort, v: Value)
    ensures var sorted := SortedBy(records, sort);
            && InOrder(sorted, sort) && multiset(sorted) == multiset(records)
            && WithValue(sorted, sort.field, v) == WithValue(records, sort.field, v)
  {
    if records != [] {
      var n := |records| - 1;
      SortingSorts(records[..n], sort, v);
      assert records == records[..n] + [records[n]];
      InsertLast(SortedBy(records[..n], sort), records[n], sort);
      InsertKeepsOrder(SortedBy(records[..n], sort), records[n], sort);
      InsertIsStable(SortedBy(records[..n], sort), records[n], sort, v);
      WithMore(records[..n], records[n], sort.field, v);
    }
  }

  /** On a column of numbers, any earlier record has the smaller number, or the larger one. */
  lemma {:induction false} NumbersAscend(sorted: seq<Record>, sort: Sort, i: nat, j: nat)
    requires InOrder(sorted, sort) && i <= j < |sorted| && forall r | r in sorted :: Get(r, sort.field).Number?
    ensures var a, b := Get(sorted[i], sort.field).amount, Get(sorted[j], sort.field).amount; if sort.descending then a >= b else a <= b
    decreases j - i
  {
    assert sorted[i] in sorted && sorted[j] in sorted;
    if i < j {
      NumbersAscend(sorted, sort, i, j - 1);
      assert sorted[j - 1] in sorted;
    }
  }

  // ---------------------------------------------------------------- listing

  /** All matching rows, each once, in some order of their ids. */
  ghost predicate ListsAll(table: Table, w: seq<Where>, ids: seq<string>) {
    && (forall id :: id in ids <==> Hits(table, id, w))
    && (forall i, j | 0 <= i < j < |ids| :: ids[i] != ids[j])
  }

  /** `all` arranges the listed rows as asked for, and `page` is the part of it from offset on
      that holds at most limit records. */
  ghost predicate PagesThrough(table: Table, w: seq<Where>, sort: Option<Sort>, limit: nat, offset: nat, ids: seq<string>, all: seq<Record>, page: seq<Record>) {
    && ListsAll(table, w, ids) && (forall id | id in ids :: id in table)
    && multiset(all) == multiset(RecordsOf(table, ids))
    && (sort.Some? ==> InOrder(all, sort.value))
    && IsPage(all, limit, offset, page)
  }

  ghost predicate Pages(table: Table, w: seq<Where>, sort: Option<Sort>, limit: nat, offset: nat, page: seq<Record>) {
    exists ids, all :: PagesThrough(table, w, sort, limit, offset, ids, all, page)
  }

  predicate IsPage(all: seq<Record>, limit: nat, offset: nat, page: seq<Record>) {
    && |page| == (if offset >= |all| then 0 else if |all| - offset < limit then |all| - offset else limit)
    && forall i | 0 <= i < |page| :: page[i] == all[offset + i]
  }

  lemma MatchesAreListed(table: Table, order: seq<string>, w: seq<Where>)
    requires Enumerates(order, table)
    ensures ListsAll(table, w, AllMatches(table, order, w))
  {
    var ids := AllMatches(table, order, w);
    DistinctMatches(table, order, w, ids);
    forall id
      ensures id in ids <==> Hits(table, id, w)
    {
      assert id in ids <==> id in order && Hit(table, id, w);
      assert id in order <==> id in table;
    }
  }

  lemma PageIs(all: seq<Record>, limit: nat, offset: nat)
    ensures IsPage(all, limit, offset, Scan.Page(all, limit, offset))
  {
  }

  /** FindMany pages through all matching rows in the order asked for: 100 when no limit is given,
      never more than 1000. */
  lemma FindManyLists(rules: Rules, rows: Rows, m: string, w: seq<Where>, limit: int, offset: int, sort: Option<Sort>, order: seq<string>)
    requires Enumerates(order, TableOf(rows, m)) && Named(w)
    ensures var (after, answer) := Apply(rules, rows, FindMany(m, w, limit, offset, sort), order);
            && after == rows
            && (if limit < 0 || limit > 1000 || offset < 0 then answer == Failed(OutOfBounds)
                else answer.RowList? && Pages(TableOf(rows, m), w, sort, if limit == 0 then 100 else limit, offset, answer.records))
  {
    if 0 <= limit <= 1000 && 0 <= offset {
      ListingPages(TableOf(rows, m), w, sort, if limit == 0 then 100 else limit, offset, order);
    }
  }

  lemma ListingPages(table: Table, w: seq<Where>, sort: Option<Sort>, limit: nat, offset: nat, order: seq<string>)
    requires Enumerates(order, table)
    ensures var ids := AllMatches(table, order, w);
            && (forall id | id in ids :: id in table)
            && var records := RecordsOf(table, ids);
               var all := if sort.Some? then SortedBy(records, sort.value) else records;
               PagesThrough(table, w, sort, limit, offset, ids, all, Scan.Page(all, limit, offset))
  {
    MatchesAreListed(table, order, w);
    var records := RecordsOf(table, AllMatches(table, order, w));
    if sort.Some? { SortingSorts(records, sort.value, Nil); }
    PageIs(if sort.Some? then SortedBy(records, sort.value) else records, limit, offset);
  }

  /** Count answers the number of matching rows up to 1000. */
  lemma CountCounts(rules: Rules, rows: Rows, m: string, w: seq<Where>, order: seq<string>)
    requires Enumerates(order, TableOf(rows, m)) && Named(w)
    ensures var n := |MatchingIds(TableOf(rows, m), w)|;
            Apply(rules, rows, Count(m, w), order) == (rows, Counted(if n > 1000 then 1000 else n))
  {
    MatchCount(TableOf(rows, m), order, w);
    CountIsCapped(rules, rows, m, w, order);
  }

  /** Commands with an unnamed field, and writes without a condition, are refused. */
  lemma UnnamedIsRefused(rules: Rules, rows: Rows, command: Command, order: seq<string>)
    requires !command.Create?
    ensures !Named(command.where_) || (command.Write? && command.where_ == []) ==>
              Apply(rules, rows, command, order) == (rows, Failed(InvalidWhere))
    ensures Apply(rules, rows, command, order).1 == Failed(InvalidWhere) ==>
              !Named(command.where_) || (command.Write? && command.where_ == [])
  {
    if command.Write? && command.change.SetMany? {
      BulkAnswers(rules, rows, command.model, AllMatches(TableOf(rows, command.model), order, command.where_), command.change.update, 0);
    }
  }

  lemma {:induction false} BulkAnswers(rules: Rules, rows: Rows, m: string, ids: seq<string>, update: Record, count: nat)
    ensures var answer := UpdateEach(rules, rows, m, ids, update, count).1; answer.Counted? || answer == Failed(Conflict)
    decreases |ids|
  {
    if ids != [] && ids[0] in TableOf(rows, m) {
      var record := Changed(TableOf(rows, m)[ids[0]], update, rules.IdField(m));
      match Replace(rules, rows, m, ids[0], record)
      case None =>
      case Some(next) => BulkAnswers(rules, next, m, ids[1..], update, count + 1);
    }
  }

  // ---------------------------------------------------------------- scripts

  /** A script runs its commands one after the other, and a nested transaction its body in place. */
  lemma ScriptsRunInOrder(rules: Rules, rows: Rows, commands: seq<Command>, orders: seq<seq<string>>, command: Command, order: seq<string>, body: seq<Action>)
    requires |orders| == |commands|
    ensures RunAll(rules, rows, [], []) == rows
    ensures RunAll(rules, rows, commands + [command], orders + [order]) == Apply(rules, RunAll(rules, rows, commands, orders), command, order).0
    ensures Flatten([Run(command)]) == [command] && Flatten([Nested(body)]) == Flatten(body)
    ensures Flatten([]) == []
  {
    RunAllAppend(rules, rows, commands, orders, [command], [order]);
    assert [command][1..] == [] && [order][1..] == [];
    assert [Run(command)][1..] == [] && [Nested(body)][1..] == [];
  }
}
