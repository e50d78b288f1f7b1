/**
 Scans of one table. An adapter may visit the rows in any order, and in another order every
 time it is asked.
 */
module Scan {
  import opened Wrappers

  method First<T>(table: map<string, T>, p: T -> bool) returns (row: Option<string>)
    ensures row.Some? ==> row.value in table && p(table[row.value])
    ensures row.None? ==> forall id | id in table :: !p(table[id])
  {
    var rest := table.Keys;
    while rest != {}
      invariant rest <= table.Keys
      invariant forall id | id in table.Keys - rest :: !p(table[id])
    {
      var id :| id in rest;
      if p(table[id]) {
        return Some(id);
      }
      rest := rest - {id};
    }
    return None;
  }

  method FirstOther<T>(table: map<string, T>, except: string, p: T -> bool) returns (row: Option<string>)
    ensures row.Some? ==> row.value in table && row.value != except && p(table[row.value])
    ensures row.None? ==> forall id | id in table && id != except :: !p(table[id])
  {
    var others := table - {except};
    row := First(others, p);
    if row.None? {
      assert forall id | id in table && id != except :: id in others && others[id] == table[id];
    }
  }

  /** Every row that satisfies p, for bulk writes. */
  method All<T>(table: map<string, T>, p: T -> bool) returns (rows: set<string>)
    ensures rows == Matching(table, p)
  {
    rows := {};
    var rest := table.Keys;
    while rest != {}
      invariant rest <= table.Keys
      invariant rows == set id | id in table.Keys - rest && p(table[id])
    {
      var id :| id in rest;
      if p(table[id]) {
        rows := rows + {id};
      }
      rest := rest - {id};
    }
  }

  function Matching<T>(table: map<string, T>, p: T -> bool): set<string> {
    set id | id in table && p(table[id])
  }

  /** The adapter's Count stops at 1000. */
  function Capped(n: nat): nat {
    if n > 1000 then 1000 else n
  }

  method Count<T>(table: map<string, T>, p: T -> bool) returns (count: nat)
    ensures count == Capped(|Matching(table, p)|)
  {
    var rows := All(table, p);
    return Capped(|rows|);
  }

  // ---------------------------------------------------------------- pages

  ghost predicate Lists(order: seq<string>, rows: set<string>) {
    && (forall i, j | 0 <= i < j < |order| :: order[i] != order[j])
    && (forall id {:trigger id in order} :: id in order <==> id in rows)
  }

  lemma {:induction false} ListLength(order: seq<string>, rows: set<string>)
    requires Lists(order, rows)
    ensures |order| == |rows|
  {
    if order == [] {
      assert forall id | id in rows :: id in order;
      assert rows == {};
    } else {
      var last := order[|order| - 1];
      var init := order[..|order| - 1];
      assert order == init + [last];
      assert last in order;
      forall id
        ensures id in init <==> id in rows - {last}
      {
        assert id in order <==> id in init || id == last;
      }
      ListLength(init, rows - {last});
    }
  }

  function Page<T>(order: seq<T>, limit: nat, offset: nat): seq<T> {
    if offset >= |order| then [] else if |order| - offset > limit then order[offset..offset + limit] else order[offset..]
  }

  /** FindMany without a sort. */
  method FindPage<T>(table: map<string, T>, p: T -> bool, limit: nat, offset: nat) returns (page: seq<string>, ghost order: seq<string>)
    ensures Lists(order, Matching(table, p)) && page == Page(order, limit, offset)
  {
    var visited: seq<string> := [];
    var rest := All(table, p);
    while rest != {}
      invariant rest <= Matching(table, p)
      invariant Lists(visited, Matching(table, p) - rest)
    {
      var id :| id in rest;
      assert id !in visited;
      visited := visited + [id];
      rest := rest - {id};
    }
    assert Matching(table, p) - rest == Matching(table, p);
    return Page(visited, limit, offset), visited;
  }

  /** The order in which the adapter visits the rows when it is asked for the page at an offset. */
  type Orders = nat -> seq<string>

  ghost predicate AllList(orders: Orders, rows: set<string>) {
    forall offset: nat {:trigger orders(offset)} :: Lists(orders(offset), rows)
  }

  function Limit(maximum: nat, offset: nat): nat {
    if offset >= maximum then 0 else if maximum - offset > 1000 then 1000 else maximum - offset
  }

  /** What findManyBounded collects from an offset on. */
  function Gathered(orders: Orders, maximum: nat, offset: nat): seq<string>
    decreases maximum - offset
  {
    if offset >= maximum then []
    else
      var limit := Limit(maximum, offset);
      var page := Page(orders(offset), limit, offset);
      if |page| < limit then page else page + Gathered(orders, maximum, offset + limit)
  }

  /** The rows a scan may return: some order for each page leads to them. */
  ghost predicate MayReturn(rows: set<string>, maximum: nat, ids: seq<string>) {
    exists orders: Orders | AllList(orders, rows) :: ids == Gathered(orders, maximum, 0)
  }

  function With(orders: Orders, offset: nat, order: seq<string>): Orders {
    (n: nat) => if n == offset then order else orders(n)
  }

  /** The orders chosen from here on do not change what was collected so far. */
  ghost predicate Collected(orders: Orders, maximum: nat, offset: nat, ids: seq<string>) {
    forall later: Orders {:trigger Gathered(later, maximum, 0)} | SameBelow(orders, later, offset) ::
      Gathered(later, maximum, 0) == ids + Gathered(later, maximum, offset)
  }

  ghost predicate SameBelow(a: Orders, b: Orders, offset: nat) {
    forall n: nat | n < offset :: a(n) == b(n)
  }

  lemma CollectedBy(orders: Orders, maximum: nat, offset: nat, ids: seq<string>, later: Orders)
    requires Collected(orders, maximum, offset, ids) && SameBelow(orders, later, offset)
    ensures Gathered(later, maximum, 0) == ids + Gathered(later, maximum, offset)
  {
  }

  lemma CollectLater(orders: Orders, maximum: nat, offset: nat, ids: seq<string>, order: seq<string>, later: Orders)
    requires offset < maximum && Collected(orders, maximum, offset, ids)
    requires SameBelow(orders, later, offset) && later(offset) == order
    ensures var limit := Limit(maximum, offset);
            var page := Page(order, limit, offset);
            Gathered(later, maximum, 0) == ids + page + if |page| < limit then [] else Gathered(later, maximum, offset + limit)
  {
    CollectedBy(orders, maximum, offset, ids, later);
    GatherPage(later, maximum, offset, order);
  }

  lemma WithLists(orders: Orders, rows: set<string>, offset: nat, order: seq<string>)
    requires AllList(orders, rows) && Lists(order, rows)
    ensures AllList(With(orders, offset, order), rows)
  {
  }

  lemma CollectPage(orders: Orders, maximum: nat, offset: nat, ids: seq<string>, order: seq<string>)
    requires offset < maximum && Collected(orders, maximum, offset, ids)
    ensures var next, limit := With(orders, offset, order), Limit(maximum, offset);
            var page := Page(order, limit, offset);
            if |page| < limit then Gathered(next, maximum, 0) == ids + page
            else Collected(next, maximum, offset + limit, ids + page)
  {
    var next, limit := With(orders, offset, order), Limit(maximum, offset);
    var page := Page(order, limit, offset);
    if |page| < limit {
      CollectLater(orders, maximum, offset, ids, order, next);
    } else {
      forall later: Orders | SameBelow(next, later, offset + limit)
        ensures Gathered(later, maximum, 0) == ids + page + Gathered(later, maximum, offset + limit)
      {
        BelowWith(orders, later, offset, limit, order);
        CollectLater(orders, maximum, offset, ids, order, later);
      }
    }
  }

  lemma BelowWith(orders: Orders, later: Orders, offset: nat, limit: nat, order: seq<string>)
    requires limit >= 1 && SameBelow(With(orders, offset, order), later, offset + limit)
    ensures SameBelow(orders, later, offset) && later(offset) == order
  {
  }

  lemma GatherPage(orders: Orders, maximum: nat, offset: nat, order: seq<string>)
    requires offset < maximum && orders(offset) == order
    ensures var limit := Limit(maximum, offset);
            var page := Page(order, limit, offset);
            Gathered(orders, maximum, offset) == page + if |page| < limit then [] else Gathered(orders, maximum, offset + limit)
  {
  }

  lemma ListingOf(rows: set<string>) returns (order: seq<string>)
    ensures Lists(order, rows)
  {
    if rows == {} {
      order := [];
    } else {
      var id :| id in rows;
      var rest := ListingOf(rows - {id});
      order := rest + [id];
      assert id !in rest;
    }
  }

  /** findManyBounded. Its pages have no common order. */
  method FindManyBounded<T>(table: map<string, T>, p: T -> bool, maximum: nat) returns (ids: seq<string>)
    requires maximum >= 1
    ensures MayReturn(Matching(table, p), maximum, ids)
    ensures |ids| <= maximum && forall id | id in ids :: id in Matching(table, p)
    ensures |Matching(table, p)| <= maximum && |Matching(table, p)| <= 1000 ==> Lists(ids, Matching(table, p))
  {
    ids := [];
    var offset := 0;
    ghost var rows := Matching(table, p);
    ghost var any := ListingOf(rows);
    ghost var orders: Orders := (n: nat) => any;
    while offset < maximum
      invariant offset <= maximum
      invariant AllList(orders, rows) && Collected(orders, maximum, offset, ids)
    {
      var limit := Limit(maximum, offset);
      var page, order := FindPage(table, p, limit, offset);
      WithLists(orders, rows, offset, order);
      CollectPage(orders, maximum, offset, ids, order);
      orders := With(orders, offset, order);
      ids := ids + page;
      PageOf(order, rows, limit, offset);
      if |page| < limit {
        ReturnedRows(orders, rows, maximum, ids);
        return;
      }
      offset := offset + limit;
    }
    assert Gathered(orders, maximum, 0) == ids + [];
    ReturnedRows(orders, rows, maximum, ids);
  }

  lemma ReturnedRows(orders: Orders, rows: set<string>, maximum: nat, ids: seq<string>)
    requires AllList(orders, rows) && ids == Gathered(orders, maximum, 0)
    ensures MayReturn(rows, maximum, ids)
    ensures |ids| <= maximum && forall id | id in ids :: id in rows
    ensures |rows| <= maximum && |rows| <= 1000 ==> Lists(ids, rows)
  {
    GatheredWithin(orders, rows, maximum, 0);
    if |rows| <= maximum && |rows| <= 1000 { OnePageIsComplete(orders, rows, maximum); }
  }

  lemma {:induction false} GatheredWithin(orders: Orders, rows: set<string>, maximum: nat, offset: nat)
    requires AllList(orders, rows)
    ensures offset + |Gathered(orders, maximum, offset)| <= if offset >= maximum then offset else maximum
    ensures forall id | id in Gathered(orders, maximum, offset) :: id in rows
    decreases maximum - offset
  {
    if offset < maximum {
      var limit := Limit(maximum, offset);
      PageOf(orders(offset), rows, limit, offset);
      GatheredWithin(orders, rows, maximum, offset + limit);
    }
  }

  lemma OnePageIsComplete(orders: Orders, rows: set<string>, maximum: nat)
    requires AllList(orders, rows) && |rows| <= maximum && |rows| <= 1000
    ensures Lists(Gathered(orders, maximum, 0), rows)
  {
    ListLength(orders(0), rows);
    var limit := Limit(maximum, 0);
    if maximum > 0 {
      assert Page(orders(0), limit, 0) == orders(0);
      if |rows| >= limit {
        ListLength(orders(limit), rows);
        assert Gathered(orders, maximum, limit) == [];
        assert orders(0) + [] == orders(0);
      }
    }
  }

  lemma PageOf(order: seq<string>, rows: set<string>, limit: nat, offset: nat)
    requires Lists(order, rows)
    ensures |Page(order, limit, offset)| <= limit
    ensures forall id | id in Page(order, limit, offset) :: id in rows
  {
    forall id | id in Page(order, limit, offset)
      ensures id in rows
    {
      assert id in order;
    }
  }

  /** Above one page rows can be missed: when the pages after the first one follow another order,
      a row the first page left out may stand where no later page looks. */
  lemma PagesCanMiss(order: seq<string>, rows: set<string>) returns (second: seq<string>, id: string)
    requires Lists(order, rows) && |order| > 1000
    ensures Lists(second, rows) && id in rows && id !in Page(order, 1000, 0)
    ensures forall limit: nat, offset: nat {:trigger Page(second, limit, offset)} | offset >= 1 :: id !in Page(second, limit, offset)
  {
    second, id := order[1000..] + order[..1000], order[1000];
    forall i, j | 0 <= i < j < |second|
      ensures second[i] != second[j]
    {
      var n := |order| - 1000;
      assert second[i] == if i < n then order[1000 + i] else order[i - n];
      assert second[j] == if j < n then order[1000 + j] else order[j - n];
    }
    forall id
      ensures id in second <==> id in rows
    {
      assert order == order[..1000] + order[1000..];
      assert id in order <==> id in order[..1000] || id in order[1000..];
    }
    assert id in order && second[0] == id;
    forall limit: nat, offset: nat | offset >= 1
      ensures id !in Page(second, limit, offset)
    {
      assert forall k | 1 <= k < |second| :: second[k] != id;
    }
  }

  lemma {:induction false} NeverGathered(orders: Orders, maximum: nat, offset: nat, second: seq<string>, id: string)
    requires offset >= 1 && forall n: nat | n >= 1 :: orders(n) == second
    requires forall limit: nat, n: nat {:trigger Page(second, limit, n)} | n >= 1 :: id !in Page(second, limit, n)
    ensures id !in Gathered(orders, maximum, offset)
    decreases maximum - offset
  {
    if offset < maximum {
      assert orders(offset) == second;
      NeverGathered(orders, maximum, offset + Limit(maximum, offset), second, id);
    }
  }

  /** For rows within the maximum, a scan is sure to return every row, each once, if and only if
      there are at most 1000 of them. */
  lemma ScanIsCompleteIff(rows: set<string>, maximum: nat)
    requires |rows| <= maximum
    ensures (forall ids {:trigger MayReturn(rows, maximum, ids)} | MayReturn(rows, maximum, ids) :: Lists(ids, rows)) <==> |rows| <= 1000
  {
    if |rows| <= 1000 {
      forall ids | MayReturn(rows, maximum, ids)
        ensures Lists(ids, rows)
      {
        var orders: Orders :| AllList(orders, rows) && ids == Gathered(orders, maximum, 0);
        OnePageIsComplete(orders, rows, maximum);
      }
    } else {
      var order := ListingOf(rows);
      ListLength(order, rows);
      var second, id := PagesCanMiss(order, rows);
      var orders: Orders := (n: nat) => if n == 0 then order else second;
      NeverGathered(orders, maximum, 1000, second, id);
      var ids := Gathered(orders, maximum, 0);
      assert Limit(maximum, 0) == 1000;
      assert MayReturn(rows, maximum, ids) && id !in ids;
    }
  }
}
