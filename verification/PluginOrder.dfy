/**
 Ordering plugins by dependency: a depth-first visit that marks plugins in progress and
 done and appends each one after its dependencies.
 */
module PluginOrder {
  import opened Wrappers
  import Strings

  datatype Plugin = Plugin(id: string, dependencies: seq<string>)

  datatype Error =
    | InvalidId(id: string)
    | DuplicateId(id: string)
    | Missing(id: string)
    | SelfDependency(id: string)
    | Cycle(id: string)

  type Graph = map<string, Plugin>

  datatype Mark = InProgress | Done

  predicate ValidPluginId(id: string) {
    && 1 <= |id| <= 64
    && forall i | 0 <= i < |id| :: 'a' <= id[i] <= 'z' || '0' <= id[i] <= '9' || id[i] == '-'
  }

  // ---------------------------------------------------------------- the graph

  predicate Edge(graph: Graph, from: string, to: string) {
    from in graph && to in graph[from].dependencies
  }

  ghost predicate Path(graph: Graph, path: seq<string>) {
    forall i | 0 <= i < |path| - 1 :: Edge(graph, path[i], path[i + 1])
  }

  ghost predicate IsCycle(graph: Graph, path: seq<string>) {
    |path| >= 2 && path[0] == path[|path| - 1] && Path(graph, path)
  }

  ghost predicate Acyclic(graph: Graph) {
    forall path | IsCycle(graph, path) :: false
  }

  ghost predicate Closed(graph: Graph) {
    forall from, to | Edge(graph, from, to) :: to in graph
  }

  // ---------------------------------------------------------------- the order

  predicate Listed(ordered: seq<Plugin>, id: string) {
    exists i | 0 <= i < |ordered| :: ordered[i].id == id
  }

  predicate DependenciesFirst(ordered: seq<Plugin>) {
    forall k, d | 0 <= k < |ordered| && d in ordered[k].dependencies :: Listed(ordered[..k], d)
  }

  predicate DistinctIds(ordered: seq<Plugin>) {
    forall i, j | 0 <= i < j < |ordered| :: ordered[i].id != ordered[j].id
  }

  ghost predicate Orders(ordered: seq<Plugin>, graph: Graph) {
    && DependenciesFirst(ordered)
    && DistinctIds(ordered)
    && (forall i | 0 <= i < |ordered| :: ordered[i].id in graph && graph[ordered[i].id] == ordered[i])
  }

  ghost predicate MarksAgree(visited: map<string, Mark>, ordered: seq<Plugin>, stack: seq<string>) {
    && (forall id :: id in visited && visited[id] == Done <==> Listed(ordered, id))
    && (forall id :: id in visited && visited[id] == InProgress <==> id in stack)
  }

  lemma ListedMore(ordered: seq<Plugin>, plugin: Plugin, id: string)
    ensures Listed(ordered + [plugin], id) <==> Listed(ordered, id) || id == plugin.id
  {
    if Listed(ordered, id) {
      var i :| 0 <= i < |ordered| && ordered[i].id == id;
      assert (ordered + [plugin])[i].id == id;
    }
    if id == plugin.id { assert (ordered + [plugin])[|ordered|].id == id; }
  }

  lemma OrdersMore(ordered: seq<Plugin>, graph: Graph, plugin: Plugin)
    requires Orders(ordered, graph) && plugin.id in graph && graph[plugin.id] == plugin
    requires !Listed(ordered, plugin.id)
    requires AllListed(ordered, plugin.dependencies)
    ensures Orders(ordered + [plugin], graph)
  {
    var more := ordered + [plugin];
    forall k, d | 0 <= k < |more| && d in more[k].dependencies
      ensures Listed(more[..k], d)
    {
      assert more[..k] == ordered[..k];
      if k == |ordered| { assert ordered[..k] == ordered; }
    }
  }

  /** Following dependencies in an order that lists them first moves strictly earlier. */
  lemma {:induction false} PathMovesEarlier(ordered: seq<Plugin>, graph: Graph, path: seq<string>, k: nat) returns (i: nat, j: nat)
    requires Orders(ordered, graph) && Path(graph, path) && k < |path|
    requires Listed(ordered, path[0])
    ensures i < |ordered| && ordered[i].id == path[0]
    ensures j <= i && ordered[j].id == path[k]
    ensures k > 0 ==> j < i
  {
    if k == 0 {
      i :| 0 <= i < |ordered| && ordered[i].id == path[0];
      j := i;
    } else {
      var before;
      i, before := PathMovesEarlier(ordered, graph, path, k - 1);
      assert Edge(graph, path[k - 1], path[k]);
      assert Listed(ordered[..before], path[k]);
      j :| 0 <= j < before && ordered[..before][j].id == path[k];
    }
  }

  lemma OrderedIsAcyclic(ordered: seq<Plugin>, graph: Graph)
    requires Orders(ordered, graph)
    requires forall id | id in graph :: Listed(ordered, id)
    ensures Acyclic(graph) && Closed(graph)
  {
    forall path | IsCycle(graph, path)
      ensures false
    {
      assert Edge(graph, path[0], path[1]);
      var i, j := PathMovesEarlier(ordered, graph, path, |path| - 1);
    }
    forall from, to | Edge(graph, from, to)
      ensures to in graph
    {
      var k :| 0 <= k < |ordered| && ordered[k].id == from;
      assert Listed(ordered[..k], to);
      var j :| 0 <= j < k && ordered[..k][j].id == to;
      assert ordered[j].id == to;
    }
  }

  // ---------------------------------------------------------------- sorting dependencies

  function IndexOf(index: map<string, nat>, id: string): nat {
    if id in index then index[id] else 0
  }

  function Insert(sorted: seq<string>, id: string, index: map<string, nat>): seq<string> {
    if sorted == [] then [id]
    else if IndexOf(index, id) < IndexOf(index, sorted[0]) then [id] + sorted
    else [sorted[0]] + Insert(sorted[1..], id, index)
  }

  lemma {:induction false} InsertKeeps(sorted: seq<string>, id: string, index: map<string, nat>)
    ensures multiset(Insert(sorted, id, index)) == multiset(sorted) + multiset{id}
  {
    if sorted != [] {
      assert sorted == [sorted[0]] + sorted[1..];
      InsertKeeps(sorted[1..], id, index);
    }
  }

  lemma {:induction false} InsertSorts(sorted: seq<string>, id: string, index: map<string, nat>)
    requires SortedByIndex(sorted, index)
    ensures var r := Insert(sorted, id, index);
            SortedByIndex(r, index) && r != [] && (r[0] == id || (sorted != [] && r[0] == sorted[0]))
  {
    if sorted != [] { InsertSorts(sorted[1..], id, index); }
  }

  predicate SortedByIndex(ids: seq<string>, index: map<string, nat>) {
    forall i | 0 <= i < |ids| - 1 :: IndexOf(index, ids[i]) <= IndexOf(index, ids[i + 1])
  }

  method SortDependencies(dependencies: seq<string>, index: map<string, nat>) returns (sorted: seq<string>)
    ensures multiset(sorted) == multiset(dependencies)
    ensures SortedByIndex(sorted, index)
  {
    sorted := [];
    for i := 0 to |dependencies|
      invariant multiset(sorted) == multiset(dependencies[..i])
      invariant SortedByIndex(sorted, index)
    {
      InsertSorts(sorted, dependencies[i], index);
      InsertKeeps(sorted, dependencies[i], index);
      sorted := Insert(sorted, dependencies[i], index);
      assert dependencies[..i + 1] == dependencies[..i] + [dependencies[i]];
    }
    assert dependencies[..|dependencies|] == dependencies;
  }

  // ---------------------------------------------------------------- the visit

  class Visitor {
    const graph: Graph
    const index: map<string, nat>
    var visited: map<string, Mark>
    var ordered: seq<Plugin>

    constructor (graph: Graph, index: map<string, nat>)
      ensures this.graph == graph && visited == map[] && ordered == []
    {
      this.graph, this.index := graph, index;
      visited, ordered := map[], [];
    }

    /** Between visits: the marks, the order so far and the path of plugins in progress agree. */
    ghost predicate Valid(stack: seq<string>)
      reads this
    {
      && (forall id | id in graph :: graph[id].id == id)
      && visited.Keys <= graph.Keys
      && Orders(ordered, graph)
      && MarksAgree(visited, ordered, stack)
      && Path(graph, stack)
    }

    method Visit(id: string, ghost stack: seq<string>) returns (error: Option<Error>)
      requires Valid(stack)
      requires stack != [] ==> Edge(graph, stack[|stack| - 1], id)
      modifies this
      ensures old(visited).Keys <= visited.Keys
      ensures error.None? ==> Valid(stack) && Listed(ordered, id) && old(ordered) <= ordered
      ensures error.None? && Listed(old(ordered), id) ==> ordered == old(ordered)
      ensures error.None? && !Listed(old(ordered), id) && AllListed(old(ordered), graph[id].dependencies)
              ==> ordered == old(ordered) + [graph[id]]
      ensures error.Some? ==> !Closed(graph) || !Acyclic(graph) || (stack == [] && id !in graph)
      decreases graph.Keys - visited.Keys, 1
    {
      if id in visited {
        if visited[id] == InProgress {
          CycleThroughStack(graph, stack, id);
          return Some(Cycle(id));
        }
        return None;
      }
      if id !in graph {
        return Some(Missing(id));
      }
      visited := visited[id := InProgress];
      StartMark(old(visited), ordered, graph, stack, id);
      var dependencies := SortDependencies(graph[id].dependencies, index);
      SameMembers(dependencies, graph[id].dependencies);
      error := VisitDependencies(id, dependencies, stack + [id]);
      if error.Some? {
        return;
      }
      Finish(id, stack);
    }

    method VisitDependencies(id: string, dependencies: seq<string>, ghost path: seq<string>) returns (error: Option<Error>)
      requires Valid(path) && id in graph && path != [] && path[|path| - 1] == id
      requires forall d | d in dependencies :: Edge(graph, id, d)
      modifies this
      ensures old(visited).Keys <= visited.Keys
      ensures error.None? ==> Valid(path) && AllListed(ordered, dependencies) && old(ordered) <= ordered
      ensures error.None? && AllListed(old(ordered), dependencies) ==> ordered == old(ordered)
      ensures error.Some? ==> !Closed(graph) || !Acyclic(graph)
      decreases graph.Keys - visited.Keys, 2 + |dependencies|
    {
      var i := 0;
      while i < |dependencies|
        invariant 0 <= i <= |dependencies|
        invariant Valid(path)
        invariant old(visited).Keys <= visited.Keys
        invariant old(ordered) <= ordered
        invariant AllListed(ordered, dependencies[..i])
        invariant AllListed(old(ordered), dependencies) ==> ordered == old(ordered)
      {
        var dependency := dependencies[i];
        if dependency == id {
          assert Edge(graph, id, dependency);
          assert IsCycle(graph, [id, id]);
          return Some(SelfDependency(id));
        }
        ghost var before := ordered;
        error := Visit(dependency, path);
        if error.Some? {
          return;
        }
        ListedStays(before, ordered, dependencies[..i]);
        assert dependencies[..i + 1] == dependencies[..i] + [dependency];
        i := i + 1;
      }
      assert dependencies[..i] == dependencies;
      return None;
    }

    method Finish(id: string, ghost stack: seq<string>)
      requires Valid(stack + [id]) && id in graph && id !in stack
      requires AllListed(ordered, graph[id].dependencies)
      modifies this
      ensures Valid(stack) && ordered == old(ordered) + [graph[id]] && Listed(ordered, id)
      ensures visited.Keys == old(visited).Keys
    {
      assert id in stack + [id] && !Listed(ordered, id);
      OrdersMore(ordered, graph, graph[id]);
      FinishMark(visited, ordered, stack, graph[id]);
      assert forall i | 0 <= i < |stack| :: (stack + [id])[i] == stack[i];
      visited := visited[id := Done];
      ordered := ordered + [graph[id]];
    }
  }

  lemma SameMembers(a: seq<string>, b: seq<string>)
    requires multiset(a) == multiset(b)
    ensures forall x :: x in a <==> x in b
  {
    forall x
      ensures x in a <==> x in b
    {
      assert x in a <==> x in multiset(a);
      assert x in b <==> x in multiset(b);
    }
  }

  ghost predicate AllListed(ordered: seq<Plugin>, ids: seq<string>) {
    forall d | d in ids :: Listed(ordered, d)
  }

  lemma StartMark(visited: map<string, Mark>, ordered: seq<Plugin>, graph: Graph, stack: seq<string>, id: string)
    requires MarksAgree(visited, ordered, stack) && Path(graph, stack)
    requires id !in visited && (stack != [] ==> Edge(graph, stack[|stack| - 1], id))
    ensures MarksAgree(visited[id := InProgress], ordered, stack + [id])
    ensures Path(graph, stack + [id]) && id !in stack && !Listed(ordered, id)
  {
    assert forall x :: x in stack + [id] <==> x in stack || x == id;
  }

  lemma ListedStays(before: seq<Plugin>, after: seq<Plugin>, ids: seq<string>)
    requires before <= after && AllListed(before, ids)
    ensures AllListed(after, ids)
  {
    forall d | d in ids
      ensures Listed(after, d)
    {
      var i :| 0 <= i < |before| && before[i].id == d;
      assert after[i].id == d;
    }
  }

  lemma FinishMark(visited: map<string, Mark>, ordered: seq<Plugin>, stack: seq<string>, plugin: Plugin)
    requires MarksAgree(visited, ordered, stack + [plugin.id]) && plugin.id !in stack
    ensures MarksAgree(visited[plugin.id := Done], ordered + [plugin], stack)
    ensures Listed(ordered + [plugin], plugin.id)
  {
    forall id
      ensures Listed(ordered + [plugin], id) <==> Listed(ordered, id) || id == plugin.id
    {
      ListedMore(ordered, plugin, id);
    }
    assert forall id :: id in stack + [plugin.id] <==> id in stack || id == plugin.id;
  }

  lemma CycleThroughStack(graph: Graph, stack: seq<string>, id: string)
    requires Path(graph, stack) && id in stack
    requires Edge(graph, stack[|stack| - 1], id)
    ensures !Acyclic(graph)
  {
    var k :| 0 <= k < |stack| && stack[k] == id;
    var cycle := stack[k..] + [id];
    forall i | 0 <= i < |cycle| - 1
      ensures Edge(graph, cycle[i], cycle[i + 1])
    {
      if i < |stack[k..]| - 1 { assert Edge(graph, stack[k + i], stack[k + i + 1]); }
    }
    assert IsCycle(graph, cycle);
  }

  // ---------------------------------------------------------------- compilation

  function Trimmed(plugin: Plugin): Plugin {
    plugin.(id := Strings.TrimSpace(plugin.id))
  }

  function TrimAll(plugins: seq<Plugin>): (r: seq<Plugin>)
    ensures |r| == |plugins|
    ensures forall i | 0 <= i < |r| :: r[i] == Trimmed(plugins[i])
  {
    seq(|plugins|, i requires 0 <= i < |plugins| => Trimmed(plugins[i]))
  }

  ghost function GraphOf(plugins: seq<Plugin>): Graph {
    if plugins == [] then map[]
    else GraphOf(plugins[..|plugins| - 1])[plugins[|plugins| - 1].id := plugins[|plugins| - 1]]
  }

  lemma {:induction false} GraphOfHolds(plugins: seq<Plugin>)
    requires DistinctIds(plugins)
    ensures forall id :: id in GraphOf(plugins) <==> Listed(plugins, id)
    ensures forall i | 0 <= i < |plugins| :: plugins[i].id in GraphOf(plugins) && GraphOf(plugins)[plugins[i].id] == plugins[i]
  {
    if plugins != [] {
      var n := |plugins| - 1;
      GraphOfHolds(plugins[..n]);
      forall id
        ensures id in GraphOf(plugins) <==> Listed(plugins, id)
      {
        ListedMore(plugins[..n], plugins[n], id);
        assert plugins[..n] + [plugins[n]] == plugins;
      }
      forall i | 0 <= i < |plugins|
        ensures plugins[i].id in GraphOf(plugins) && GraphOf(plugins)[plugins[i].id] == plugins[i]
      {
        if i < n { assert plugins[..n][i] == plugins[i]; }
      }
    }
  }

  /** What compilePlugins accepts: ids that are valid, distinct and already trimmed, over a
      dependency graph that is closed and has no cycle. */
  ghost predicate Compilable(plugins: seq<Plugin>) {
    && (forall i | 0 <= i < |plugins| :: ValidPluginId(Trimmed(plugins[i]).id))
    && (forall i | 0 <= i < |plugins| :: Trimmed(plugins[i]).id == plugins[i].id)
    && DistinctIds(plugins)
    && Closed(GraphOf(plugins))
    && Acyclic(GraphOf(plugins))
  }

  method CompilePlugins(plugins: seq<Plugin>) returns (result: Result<seq<Plugin>, Error>)
    ensures result.Success? <==> Compilable(plugins)
    ensures result.Success? ==>
              && multiset(result.value) == multiset(plugins)
              && DependenciesFirst(result.value)
    // An input that already lists dependencies first is left in place.
    ensures result.Success? && DependenciesFirst(plugins) ==> result.value == plugins
  {
    var compiled := TrimAll(plugins);
    var registered := Register(compiled);
    if registered.Failure? {
      if Compilable(plugins) { TrimmedAlready(plugins); }
      return Failure(registered.error);
    }
    var (byId, index) := registered.value;
    var ordered := VisitAll(plugins, compiled, byId, index);
    if ordered.Failure? {
      if Compilable(plugins) { TrimmedAlready(plugins); }
      return ordered;
    }
    AllAccepted(plugins, compiled, ordered.value);
    AcceptedIsTrimmed(plugins, compiled);
    OrderedIsAcyclic(ordered.value, byId);
    SamePlugins(ordered.value, plugins);
    return ordered;
  }

  /** Every accepted id is a key, and keys are trimmed, so the ids were trimmed already. */
  lemma AcceptedIsTrimmed(plugins: seq<Plugin>, compiled: seq<Plugin>)
    requires compiled == TrimAll(plugins)
    requires forall i | 0 <= i < |compiled| :: ValidPluginId(compiled[i].id)
    requires forall k | 0 <= k < |plugins| :: Listed(compiled, plugins[k].id)
    ensures compiled == plugins
    ensures forall k | 0 <= k < |plugins| :: Trimmed(plugins[k]).id == plugins[k].id
  {
    forall k | 0 <= k < |plugins|
      ensures Trimmed(plugins[k]).id == plugins[k].id
    {
      var j :| 0 <= j < |compiled| && compiled[j].id == plugins[k].id;
      ValidIsTrimmed(plugins[k].id);
    }
  }

  method VisitAll(plugins: seq<Plugin>, compiled: seq<Plugin>, byId: Graph, index: map<string, nat>)
    returns (result: Result<seq<Plugin>, Error>)
    requires |compiled| == |plugins| && DistinctIds(compiled) && byId == GraphOf(compiled)
    ensures result.Success? ==> Orders(result.value, byId) && AllListed(result.value, IdsOf(plugins))
    ensures result.Success? && compiled == plugins && DependenciesFirst(plugins) ==> result.value == plugins
    ensures result.Failure? ==> !Closed(byId) || !Acyclic(byId) || compiled != plugins
  {
    GraphOfHolds(compiled);
    var visitor := new Visitor(byId, index);
    ghost var inPlace := compiled == plugins && DependenciesFirst(plugins);
    ghost var ids := IdsOf(plugins);
    var i := 0;
    while i < |plugins|
      invariant 0 <= i <= |plugins|
      invariant visitor.graph == byId && visitor.Valid([])
      invariant AllListed(visitor.ordered, ids[..i])
      invariant inPlace ==> visitor.ordered == plugins[..i]
    {
      var error := VisitNext(visitor, plugins, i, ids, inPlace);
      if error.Some? {
        return Failure(error.value);
      }
      i := i + 1;
    }
    assert plugins[..i] == plugins && ids[..i] == ids;
    return Success(visitor.ordered);
  }

  method VisitNext(visitor: Visitor, plugins: seq<Plugin>, i: nat, ghost ids: seq<string>, ghost inPlace: bool)
    returns (error: Option<Error>)
    requires i < |plugins| && ids == IdsOf(plugins) && visitor.Valid([])
    requires AllListed(visitor.ordered, ids[..i])
    requires inPlace ==> DistinctIds(plugins) && DependenciesFirst(plugins) && visitor.ordered == plugins[..i]
                         && plugins[i].id in visitor.graph && visitor.graph[plugins[i].id] == plugins[i]
    modifies visitor
    ensures error.None? ==> visitor.Valid([]) && AllListed(visitor.ordered, ids[..i + 1])
    ensures error.None? && inPlace ==> visitor.ordered == plugins[..i + 1]
    ensures error.Some? ==> !Closed(visitor.graph) || !Acyclic(visitor.graph) || plugins[i].id !in visitor.graph
  {
    if inPlace { InPlaceStep(plugins, i); }
    error := visitor.Visit(plugins[i].id, []);
    if error.None? {
      ListedStays(old(visitor.ordered), visitor.ordered, ids[..i]);
      assert plugins[..i + 1] == plugins[..i] + [plugins[i]];
      assert ids[..i + 1] == ids[..i] + [plugins[i].id];
    }
  }

  lemma InPlaceStep(plugins: seq<Plugin>, i: nat)
    requires DistinctIds(plugins) && DependenciesFirst(plugins) && i < |plugins|
    ensures !Listed(plugins[..i], plugins[i].id) && AllListed(plugins[..i], plugins[i].dependencies)
  {
  }

  lemma AllAccepted(plugins: seq<Plugin>, compiled: seq<Plugin>, ordered: seq<Plugin>)
    requires compiled == TrimAll(plugins) && DistinctIds(compiled)
    requires Orders(ordered, GraphOf(compiled)) && AllListed(ordered, IdsOf(plugins))
    ensures forall k | 0 <= k < |plugins| :: Listed(ordered, plugins[k].id) && Listed(compiled, plugins[k].id)
    ensures forall id | id in GraphOf(compiled) :: Listed(ordered, id)
  {
    GraphOfHolds(compiled);
    forall k | 0 <= k < |plugins|
      ensures Listed(ordered, plugins[k].id) && Listed(compiled, plugins[k].id)
    {
      assert IdsOf(plugins)[k] in IdsOf(plugins);
    }
    forall id | id in GraphOf(compiled)
      ensures Listed(ordered, id)
    {
      // Each plugin's own id is accepted, hence a trimmed key.
      var j :| 0 <= j < |compiled| && compiled[j].id == id;
      assert Listed(compiled, plugins[j].id);
      var m :| 0 <= m < |compiled| && compiled[m].id == plugins[j].id;
      TrimTwice(plugins[m].id);
      assert compiled[j].id == Strings.TrimSpace(plugins[j].id) == plugins[j].id;
    }
  }

  lemma TrimTwice(s: string)
    ensures Strings.TrimSpace(Strings.TrimSpace(s)) == Strings.TrimSpace(s)
  {
    Strings.TrimmedEnds(s);
  }

  function IdsOf(plugins: seq<Plugin>): (ids: seq<string>)
    ensures |ids| == |plugins| && forall i | 0 <= i < |ids| :: ids[i] == plugins[i].id
  {
    seq(|plugins|, i requires 0 <= i < |plugins| => plugins[i].id)
  }

  lemma TrimmedAlready(plugins: seq<Plugin>)
    requires forall i | 0 <= i < |plugins| :: Trimmed(plugins[i]).id == plugins[i].id
    ensures TrimAll(plugins) == plugins
  {
  }

  lemma ValidIsTrimmed(id: string)
    requires ValidPluginId(id)
    ensures Strings.TrimSpace(id) == id
  {
    assert !Strings.IsSpace(id[0]) && !Strings.IsSpace(id[|id| - 1]);
  }

  method Register(compiled: seq<Plugin>) returns (result: Result<(Graph, map<string, nat>), Error>)
    ensures result.Success? <==> DistinctIds(compiled) && forall i | 0 <= i < |compiled| :: ValidPluginId(compiled[i].id)
    ensures result.Success? ==> result.value.0 == GraphOf(compiled)
  {
    var byId: Graph, index: map<string, nat> := map[], map[];
    var position := 0;
    while position < |compiled|
      invariant 0 <= position <= |compiled|
      invariant byId == GraphOf(compiled[..position])
      invariant DistinctIds(compiled[..position])
      invariant forall i | 0 <= i < position :: ValidPluginId(compiled[i].id)
    {
      var plugin := compiled[position];
      if !ValidPluginId(plugin.id) {
        return Failure(InvalidId(plugin.id));
      }
      RegisterStep(compiled, position);
      if plugin.id in byId {
        return Failure(DuplicateId(plugin.id));
      }
      byId, index := byId[plugin.id := plugin], index[plugin.id := position];
      position := position + 1;
    }
    assert compiled[..position] == compiled;
    return Success((byId, index));
  }

  lemma RegisterStep(compiled: seq<Plugin>, position: nat)
    requires position < |compiled| && DistinctIds(compiled[..position])
    ensures var byId, plugin := GraphOf(compiled[..position]), compiled[position];
            && GraphOf(compiled[..position + 1]) == byId[plugin.id := plugin]
            && (plugin.id in byId ==> !DistinctIds(compiled))
            && (plugin.id !in byId ==> DistinctIds(compiled[..position + 1]))
  {
    var before, plugin := compiled[..position], compiled[position];
    GraphOfHolds(before);
    assert compiled[..position + 1] == before + [plugin];
    assert (before + [plugin])[..position] == before;
    if plugin.id in GraphOf(before) {
      var i :| 0 <= i < |before| && before[i].id == plugin.id;
      assert compiled[i].id == compiled[position].id;
    }
  }

  /** Two lists without repeated ids that hold the same plugins are permutations. */
  lemma SamePlugins(ordered: seq<Plugin>, plugins: seq<Plugin>)
    requires DistinctIds(ordered) && DistinctIds(plugins)
    requires Orders(ordered, GraphOf(plugins))
    requires forall k | 0 <= k < |plugins| :: Listed(ordered, plugins[k].id)
    ensures multiset(ordered) == multiset(plugins)
  {
    GraphOfHolds(plugins);
    forall p: Plugin
      ensures multiset(ordered)[p] == multiset(plugins)[p]
    {
      OccursOnce(ordered, p);
      OccursOnce(plugins, p);
      if p in ordered {
        assert Listed(plugins, p.id);
        var k :| 0 <= k < |plugins| && plugins[k].id == p.id;
        assert p == plugins[k];
      }
      if p in plugins {
        var i :| 0 <= i < |ordered| && ordered[i].id == p.id;
        assert p == ordered[i];
      }
    }
  }

  lemma {:induction false} OccursOnce(plugins: seq<Plugin>, p: Plugin)
    requires DistinctIds(plugins)
    ensures multiset(plugins)[p] == if p in plugins then 1 else 0
  {
    if plugins != [] {
      assert plugins == [plugins[0]] + plugins[1..];
      OccursOnce(plugins[1..], p);
    }
  }
}
