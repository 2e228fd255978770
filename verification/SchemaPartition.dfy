/** Partition of a plugin's prefetched schema graph (plugin/external/pluginRoot.go). */
module SchemaPartition {
  import opened Graph
  import opened LinkedMaps
  import opened Options
  import opened SchemaGraphs

  /** The part of the graph that `id` reaches, `id` first. */
  ghost predicate IsReachablePart(table: map<string, Schema>, id: string, part: LinkedMap<string, Schema>) {
    && part.Valid() && part.keys != [] && part.keys[0] == id
    && (forall k :: k in part.table <==> Reaches(LinksOf(table), id, k))
    && forall k :: k in part.table ==> k in table && part.table[k] == table[k]
  }

  // The children of all of `nodes` are in `within`.
  ghost predicate ChildrenIn(links: Graph<string>, nodes: set<string>, within: set<string>) {
    forall n, c :: n in nodes && n in links && c in links[n] ==> c in within
  }

  ghost predicate AllReached(links: Graph<string>, a: string, nodes: set<string>) {
    forall n :: n in nodes ==> Reaches(links, a, n)
  }

  // The state of one depth-first search: what was visited is what was put.
  ghost predicate Consistent(table: map<string, Schema>, part: LinkedMap<string, Schema>, visited: set<string>) {
    && part.Valid() && part.table.Keys == visited && visited <= table.Keys
    && forall k :: k in part.table ==> k in table && part.table[k] == table[k]
  }

  class Partitioner {
    const graph: LinkedMap<string, Schema>
    var part: LinkedMap<string, Schema>
    var visited: set<string>

    constructor (graph: LinkedMap<string, Schema>)
      ensures this.graph == graph && part == LinkedMap([], map[]) && visited == {}
    {
      this.graph := graph;
      part, visited := LinkedMap([], map[]), {};
    }

    // False is the panic about a missing child.
    method Populate(typeID: string, ghost links: Graph<string>) returns (ok: bool)
      requires typeID in graph.table && links == LinksOf(graph.table) && Consistent(graph.table, part, visited)
      modifies this
      ensures Consistent(graph.table, part, visited) && old(visited) <= visited && typeID in visited
      ensures old(part.keys) <= part.keys && (old(part.keys) == [] ==> part.keys[0] == typeID)
      ensures AllReached(links, typeID, visited - old(visited))
      ensures ok ==> ChildrenIn(links, visited - old(visited), visited)
      ensures !ok ==> !Closed(links)
      decreases graph.table.Keys - visited, 0
    {
      if typeID in visited { return true; }
      var node := graph.table[typeID];
      part := part.Put(typeID, node);
      visited := visited + {typeID};
      ReachesSelf(links, typeID);
      ok := PopulateChildren(typeID, node.children, links);
    }

    method PopulateChildren(typeID: string, children: seq<string>, ghost links: Graph<string>) returns (ok: bool)
      requires typeID in visited && Consistent(graph.table, part, visited)
      requires links == LinksOf(graph.table) && links[typeID] == children
      modifies this
      ensures Consistent(graph.table, part, visited) && old(visited) <= visited && old(part.keys) <= part.keys
      ensures AllReached(links, typeID, visited - old(visited))
      ensures ok ==> ChildrenIn(links, visited - old(visited) + {typeID}, visited)
      ensures !ok ==> !Closed(links)
      decreases graph.table.Keys - visited, 2
    {
      for i := 0 to |children|
        invariant Consistent(graph.table, part, visited) && old(visited) <= visited && old(part.keys) <= part.keys
        invariant AllReached(links, typeID, visited - old(visited))
        invariant ChildrenIn(links, visited - old(visited) - {typeID}, visited)
        invariant forall j :: 0 <= j < i ==> children[j] in visited
      {
        ok := PopulateChild(typeID, children[i], links, old(visited));
        if !ok { return; }
      }
      ok := true;
    }

    method PopulateChild(typeID: string, child: string, ghost links: Graph<string>, ghost start: set<string>)
      returns (ok: bool)
      requires typeID in visited && Consistent(graph.table, part, visited)
      requires links == LinksOf(graph.table) && child in links[typeID]
      requires start <= visited && AllReached(links, typeID, visited - start)
      requires ChildrenIn(links, visited - start - {typeID}, visited)
      modifies this
      ensures Consistent(graph.table, part, visited) && old(visited) <= visited && old(part.keys) <= part.keys
      ensures AllReached(links, typeID, visited - start)
      ensures ok ==> ChildrenIn(links, visited - start - {typeID}, visited) && child in visited
      ensures !ok ==> !Closed(links)
      decreases graph.table.Keys - visited, 1
    {
      if child !in graph.table {
        assert typeID in links && child !in links;
        return false;
      }
      ghost var before := visited;
      ok := Populate(child, links);
      ReachedThroughChild(links, typeID, child, visited - before);
      assert visited - start == (before - start) + (visited - before);
      if ok { ChildrenJoin(links, start + {typeID}, before, visited); }
    }
  }

  lemma ReachedThroughChild(links: Graph<string>, a: string, c: string, nodes: set<string>)
    requires a in links && c in links[a] && AllReached(links, c, nodes)
    ensures AllReached(links, a, nodes)
  {
    forall n | n in nodes ensures Reaches(links, a, n) { ReachesFromParent(links, a, c, n); }
  }

  lemma ChildrenJoin(links: Graph<string>, start: set<string>, middle: set<string>, end: set<string>)
    requires middle <= end
    requires ChildrenIn(links, middle - start, middle) && ChildrenIn(links, end - middle, end)
    ensures ChildrenIn(links, end - start, end)
  {
    forall n, c | n in end - start && n in links && c in links[n] ensures c in end {
      assert n in middle - start || n in end - middle;
    }
  }

  // A search that started from nothing and ended well visited what its root reaches.
  lemma SearchIsReachablePart(table: map<string, Schema>, id: string, part: LinkedMap<string, Schema>,
                              visited: set<string>)
    requires Consistent(table, part, visited) && id in visited && part.keys != [] && part.keys[0] == id
    requires var links := LinksOf(table); AllReached(links, id, visited) && ChildrenIn(links, visited, visited)
    ensures IsReachablePart(table, id, part)
  {
    var links := LinksOf(table);
    forall k | Reaches(links, id, k) ensures k in part.table { ClosedHoldsReachable(links, visited, id, k); }
  }

  method PartitionSchemaGraph(graph: LinkedMap<string, Schema>)
    returns (ok: bool, parts: map<string, LinkedMap<string, Schema>>)
    requires graph.Valid()
    ensures ok <==> Closed(LinksOf(graph.table))
    ensures ok ==> IsPartition(graph.table, parts)
  {
    parts := map[];
    ghost var links := LinksOf(graph.table);
    for i := 0 to |graph.keys|
      invariant parts.Keys == set k | k in graph.keys[..i]
      invariant forall id :: id in parts ==> IsReachablePart(graph.table, id, parts[id])
    {
      var part;
      ok, part := ReachablePart(graph, graph.keys[i]);
      if !ok { return; }
      assert graph.keys[..i + 1] == graph.keys[..i] + [graph.keys[i]];
      parts := parts[graph.keys[i] := part];
    }
    assert graph.keys[..|graph.keys|] == graph.keys;
    ok := true;
    PartitionIsClosed(graph.table, parts);
  }

  method ReachablePart(graph: LinkedMap<string, Schema>, id: string) returns (ok: bool, part: LinkedMap<string, Schema>)
    requires id in graph.table
    ensures ok ==> IsReachablePart(graph.table, id, part)
    ensures !ok ==> !Closed(LinksOf(graph.table))
  {
    var search := new Partitioner(graph);
    ok := search.Populate(id, LinksOf(graph.table));
    part := search.part;
    assert search.visited - {} == search.visited;
    if ok { SearchIsReachablePart(graph.table, id, part, search.visited); }
  }

  /** Every type ID is mapped to its reachable part of the graph. */
  ghost predicate IsPartition(table: map<string, Schema>, parts: map<string, LinkedMap<string, Schema>>) {
    && parts.Keys == table.Keys
    && forall id :: id in parts ==> IsReachablePart(table, id, parts[id])
  }

  lemma ChildReached(links: Graph<string>, n: string, c: string)
    requires n in links && c in links[n]
    ensures Reaches(links, n, c)
  {
    assert IsWalk(links, [n, c]);
  }

  lemma PartitionIsClosed(table: map<string, Schema>, parts: map<string, LinkedMap<string, Schema>>)
    requires IsPartition(table, parts)
    ensures Closed(LinksOf(table))
  {
    var links := LinksOf(table);
    forall n, c | n in links && c in links[n] ensures c in links {
      ChildReached(links, n, c);
      assert IsReachablePart(table, n, parts[n]);
      assert c in parts[n].table;
    }
  }

  /** What a type of an accepted graph gets holds the children of all its nodes again, and the
      part of each of its types is the one that type gets itself. */
  lemma PartsAgree(table: map<string, Schema>, parts: map<string, LinkedMap<string, Schema>>, a: string, b: string)
    requires IsPartition(table, parts) && a in table && b in parts[a].table
    ensures b in parts && parts[b].table.Keys <= parts[a].table.Keys
    ensures Closed(LinksOf(parts[a].table))
  {
    var links := LinksOf(table);
    PartitionIsClosed(table, parts);
    assert IsReachablePart(table, a, parts[a]) && IsReachablePart(table, b, parts[b]);
    forall k | k in parts[b].table ensures k in parts[a].table { ReachesTransitive(links, a, b, k); }
    var inner := LinksOf(parts[a].table);
    forall n, c | n in inner && c in inner[n] ensures c in inner { ReachesChild(links, a, n, c); }
  }

  /** Prefetching: a schema that is accepted is always partitioned, never a panic. */
  method Prefetch(cores: Cores, plugin: string, root: string, stdout: Option<map<string, Raw>>)
    returns (accepted: bool, panicked: bool, parts: map<string, LinkedMap<string, Schema>>)
    requires CoresClosed(cores)
    ensures accepted <==> stdout.Some? && Acceptable(cores, root, stdout.value)
    ensures !panicked
    ensures accepted ==> Key(plugin, Canonical(cores, root)) in parts
    ensures accepted ==> forall id, k :: id in parts && k in parts[id].table ==> k in parts
  {
    var graph;
    accepted, graph := UnmarshalSchemaGraph(cores, plugin, root, stdout);
    panicked, parts := false, map[];
    if accepted {
      var ok;
      ok, parts := PartitionSchemaGraph(graph);
      panicked := !ok;
      assert graph.keys[0] in graph.table;
    }
  }
}
