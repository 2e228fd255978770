/** Which stree nodes to keep, and pruning the others away
    (cmd/internal/find/types/entrySchema.go). */
module Pruning {
  import opened Graph
  import opened EntrySchemas

  // `result[path]`, with Go's zero value for a missing key.
  predicate Kept(result: map<string, bool>, path: string) {
    path in result && result[path]
  }

  ghost function Satisfying(nodes: set<EntrySchema>, p: EntrySchema -> bool): set<string> {
    set n | n in nodes && p(n) :: n.path
  }

  // `g` is the graph of the nodes.
  ghost predicate Mirrors(nodes: set<EntrySchema>, g: Graph<string>)
    reads nodes
  {
    && (forall n :: n in nodes ==> n.path in g && g[n.path] == Paths(n.children))
    && (forall n, c :: n in nodes && c in n.children ==> c in nodes)
  }

  // `goal` holds the paths of the nodes that satisfy p.
  ghost predicate Marks(nodes: set<EntrySchema>, p: EntrySchema -> bool, goal: set<string>) {
    forall n :: n in nodes ==> (p(n) <==> n.path in goal)
  }

  // Of the two nodes with the root's path only the decoded one, s, is ever asked: `inner` is met
  // when its path has been visited.
  ghost predicate Shows(nodes: set<EntrySchema>, inner: EntrySchema, p: EntrySchema -> bool, g: Graph<string>,
                        goal: set<string>)
    reads nodes
  {
    Closed(g) && goal <= g.Keys && Mirrors(nodes, g) && Marks(nodes - {inner}, p, goal)
  }

  // s is not `inner`, which is no node or shares the path of s.
  ghost predicate Outer(nodes: set<EntrySchema>, s: EntrySchema, inner: EntrySchema) {
    s in nodes && s != inner && (inner in nodes ==> inner.path == s.path)
  }

  // A traversal that has come to n has come past `inner`.
  ghost predicate Past(nodes: set<EntrySchema>, n: EntrySchema, inner: EntrySchema, visited: set<string>) {
    n in nodes && (inner in nodes ==> inner.path in visited || (n != inner && n.path == inner.path))
  }

  // After the first pass: true for satisfying nodes, false for other leaves, else no entry.
  ghost predicate Started(g: Graph<string>, goal: set<string>, result: map<string, bool>, visited: set<string>) {
    && result.Keys <= visited <= g.Keys
    && forall k :: k in visited ==>
         (k in result <==> k in goal || g[k] == []) && (k in result ==> result[k] == (k in goal))
  }

  // Nodes first visited between `before` and `after` have all their children in `after`.
  ghost predicate Explored(g: Graph<string>, before: set<string>, after: set<string>) {
    forall n, c :: n in after && n !in before && n in g && c in g[n] ==> c in after
  }

  // What the sweeps keep: true entries are justified, false ones sit on leaves.
  ghost predicate Justified(g: Graph<string>, goal: set<string>, result: map<string, bool>) {
    forall k :: k in result ==> k in g && if result[k] then Leads(g, goal, k) else g[k] == []
  }

  predicate Extends(before: map<string, bool>, after: map<string, bool>) {
    forall k :: k in before ==> k in after && after[k] == before[k]
  }

  // Nodes first visited between `before` and `after` are kept if one of their children is.
  ghost predicate Settled(g: Graph<string>, result: map<string, bool>, before: set<string>, after: set<string>) {
    forall n, c :: n in after && n !in before && n in g && c in g[n] && Kept(result, c) ==> Kept(result, n)
  }

  // The first i of the `kids` are visited; a kept one among them keeps their parent.
  ghost predicate SeenUpTo(kids: seq<string>, i: nat, visited: set<string>) {
    i <= |kids| && forall j :: 0 <= j < i ==> kids[j] in visited
  }

  ghost predicate SettledUpTo(kids: seq<string>, i: nat, result: map<string, bool>, parent: string) {
    i <= |kids| && forall j :: 0 <= j < i && Kept(result, kids[j]) ==> Kept(result, parent)
  }

  class Evaluator {
    var result: map<string, bool>
    var visited: set<string>

    constructor ()
      ensures result == map[] && visited == {}
    {
      result, visited := map[], {};
    }

    method ApplyPredicate(s: EntrySchema, p: EntrySchema -> bool, ghost nodes: set<EntrySchema>,
                          ghost inner: EntrySchema,
                          ghost g: Graph<string>, ghost goal: set<string>)
      requires Past(nodes, s, inner, visited)
      requires Mirrors(nodes, g) && Marks(nodes - {inner}, p, goal) && Started(g, goal, result, visited)
      modifies this
      ensures Started(g, goal, result, visited)
      ensures old(visited) <= visited && s.path in visited && Explored(g, old(visited), visited)
      decreases g.Keys - visited
    {
      if s.path in visited { return; }
      result := result[s.path := p(s)];
      if !result[s.path] && |s.children| > 0 {
        result := result - {s.path};
      }
      visited := visited + {s.path};
      for i := 0 to |s.children|
        invariant Started(g, goal, result, visited)
        invariant old(visited) <= visited && s.path in visited
        invariant SeenUpTo(g[s.path], i, visited)
        invariant Explored(g, old(visited) + {s.path}, visited)
      {
        ghost var seen := visited;
        assert s.path in g.Keys - old(visited);
        ApplyPredicate(s.children[i], p, nodes, inner, g, goal);
        SeenNext(g[s.path], i, seen, visited);
      }
    }

    method UpdateResult(s: EntrySchema, ghost nodes: set<EntrySchema>, ghost g: Graph<string>, ghost goal: set<string>)
      requires s in nodes && Mirrors(nodes, g) && Justified(g, goal, result) && visited <= g.Keys
      modifies this
      ensures Justified(g, goal, result) && Extends(old(result), result)
      ensures old(visited) <= visited <= g.Keys && s.path in visited && Explored(g, old(visited), visited)
      ensures result == old(result) ==> Settled(g, result, old(visited), visited)
      decreases g.Keys - visited, 0
    {
      if s.path in visited { return; }
      visited := visited + {s.path};
      for i := 0 to |s.children|
        invariant Justified(g, goal, result) && Extends(old(result), result)
        invariant old(visited) <= visited <= g.Keys && s.path in visited
        invariant SeenUpTo(g[s.path], i, visited)
        invariant Explored(g, old(visited) + {s.path}, visited)
        invariant result == old(result) ==> Settled(g, result, old(visited) + {s.path}, visited)
        invariant result == old(result) ==> SettledUpTo(g[s.path], i, result, s.path)
      {
        ghost var before, seen := result, visited;
        assert s.path in g.Keys - old(visited);
        UpdateFromChild(s, i, nodes, g, goal);
        assert SeenUpTo(g[s.path], i, visited) by { assert seen <= visited; }
        ExtendsChain(old(result), before, result);
        if result == old(result) {
          SettledNext(g[s.path], i, result, s.path);
        }
      }
    }

    // One turn of the loop over the children.
    method UpdateFromChild(s: EntrySchema, i: nat, ghost nodes: set<EntrySchema>, ghost g: Graph<string>,
                           ghost goal: set<string>)
      requires s in nodes && Mirrors(nodes, g) && Justified(g, goal, result) && visited <= g.Keys && i < |s.children|
      modifies this
      ensures Justified(g, goal, result) && Extends(old(result), result)
      ensures old(visited) <= visited <= g.Keys && g[s.path][i] in visited && Explored(g, old(visited), visited)
      ensures result == old(result) ==> Settled(g, result, old(visited), visited)
      ensures Kept(result, g[s.path][i]) ==> Kept(result, s.path)
      decreases g.Keys - visited, 1
    {
      UpdateResult(s.children[i], nodes, g, goal);
      ghost var held := result;
      if Kept(result, s.children[i].path) {
        ChildJustifies(g, goal, s.path, i);
        result := result[s.path := true];
      }
      ExtendsChain(old(result), held, result);
    }
  }

  lemma SeenNext(kids: seq<string>, i: nat, before: set<string>, after: set<string>)
    requires SeenUpTo(kids, i, before) && before <= after && i < |kids| && kids[i] in after
    ensures SeenUpTo(kids, i + 1, after)
  {
  }

  lemma SettledNext(kids: seq<string>, i: nat, result: map<string, bool>, parent: string)
    requires i < |kids| && SettledUpTo(kids, i, result, parent) && (Kept(result, kids[i]) ==> Kept(result, parent))
    ensures SettledUpTo(kids, i + 1, result, parent)
  {
  }

  lemma ExtendsChain(a: map<string, bool>, b: map<string, bool>, c: map<string, bool>)
    requires Extends(a, b) && Extends(b, c)
    ensures Extends(a, c) && (a == c ==> a == b)
  {
    if a == c { assert b.Keys == c.Keys; }
  }

  lemma ChildJustifies(g: Graph<string>, goal: set<string>, n: string, i: nat)
    requires n in g && i < |g[n]| && Leads(g, goal, g[n][i])
    ensures Leads(g, goal, n)
  {
    var b :| b in goal && Reaches(g, g[n][i], b);
    ReachesFromParent(g, n, g[n][i], b);
  }

  lemma StartedIsJustified(g: Graph<string>, goal: set<string>, result: map<string, bool>, visited: set<string>)
    requires Started(g, goal, result, visited)
    ensures Justified(g, goal, result)
  {
    forall k | k in result && result[k] ensures Leads(g, goal, k) {
      ReachesSelf(g, k);
    }
  }

  // A sweep that changes nothing has found every node that leads to a satisfying one.
  lemma FixpointIsExact(g: Graph<string>, goal: set<string>, result: map<string, bool>, visited: set<string>,
                        root: string)
    requires Closed(g) && goal <= g.Keys && root in visited && visited <= g.Keys && Justified(g, goal, result)
    requires Explored(g, {}, visited) && Settled(g, result, {}, visited)
    requires forall k :: k in goal && k in visited ==> Kept(result, k)
    ensures forall k :: Reaches(g, root, k) ==> (Kept(result, k) <==> Leads(g, goal, k))
  {
    forall k | Reaches(g, root, k) ensures Kept(result, k) <==> Leads(g, goal, k) {
      ClosedHoldsReachable(g, visited, root, k);
      if Leads(g, goal, k) {
        var b :| b in goal && Reaches(g, k, b);
        ClosedHoldsReachable(g, visited, k, b);
        ParentsHoldLeading(g, (set n | n in visited && Kept(result, n)), visited, k, b);
      }
    }
  }

  lemma ShowsDecoded(nodes: set<EntrySchema>, s: EntrySchema, inner: EntrySchema, p: EntrySchema -> bool)
    requires Decoded(nodes, s, inner) && PathsApart(nodes, inner)
    ensures Outer(nodes, s, inner) && Shows(nodes, inner, p, View(nodes - {inner}), Satisfying(nodes - {inner}, p))
  {
    DecodedFacts(nodes, s, inner);
  }

  /** evaluateNodesToKeep: true for exactly the nodes that lead, in zero or more steps, to a
      satisfying node.  Each sweep but the last adds a key, so the loop ends. */
  method EvaluateNodesToKeep(s: EntrySchema, p: EntrySchema -> bool,
                             ghost nodes: set<EntrySchema>, ghost inner: EntrySchema, ghost g: Graph<string>,
                             ghost goal: set<string>)
    returns (keep: map<string, bool>)
    requires Outer(nodes, s, inner) && Shows(nodes, inner, p, g, goal)
    ensures forall k :: Reaches(g, s.path, k) ==> (Kept(keep, k) <==> Leads(g, goal, k))
  {
    var e := new Evaluator();
    e.ApplyPredicate(s, p, nodes, inner, g, goal);
    StartedIsJustified(g, goal, e.result, e.visited);
    ghost var start, reached := e.result, e.visited;
    while true
      invariant Shows(nodes, inner, p, g, goal) && Justified(g, goal, e.result) && Extends(start, e.result)
      decreases g.Keys - e.result.Keys
    {
      e.visited := {};
      ghost var prev := e.result;
      var prevNumNodes := |e.result|;
      e.UpdateResult(s, nodes, g, goal);
      var newNodes := |e.result| - prevNumNodes;
      SameSizeSameMap(prev, e.result);
      ExtendsChain(start, prev, e.result);
      if newNodes <= 0 {
        LastSweepIsExact(g, goal, start, reached, e.result, e.visited, s.path);
        return e.result;
      }
    }
  }

  lemma SameSizeSameMap(a: map<string, bool>, b: map<string, bool>)
    requires Extends(a, b)
    ensures |a| <= |b| && (|b| <= |a| ==> a == b) && (a != b ==> a.Keys < b.Keys)
  {
    assert a.Keys <= b.Keys;
    SubsetSize(a.Keys, b.Keys);
  }

  lemma SubsetSize(a: set<string>, b: set<string>)
    requires a <= b
    ensures |a| <= |b| && (|a| == |b| ==> a == b)
  {
    assert |b - a| == |b| - |a|;
    if |a| == |b| { assert b - a == {}; }
  }

  lemma LastSweepIsExact(g: Graph<string>, goal: set<string>, start: map<string, bool>, reached: set<string>,
                         result: map<string, bool>, visited: set<string>, root: string)
    requires Closed(g) && goal <= g.Keys && root in visited && root in reached && visited <= g.Keys
    requires Started(g, goal, start, reached) && Extends(start, result) && Explored(g, {}, reached)
    requires Justified(g, goal, result) && Explored(g, {}, visited) && Settled(g, result, {}, visited)
    ensures forall k :: Reaches(g, root, k) ==> (Kept(result, k) <==> Leads(g, goal, k))
  {
    var both := visited * reached;
    assert Explored(g, {}, both) && Settled(g, result, {}, both);
    FixpointIsExact(g, goal, result, both, root);
  }

  /*** Pruning in place ***/

  // The order-preserving filter.
  function Filter<T>(s: seq<T>, f: T -> bool): seq<T> {
    if s == [] then []
    else
      var init := Filter(s[..|s| - 1], f);
      if f(s[|s| - 1]) then init + [s[|s| - 1]] else init
  }

  lemma {:induction false} Filtered<T>(s: seq<T>, f: T -> bool)
    ensures forall x :: x in Filter(s, f) <==> x in s && f(x)
  {
    if s != [] {
      Filtered(s[..|s| - 1], f);
      assert s == s[..|s| - 1] + [s[|s| - 1]];
    }
  }

  function KeptChildren(kids: seq<EntrySchema>, keep: map<string, bool>): seq<EntrySchema> {
    Filter(kids, (c: EntrySchema) => Kept(keep, c.path))
  }

  lemma {:induction false} FilterPaths(kids: seq<EntrySchema>, keep: map<string, bool>)
    ensures Paths(KeptChildren(kids, keep)) == Filter(Paths(kids), (k: string) => Kept(keep, k))
  {
    if kids != [] {
      var init := kids[..|kids| - 1];
      FilterPaths(init, keep);
      assert Paths(kids)[..|kids| - 1] == Paths(init);
    }
  }

  // Visited nodes are filtered, except `inner` and those whose turn is still `pending`.
  ghost predicate Progress(nodes: set<EntrySchema>, inner: EntrySchema, orig: map<EntrySchema, seq<EntrySchema>>,
                           keep: map<string, bool>,
                           visited: set<string>, pending: set<string>)
    reads nodes
  {
    && nodes <= orig.Keys
    && (forall n :: n in nodes ==>
         n.children == if n != inner && n.path in visited && n.path !in pending then KeptChildren(orig[n], keep)
             else orig[n])
    && (forall n, c :: n in nodes && c in orig[n] ==> c in nodes)
  }

  // Where pruning goes: along kept children.
  ghost function KeptGraph(g: Graph<string>, keep: map<string, bool>): Graph<string> {
    map n | n in g :: Filter(g[n], (k: string) => Kept(keep, k))
  }

  // `k` is the graph of the nodes with their filtered child lists.
  ghost predicate Filters(nodes: set<EntrySchema>, orig: map<EntrySchema, seq<EntrySchema>>, keep: map<string, bool>,
                          k: Graph<string>) {
    forall n :: n in nodes ==> n in orig && n.path in k && k[n.path] == Paths(KeptChildren(orig[n], keep))
  }

  ghost predicate ReachedFrom(k: Graph<string>, a: string, before: set<string>, after: set<string>) {
    forall n :: n in after && n !in before ==> Reaches(k, a, n)
  }

  predicate AllVisited(kids: seq<EntrySchema>, visited: set<string>) {
    forall c :: c in kids ==> c.path in visited
  }

  lemma NothingYet(k: Graph<string>, a: string, visited: set<string>)
    ensures ReachedFrom(k, a, visited, visited) && Explored(k, visited, visited) && AllVisited([], visited)
  {
  }

  lemma ReachedChain(k: Graph<string>, a: string, before: set<string>, middle: set<string>, after: set<string>)
    requires ReachedFrom(k, a, before, middle) && ReachedFrom(k, a, middle, after)
    ensures ReachedFrom(k, a, before, after)
  {
  }

  lemma ExploredChain(k: Graph<string>, before: set<string>, middle: set<string>, after: set<string>)
    requires middle <= after && Explored(k, before, middle) && Explored(k, middle, after)
    ensures Explored(k, before, after)
  {
  }

  lemma VisitedMore(kids: seq<EntrySchema>, c: EntrySchema, before: set<string>, after: set<string>)
    requires before <= after && AllVisited(kids, before)
    ensures AllVisited(kids, after) && (c.path in after ==> AllVisited(kids + [c], after))
  {
  }

  class Pruner {
    var visited: set<string>

    constructor ()
      ensures visited == {}
    {
      visited := {};
    }

    method PruneNode(s: EntrySchema, keep: map<string, bool>, ghost nodes: set<EntrySchema>, ghost inner: EntrySchema,
                     ghost orig: map<EntrySchema, seq<EntrySchema>>, ghost k: Graph<string>, ghost pending: set<string>)
      requires Past(nodes, s, inner, visited) && PathsApart(nodes, inner)
      requires Progress(nodes, inner, orig, keep, visited, pending)
      requires visited <= k.Keys && Filters(nodes, orig, keep, k) && pending <= visited
      modifies this, nodes
      ensures Progress(nodes, inner, orig, keep, visited, pending)
      ensures old(visited) <= visited <= k.Keys && s.path in visited
      ensures Explored(k, old(visited), visited)
      ensures ReachedFrom(k, s.path, old(visited), visited)
      decreases k.Keys - visited, 0
    {
      if s.path in visited { return; }
      visited := visited + {s.path};
      ReachesSelf(k, s.path);
      assert Progress(nodes, inner, orig, keep, visited, pending + {s.path});
      var childrenToKeep := PruneChildren(s, keep, nodes, inner, orig, k, pending + {s.path});
      Finish(s, childrenToKeep, keep, nodes, inner, orig, pending);
    }

    // s takes its filtered children and is no longer pending.
    method Finish(s: EntrySchema, childrenToKeep: seq<EntrySchema>, keep: map<string, bool>,
                  ghost nodes: set<EntrySchema>, ghost inner: EntrySchema,
                  ghost orig: map<EntrySchema, seq<EntrySchema>>, ghost pending: set<string>)
      requires s in nodes && s != inner && PathsApart(nodes, inner)
      requires Progress(nodes, inner, orig, keep, visited, pending + {s.path})
      requires s.path in visited && s.path !in pending && childrenToKeep == KeptChildren(orig[s], keep)
      modifies s
      ensures Progress(nodes, inner, orig, keep, visited, pending)
    {
      s.SetChildren(childrenToKeep);
      forall n | n in nodes
        ensures n.children == if n != inner && n.path in visited && n.path !in pending then KeptChildren(orig[n], keep)
            else orig[n]
      {
        if n != s && n != inner { assert n.path != s.path; }
      }
    }

    // The loop over the children of s.
    method PruneChildren(s: EntrySchema, keep: map<string, bool>, ghost nodes: set<EntrySchema>,
                         ghost inner: EntrySchema,
                         ghost orig: map<EntrySchema, seq<EntrySchema>>, ghost k: Graph<string>,
                         ghost pending: set<string>)
      returns (childrenToKeep: seq<EntrySchema>)
      requires s in nodes && s != inner && (inner in nodes ==> inner.path in visited)
      requires PathsApart(nodes, inner) && Progress(nodes, inner, orig, keep, visited, pending)
      requires visited <= k.Keys && Filters(nodes, orig, keep, k) && s.path in pending && pending <= visited
      modifies this, nodes
      ensures Progress(nodes, inner, orig, keep, visited, pending)
      ensures old(visited) <= visited <= k.Keys
      ensures Explored(k, old(visited), visited)
      ensures childrenToKeep == KeptChildren(orig[s], keep)
      ensures AllVisited(childrenToKeep, visited)
      ensures ReachedFrom(k, s.path, old(visited), visited)
      decreases k.Keys - visited, 2
    {
      hide ReachedFrom, Explored, AllVisited, UniquePaths;
      var kids := s.children;
      childrenToKeep := [];
      NothingYet(k, s.path, visited);
      for i := 0 to |kids|
        invariant Progress(nodes, inner, orig, keep, visited, pending)
        invariant old(visited) <= visited <= k.Keys
        invariant Explored(k, old(visited), visited)
        invariant childrenToKeep == KeptChildren(kids[..i], keep)
        invariant AllVisited(childrenToKeep, visited)
        invariant ReachedFrom(k, s.path, old(visited), visited)
      {
        var child := kids[i];
        KeptStep(kids, keep, i);
        if Kept(keep, child.path) {
          KeptChildInGraph(kids, keep, i, k[s.path]);
          ghost var before := visited;
          PruneChild(s, child, keep, nodes, inner, orig, k, pending);
          ReachedChain(k, s.path, old(visited), before, visited);
          ExploredChain(k, old(visited), before, visited);
          VisitedMore(childrenToKeep, child, before, visited);
          childrenToKeep := childrenToKeep + [child];
        }
      }
      assert kids[..|kids|] == kids;
    }

    // The recursive call on a kept child, seen from its parent.
    method PruneChild(s: EntrySchema, child: EntrySchema, keep: map<string, bool>, ghost nodes: set<EntrySchema>,
                      ghost inner: EntrySchema,
                      ghost orig: map<EntrySchema, seq<EntrySchema>>, ghost k: Graph<string>,
                      ghost pending: set<string>)
      requires Past(nodes, child, inner, visited) && PathsApart(nodes, inner)
      requires Progress(nodes, inner, orig, keep, visited, pending)
      requires visited <= k.Keys && Filters(nodes, orig, keep, k)
      requires pending <= visited && s in nodes && child.path in k[s.path]
      modifies this, nodes
      ensures Progress(nodes, inner, orig, keep, visited, pending)
      ensures old(visited) <= visited <= k.Keys && child.path in visited
      ensures Explored(k, old(visited), visited)
      ensures ReachedFrom(k, s.path, old(visited), visited)
      decreases k.Keys - visited, 1
    {
      PruneNode(child, keep, nodes, inner, orig, k, pending);
      forall n | n in visited && n !in old(visited) ensures Reaches(k, s.path, n) {
        ReachesFromParent(k, s.path, child.path, n);
      }
    }
  }

  lemma KeptStep(kids: seq<EntrySchema>, keep: map<string, bool>, i: nat)
    requires i < |kids|
    ensures KeptChildren(kids[..i + 1], keep)
         == KeptChildren(kids[..i], keep) + if Kept(keep, kids[i].path) then [kids[i]] else []
  {
    assert kids[..i + 1][..i] == kids[..i];
  }

  lemma KeptChildInGraph(kids: seq<EntrySchema>, keep: map<string, bool>, i: nat, paths: seq<string>)
    requires i < |kids| && Kept(keep, kids[i].path) && paths == Paths(KeptChildren(kids, keep))
    ensures kids[i].path in paths
  {
    Filtered(kids, (c: EntrySchema) => Kept(keep, c.path));
    assert kids[i] in KeptChildren(kids, keep);
    var j :| 0 <= j < |KeptChildren(kids, keep)| && KeptChildren(kids, keep)[j] == kids[i];
    assert paths[j] == kids[i].path;
  }

  /*** What pruning leaves ***/

  ghost predicate OnTheWay(g: Graph<string>, goal: set<string>, root: string, n: string) {
    Reaches(g, root, n) && Leads(g, goal, n)
  }

  // The children that lead to a satisfying node, in order.
  ghost function OnwardNodes(g: Graph<string>, goal: set<string>, kids: seq<EntrySchema>): seq<EntrySchema> {
    Filter(kids, (c: EntrySchema) => Leads(g, goal, c.path))
  }

  lemma OnwardFacts(g: Graph<string>, goal: set<string>, kids: seq<EntrySchema>)
    ensures forall c :: c in OnwardNodes(g, goal, kids) <==> c in kids && Leads(g, goal, c.path)
  {
    Filtered(kids, (c: EntrySchema) => Leads(g, goal, c.path));
  }

  /** The nodes after pruning: every node on the way but `inner` has lost the children that lead
      nowhere. */
  ghost function PrunedNodes(orig: Graph<EntrySchema>, inner: EntrySchema, g: Graph<string>, goal: set<string>,
                             root: string): Graph<EntrySchema> {
    map n | n in orig :: if n != inner && OnTheWay(g, goal, root, n.path) then OnwardNodes(g, goal, orig[n])
        else orig[n]
  }

  // `h` has lost, at n, exactly the edges to nodes that lead nowhere.
  ghost predicate CutAt(g: Graph<string>, goal: set<string>, h: Graph<string>, n: string) {
    n in g && n in h && forall c :: c in h[n] <==> c in g[n] && Leads(g, goal, c)
  }

  ghost predicate CutDown(g: Graph<string>, goal: set<string>, root: string, h: Graph<string>) {
    h.Keys == g.Keys && forall n :: n in g && OnTheWay(g, goal, root, n) ==> CutAt(g, goal, h, n)
  }

  lemma ChildOnTheWay(g: Graph<string>, goal: set<string>, root: string, n: string, c: string)
    requires Closed(g) && n in g && OnTheWay(g, goal, root, n) && c in g[n] && Leads(g, goal, c)
    ensures OnTheWay(g, goal, root, c)
  {
    ReachesChild(g, root, n, c);
  }

  lemma LeadsFromEarlier(g: Graph<string>, goal: set<string>, a: string, b: string)
    requires Reaches(g, a, b) && Leads(g, goal, b)
    ensures Leads(g, goal, a)
  {
    var d :| d in goal && Reaches(g, b, d);
    ReachesTransitive(g, a, b, d);
  }

  // A walk from the root to a node that leads somewhere is on the way throughout.
  lemma WalkOnTheWay(g: Graph<string>, goal: set<string>, w: seq<string>, i: nat)
    requires Closed(g) && IsWalk(g, w) && Leads(g, goal, w[|w| - 1]) && i < |w|
    ensures OnTheWay(g, goal, w[0], w[i])
  {
    assert IsWalk(g, w[..i + 1]);
    WalkSuffix(g, w, i);
    LeadsFromEarlier(g, goal, w[i], w[|w| - 1]);
  }

  lemma {:induction false} WalkSuffix(g: Graph<string>, w: seq<string>, i: nat)
    requires Closed(g) && IsWalk(g, w) && i < |w|
    ensures IsWalk(g, w[i..]) && Reaches(g, w[i], w[|w| - 1])
  {
    if i == 0 {
      assert w[0..] == w;
    } else {
      WalkTail(g, w);
      WalkSuffix(g, w[1..], i - 1);
      assert w[1..][i - 1..] == w[i..];
    }
  }

  lemma CutDownKeepsWalk(g: Graph<string>, goal: set<string>, h: Graph<string>, w: seq<string>)
    requires Closed(g) && IsWalk(g, w) && Leads(g, goal, w[|w| - 1]) && CutDown(g, goal, w[0], h)
    ensures IsWalk(h, w)
  {
    forall i | 0 <= i < |w| - 1 ensures w[i] in h && w[i + 1] in h[w[i]] {
      WalkOnTheWay(g, goal, w, i);
      WalkOnTheWay(g, goal, w, i + 1);
      assert CutAt(g, goal, h, w[i]);
    }
  }

  lemma CutDownReach(g: Graph<string>, goal: set<string>, root: string, h: Graph<string>)
    requires Closed(g) && root in g && Leads(g, goal, root) && CutDown(g, goal, root, h)
    ensures forall n :: Reaches(h, root, n) <==> OnTheWay(g, goal, root, n)
  {
    forall n ensures Reaches(h, root, n) <==> OnTheWay(g, goal, root, n) {
      if OnTheWay(g, goal, root, n) {
        var w :| IsWalk(g, w) && w[0] == root && w[|w| - 1] == n;
        CutDownKeepsWalk(g, goal, h, w);
      }
      if Reaches(h, root, n) {
        var s := set m | m in g && OnTheWay(g, goal, root, m);
        ReachesSelf(g, root);
        forall m, c | m in s && m in h && c in h[m] ensures c in s {
          assert CutAt(g, goal, h, m);
          ChildOnTheWay(g, goal, root, m, c);
        }
        ClosedHoldsReachable(h, s, root, n);
      }
    }
  }

  /*** What the decoded node still reaches ***/

  // `g` is the graph of the paths of `orig`.
  ghost predicate Spells(orig: Graph<EntrySchema>, g: Graph<string>) {
    && (forall n :: n in orig ==> n.path in g && g[n.path] == Paths(orig[n]))
    && forall n, c :: n in orig && c in orig[n] ==> c in orig
  }

  // The nodes at most k steps from a.
  ghost function Within(h: Graph<EntrySchema>, a: EntrySchema, k: nat): set<EntrySchema> {
    if k == 0 then {a}
    else var near := Within(h, a, k - 1); near + set n, c | n in near && n in h && c in h[n] :: c
  }

  ghost predicate Finds(h: Graph<EntrySchema>, a: EntrySchema, b: EntrySchema) {
    exists k: nat :: b in Within(h, a, k)
  }

  lemma FindsChild(h: Graph<EntrySchema>, a: EntrySchema, n: EntrySchema, c: EntrySchema)
    requires Finds(h, a, n) && n in h && c in h[n]
    ensures Finds(h, a, c)
  {
    var k: nat :| n in Within(h, a, k);
    assert c in Within(h, a, k + 1);
  }

  lemma {:induction false} FoundStays(h: Graph<EntrySchema>, s: set<EntrySchema>, a: EntrySchema, k: nat)
    requires a in s && forall n, c :: n in s && n in h && c in h[n] ==> c in s
    ensures Within(h, a, k) <= s
  {
    if k > 0 { FoundStays(h, s, a, k - 1); }
  }

  // Every path on the way is still found.
  lemma {:induction false} WalkIsFound(orig: Graph<EntrySchema>, inner: EntrySchema, g: Graph<string>,
                                       goal: set<string>, s: EntrySchema, w: seq<string>)
    returns (n: EntrySchema)
    requires Spells(orig, g) && Closed(g) && s in orig
    requires IsWalk(g, w) && w[0] == s.path && Leads(g, goal, w[|w| - 1])
    ensures n in orig && n.path == w[|w| - 1] && Finds(PrunedNodes(orig, inner, g, goal, s.path), s, n)
  {
    var h := PrunedNodes(orig, inner, g, goal, s.path);
    if |w| == 1 {
      n := s;
      assert s in Within(h, s, 0);
    } else {
      var v, k := w[..|w| - 1], w[|w| - 1];
      WalkOnTheWay(g, goal, w, |w| - 2);
      var m := WalkIsFound(orig, inner, g, goal, s, v);
      assert w[|w| - 2 + 1] in g[w[|w| - 2]];
      var i :| 0 <= i < |Paths(orig[m])| && Paths(orig[m])[i] == k;
      n := orig[m][i];
      OnwardFacts(g, goal, orig[m]);
      FindsChild(h, s, m, n);
    }
  }

  /** Nothing that leads to a satisfying node is lost: every such path is still found, and every
      walk of nodes to one is still there. */
  lemma PrunedFindsKept(orig: Graph<EntrySchema>, inner: EntrySchema, g: Graph<string>, goal: set<string>,
                        s: EntrySchema, k: string)
    returns (n: EntrySchema)
    requires Spells(orig, g) && Closed(g) && s in orig && OnTheWay(g, goal, s.path, k)
    ensures n in orig && n.path == k && Finds(PrunedNodes(orig, inner, g, goal, s.path), s, n)
  {
    var w :| IsWalk(g, w) && w[0] == s.path && w[|w| - 1] == k;
    n := WalkIsFound(orig, inner, g, goal, s, w);
  }

  lemma {:induction false} NodeWalkLeads(orig: Graph<EntrySchema>, g: Graph<string>, goal: set<string>,
                                         w: seq<EntrySchema>, i: nat)
    requires Spells(orig, g) && IsWalk(orig, w) && w[|w| - 1].path in goal && w[|w| - 1] in orig && i < |w|
    ensures w[i] in orig && Leads(g, goal, w[i].path)
    decreases |w| - i
  {
    if i == |w| - 1 {
      ReachesSelf(g, w[i].path);
    } else {
      NodeWalkLeads(orig, g, goal, w, i + 1);
      assert w[i] in orig && w[i + 1] in orig[w[i]];
      var j :| 0 <= j < |orig[w[i]]| && orig[w[i]][j] == w[i + 1];
      assert Paths(orig[w[i]])[j] == w[i + 1].path;
      ChildJustifies(g, goal, w[i].path, j);
    }
  }

  lemma PrunedKeepsWalks(orig: Graph<EntrySchema>, inner: EntrySchema, g: Graph<string>, goal: set<string>,
                         root: string, w: seq<EntrySchema>)
    requires Spells(orig, g) && IsWalk(orig, w) && w[|w| - 1].path in goal && w[|w| - 1] in orig
    ensures IsWalk(PrunedNodes(orig, inner, g, goal, root), w)
  {
    var h := PrunedNodes(orig, inner, g, goal, root);
    forall i | 0 <= i < |w| - 1 ensures w[i] in h && w[i + 1] in h[w[i]] {
      NodeWalkLeads(orig, g, goal, w, i + 1);
      OnwardFacts(g, goal, orig[w[i]]);
    }
  }

  // Some node on the way has an edge back to the first type.
  ghost predicate BackEdge(orig: Graph<EntrySchema>, inner: EntrySchema, g: Graph<string>, goal: set<string>,
                           root: string) {
    inner in orig && exists n :: n in orig && n != inner && OnTheWay(g, goal, root, n.path) && inner in orig[n]
  }

  // What is still found is on the way to a satisfying node.
  ghost predicate FindsOnlyKept(h: Graph<EntrySchema>, g: Graph<string>, goal: set<string>, s: EntrySchema) {
    forall n :: n in h && Finds(h, s, n) ==> OnTheWay(g, goal, s.path, n.path)
  }

  lemma OnTheWayChild(orig: Graph<EntrySchema>, g: Graph<string>, goal: set<string>, root: string, n: EntrySchema,
                      c: EntrySchema)
    requires Spells(orig, g) && Closed(g) && n in orig && OnTheWay(g, goal, root, n.path) && c in orig[n]
    requires Leads(g, goal, c.path)
    ensures c in orig && OnTheWay(g, goal, root, c.path)
  {
    var i :| 0 <= i < |orig[n]| && orig[n][i] == c;
    assert Paths(orig[n])[i] == c.path;
    ChildOnTheWay(g, goal, root, n.path, c.path);
  }

  // Every child of the root is kept.
  ghost predicate AllLead(g: Graph<string>, goal: set<string>, root: string) {
    root in g && forall c :: c in g[root] ==> Leads(g, goal, c)
  }

  // One edge that is left, from a node that pruning should leave.
  lemma KeptChild(orig: Graph<EntrySchema>, inner: EntrySchema, g: Graph<string>, goal: set<string>, root: string,
                  n: EntrySchema, c: EntrySchema)
    requires Spells(orig, g) && Closed(g) && n in orig && OnTheWay(g, goal, root, n.path)
    requires n == inner ==> n.path == root && AllLead(g, goal, root)
    requires c in PrunedNodes(orig, inner, g, goal, root)[n]
    ensures c in orig && OnTheWay(g, goal, root, c.path)
    ensures c == inner && n != inner ==> BackEdge(orig, inner, g, goal, root)
  {
    OnwardFacts(g, goal, orig[n]);
    var i :| 0 <= i < |orig[n]| && orig[n][i] == c;
    assert Paths(orig[n])[i] == c.path;
    OnTheWayChild(orig, g, goal, root, n, c);
  }

  lemma KeptAreClosed(orig: Graph<EntrySchema>, inner: EntrySchema, g: Graph<string>, goal: set<string>, s: EntrySchema)
    requires Spells(orig, g) && Closed(g) && s in orig && s != inner && (inner in orig ==> inner.path == s.path)
    requires Leads(g, goal, s.path)
    requires !BackEdge(orig, inner, g, goal, s.path) || AllLead(g, goal, s.path)
    ensures FindsOnlyKept(PrunedNodes(orig, inner, g, goal, s.path), g, goal, s)
  {
    hide BackEdge, AllLead;
    var h := PrunedNodes(orig, inner, g, goal, s.path);
    var kept := set n | n in orig && OnTheWay(g, goal, s.path, n.path) && (n != inner || AllLead(g, goal, s.path));
    ReachesSelf(g, s.path);
    forall n, c | n in kept && n in h && c in h[n] ensures c in kept {
      KeptChild(orig, inner, g, goal, s.path, n, c);
    }
    forall n | n in h && Finds(h, s, n) ensures n in kept {
      var k: nat :| n in Within(h, s, k);
      FoundStays(h, kept, s, k);
    }
  }

  lemma BackEdgeIsFound(orig: Graph<EntrySchema>, inner: EntrySchema, g: Graph<string>, goal: set<string>,
                        s: EntrySchema, n: EntrySchema)
    requires Spells(orig, g) && Closed(g) && s in orig && inner in orig && inner.path == s.path
    requires Leads(g, goal, s.path)
    requires UniquePaths(orig.Keys - {inner}) && n in orig && n != inner && OnTheWay(g, goal, s.path, n.path)
    requires inner in orig[n]
    ensures Finds(PrunedNodes(orig, inner, g, goal, s.path), s, inner)
  {
    var h := PrunedNodes(orig, inner, g, goal, s.path);
    var m := PrunedFindsKept(orig, inner, g, goal, s, n.path);
    if m != inner {
      OnwardFacts(g, goal, orig[n]);
      FindsChild(h, s, n, inner);
    }
  }

  // Through an edge back to `inner` its whole child list is found.
  lemma BackEdgeFindsAll(orig: Graph<EntrySchema>, inner: EntrySchema, g: Graph<string>, goal: set<string>,
                         s: EntrySchema, c: string)
    requires Spells(orig, g) && Closed(g) && s in orig && s != inner && (inner in orig ==> inner.path == s.path)
    requires Leads(g, goal, s.path)
    requires UniquePaths(orig.Keys - {inner}) && BackEdge(orig, inner, g, goal, s.path) && c in g[s.path]
    requires !Leads(g, goal, c)
    ensures !FindsOnlyKept(PrunedNodes(orig, inner, g, goal, s.path), g, goal, s)
  {
    hide UniquePaths, FindsOnlyKept, Finds, Closed, Leads;
    var h := PrunedNodes(orig, inner, g, goal, s.path);
    var n :| n in orig && n != inner && OnTheWay(g, goal, s.path, n.path) && inner in orig[n];
    BackEdgeIsFound(orig, inner, g, goal, s, n);
    var i :| 0 <= i < |Paths(orig[inner])| && Paths(orig[inner])[i] == c;
    FindsChild(h, s, inner, orig[inner][i]);
    FoundUnkept(h, g, goal, s, orig[inner][i]);
  }

  lemma FoundUnkept(h: Graph<EntrySchema>, g: Graph<string>, goal: set<string>, s: EntrySchema, n: EntrySchema)
    requires n in h && Finds(h, s, n) && !OnTheWay(g, goal, s.path, n.path)
    ensures !FindsOnlyKept(h, g, goal, s)
  {
  }

  /** After pruning, the decoded node finds only nodes that lead to a satisfying one exactly when no
      kept node has an edge back to the first type, or every child of the root is kept. */
  lemma PrunedReachability(orig: Graph<EntrySchema>, inner: EntrySchema, g: Graph<string>, goal: set<string>,
                           s: EntrySchema)
    requires Spells(orig, g) && Closed(g) && s in orig && s != inner && (inner in orig ==> inner.path == s.path)
    requires Leads(g, goal, s.path)
    requires UniquePaths(orig.Keys - {inner})
    ensures FindsOnlyKept(PrunedNodes(orig, inner, g, goal, s.path), g, goal, s)
       <==> !BackEdge(orig, inner, g, goal, s.path) || AllLead(g, goal, s.path)
  {
    if BackEdge(orig, inner, g, goal, s.path) && !AllLead(g, goal, s.path) {
      var c :| c in g[s.path] && !Leads(g, goal, c);
      BackEdgeFindsAll(orig, inner, g, goal, s, c);
    } else {
      KeptAreClosed(orig, inner, g, goal, s);
    }
  }

  const SELF_EDGE: Graph<string> := map["dir" := ["dir", "dir/file"], "dir/file" := []]

  lemma SelfEdgeLeads()
    ensures Closed(SELF_EDGE) && Leads(SELF_EDGE, {"dir"}, "dir") && !Leads(SELF_EDGE, {"dir"}, "dir/file")
    ensures OnTheWay(SELF_EDGE, {"dir"}, "dir", "dir") && !AllLead(SELF_EDGE, {"dir"}, "dir")
  {
    var g := SELF_EDGE;
    assert "dir" != "dir/file" by { assert |"dir"| != |"dir/file"|; }
    ReachesSelf(g, "dir");
    if Leads(g, {"dir"}, "dir/file") { ClosedHoldsReachable(g, {"dir/file"}, "dir/file", "dir"); }
    assert g["dir"][1] == "dir/file" && "dir/file" in g["dir"];
  }

  /** The smallest case: directories that list directories and files, where only directories
      satisfy.  The files are not kept, but one is still found below the root's own edge. */
  lemma SelfEdgeKeepsUnkept(s: EntrySchema, inner: EntrySchema, file: EntrySchema)
    requires s != inner && s.path == "dir" && inner.path == "dir" && file.path == "dir/file"
    ensures var orig: Graph<EntrySchema> := map[s := [inner, file], inner := [inner, file], file := []];
      !FindsOnlyKept(PrunedNodes(orig, inner, SELF_EDGE, {"dir"}, "dir"), SELF_EDGE, {"dir"}, s)
  {
    hide OnTheWay, Leads, AllLead, FindsOnlyKept;
    var orig: Graph<EntrySchema> := map[s := [inner, file], inner := [inner, file], file := []];
    SelfEdgeLeads();
    assert file.path != inner.path by { assert |file.path| != |inner.path|; }
    assert Paths([inner, file]) == ["dir", "dir/file"] && Paths([]) == [];
    assert inner in orig[s];
    PrunedReachability(orig, inner, SELF_EDGE, {"dir"}, s);
  }

  /*** The whole operation ***/

  lemma {:induction false} FilterAgrees<T>(s: seq<T>, f: T -> bool, h: T -> bool)
    requires forall x :: x in s ==> f(x) == h(x)
    ensures Filter(s, f) == Filter(s, h)
  {
    if s != [] {
      assert s[|s| - 1] in s && forall x :: x in s[..|s| - 1] ==> x in s;
      FilterAgrees(s[..|s| - 1], f, h);
    }
  }

  // An exact `keep` filters a reachable node's children by whether they lead somewhere.
  lemma KeptIsLeading(g: Graph<string>, goal: set<string>, root: string, keep: map<string, bool>, n: string, c: string)
    requires Closed(g) && n in g && Reaches(g, root, n) && c in g[n]
    requires forall k :: Reaches(g, root, k) ==> (Kept(keep, k) <==> Leads(g, goal, k))
    ensures Kept(keep, c) <==> Leads(g, goal, c)
  {
    ReachesChild(g, root, n, c);
  }

  lemma KeptGraphIsCutDown(g: Graph<string>, goal: set<string>, root: string, keep: map<string, bool>)
    requires Closed(g)
    requires forall k :: Reaches(g, root, k) ==> (Kept(keep, k) <==> Leads(g, goal, k))
    ensures CutDown(g, goal, root, KeptGraph(g, keep))
  {
    var h := KeptGraph(g, keep);
    forall n | n in g && OnTheWay(g, goal, root, n) ensures CutAt(g, goal, h, n) {
      Filtered(g[n], (k: string) => Kept(keep, k));
      forall c | c in g[n] ensures Kept(keep, c) <==> Leads(g, goal, c) { KeptIsLeading(g, goal, root, keep, n, c); }
    }
  }

  lemma KeptGraphFilters(nodes: set<EntrySchema>, orig: map<EntrySchema, seq<EntrySchema>>, g: Graph<string>,
                         keep: map<string, bool>)
    requires forall n :: n in nodes ==> n in orig && n.path in g && g[n.path] == Paths(orig[n])
    ensures Filters(nodes, orig, keep, KeptGraph(g, keep))
  {
    forall n | n in nodes ensures KeptGraph(g, keep)[n.path] == Paths(KeptChildren(orig[n], keep)) {
      FilterPaths(orig[n], keep);
    }
  }

  // The visited set of the pruning pass is exactly the nodes on the way.
  lemma VisitedIsOnTheWay(g: Graph<string>, goal: set<string>, root: string, keep: map<string, bool>,
                          visited: set<string>, n: string)
    requires Closed(g) && root in g && Leads(g, goal, root) && root in visited
    requires forall k :: Reaches(g, root, k) ==> (Kept(keep, k) <==> Leads(g, goal, k))
    requires Explored(KeptGraph(g, keep), {}, visited)
    requires forall k :: k in visited ==> Reaches(KeptGraph(g, keep), root, k)
    ensures n in visited <==> OnTheWay(g, goal, root, n)
  {
    KeptGraphIsCutDown(g, goal, root, keep);
    CutDownReach(g, goal, root, KeptGraph(g, keep));
    if OnTheWay(g, goal, root, n) {
      ClosedHoldsReachable(KeptGraph(g, keep), visited, root, n);
    }
  }

  lemma KeptIsOnward(g: Graph<string>, goal: set<string>, root: string, keep: map<string, bool>, n: EntrySchema,
                     kids: seq<EntrySchema>)
    requires Closed(g) && n.path in g && g[n.path] == Paths(kids) && Reaches(g, root, n.path)
    requires forall k :: Reaches(g, root, k) ==> (Kept(keep, k) <==> Leads(g, goal, k))
    ensures KeptChildren(kids, keep) == OnwardNodes(g, goal, kids)
  {
    forall c | c in kids ensures Kept(keep, c.path) <==> Leads(g, goal, c.path) {
      var i :| 0 <= i < |kids| && kids[i] == c;
      assert Paths(kids)[i] == c.path;
      KeptIsLeading(g, goal, root, keep, n.path, c.path);
    }
    FilterAgrees(kids, (c: EntrySchema) => Kept(keep, c.path), (c: EntrySchema) => Leads(g, goal, c.path));
  }

  // What the pass over the kept nodes has done to the graph of the nodes.
  lemma PassIsPruned(orig: Graph<EntrySchema>, after: Graph<EntrySchema>, inner: EntrySchema, g: Graph<string>,
                     goal: set<string>,
                     root: string, keep: map<string, bool>, visited: set<string>)
    requires Closed(g) && root in g && Leads(g, goal, root) && root in visited
    requires forall k :: Reaches(g, root, k) ==> (Kept(keep, k) <==> Leads(g, goal, k))
    requires Explored(KeptGraph(g, keep), {}, visited)
    requires forall k :: k in visited ==> Reaches(KeptGraph(g, keep), root, k)
    requires after.Keys == orig.Keys && forall n :: n in orig ==>
      && n.path in g && g[n.path] == Paths(orig[n])
      && after[n] == if n != inner && n.path in visited then KeptChildren(orig[n], keep) else orig[n]
    ensures after == PrunedNodes(orig, inner, g, goal, root)
  {
    forall n | n in orig ensures after[n] == PrunedNodes(orig, inner, g, goal, root)[n] {
      VisitedIsOnTheWay(g, goal, root, keep, visited, n.path);
      if OnTheWay(g, goal, root, n.path) { KeptIsOnward(g, goal, root, keep, n, orig[n]); }
    }
  }

  /** Prune: null exactly when nothing the root reaches satisfies p (and then nothing
      changes); otherwise the nodes on the way, all but `inner`, have lost, in place and keeping
      their order, exactly the children that lead nowhere. */
  method Prune(s: EntrySchema, p: EntrySchema -> bool,
               ghost nodes: set<EntrySchema>, ghost inner: EntrySchema, ghost g: Graph<string>, ghost goal: set<string>)
    returns (r: EntrySchema?)
    requires Outer(nodes, s, inner) && PathsApart(nodes, inner) && Shows(nodes, inner, p, g, goal)
    modifies nodes
    ensures r == null <==> !Leads(g, goal, s.path)
    ensures r == null ==> NodeGraph(nodes) == old(NodeGraph(nodes))
    ensures r != null ==> r == s && NodeGraph(nodes) == PrunedNodes(old(NodeGraph(nodes)), inner, g, goal, s.path)
  {
    hide Leads, Reaches, KeptChildren, KeptGraph, PrunedNodes, PathsApart, Closed;
    var keep := EvaluateNodesToKeep(s, p, nodes, inner, g, goal);
    ReachesSelf(g, s.path);
    if !Kept(keep, s.path) { return null; }
    ghost var orig := NodeGraph(nodes);
    ghost var k := KeptGraph(g, keep);
    KeptGraphFilters(nodes, orig, g, keep);
    var pruner := new Pruner();
    assert Progress(nodes, inner, orig, keep, {}, {});
    pruner.PruneNode(s, keep, nodes, inner, orig, k, {});
    PassIsPruned(orig, NodeGraph(nodes), inner, g, goal, s.path, keep, pruner.visited);
    return s;
  }
}
