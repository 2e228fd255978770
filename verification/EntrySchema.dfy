/** Nodes of an entry's stree (api/types/entrySchema.go). */
module EntrySchemas {
  import opened Graph

  class EntrySchema {
    const path: string
    const typeID: string
    const title: string
    var children: seq<EntrySchema>

    constructor (path: string, typeID: string, title: string)
      ensures this.path == path && this.typeID == typeID && this.title == title && children == []
    {
      this.path, this.typeID, this.title, children := path, typeID, title, [];
    }

    // A second node with the same fields and the same children.
    constructor Copy(from: EntrySchema)
      ensures path == from.path && typeID == from.typeID && title == from.title && children == from.children
    {
      path, typeID, title, children := from.path, from.typeID, from.title, from.children;
    }

    /** The first child with the given type ID, if any. */
    method GetChild(typeID: string) returns (r: EntrySchema?)
      ensures r == null <==> forall c :: c in children ==> c.typeID != typeID
      ensures r != null ==>
        exists i :: 0 <= i < |children| && r == children[i] && r.typeID == typeID && forall j :: 0 <= j < i ==>
          children[j].typeID != typeID
    {
      for i := 0 to |children|
        invariant forall j :: 0 <= j < i ==> children[j].typeID != typeID
      {
        if children[i].typeID == typeID { return children[i]; }
      }
      return null;
    }

    method SetChildren(children: seq<EntrySchema>)
      modifies this
      ensures this.children == children
    {
      this.children := children;
    }
  }

  function Paths(s: seq<EntrySchema>): (r: seq<string>)
    ensures |r| == |s| && forall i :: 0 <= i < |s| ==> r[i] == s[i].path
  {
    seq(|s|, i requires 0 <= i < |s| => s[i].path)
  }

  // A path names one node ("Path returns the unique path").
  ghost predicate UniquePaths(nodes: set<EntrySchema>) {
    forall m, n :: m in nodes && n in nodes && m.path == n.path ==> m == n
  }

  ghost function PathSet(nodes: set<EntrySchema>): set<string> {
    set n | n in nodes :: n.path
  }

  /** The stree as a graph over paths. */
  ghost function View(nodes: set<EntrySchema>): Graph<string>
    requires UniquePaths(nodes)
    reads nodes
  {
    map n | n in nodes :: n.path := Paths(n.children)
  }

  /*** Unfolding the type graph ***/

  datatype TypeSchema = TypeSchema(title: string, children: seq<string>)

  function TypeIDs(s: seq<EntrySchema>): (r: seq<string>)
    ensures |r| == |s| && forall i :: 0 <= i < |s| ==> r[i] == s[i].typeID
  {
    seq(|s|, i requires 0 <= i < |s| => s[i].typeID)
  }

  // Every label is non-empty, which unmarshalling checks, and every child is a key, which it does
  // not: a missing child is a failed type assertion.
  ghost predicate ClosedTypes(types: map<string, TypeSchema>) {
    forall t :: t in types ==> types[t].title != "" && forall c :: c in types[t].children ==> c in types
  }

  // Sibling types have distinct labels, and labels hold no separator.
  ghost predicate DistinctLabels(types: map<string, TypeSchema>) {
    && (forall t :: t in types ==> '/' !in types[t].title)
    && (forall t, i, j :: t in types && 0 <= i < j < |types[t].children| ==>
         var c, d := types[t].children[i], types[t].children[j];
         c in types && d in types ==> types[c].title != types[d].title)
  }

  // Every node of `made` carries its type's label and, in order, children of its type's
  // children types, found in `made` or among the ancestors outside it.
  ghost predicate Complete(types: map<string, TypeSchema>, made: set<EntrySchema>, outside: set<EntrySchema>)
    reads made
  {
    forall n :: n in made ==>
      && n.typeID in types
      && n.title == types[n.typeID].title
      && TypeIDs(n.children) == types[n.typeID].children
      && forall c :: c in n.children ==> c in made || c in outside
  }

  predicate Under(path: string, base: string) {
    base <= path && (|path| > |base| ==> path[|base|] == '/')
  }

  // A child lies at its parent's path, a slash and its label, unless it is the parent or one of its
  // ancestors.
  ghost predicate Placed(made: set<EntrySchema>)
    reads made
  {
    forall n, c :: n in made && c in n.children ==> PlacedBelow(n.path, c.path, c.title)
  }

  predicate PlacedBelow(parent: string, path: string, title: string) {
    path == parent + "/" + title || Under(parent, path)
  }

  lemma UnderFurther(path: string, title: string, base: string)
    requires path != "" && Under(path, base)
    ensures Under(NodePath(path, title), base) && Under(NodePath(path, title), NodePath(path, title))
  {
  }

  ghost predicate AllUnder(made: set<EntrySchema>, base: string) {
    forall n :: n in made ==> Under(n.path, base)
  }

  function ChildBase(types: map<string, TypeSchema>, t: string, base: string, j: nat): string
    requires t in types && j < |types[t].children| && types[t].children[j] in types
  {
    NodePath(base, types[types[t].children[j]].title)
  }

  // Each node of `made` lies under one of the first i children of a t-node at `base`.
  ghost predicate BelowFirst(types: map<string, TypeSchema>, t: string, made: set<EntrySchema>, base: string, i: nat)
    requires ClosedTypes(types) && t in types && i <= |types[t].children|
  {
    forall n :: n in made ==> exists j :: 0 <= j < i && Under(n.path, ChildBase(types, t, base, j))
  }

  // Two different labels without separators start disjoint branches.
  lemma BranchesDisjoint(path: string, base: string, a: string, b: string)
    requires base != "" && '/' !in a && '/' !in b
    requires Under(path, NodePath(base, a)) && Under(path, NodePath(base, b))
    ensures a == b
  {
    var rest := path[|base| + 1..];
    assert NodePath(base, a)[|base| + 1..] == a && NodePath(base, b)[|base| + 1..] == b;
    if |a| <= |b| { SegmentUnique(a, b, rest); } else { SegmentUnique(b, a, rest); }
  }

  lemma SegmentUnique(a: string, b: string, rest: string)
    requires a <= rest && b <= rest && |a| <= |b| && '/' !in b
    requires |a| < |rest| ==> rest[|a|] == '/'
    ensures a == b
  {
    assert forall i :: 0 <= i < |b| ==> b[i] == rest[i];
  }

  lemma BranchAdded(types: map<string, TypeSchema>, t: string, base: string, made: set<EntrySchema>,
                    sub: set<EntrySchema>, i: nat)
    requires ClosedTypes(types) && t in types && i < |types[t].children| && base != ""
    requires BelowFirst(types, t, made, base, i) && AllUnder(sub, ChildBase(types, t, base, i))
    ensures BelowFirst(types, t, made + sub, base, i + 1)
    ensures DistinctLabels(types) && UniquePaths(made) && UniquePaths(sub) ==> UniquePaths(made + sub)
  {
    if DistinctLabels(types) && UniquePaths(made) && UniquePaths(sub) {
      forall m, n | m in made && n in sub ensures m.path != n.path {
        var j :| 0 <= j < i && Under(m.path, ChildBase(types, t, base, j));
        if m.path == n.path {
          BranchesDisjoint(m.path, base, types[types[t].children[j]].title, types[types[t].children[i]].title);
        }
      }
    }
  }

  lemma RootAdded(types: map<string, TypeSchema>, t: string, made: set<EntrySchema>, node: EntrySchema, i: nat)
    requires ClosedTypes(types) && t in types && i <= |types[t].children| && node.path != ""
    requires BelowFirst(types, t, made, node.path, i)
    ensures AllUnder(made + {node}, node.path)
    ensures UniquePaths(made) ==> UniquePaths(made + {node})
  {
    forall n | n in made ensures Under(n.path, node.path) && n.path != node.path {
      var j :| 0 <= j < i && Under(n.path, ChildBase(types, t, node.path, j));
      assert node.path + "/" <= ChildBase(types, t, node.path, j) <= n.path;
      assert (node.path + "/")[|node.path|] == '/';
    }
  }

  lemma TypeIDsAppend(s: seq<EntrySchema>, c: EntrySchema, kids: seq<string>, i: nat)
    requires i < |kids| && TypeIDs(s) == kids[..i] && c.typeID == kids[i]
    ensures TypeIDs(s + [c]) == kids[..i + 1]
  {
    assert |s| == i;
    forall j | 0 <= j < i ensures (s + [c])[j].typeID == kids[j] {
      assert TypeIDs(s)[j] == s[j].typeID;
    }
  }

  lemma CompleteUnion(types: map<string, TypeSchema>, a: set<EntrySchema>, b: set<EntrySchema>,
                      outside: set<EntrySchema>)
    requires Complete(types, a, outside) && Complete(types, b, outside)
    ensures Complete(types, a + b, outside)
  {
  }

  lemma CompleteWithRoot(types: map<string, TypeSchema>, made: set<EntrySchema>, node: EntrySchema,
                         visited: map<string, EntrySchema>)
    requires Complete(types, made, visited[node.typeID := node].Values)
    requires node.typeID in types && node.title == types[node.typeID].title
    requires TypeIDs(node.children) == types[node.typeID].children
    requires forall c :: c in node.children ==> c in made || c in visited[node.typeID := node].Values
    requires node.typeID !in visited
    ensures Complete(types, made + {node}, visited.Values)
    ensures visited[node.typeID := node] - {node.typeID} == visited
  {
    assert forall c :: c in visited[node.typeID := node].Values ==> c == node || c in visited.Values;
  }

  lemma NothingMade(types: map<string, TypeSchema>, t: string, base: string, outside: set<EntrySchema>)
    requires ClosedTypes(types) && t in types
    ensures Complete(types, {}, outside) && BelowFirst(types, t, {}, base, 0) && UniquePaths({})
  {
  }

  class Unmarshaler {
    const types: map<string, TypeSchema>
    var visited: map<string, EntrySchema>

    constructor (types: map<string, TypeSchema>)
      ensures this.types == types && visited == map[]
    {
      this.types, visited := types, map[];
    }

    /** fillStree: the node for `typeID` below `path`, with its whole subtree, or the
        ancestor of that type (a back edge). */
    method FillStree(path: string, typeID: string) returns (node: EntrySchema, ghost made: set<EntrySchema>)
      requires ClosedTypes(types) && typeID in types
      requires forall t :: t in visited ==> visited[t].typeID == t
      requires forall t :: t in visited ==> path != "" && Under(path, visited[t].path)
      modifies this`visited
      ensures visited == old(visited) && node.typeID == typeID
      ensures if typeID in visited then node == visited[typeID] && made == {}
              else node in made && node.path == NodePath(path, types[typeID].title)
      ensures fresh(made) && Complete(types, made, visited.Values)
      ensures AllUnder(made, NodePath(path, types[typeID].title)) && Placed(made)
      ensures DistinctLabels(types) ==> UniquePaths(made)
      decreases types.Keys - visited.Keys, 0
    {
      if typeID in visited { return visited[typeID], {}; }
      var schema := types[typeID];
      node := new EntrySchema(NodePath(path, schema.title), typeID, schema.title);
      visited := visited[typeID := node];
      assert typeID in types.Keys - old(visited).Keys;
      forall t | t in visited ensures Under(node.path, visited[t].path) {
        if t != typeID { UnderFurther(path, schema.title, visited[t].path); }
      }
      made := FillChildren(node, typeID);
      assert fresh(made) && node !in made;
      ghost var all := made + {node};
      assert fresh(all);
      CompleteWithRoot(types, made, node, old(visited));
      RootAdded(types, typeID, made, node, |schema.children|);
      visited := visited - {typeID};
      made := all;
    }

    // The loop over the child types of a new node.
    method FillChildren(node: EntrySchema, typeID: string) returns (ghost made: set<EntrySchema>)
      requires ClosedTypes(types) && typeID in types && node.children == [] && node.path != ""
      requires forall t :: t in visited ==> visited[t].typeID == t
      requires typeID in visited && forall t :: t in visited ==> Under(node.path, visited[t].path)
      modifies this`visited, node
      ensures visited == old(visited)
      ensures TypeIDs(node.children) == types[typeID].children
      ensures fresh(made) && Complete(types, made, visited.Values)
      ensures forall c :: c in node.children ==> c in made || c in visited.Values
      ensures Placed(made) && forall c :: c in node.children ==> PlacedBelow(node.path, c.path, c.title)
      ensures BelowFirst(types, typeID, made, node.path, |types[typeID].children|)
      ensures DistinctLabels(types) ==> UniquePaths(made)
      decreases types.Keys - visited.Keys, 1
    {
      hide DistinctLabels, AllUnder, UniquePaths, BelowFirst, Complete;
      var kids := types[typeID].children;
      made := {};
      NothingMade(types, typeID, node.path, visited.Values);
      for i := 0 to |kids|
        invariant visited == old(visited)
        invariant TypeIDs(node.children) == kids[..i]
        invariant fresh(made) && Complete(types, made, visited.Values)
        invariant forall c :: c in node.children ==> c in made || c in visited.Values
        invariant BelowFirst(types, typeID, made, node.path, i)
        invariant DistinctLabels(types) ==> UniquePaths(made)
        invariant Placed(made) && forall c :: c in node.children ==> PlacedBelow(node.path, c.path, c.title)
      {
        var child, sub := FillStree(node.path, kids[i]);
        BranchAdded(types, typeID, node.path, made, sub, i);
        CompleteUnion(types, made, sub, visited.Values);
        made := made + sub;
        assert node !in made;
        TypeIDsAppend(node.children, child, kids, i);
        node.children := node.children + [child];
      }
    }
  }

  function NodePath(path: string, title: string): string {
    if |path| <= 0 then title else path + "/" + title
  }

  // What unmarshalling hands out: `s` is a copy of the node `inner` that was built for the first
  // type.  Edges back to the first type still lead to `inner`, so two nodes carry its path.
  ghost predicate Decoded(nodes: set<EntrySchema>, s: EntrySchema, inner: EntrySchema)
    reads nodes
  {
    && s in nodes && inner in nodes && s != inner
    && s.path == inner.path && s.typeID == inner.typeID && s.children == inner.children
    && (forall n, c :: n in nodes && c in n.children ==> c in nodes && c != s)
  }

  // A path names one node, apart from the first type's.
  ghost predicate PathsApart(nodes: set<EntrySchema>, inner: EntrySchema) {
    UniquePaths(nodes - {inner})
  }

  /** The decoded stree as a graph over paths. */
  lemma DecodedFacts(nodes: set<EntrySchema>, s: EntrySchema, inner: EntrySchema)
    requires Decoded(nodes, s, inner) && PathsApart(nodes, inner)
    ensures var g := View(nodes - {inner});
      && g.Keys == PathSet(nodes) && Closed(g)
      && forall n :: n in nodes ==> n.path in g && g[n.path] == Paths(n.children)
  {
    var g := View(nodes - {inner});
    forall n | n in nodes ensures n.path in g && g[n.path] == Paths(n.children) {
      assert (if n == inner then s else n) in nodes - {inner};
    }
    forall k, c | k in g && c in g[k] ensures c in g {
      var n :| n in nodes - {inner} && n.path == k;
      var i :| 0 <= i < |g[k]| && g[k][i] == c;
      assert n.children[i] in nodes && n.children[i].path == c;
    }
  }

  /** The stree of the type graph, rooted at its first type.  It is closed and complete, and
      paths are unique, apart from the root's, when sibling labels are. */
  method Unmarshal(types: map<string, TypeSchema>, rootID: string)
    returns (s: EntrySchema, ghost inner: EntrySchema, ghost nodes: set<EntrySchema>)
    requires ClosedTypes(types) && rootID in types
    ensures fresh(nodes) && Decoded(nodes, s, inner) && s.typeID == rootID && Complete(types, nodes, {})
    ensures s.path == types[rootID].title && Placed(nodes)
    ensures DistinctLabels(types) ==> PathsApart(nodes, inner)
  {
    var u := new Unmarshaler(types);
    var root, made := u.FillStree("", rootID);
    assert u.visited.Values == {};
    s := new EntrySchema.Copy(root);
    inner, nodes := root, made + {s};
    assert root in made && s !in made;
    CopyAdded(types, made, root, s);
  }

  lemma CopyAdded(types: map<string, TypeSchema>, made: set<EntrySchema>, root: EntrySchema, s: EntrySchema)
    requires Complete(types, made, {}) && root in made && s !in made
    requires s.path == root.path && s.typeID == root.typeID && s.title == root.title && s.children == root.children
    ensures Decoded(made + {s}, s, root) && Complete(types, made + {s}, {})
    ensures UniquePaths(made) ==> PathsApart(made + {s}, root)
  {
  }

  ghost function TypeGraph(types: map<string, TypeSchema>): Graph<string> {
    map t | t in types :: types[t].children
  }

  ghost function NodeGraph(nodes: set<EntrySchema>): Graph<EntrySchema>
    reads nodes
  {
    map n | n in nodes :: n.children
  }

  /** The stree and the type graph have the same walks of type IDs: every walk down the
      stree spells a walk of the type graph ... */
  lemma StreeWalkIsTypeWalk(types: map<string, TypeSchema>, nodes: set<EntrySchema>, w: seq<EntrySchema>)
    requires Complete(types, nodes, {}) && IsWalk(NodeGraph(nodes), w)
    ensures IsWalk(TypeGraph(types), TypeIDs(w))
  {
    var ids, g := TypeIDs(w), TypeGraph(types);
    forall i | 0 <= i < |ids| - 1 ensures ids[i] in g && ids[i + 1] in g[ids[i]] {
      assert w[i] in nodes && w[i + 1] in w[i].children;
      var j :| 0 <= j < |w[i].children| && w[i].children[j] == w[i + 1];
      assert TypeIDs(w[i].children)[j] == ids[i + 1];
    }
  }

  /** ... and every walk of the type graph is spelt by a walk down the stree. */
  lemma {:induction false} TypeWalkIsStreeWalk(types: map<string, TypeSchema>, nodes: set<EntrySchema>,
                                               root: EntrySchema, ids: seq<string>)
    returns (w: seq<EntrySchema>)
    requires Complete(types, nodes, {}) && root in nodes && IsWalk(TypeGraph(types), ids) && ids[0] == root.typeID
    ensures IsWalk(NodeGraph(nodes), w) && w[0] == root && TypeIDs(w) == ids
  {
    if |ids| == 1 {
      w := [root];
    } else {
      var init := ids[..|ids| - 1];
      var u := TypeWalkIsStreeWalk(types, nodes, root, init);
      var last := u[|u| - 1];
      assert TypeIDs(u)[|u| - 1] == last.typeID == ids[|ids| - 2];
      LastInNodes(types, nodes, u);
      assert ids[|ids| - 2 + 1] in TypeGraph(types)[ids[|ids| - 2]];
      var j :| 0 <= j < |types[last.typeID].children| && types[last.typeID].children[j] == ids[|ids| - 1];
      assert TypeIDs(last.children)[j] == last.children[j].typeID;
      w := u + [last.children[j]];
      assert TypeIDs(w) == TypeIDs(u) + [ids[|ids| - 1]] == ids;
      forall i | 0 <= i < |w| - 1 ensures w[i] in nodes && w[i + 1] in w[i].children {
        if i < |u| - 1 { assert u[i] in NodeGraph(nodes) && u[i + 1] in NodeGraph(nodes)[u[i]]; }
      }
    }
  }

  lemma LastInNodes(types: map<string, TypeSchema>, nodes: set<EntrySchema>, w: seq<EntrySchema>)
    requires Complete(types, nodes, {}) && IsWalk(NodeGraph(nodes), w)
    ensures w[|w| - 1] in nodes
  {
    if |w| > 1 {
      assert w[|w| - 2] in nodes && w[|w| - 2 + 1] in NodeGraph(nodes)[w[|w| - 2]];
    }
  }
}
