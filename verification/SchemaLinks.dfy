/** What an accepted schema graph says of the plugin's hierarchy (plugin/external/pluginEntry.go). */
module SchemaLinks {
  import opened Graph
  import opened LinkedMaps
  import opened Options
  import opened SchemaGraphs

  /** The label, methods and signals of a plugin's type come out as they went in, and its children
      are those the plugin listed, in order, under the keys of their types. */
  lemma NodesComeOut(cores: Cores, plugin: string, root: string, raw: map<string, Raw>,
                     graph: LinkedMap<string, Schema>, p: string)
    requires Acceptable(cores, root, raw) && AcceptedGraph(cores, plugin, root, raw, graph) && Apart(cores, raw)
    requires p in raw && p !in cores
    ensures p in RawLinks(cores, raw) && raw[p].Node? && raw[p].methods.Some? && Key(plugin, p) in graph.table
    ensures var n := graph.table[Key(plugin, p)];
      && n.name == raw[p].name && n.actions == raw[p].methods.value && n.signals == raw[p].signals
      && |n.children| == |raw[p].children|
      && forall i :: 0 <= i < |n.children| ==>
           var c := raw[p].children[i];
           n.children[i] == plugin + "::" + if c in cores then cores[c].typeID else c
    ensures LinksOf(graph.table)[Key(plugin, p)] == KeyAll(plugin, RawLinks(cores, raw)[p])
  {
    assert Fits(raw[p]) && Canonical(cores, p) == p;
    assert p in Populated(cores, raw.Keys);
    assert graph.table[Key(plugin, p)] == SchemaOf(cores, plugin, raw[p]);
  }

  /** A node of a core entry comes out with its own children, under their keys. */
  lemma CoreNodesComeOut(cores: Cores, plugin: string, root: string, raw: map<string, Raw>,
                         graph: LinkedMap<string, Schema>, id: string, n: string)
    requires AcceptedGraph(cores, plugin, root, raw, graph) && Apart(cores, raw)
    requires id in raw && id in cores && n in cores[id].graph.table
    ensures Key(plugin, n) in graph.table
    ensures LinksOf(graph.table)[Key(plugin, n)] == KeyAll(plugin, cores[id].graph.table[n].children)
  {
    assert graph.table[Key(plugin, n)] == Namespaced(plugin, cores[id].graph.table[n]);
  }

  /*** Reachability ***/

  // The key of a type of the plugin that root reaches, or of a node of a core entry it reaches.
  ghost predicate Tracks(cores: Cores, plugin: string, from: string, raw: map<string, Raw>, k: string) {
    || (exists p :: p in raw && p !in cores && k == Key(plugin, p) && Reaches(RawLinks(cores, raw), from, p))
    || (exists id, n :: CoreNode(cores, raw, id, n) && k == Key(plugin, n)
                        && Reaches(RawLinks(cores, raw), from, cores[id].typeID))
  }

  predicate CoreNode(cores: Cores, raw: map<string, Raw>, id: string, n: string) {
    id in raw && id in cores && n in cores[id].graph.table
  }

  // A described type is the plugin's own or the type of a core entry.
  lemma DescribedIs(cores: Cores, raw: map<string, Raw>, c: string)
    requires CoresClosed(cores) && c in Populated(cores, raw.Keys)
    ensures (c in raw && c !in cores) || exists id :: CoreNode(cores, raw, id, c) && cores[id].typeID == c
  {
    var id :| id in raw.Keys && c == Canonical(cores, id);
    if id in cores {
      assert CoreClosed(cores[id]);
      assert c in cores[id].graph.keys;
      assert CoreNode(cores, raw, id, c);
    }
  }

  lemma ReachedTracks(cores: Cores, plugin: string, from: string, raw: map<string, Raw>, c: string)
    requires CoresClosed(cores) && c in Populated(cores, raw.Keys) && Reaches(RawLinks(cores, raw), from, c)
    ensures Tracks(cores, plugin, from, raw, Key(plugin, c))
  {
    DescribedIs(cores, raw, c);
  }

  lemma OwnChildTracks(cores: Cores, plugin: string, root: string, from: string, raw: map<string, Raw>,
                       graph: LinkedMap<string, Schema>, p: string, c: string)
    requires CoresClosed(cores) && Acceptable(cores, root, raw) && Apart(cores, raw)
    requires AcceptedGraph(cores, plugin, root, raw, graph)
    requires p in raw && p !in cores && Reaches(RawLinks(cores, raw), from, p)
    requires Key(plugin, p) in graph.table && c in graph.table[Key(plugin, p)].children
    ensures Tracks(cores, plugin, from, raw, c)
  {
    NodesComeOut(cores, plugin, root, raw, graph, p);
    RawLinksClosed(cores, root, raw);
    var g := RawLinks(cores, raw);
    assert LinksOf(graph.table)[Key(plugin, p)] == graph.table[Key(plugin, p)].children;
    var i :| 0 <= i < |g[p]| && c == Key(plugin, g[p][i]);
    hide Acceptable, AcceptedGraph, Apart, Tracks;
    assert g[p][i] in g[p];
    ReachesChild(g, from, p, g[p][i]);
    ReachedTracks(cores, plugin, from, raw, g[p][i]);
  }

  lemma CoreChildTracks(cores: Cores, plugin: string, root: string, from: string, raw: map<string, Raw>,
                        graph: LinkedMap<string, Schema>, id: string, n: string, c: string)
    requires CoresClosed(cores) && AcceptedGraph(cores, plugin, root, raw, graph) && Apart(cores, raw)
    requires CoreNode(cores, raw, id, n) && Reaches(RawLinks(cores, raw), from, cores[id].typeID)
    requires Key(plugin, n) in graph.table && c in graph.table[Key(plugin, n)].children
    ensures Tracks(cores, plugin, from, raw, c)
  {
    CoreNodesComeOut(cores, plugin, root, raw, graph, id, n);
    assert CoreClosed(cores[id]);
    var kids := cores[id].graph.table[n].children;
    assert LinksOf(graph.table)[Key(plugin, n)] == graph.table[Key(plugin, n)].children;
    var i :| 0 <= i < |kids| && c == Key(plugin, kids[i]);
    assert kids[i] in kids;
    CoreHolds(cores[id], n, kids[i]);
    assert CoreNode(cores, raw, id, kids[i]);
  }

  lemma TracksClosed(cores: Cores, plugin: string, root: string, from: string, raw: map<string, Raw>,
                     graph: LinkedMap<string, Schema>, k: string, c: string)
    requires CoresClosed(cores) && Acceptable(cores, root, raw) && Apart(cores, raw)
    requires AcceptedGraph(cores, plugin, root, raw, graph)
    requires Tracks(cores, plugin, from, raw, k) && k in graph.table && c in graph.table[k].children
    ensures Tracks(cores, plugin, from, raw, c)
  {
    hide CoresClosed, Acceptable, Apart, AcceptedGraph;
    if p :| p in raw && p !in cores && k == Key(plugin, p) && Reaches(RawLinks(cores, raw), from, p) {
      OwnChildTracks(cores, plugin, root, from, raw, graph, p, c);
    } else {
      var id, n :| CoreNode(cores, raw, id, n) && k == Key(plugin, n)
        && Reaches(RawLinks(cores, raw), from, cores[id].typeID);
      CoreChildTracks(cores, plugin, root, from, raw, graph, id, n, c);
    }
  }

  // Of a described type the tracked key says that root reaches it.
  lemma TrackedIsReached(cores: Cores, plugin: string, from: string, raw: map<string, Raw>, p: string)
    requires CoresClosed(cores) && Apart(cores, raw) && p in Populated(cores, raw.Keys)
    requires Tracks(cores, plugin, from, raw, Key(plugin, p))
    ensures Reaches(RawLinks(cores, raw), from, p)
  {
    if q :| q in raw && q !in cores && Key(plugin, p) == Key(plugin, q) && Reaches(RawLinks(cores, raw), from, q) {
      KeyInjective(plugin, p, q);
    } else {
      var id, n :| CoreNode(cores, raw, id, n) && Key(plugin, p) == Key(plugin, n)
        && Reaches(RawLinks(cores, raw), from, cores[id].typeID);
      KeyInjective(plugin, p, n);
      DescribedIs(cores, raw, p);
      if !(p in raw && p !in cores) {
        var other :| CoreNode(cores, raw, other, p) && cores[other].typeID == p;
        assert other == id;
      }
    }
  }

  // A walk of types is a walk of their keys.
  lemma {:induction false} KeysWalk(cores: Cores, plugin: string, root: string, raw: map<string, Raw>,
                                    graph: LinkedMap<string, Schema>, w: seq<string>)
    requires Acceptable(cores, root, raw) && AcceptedGraph(cores, plugin, root, raw, graph) && Apart(cores, raw)
    requires IsWalk(RawLinks(cores, raw), w) && Key(plugin, w[0]) in graph.table
    ensures IsWalk(LinksOf(graph.table), KeyAll(plugin, w))
  {
    var g, h, u := RawLinks(cores, raw), LinksOf(graph.table), KeyAll(plugin, w);
    forall i | 0 <= i < |u| - 1 ensures u[i] in h && u[i + 1] in h[u[i]] {
      assert w[i] in g && w[i + 1] in g[w[i]];
      assert w[i] in raw && w[i] !in cores;
      NodesComeOut(cores, plugin, root, raw, graph, w[i]);
      var j :| 0 <= j < |g[w[i]]| && g[w[i]][j] == w[i + 1];
      assert KeyAll(plugin, g[w[i]])[j] == u[i + 1];
    }
  }

  /** In an accepted graph without clashes the key of the entry's own type reaches exactly the keys of
      the types that this type reaches in what the plugin printed. */
  lemma HierarchyComesOut(cores: Cores, plugin: string, root: string, raw: map<string, Raw>,
                          graph: LinkedMap<string, Schema>, p: string)
    requires CoresClosed(cores) && Acceptable(cores, root, raw) && Apart(cores, raw)
    requires AcceptedGraph(cores, plugin, root, raw, graph) && p in Populated(cores, raw.Keys)
    ensures var from := Canonical(cores, root);
      Reaches(LinksOf(graph.table), Key(plugin, from), Key(plugin, p)) <==> Reaches(RawLinks(cores, raw), from, p)
  {
    var from := Canonical(cores, root);
    RootIsThere(cores, plugin, root, raw, graph);
    if Reaches(RawLinks(cores, raw), from, p) {
      var w :| IsWalk(RawLinks(cores, raw), w) && w[0] == from && w[|w| - 1] == p;
      KeysWalk(cores, plugin, root, raw, graph, w);
    }
    if Reaches(LinksOf(graph.table), Key(plugin, from), Key(plugin, p)) {
      TracksAll(cores, plugin, root, from, raw, graph, Key(plugin, p));
      TrackedIsReached(cores, plugin, from, raw, p);
    }
  }

  lemma RootIsThere(cores: Cores, plugin: string, root: string, raw: map<string, Raw>,
                    graph: LinkedMap<string, Schema>)
    requires Acceptable(cores, root, raw) && AcceptedGraph(cores, plugin, root, raw, graph)
    ensures var from := Canonical(cores, root);
      Key(plugin, from) in graph.table && from in Populated(cores, raw.Keys) && from in RawLinks(cores, raw)
  {
    assert graph.keys[0] in graph.keys;
  }

  lemma TracksAll(cores: Cores, plugin: string, root: string, from: string, raw: map<string, Raw>,
                  graph: LinkedMap<string, Schema>, k: string)
    requires CoresClosed(cores) && Acceptable(cores, root, raw) && Apart(cores, raw)
    requires AcceptedGraph(cores, plugin, root, raw, graph) && from == Canonical(cores, root)
    requires Reaches(LinksOf(graph.table), Key(plugin, from), k)
    ensures Tracks(cores, plugin, from, raw, k)
  {
    RootIsThere(cores, plugin, root, raw, graph);
    ReachesSelf(RawLinks(cores, raw), from);
    ReachedTracks(cores, plugin, from, raw, from);
    hide CoresClosed, Acceptable, Apart, AcceptedGraph, Tracks;
    var w :| IsWalk(LinksOf(graph.table), w) && w[0] == Key(plugin, from) && w[|w| - 1] == k;
    TrackedWalk(cores, plugin, root, from, raw, graph, w, |w| - 1);
  }

  lemma {:induction false} TrackedWalk(cores: Cores, plugin: string, root: string, from: string, raw: map<string, Raw>,
                                       graph: LinkedMap<string, Schema>, w: seq<string>, i: nat)
    requires CoresClosed(cores) && Acceptable(cores, root, raw) && Apart(cores, raw)
    requires AcceptedGraph(cores, plugin, root, raw, graph)
    requires IsWalk(LinksOf(graph.table), w) && i < |w| && Tracks(cores, plugin, from, raw, w[0])
    ensures Tracks(cores, plugin, from, raw, w[i])
  {
    hide CoresClosed, Acceptable, Apart, AcceptedGraph, Tracks;
    if i > 0 {
      TrackedWalk(cores, plugin, root, from, raw, graph, w, i - 1);
      assert w[i - 1] in LinksOf(graph.table) && w[i - 1 + 1] in LinksOf(graph.table)[w[i - 1]];
      TracksClosed(cores, plugin, root, from, raw, graph, w[i - 1], w[i]);
    }
  }

  /*** What is refused ***/

  /** A schema is not accepted if one of the plugin's types is no object, has no label or no methods,
      has children without a list method or the other way round, signals without a signal method or
      the other way round, or a metadata schema that is not an object's. */
  lemma Misfits(cores: Cores, root: string, raw: map<string, Raw>, id: string)
    requires id in raw && id !in cores
    requires
      var n := raw[id];
      || !n.Node? || n.name == "" || n.methods.None?
      || ("list" in n.methods.value && n.children == []) || ("list" !in n.methods.value && n.children != [])
      || ("signal" in n.methods.value && n.signals == []) || ("signal" !in n.methods.value && n.signals != [])
      || (n.partialMetadata.Some? && n.partialMetadata.value != "object")
      || (n.metadata.Some? && n.metadata.value != "object")
    ensures !Acceptable(cores, root, raw)
  {
  }

  /** Nor if a child of one of them is not described, or a described type other than the entry's own is
      a child of none. */
  lemma Dangling(cores: Cores, root: string, raw: map<string, Raw>, c: string)
    requires c !in cores
    requires (exists id :: id in raw && id !in cores && raw[id].Node? && c in raw[id].children) != (c in raw)
    requires c != root && forall id :: id in cores ==> cores[id].typeID != c
    ensures !Acceptable(cores, root, raw)
  {
    assert Canonical(cores, c) == c;
    if c in raw {
      assert c in Populated(cores, raw.Keys);
    } else {
      var id :| id in raw && id !in cores && raw[id].Node? && c in raw[id].children;
      assert c in Required(cores, root, raw, raw.Keys);
    }
  }

  /** The smallest hierarchy is accepted: a directory of one file. */
  lemma SmallestAccepted()
    ensures var dir := Node("dir", Some(["list"]), ["file"], [], None, None);
      var file := Node("file", Some(["read"]), [], [], None, None);
      Acceptable(map[], "dir", map["dir" := dir, "file" := file])
  {
    var dir := Node("dir", Some(["list"]), ["file"], [], None, None);
    var file := Node("file", Some(["read"]), [], [], None, None);
    var raw := map["dir" := dir, "file" := file];
    assert |"list"| == 4 && |"read"| == 4 && |"signal"| == 6 && "list"[0] != "read"[0];
    assert "dir" != "file" && "list" != "read" by { assert |"dir"| != |"file"|; }
    assert "list" in ["list"] && "signal" !in ["list"] && "list" !in ["read"] && "signal" !in ["read"];
    assert Fits(dir) && Fits(file);
    assert Populated(map[], raw.Keys) == {"dir", "file"} == Required(map[], "dir", raw, raw.Keys) by {
      assert "file" in dir.children && dir.children == ["file"] && file.children == [];
      assert raw["dir"] == dir && raw["file"] == file;
    }
  }
}
