/** Validation and partition of the schema graph an external plugin prints
    (plugin/external/pluginEntry.go, plugin/external/pluginRoot.go). */
module SchemaGraphs {
  import opened Graph
  import opened LinkedMaps
  import opened Options

  // A node of the decoded JSON object. Wrong stands for a value that is not an object, or that
  // does not decode; methods are missing when the field is null, metadata types when no schema
  // is given.
  datatype Raw =
    | Null
    | Wrong
    | Node(name: string, methods: Option<seq<string>>, children: seq<string>, signals: seq<string>,
           partialMetadata: Option<string>, metadata: Option<string>)

  // A node of the resulting graph.
  datatype Schema = Schema(name: string, actions: seq<string>, children: seq<string>, signals: seq<string>)

  // A core entry: its type ID and its own schema graph.
  datatype Core = Core(typeID: string, graph: LinkedMap<string, Schema>)

  type Cores = map<string, Core>

  function Key(plugin: string, id: string): string { plugin + "::" + id }

  function KeyIn(plugin: string): string -> string { id => Key(plugin, id) }

  function Canonical(cores: Cores, id: string): string { if id in cores then cores[id].typeID else id }

  function CanonicalAll(cores: Cores, ids: seq<string>): (r: seq<string>)
    ensures |r| == |ids| && forall i :: 0 <= i < |ids| ==> r[i] == Canonical(cores, ids[i])
  {
    seq(|ids|, i requires 0 <= i < |ids| => Canonical(cores, ids[i]))
  }

  function KeyAll(plugin: string, ids: seq<string>): (r: seq<string>)
    ensures |r| == |ids| && forall i :: 0 <= i < |ids| ==> r[i] == Key(plugin, ids[i])
  {
    seq(|ids|, i requires 0 <= i < |ids| => Key(plugin, ids[i]))
  }

  lemma KeyInInjective(plugin: string)
    ensures Injective(KeyIn(plugin))
  {
    forall a, b | KeyIn(plugin)(a) == KeyIn(plugin)(b) ensures a == b { KeyInjective(plugin, a, b); }
  }

  lemma KeyInjective(plugin: string, a: string, b: string)
    requires Key(plugin, a) == Key(plugin, b)
    ensures a == b
  {
    var n := |plugin + "::"|;
    assert Key(plugin, a)[n..] == a && Key(plugin, b)[n..] == b;
  }

  predicate Lists(raw: Raw) { raw.Node? && raw.methods.Some? && "list" in raw.methods.value }

  predicate Signals(raw: Raw) { raw.Node? && raw.methods.Some? && "signal" in raw.methods.value }

  /** What is required of one node: a label and methods, children exactly for parents, signals
      exactly for the signalable, object schemas for metadata. */
  predicate Fits(raw: Raw) {
    && raw.Node? && raw.name != "" && raw.methods.Some?
    && (Lists(raw) <==> raw.children != [])
    && (Signals(raw) <==> raw.signals != [])
    && (raw.partialMetadata.Some? ==> raw.partialMetadata.value == "object")
    && (raw.metadata.Some? ==> raw.metadata.value == "object")
  }

  function SchemaOf(cores: Cores, plugin: string, raw: Raw): Schema
    requires Fits(raw)
  {
    Schema(raw.name, raw.methods.value, KeyAll(plugin, CanonicalAll(cores, raw.children)), raw.signals)
  }

  function Namespaced(plugin: string, s: Schema): Schema {
    s.(children := KeyAll(plugin, s.children))
  }

  // A core entry's graph with the children of every node namespaced; its keys are still raw.
  function NamespacedGraph(plugin: string, g: LinkedMap<string, Schema>): (r: LinkedMap<string, Schema>)
    ensures g.Valid() ==> r.Valid()
    ensures r.keys == g.keys && r.table.Keys == g.table.Keys
  {
    LinkedMap(g.keys, map k | k in g.table :: Namespaced(plugin, g.table[k]))
  }

  function LinksOf(table: map<string, Schema>): Graph<string> {
    map k | k in table :: table[k].children
  }

  // The graphs that core entries bring along start with the entry and hold all children.
  ghost predicate CoresClosed(cores: Cores) {
    forall id :: id in cores ==> CoreClosed(cores[id])
  }

  ghost predicate CoreClosed(core: Core) {
    && core.graph.Valid() && Closed(LinksOf(core.graph.table))
    && core.graph.keys != [] && core.graph.keys[0] == core.typeID
  }

  /*** What acceptance means ***/

  // The types that are described, and those that are asked for: the entry's own and all children.
  function Populated(cores: Cores, ids: set<string>): set<string> {
    set id | id in ids :: Canonical(cores, id)
  }

  function Required(cores: Cores, root: string, raw: map<string, Raw>, ids: set<string>): set<string> {
    {root} + set id, c | id in ids && id in raw && id !in cores && raw[id].Node?
        && c in raw[id].children :: Canonical(cores, c)
  }

  ghost predicate AllFit(cores: Cores, raw: map<string, Raw>, ids: set<string>) {
    forall id :: id in ids && id in raw && id !in cores ==> Fits(raw[id])
  }

  /** Every node fits, every type that is asked for is described, and every described type is
      asked for. */
  ghost predicate Acceptable(cores: Cores, root: string, raw: map<string, Raw>) {
    && root in raw && !raw[root].Null?
    && AllFit(cores, raw, raw.Keys)
    && Populated(cores, raw.Keys) == Required(cores, root, raw, raw.Keys)
  }

  // No plugin type has the ID of a node that a core entry brings, and no two core entries share
  // one.
  ghost predicate Apart(cores: Cores, raw: map<string, Raw>) {
    && (forall id, n :: id in cores && n in cores[id].graph.table ==> n !in raw || n in cores)
    && (forall a, b, n :: a in cores && b in cores && n in cores[a].graph.table && n in cores[b].graph.table ==> a == b)
  }

  /*** The state while nodes are put ***/

  // Each node put so far is in the graph, and nothing is there that was not put.
  ghost predicate HasNodes(cores: Cores, plugin: string, raw: map<string, Raw>, done: set<string>,
                           table: map<string, Schema>) {
    && HasOrdinary(cores, plugin, raw, done, table)
    && HasCores(cores, plugin, done, table)
    && forall k :: k in table ==> Explained(cores, plugin, done, k)
  }

  ghost predicate HasOrdinary(cores: Cores, plugin: string, raw: map<string, Raw>, done: set<string>,
                              table: map<string, Schema>) {
    forall id :: id in done && id in raw && id !in cores && Fits(raw[id]) ==>
      Key(plugin, id) in table && table[Key(plugin, id)] == SchemaOf(cores, plugin, raw[id])
  }

  ghost predicate HasCores(cores: Cores, plugin: string, done: set<string>, table: map<string, Schema>) {
    forall id, n :: id in done && id in cores && n in cores[id].graph.table ==>
      Key(plugin, n) in table && table[Key(plugin, n)] == Namespaced(plugin, cores[id].graph.table[n])
  }

  ghost predicate Explained(cores: Cores, plugin: string, done: set<string>, k: string) {
    || (exists id :: id in done && id !in cores && k == Key(plugin, id))
    || (exists id, n :: id in done && id in cores && n in cores[id].graph.table && k == Key(plugin, n))
  }

  ghost predicate Expected(plugin: string, required: set<string>, table: map<string, Schema>, c: string) {
    c in table || exists r :: r in required && c == Key(plugin, r)
  }

  ghost predicate ChildrenExpected(plugin: string, required: set<string>, table: map<string, Schema>) {
    forall k, c :: k in table && c in table[k].children ==> Expected(plugin, required, table, c)
  }

  ghost predicate KeysPresent(plugin: string, populated: set<string>, table: map<string, Schema>) {
    forall p :: p in populated ==> Key(plugin, p) in table
  }

  /** Once everything asked for is described, the graph holds the children of all its nodes. */
  lemma CompleteIsClosed(plugin: string, populated: set<string>, required: set<string>, table: map<string, Schema>)
    requires ChildrenExpected(plugin, required, table) && KeysPresent(plugin, populated, table) && required <= populated
    ensures Closed(LinksOf(table))
  {
    var g := LinksOf(table);
    forall n, c | n in g && c in g[n] ensures c in g { assert Expected(plugin, required, table, c); }
  }

  datatype Build = Build(graph: LinkedMap<string, Schema>, populated: set<string>, required: set<string>)

  // The state after the node `id`, which is a core entry or fits.
  function WithNode(cores: Cores, plugin: string, raw: Raw, b: Build, id: string): Build
    requires id in cores ==> forall k :: k in cores[id].graph.keys ==> k in cores[id].graph.table
    requires id !in cores ==> Fits(raw)
  {
    if id in cores then
      var core := cores[id];
      if core.typeID in b.populated then b
      else b.(graph := PutAll(b.graph, KeyIn(plugin), NamespacedGraph(plugin, core.graph), |core.graph.keys|),
              populated := b.populated + {core.typeID})
    else
      Build(b.graph.Put(Key(plugin, id), SchemaOf(cores, plugin, raw)), b.populated + {id},
            b.required + set c | c in raw.children :: Canonical(cores, c))
  }

  class SchemaGraphBuilder {
    const cores: Cores
    const plugin: string
    var graph: LinkedMap<string, Schema>
    var populated: set<string>
    var required: set<string>

    function State(): Build
      reads this
    {
      Build(graph, populated, required)
    }

    constructor (cores: Cores, plugin: string, root: string)
      ensures this.cores == cores && this.plugin == plugin
      ensures State() == Build(LinkedMap([], map[]), {}, {root})
    {
      this.cores, this.plugin := cores, plugin;
      graph, populated, required := LinkedMap([], map[]), {}, {root};
    }

    method PutCore(id: string)
      requires id in cores && cores[id].graph.Valid()
      modifies this
      ensures State() == WithNode(cores, plugin, Null, old(State()), id)
    {
      var core := cores[id];
      if core.typeID in populated { return; }
      for i := 0 to |core.graph.keys|
        invariant graph == PutAll(old(graph), KeyIn(plugin), NamespacedGraph(plugin, core.graph), i)
        invariant populated == old(populated) && required == old(required)
      {
        var n := core.graph.keys[i];
        var schema := core.graph.table[n];
        var children := NamespacedChildren(schema.children);
        graph := graph.Put(Key(plugin, n), schema.(children := children));
      }
      populated := populated + {core.typeID};
    }

    method NamespacedChildren(ids: seq<string>) returns (r: seq<string>)
      ensures r == KeyAll(plugin, ids)
    {
      r := [];
      for i := 0 to |ids|
        invariant |r| == i && forall j :: 0 <= j < i ==> r[j] == Key(plugin, ids[j])
      {
        r := r + [Key(plugin, ids[i])];
      }
    }

    method RequireChildren(ids: seq<string>) returns (r: seq<string>)
      modifies this`required
      ensures r == KeyAll(plugin, CanonicalAll(cores, ids))
      ensures required == old(required) + set c | c in ids :: Canonical(cores, c)
    {
      r := [];
      for i := 0 to |ids|
        invariant |r| == i && forall j :: 0 <= j < i ==> r[j] == Key(plugin, Canonical(cores, ids[j]))
        invariant required == old(required) + set c | c in ids[..i] :: Canonical(cores, c)
      {
        var child := ids[i];
        if child in cores { child := cores[child].typeID; }
        assert ids[..i + 1] == ids[..i] + [ids[i]];
        required := required + {child};
        r := r + [Key(plugin, child)];
      }
      assert ids[..|ids|] == ids;
    }

    // False is the validation error.
    method PutNode(id: string, raw: Raw) returns (ok: bool)
      requires id in cores ==> cores[id].graph.Valid()
      modifies this
      ensures ok <==> id in cores || Fits(raw)
      ensures ok ==> State() == WithNode(cores, plugin, raw, old(State()), id)
    {
      if id in cores {
        PutCore(id);
        return true;
      }
      if !raw.Node? { return false; }
      populated := populated + {id};
      if |raw.name| == 0 || raw.methods.None? { return false; }
      var isParent, isSignalable := "list" in raw.methods.value, "signal" in raw.methods.value;
      if !isParent && |raw.children| > 0 { return false; }
      var children := [];
      if isParent {
        if |raw.children| == 0 { return false; }
        children := RequireChildren(raw.children);
      }
      if !isSignalable && |raw.signals| > 0 { return false; }
      if isSignalable && |raw.signals| == 0 { return false; }
      if raw.partialMetadata.Some? && raw.partialMetadata.value != "object" { return false; }
      if raw.metadata.Some? && raw.metadata.value != "object" { return false; }
      graph := graph.Put(Key(plugin, id), Schema(raw.name, raw.methods.value, children, raw.signals));
      return true;
    }
  }

  /*** One node ***/

  // The part of the state that acceptance depends on.
  ghost predicate Sound(plugin: string, first: string, b: Build) {
    && b.graph.Valid()
    && b.graph.keys != [] && b.graph.keys[0] == Key(plugin, first)
    && KeysPresent(plugin, b.populated, b.graph.table)
    && ChildrenExpected(plugin, b.required, b.graph.table)
  }

  ghost predicate Empty(b: Build) {
    b.graph == LinkedMap([], map[]) && b.populated == {}
  }

  lemma CoreSound(cores: Cores, plugin: string, first: string, b: Build, id: string)
    requires id in cores && CoreClosed(cores[id])
    requires Sound(plugin, first, b) || (Empty(b) && first == cores[id].typeID)
    ensures Sound(plugin, first, WithNode(cores, plugin, Null, b, id))
  {
    var core := cores[id];
    if core.typeID !in b.populated {
      var named, n := NamespacedGraph(plugin, core.graph), |core.graph.keys|;
      KeyInInjective(plugin);
      PutAllValid(b.graph, KeyIn(plugin), named, n);
      PutAllMerges(b.graph, KeyIn(plugin), named, n);
      MergedSound(b, plugin, core, PutAll(b.graph, KeyIn(plugin), named, n).table);
    }
  }

  lemma MergedSound(b: Build, plugin: string, core: Core, r: map<string, Schema>)
    requires CoreClosed(core) && ChildrenExpected(plugin, b.required, b.graph.table)
    requires KeysPresent(plugin, b.populated, b.graph.table)
    requires var n, named := |core.graph.keys|, NamespacedGraph(plugin, core.graph);
      MergedHas(KeyIn(plugin), named, n, r) && MergedOnly(b.graph.table, KeyIn(plugin), named, n, r)
    ensures KeysPresent(plugin, b.populated + {core.typeID}, r) && ChildrenExpected(plugin, b.required, r)
  {
    var named := NamespacedGraph(plugin, core.graph);
    assert KeyIn(plugin)(named.keys[0]) in r;
    forall k, c | k in r && c in r[k].children ensures Expected(plugin, b.required, r, c) {
      MergedChild(b, plugin, core, r, k, c);
    }
  }

  lemma MergedChild(b: Build, plugin: string, core: Core, r: map<string, Schema>, k: string, c: string)
    requires CoreClosed(core) && ChildrenExpected(plugin, b.required, b.graph.table)
    requires var n, named := |core.graph.keys|, NamespacedGraph(plugin, core.graph);
      MergedHas(KeyIn(plugin), named, n, r) && MergedOnly(b.graph.table, KeyIn(plugin), named, n, r)
    requires k in r && c in r[k].children
    ensures Expected(plugin, b.required, r, c)
  {
    hide Distinct, Closed;
    var named := NamespacedGraph(plugin, core.graph);
    if Renamed(KeyIn(plugin), named, |named.keys|, k) {
      var j :| 0 <= j < |named.keys| && k == KeyIn(plugin)(named.keys[j]);
      assert r[k] == named.table[named.keys[j]];
      CoreChild(core, plugin, named.keys[j], c, r);
    } else {
      assert Expected(plugin, b.required, b.graph.table, c);
    }
  }

  lemma CoreChild(core: Core, plugin: string, n: string, c: string, r: map<string, Schema>)
    requires CoreClosed(core) && n in core.graph.table
    requires MergedHas(KeyIn(plugin), NamespacedGraph(plugin, core.graph), |core.graph.keys|, r)
    requires c in Namespaced(plugin, core.graph.table[n]).children
    ensures c in r
  {
    var children := core.graph.table[n].children;
    var i :| 0 <= i < |KeyAll(plugin, children)| && KeyAll(plugin, children)[i] == c;
    CoreHolds(core, n, children[i]);
    var named := NamespacedGraph(plugin, core.graph);
    var h :| 0 <= h < |named.keys| && named.keys[h] == children[i];
    assert c == KeyIn(plugin)(named.keys[h]);
  }

  lemma CoreHolds(core: Core, n: string, c: string)
    requires CoreClosed(core) && n in core.graph.table && c in core.graph.table[n].children
    ensures c in core.graph.keys
  {
    var links := LinksOf(core.graph.table);
    assert links[n] == core.graph.table[n].children && c in links[n];
    assert c in links;
    assert c in core.graph.table;
  }

  lemma OrdinarySound(cores: Cores, plugin: string, first: string, raw: Raw, b: Build, id: string)
    requires id !in cores && Fits(raw) && (Sound(plugin, first, b) || (Empty(b) && first == id))
    ensures Sound(plugin, first, WithNode(cores, plugin, raw, b, id))
  {
    var r := WithNode(cores, plugin, raw, b, id);
    forall k, c | k in r.graph.table && c in r.graph.table[k].children
        ensures Expected(plugin, r.required, r.graph.table, c) {
      if k == Key(plugin, id) {
        var ids := CanonicalAll(cores, raw.children);
        var i :| 0 <= i < |KeyAll(plugin, ids)| && KeyAll(plugin, ids)[i] == c;
        assert raw.children[i] in raw.children && ids[i] in r.required;
        assert c == Key(plugin, ids[i]);
      } else {
        assert Expected(plugin, b.required, b.graph.table, c);
      }
    }
  }

  // Without clashes the graph holds just the nodes put.
  lemma CoreNodes(cores: Cores, plugin: string, raw: map<string, Raw>, b: Build, done: set<string>, id: string)
    requires id in cores && id !in done && done <= raw.Keys && CoresClosed(cores) && Apart(cores, raw)
    requires b.graph.Valid()
    requires b.populated == Populated(cores, done) && HasNodes(cores, plugin, raw, done, b.graph.table)
    ensures HasNodes(cores, plugin, raw, done + {id}, WithNode(cores, plugin, Null, b, id).graph.table)
  {
    assert CoreClosed(cores[id]);
    CoreNotYet(cores, raw, done, id);
    var named := NamespacedGraph(plugin, cores[id].graph);
    KeyInInjective(plugin);
    PutAllMerges(b.graph, KeyIn(plugin), named, |named.keys|);
    MergedNodes(cores, plugin, raw, done, id, b.graph.table, PutAll(b.graph, KeyIn(plugin), named, |named.keys|).table);
  }

  // The graph of core entry `id` has been merged into `before`.
  ghost predicate Merged(cores: Cores, plugin: string, id: string, before: map<string, Schema>,
                         t: map<string, Schema>) {
    && id in cores && cores[id].graph.Valid()
    && var core := NamespacedGraph(plugin, cores[id].graph);
    && MergedHas(KeyIn(plugin), core, |core.keys|, t) && MergedOnly(before, KeyIn(plugin), core, |core.keys|, t)
  }

  lemma MergedNodes(cores: Cores, plugin: string, raw: map<string, Raw>, done: set<string>, id: string,
                    before: map<string, Schema>, t: map<string, Schema>)
    requires id !in done && done <= raw.Keys && Merged(cores, plugin, id, before, t) && Apart(cores, raw)
    requires HasNodes(cores, plugin, raw, done, before)
    ensures HasNodes(cores, plugin, raw, done + {id}, t)
  {
    MergedOrdinary(cores, plugin, raw, done, id, before, t);
    MergedCores(cores, plugin, raw, done, id, before, t);
    forall k | k in t ensures Explained(cores, plugin, done + {id}, k) {
      MergedExplained(cores, plugin, done, id, before, t, k);
    }
  }

  lemma MergedOrdinary(cores: Cores, plugin: string, raw: map<string, Raw>, done: set<string>, id: string,
                       before: map<string, Schema>, t: map<string, Schema>)
    requires done <= raw.Keys && Merged(cores, plugin, id, before, t) && Apart(cores, raw)
    requires HasOrdinary(cores, plugin, raw, done, before)
    ensures HasOrdinary(cores, plugin, raw, done + {id}, t)
  {
    forall x | x in done && x in raw && x !in cores && Fits(raw[x])
      ensures Key(plugin, x) in t && t[Key(plugin, x)] == SchemaOf(cores, plugin, raw[x])
    {
      NotMerged(plugin, NamespacedGraph(plugin, cores[id].graph), x);
    }
  }

  lemma MergedCores(cores: Cores, plugin: string, raw: map<string, Raw>, done: set<string>, id: string,
                    before: map<string, Schema>, t: map<string, Schema>)
    requires id !in done && Merged(cores, plugin, id, before, t) && Apart(cores, raw)
    requires HasCores(cores, plugin, done, before)
    ensures HasCores(cores, plugin, done + {id}, t)
  {
    var core := NamespacedGraph(plugin, cores[id].graph);
    forall x, m | x in done + {id} && x in cores && m in cores[x].graph.table
      ensures Key(plugin, m) in t && t[Key(plugin, m)] == Namespaced(plugin, cores[x].graph.table[m])
    {
      if x == id {
        MergedNode(plugin, core, m, t);
      } else {
        assert m !in core.table;
        NotMerged(plugin, core, m);
      }
    }
  }

  lemma MergedExplained(cores: Cores, plugin: string, done: set<string>, id: string, before: map<string, Schema>,
                        t: map<string, Schema>, k: string)
    requires Merged(cores, plugin, id, before, t) && k in t && (k in before ==> Explained(cores, plugin, done, k))
    ensures Explained(cores, plugin, done + {id}, k)
  {
    var core := NamespacedGraph(plugin, cores[id].graph);
    if Renamed(KeyIn(plugin), core, |core.keys|, k) {
      var j :| 0 <= j < |core.keys| && k == KeyIn(plugin)(core.keys[j]);
      assert id in done + {id} && core.keys[j] in cores[id].graph.table;
    } else {
      StillExplained(cores, plugin, done, id, k);
    }
  }

  lemma MergedNode(plugin: string, core: LinkedMap<string, Schema>, m: string, t: map<string, Schema>)
    requires core.Valid() && m in core.table && MergedHas(KeyIn(plugin), core, |core.keys|, t)
    ensures Key(plugin, m) in t && t[Key(plugin, m)] == core.table[m]
  {
    var j :| 0 <= j < |core.keys| && core.keys[j] == m;
    assert KeyIn(plugin)(core.keys[j]) in t;
  }

  lemma StillExplained(cores: Cores, plugin: string, done: set<string>, id: string, k: string)
    requires Explained(cores, plugin, done, k)
    ensures Explained(cores, plugin, done + {id}, k)
  {
    if x :| x in done && x !in cores && k == Key(plugin, x) {
      assert x in done + {id};
    } else {
      var x, n :| x in done && x in cores && n in cores[x].graph.table && k == Key(plugin, n);
      assert x in done + {id};
    }
  }

  lemma NotMerged(plugin: string, core: LinkedMap<string, Schema>, x: string)
    requires core.Valid() && x !in core.table
    ensures !Renamed(KeyIn(plugin), core, |core.keys|, Key(plugin, x))
  {
    if j :| 0 <= j < |core.keys| && Key(plugin, x) == KeyIn(plugin)(core.keys[j]) {
      KeyInjective(plugin, x, core.keys[j]);
    }
  }

  lemma CoreNotYet(cores: Cores, raw: map<string, Raw>, done: set<string>, id: string)
    requires id in cores && id !in done && done <= raw.Keys && CoresClosed(cores) && Apart(cores, raw)
    ensures cores[id].typeID !in Populated(cores, done)
  {
    var t := cores[id].typeID;
    assert CoreClosed(cores[id]);
    assert t in cores[id].graph.keys && t in cores[id].graph.table;
    forall x | x in done ensures Canonical(cores, x) != t {
      if x in cores { assert cores[x].typeID in cores[x].graph.keys by { assert CoreClosed(cores[x]); } }
    }
  }

  lemma OrdinaryNodes(cores: Cores, plugin: string, raw: map<string, Raw>, b: Build, done: set<string>, id: string)
    requires id in raw && id !in cores && Fits(raw[id]) && done <= raw.Keys && Apart(cores, raw)
    requires HasNodes(cores, plugin, raw, done, b.graph.table)
    ensures HasNodes(cores, plugin, raw, done + {id}, WithNode(cores, plugin, raw[id], b, id).graph.table)
  {
    var t := WithNode(cores, plugin, raw[id], b, id).graph.table;
    forall x | x in done + {id} && x in raw && x !in cores && Fits(raw[x])
      ensures Key(plugin, x) in t && t[Key(plugin, x)] == SchemaOf(cores, plugin, raw[x])
    {
      if Key(plugin, x) == Key(plugin, id) { KeyInjective(plugin, x, id); }
    }
    forall x, m | x in done + {id} && x in cores && m in cores[x].graph.table
      ensures Key(plugin, m) in t && t[Key(plugin, m)] == Namespaced(plugin, cores[x].graph.table[m])
    {
      if Key(plugin, m) == Key(plugin, id) { KeyInjective(plugin, m, id); }
    }
    forall k | k in t ensures Explained(cores, plugin, done + {id}, k) {
      if k == Key(plugin, id) {
        assert id in done + {id};
      } else {
        StillExplained(cores, plugin, done, id, k);
      }
    }
  }

  /*** All nodes ***/

  // The state after the nodes `done` of the raw graph.
  ghost predicate Built(cores: Cores, plugin: string, root: string, raw: map<string, Raw>, done: set<string>,
                        b: Build) {
    && done <= raw.Keys && AllFit(cores, raw, done)
    && b.populated == Populated(cores, done)
    && b.required == Required(cores, root, raw, done)
    && Sound(plugin, Canonical(cores, root), b)
    && (Apart(cores, raw) ==> HasNodes(cores, plugin, raw, done, b.graph.table))
  }

  lemma SetsGrow(cores: Cores, plugin: string, root: string, raw: map<string, Raw>, done: set<string>, b: Build,
                 id: string)
    requires id in raw && (id in cores || Fits(raw[id])) && (id in cores ==> cores[id].graph.Valid())
    requires b.populated == Populated(cores, done) && b.required == Required(cores, root, raw, done)
    ensures WithNode(cores, plugin, raw[id], b, id).populated == Populated(cores, done + {id})
    ensures WithNode(cores, plugin, raw[id], b, id).required == Required(cores, root, raw, done + {id})
  {
    var r, more := WithNode(cores, plugin, raw[id], b, id), done + {id};
    assert Populated(cores, more) == Populated(cores, done) + {Canonical(cores, id)};
    if id in cores {
      assert Required(cores, root, raw, more) == Required(cores, root, raw, done);
    } else {
      assert Required(cores, root, raw, more) == Required(cores, root, raw, done) + set c
          | c in raw[id].children :: Canonical(cores, c);
    }
  }

  // What Built says apart from the nodes, or where the building starts.
  ghost predicate Begun(cores: Cores, plugin: string, root: string, done: set<string>, b: Build, id: string) {
    Sound(plugin, Canonical(cores, root), b) || (Empty(b) && done == {} && id == root)
  }

  lemma CoreStep(cores: Cores, plugin: string, root: string, raw: map<string, Raw>, done: set<string>, b: Build,
                 id: string)
    requires CoresClosed(cores) && id in cores && id !in done && done <= raw.Keys
    requires Begun(cores, plugin, root, done, b, id) && b.graph.Valid() && b.populated == Populated(cores, done)
    requires Apart(cores, raw) ==> HasNodes(cores, plugin, raw, done, b.graph.table)
    ensures CoreClosed(cores[id])
    ensures var r := WithNode(cores, plugin, Null, b, id);
      && Sound(plugin, Canonical(cores, root), r)
      && (Apart(cores, raw) ==> HasNodes(cores, plugin, raw, done + {id}, r.graph.table))
  {
    assert CoreClosed(cores[id]);
    hide Sound, HasNodes, Apart, WithNode, Populated;
    CoreSound(cores, plugin, Canonical(cores, root), b, id);
    if Apart(cores, raw) { CoreNodes(cores, plugin, raw, b, done, id); }
  }

  lemma OrdinaryStep(cores: Cores, plugin: string, root: string, raw: map<string, Raw>, done: set<string>, b: Build,
                     id: string)
    requires id in raw && id !in cores && Fits(raw[id]) && done <= raw.Keys
    requires Begun(cores, plugin, root, done, b, id)
    requires Apart(cores, raw) ==> HasNodes(cores, plugin, raw, done, b.graph.table)
    ensures var r := WithNode(cores, plugin, raw[id], b, id);
      && Sound(plugin, Canonical(cores, root), r)
      && (Apart(cores, raw) ==> HasNodes(cores, plugin, raw, done + {id}, r.graph.table))
  {
    hide Sound, HasNodes, Apart, WithNode;
    OrdinarySound(cores, plugin, Canonical(cores, root), raw[id], b, id);
    if Apart(cores, raw) { OrdinaryNodes(cores, plugin, raw, b, done, id); }
  }

  // What a step may start from.
  lemma Begins(cores: Cores, plugin: string, root: string, raw: map<string, Raw>, done: set<string>, b: Build,
               id: string)
    requires id in raw
    requires Built(cores, plugin, root, raw, done, b) || (done == {} && id == root && Empty(b) && b.required == {root})
    ensures done <= raw.Keys && AllFit(cores, raw, done) && Begun(cores, plugin, root, done, b, id) && b.graph.Valid()
    ensures b.populated == Populated(cores, done) && b.required == Required(cores, root, raw, done)
    ensures Apart(cores, raw) ==> HasNodes(cores, plugin, raw, done, b.graph.table)
  {
  }

  lemma FitGrows(cores: Cores, raw: map<string, Raw>, done: set<string>, id: string)
    requires id in raw && (id in cores || Fits(raw[id])) && done <= raw.Keys && AllFit(cores, raw, done)
    ensures AllFit(cores, raw, done + {id}) && done + {id} <= raw.Keys
  {
  }

  // A core entry's raw node does not matter.
  lemma RawIsIgnored(cores: Cores, plugin: string, raw: Raw, b: Build, id: string)
    requires id in cores && cores[id].graph.Valid()
    ensures WithNode(cores, plugin, raw, b, id) == WithNode(cores, plugin, Null, b, id)
  {
  }

  lemma BuildStep(cores: Cores, plugin: string, root: string, raw: map<string, Raw>, done: set<string>, b: Build,
                  id: string)
    requires CoresClosed(cores) && id in raw && id !in done && (id in cores || Fits(raw[id]))
    requires Built(cores, plugin, root, raw, done, b) || (done == {} && id == root && Empty(b) && b.required == {root})
    ensures id in cores ==> CoreClosed(cores[id])
    ensures Built(cores, plugin, root, raw, done + {id}, WithNode(cores, plugin, raw[id], b, id))
  {
    Begins(cores, plugin, root, raw, done, b, id);
    FitGrows(cores, raw, done, id);
    hide Sound, HasNodes, Apart, WithNode, Populated, Required, Begun, AllFit, Fits, Empty, Canonical;
    if id in cores {
      CoreStep(cores, plugin, root, raw, done, b, id);
      RawIsIgnored(cores, plugin, raw[id], b, id);
    } else {
      OrdinaryStep(cores, plugin, root, raw, done, b, id);
    }
    SetsGrow(cores, plugin, root, raw, done, b, id);
  }

  /** An accepted graph starts with the entry's own type, holds all children of its nodes and,
      when no IDs clash, exactly the nodes described. */
  ghost predicate AcceptedGraph(cores: Cores, plugin: string, root: string, raw: map<string, Raw>,
                                graph: LinkedMap<string, Schema>) {
    && graph.Valid() && Closed(LinksOf(graph.table))
    && graph.keys != [] && graph.keys[0] == Key(plugin, Canonical(cores, root))
    && (Apart(cores, raw) ==> HasNodes(cores, plugin, raw, raw.Keys, graph.table))
  }

  method UnmarshalSchemaGraph(cores: Cores, plugin: string, root: string, stdout: Option<map<string, Raw>>)
    returns (ok: bool, graph: LinkedMap<string, Schema>)
    requires CoresClosed(cores)
    ensures ok <==> stdout.Some? && Acceptable(cores, root, stdout.value)
    ensures ok ==> AcceptedGraph(cores, plugin, root, stdout.value, graph)
  {
    graph := LinkedMap([], map[]);
    if stdout.None? { return false, graph; }
    var raw := stdout.value;
    if |raw| == 0 || root !in raw { return false, graph; }
    if raw[root].Null? { return false, graph; }
    var built, b := PutNodes(cores, plugin, root, raw);
    if !built { return false, graph; }
    ok := SelfContained(b.populated, b.required);
    if ok { CompleteIsClosed(plugin, b.populated, b.required, b.graph.table); }
    graph := b.graph;
  }

  lemma BuiltFits(cores: Cores, plugin: string, root: string, raw: map<string, Raw>, done: set<string>, b: Build)
    requires Built(cores, plugin, root, raw, done, b)
    ensures AllFit(cores, raw, done)
  {
  }

  method BuildNode(builder: SchemaGraphBuilder, ghost root: string, raw: map<string, Raw>, ghost done: set<string>,
                   ghost more: set<string>, id: string) returns (ok: bool)
    requires CoresClosed(builder.cores) && id in raw && id !in done && more == done + {id}
    requires Built(builder.cores, builder.plugin, root, raw, done, builder.State())
      || (done == {} && id == root && Empty(builder.State()) && builder.State().required == {root})
    modifies builder
    ensures ok <==> id in builder.cores || Fits(raw[id])
    ensures ok ==> Built(builder.cores, builder.plugin, root, raw, more, builder.State())
  {
    if id in builder.cores { assert CoreClosed(builder.cores[id]); }
    ghost var before := builder.State();
    ok := builder.PutNode(id, raw[id]);
    if ok { BuildStep(builder.cores, builder.plugin, root, raw, done, before, id); }
  }

  // The root's node, then all others in any order.
  method PutNodes(cores: Cores, plugin: string, root: string, raw: map<string, Raw>) returns (ok: bool, b: Build)
    requires CoresClosed(cores) && root in raw
    ensures ok <==> AllFit(cores, raw, raw.Keys)
    ensures ok ==> Built(cores, plugin, root, raw, raw.Keys, b)
  {
    var builder := new SchemaGraphBuilder(cores, plugin, root);
    ok := BuildNode(builder, root, raw, {}, raw.Keys - (raw.Keys - {root}), root);
    if ok { ok := PutOthers(builder, root, raw); }
    b := builder.State();
  }

  method PutOthers(builder: SchemaGraphBuilder, root: string, raw: map<string, Raw>) returns (ok: bool)
    requires CoresClosed(builder.cores) && root in raw
    requires Built(builder.cores, builder.plugin, root, raw, raw.Keys - (raw.Keys - {root}), builder.State())
    modifies builder
    ensures ok <==> AllFit(builder.cores, raw, raw.Keys)
    ensures ok ==> Built(builder.cores, builder.plugin, root, raw, raw.Keys, builder.State())
  {
    hide Built;
    var remaining := raw.Keys - {root};
    while remaining != {}
      invariant remaining <= raw.Keys
      invariant Built(builder.cores, builder.plugin, root, raw, raw.Keys - remaining, builder.State())
      decreases |remaining|
    {
      var id :| id in remaining;
      var rest := remaining - {id};
      assert raw.Keys - rest == raw.Keys - remaining + {id};
      ok := BuildNode(builder, root, raw, raw.Keys - remaining, raw.Keys - rest, id);
      if !ok { return; }
      remaining := rest;
    }
    assert raw.Keys - remaining == raw.Keys;
    BuiltFits(builder.cores, builder.plugin, root, raw, raw.Keys, builder.State());
    ok := true;
  }

  // Every required type is populated, and no other is.
  method SelfContained(populated: set<string>, required: set<string>) returns (ok: bool)
    ensures ok <==> populated == required
  {
    var remaining, left := required, populated;
    while remaining != {}
      invariant remaining <= required && required - remaining <= populated
      invariant left == populated - (required - remaining)
      decreases |remaining|
    {
      var typeID :| typeID in remaining;
      if typeID !in left { return false; }
      left := left - {typeID};
      remaining := remaining - {typeID};
    }
    ok := |left| == 0;
    assert left == populated - required;
  }

  /*** What acceptance does not rule out ***/

  // The described types and their children, by raw type ID.
  function RawLinks(cores: Cores, raw: map<string, Raw>): Graph<string> {
    map p | p in Populated(cores, raw.Keys) ::
      if p in raw && p !in cores && raw[p].Node? then CanonicalAll(cores, raw[p].children) else []
  }

  // The types that root does not reach form no cycle: ranks rise along their edges.
  ghost predicate Ranked(g: Graph<string>, root: string, rank: string -> nat) {
    forall n, c :: n in g && c in g[n] && !Reaches(g, root, n) ==> rank(n) < rank(c)
  }

  ghost predicate AllReachable(g: Graph<string>, root: string) {
    forall p :: p in g ==> Reaches(g, root, p)
  }

  lemma AskedByParent(cores: Cores, root: string, raw: map<string, Raw>, p: string) returns (parent: string)
    requires Acceptable(cores, root, raw) && p in Populated(cores, raw.Keys) && p != root
    ensures parent in RawLinks(cores, raw) && p in RawLinks(cores, raw)[parent]
  {
    assert p in Required(cores, root, raw, raw.Keys);
    var id, c :| id in raw.Keys && id in raw && id !in cores && raw[id].Node? && c in raw[id].children
        && p == Canonical(cores, c);
    parent := id;
    assert Canonical(cores, id) == id;
    var i :| 0 <= i < |raw[id].children| && raw[id].children[i] == c;
    assert CanonicalAll(cores, raw[id].children)[i] == p;
  }

  lemma RawLinksClosed(cores: Cores, root: string, raw: map<string, Raw>)
    requires Acceptable(cores, root, raw)
    ensures Closed(RawLinks(cores, raw))
  {
    var g := RawLinks(cores, raw);
    forall n, c | n in g && c in g[n] ensures c in g {
      var i :| 0 <= i < |g[n]| && g[n][i] == c;
      assert raw[n].children[i] in raw[n].children;
      assert c in Required(cores, root, raw, raw.Keys);
    }
  }

  lemma {:induction false} RankedIsReachable(cores: Cores, root: string, raw: map<string, Raw>, rank: string -> nat,
                                             p: string)
    requires Acceptable(cores, root, raw) && Ranked(RawLinks(cores, raw), root, rank) && p in Populated(cores, raw.Keys)
    ensures Reaches(RawLinks(cores, raw), root, p)
    decreases rank(p)
  {
    var g := RawLinks(cores, raw);
    if p == root {
      ReachesSelf(g, root);
    } else {
      var parent := AskedByParent(cores, root, raw, p);
      if !Reaches(g, root, parent) { RankedIsReachable(cores, root, raw, rank, parent); }
      RawLinksClosed(cores, root, raw);
      ReachesChild(g, root, parent, p);
    }
  }

  /** The check that no described type goes unasked makes every described type reachable from the
      entry's own exactly when the types that are not form no cycle. */
  lemma ReachableIff(cores: Cores, root: string, raw: map<string, Raw>)
    requires Acceptable(cores, root, raw)
    ensures AllReachable(RawLinks(cores, raw), root)
       <==> exists rank: string -> nat :: Ranked(RawLinks(cores, raw), root, rank)
  {
    var g := RawLinks(cores, raw);
    if AllReachable(g, root) {
      var flat: string -> nat := t => 0;
      assert Ranked(g, root, flat);
    }
    if rank: string -> nat :| Ranked(g, root, rank) {
      forall p | p in g ensures Reaches(g, root, p) { RankedIsReachable(cores, root, raw, rank, p); }
    }
  }

  function Leaf(): Raw { Node("leaf", Some([]), [], [], None, None) }

  function Loop(id: string): Raw { Node("loop", Some(["list"]), [id], [], None, None) }

  /** With a cycle it does not: a type that only itself lists passes for asked for. */
  lemma OrphanCycleAccepted(root: string, orphan: string)
    requires root != orphan
    ensures var raw := map[root := Leaf(), orphan := Loop(orphan)];
      Acceptable(map[], root, raw) && orphan in RawLinks(map[], raw) && !Reaches(RawLinks(map[], raw), root, orphan)
  {
    var cores: Cores := map[];
    var raw := map[root := Leaf(), orphan := Loop(orphan)];
    assert Loop(orphan).methods.value[0] == "list";
    assert Canonical(cores, root) == root && Canonical(cores, orphan) == orphan;
    assert Populated(cores, raw.Keys) == {root, orphan};
    assert orphan in Loop(orphan).children;
    assert Required(cores, root, raw, raw.Keys) == {root, orphan};
    var g := RawLinks(cores, raw);
    assert g[root] == [];
    if Reaches(g, root, orphan) { ClosedHoldsReachable(g, {root}, root, orphan); }
  }

  /** An entry that is itself a core entry has no acceptable schema. */
  lemma CoreRootRejected(cores: Cores, root: string, raw: map<string, Raw>)
    requires root in cores && forall id :: id in cores ==> cores[id].typeID != root
    ensures !Acceptable(cores, root, raw)
  {
    assert root in Required(cores, root, raw, raw.Keys);
    assert root !in Populated(cores, raw.Keys);
  }
}
