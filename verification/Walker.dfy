/** The find walker (cmd/internal/find/walker.go) without the -depth option: a depth-bounded
    traversal that follows the pruned schema and skips what cannot print. */
module Walker {
  import opened Graph
  import opened EntrySchemas
  import opened Pruning

  datatype Listing = ListError | Children(entries: seq<Entry>)

  datatype Entry = Entry(name: string, typeID: string, canList: bool, listing: Listing)

  // What is known of an entry's schema: nothing, that it was pruned, or its node.
  datatype Position = Unknown | Absent | At(node: EntrySchema)

  /** The query: depth bounds, whether full metadata is wanted, which metadata requests
      succeed, the schema predicate, which nodes have a metadata schema, and the entry predicate
      (told whether full metadata was fetched). */
  datatype Query = Query(mindepth: nat, maxdepth: int, fullmeta: bool, metadataOk: Entry -> bool,
                         schemaP: EntrySchema -> bool, hasMeta: EntrySchema -> bool,
                         p: (Entry, Position, bool) -> bool)

  // GetChild: the first child with the type ID.
  function ChildAt(kids: seq<EntrySchema>, typeID: string): Position {
    if kids == [] then Absent
    else if kids[0].typeID == typeID then At(kids[0])
    else ChildAt(kids[1..], typeID)
  }

  function ChildPosition(h: Graph<EntrySchema>, at: Position, typeID: string): Position {
    match at
    case Unknown => Unknown
    case Absent => Absent
    case At(n) => if n in h then ChildAt(h[n], typeID) else Absent
  }

  // visit: what is printed, and whether it went well.
  function Visit(q: Query, e: Entry, at: Position, depth: nat): (seq<string>, bool) {
    if depth < q.mindepth || at.Absent? || (at.At? && !q.schemaP(at.node)) then ([], true)
    else
      var fetch := q.fullmeta && (at.Unknown? || q.hasMeta(at.node));
      if fetch && !q.metadataOk(e) then ([], false)
      else if q.p(e, at, fetch) then ([e.name], true)
      else ([], true)
  }

  predicate Descends(q: Query, e: Entry, depth: nat) {
    depth + 1 <= q.maxdepth && e.canList
  }

  // The guided walk stops where the schema is known to have no children left.
  predicate DeadEnd(h: Graph<EntrySchema>, at: Position) {
    at.Absent? || (at.At? && (at.node !in h || h[at.node] == []))
  }

  // The walk over the nodes of h.
  function Guided(q: Query, h: Graph<EntrySchema>, e: Entry, at: Position, depth: nat): (seq<string>, bool) {
    var (out, ok) := Visit(q, e, at, depth);
    if !Descends(q, e, depth) || DeadEnd(h, at) then (out, ok)
    else
      match e.listing
      case ListError => (out, false)
      case Children(kids) =>
        var (out', ok') := GuidedAll(q, h, kids, at, depth + 1);
        (out + out', ok && ok')
  }

  function GuidedAll(q: Query, h: Graph<EntrySchema>, es: seq<Entry>, at: Position, depth: nat): (seq<string>, bool) {
    if es == [] then ([], true)
    else
      var (out, ok) := GuidedAll(q, h, es[..|es| - 1], at, depth);
      var last := es[|es| - 1];
      var (out', ok') := Guided(q, h, last, ChildPosition(h, at, last.typeID), depth);
      (out + out', ok && ok')
  }

  /** The plain meaning of find: list everything down to the depth bound, in preorder, and
      print each entry whose depth, schema node and own predicate all agree. */
  function Everything(q: Query, orig: Graph<EntrySchema>, e: Entry, at: Position, depth: nat): (seq<string>, bool) {
    var (out, ok) := Visit(q, e, at, depth);
    if !Descends(q, e, depth) then (out, ok)
    else
      match e.listing
      case ListError => (out, false)
      case Children(kids) =>
        var (out', ok') := EverythingBelow(q, orig, kids, at, depth + 1);
        (out + out', ok && ok')
  }

  function EverythingBelow(q: Query, orig: Graph<EntrySchema>, es: seq<Entry>, at: Position, depth: nat)
    : (seq<string>, bool)
  {
    if es == [] then ([], true)
    else
      var (out, ok) := EverythingBelow(q, orig, es[..|es| - 1], at, depth);
      var last := es[|es| - 1];
      var (out', ok') := Everything(q, orig, last, ChildPosition(orig, at, last.typeID), depth);
      (out + out', ok && ok')
  }

  // Of a node's children, at most one (up to repetition) has a given type ID.
  ghost predicate TypedApart(orig: Graph<EntrySchema>) {
    forall n, c, d :: n in orig && c in orig[n] && d in orig[n] && c.typeID == d.typeID ==> c == d
  }

  lemma {:induction false} ChildAtFacts(kids: seq<EntrySchema>, typeID: string)
    ensures var r := ChildAt(kids, typeID);
      && (r.Absent? <==> forall c :: c in kids ==> c.typeID != typeID)
      && (r.At? ==> r.node in kids && r.node.typeID == typeID)
      && !r.Unknown?
  {
    if kids != [] { ChildAtFacts(kids[1..], typeID); }
  }

  /*** Where nothing prints ***/

  // What the walk can come to and prints leads, by path, to something that pruning looks for.
  ghost predicate Covers(q: Query, orig: Graph<EntrySchema>, g: Graph<string>, goal: set<string>, s: EntrySchema) {
    forall n :: n in orig && Finds(orig, s, n) && q.schemaP(n) ==> Leads(g, goal, n.path)
  }

  // A node the walk can come to from s.
  ghost predicate Found(orig: Graph<EntrySchema>, s: EntrySchema, n: EntrySchema) {
    n in orig && Finds(orig, s, n)
  }

  // Positions from which nothing satisfying can be reached.
  ghost predicate Hopeless(orig: Graph<EntrySchema>, g: Graph<string>, goal: set<string>, s: EntrySchema,
                           at: Position) {
    at.Absent? || (at.At? && Found(orig, s, at.node) && !Leads(g, goal, at.node.path))
  }

  lemma ChildFound(orig: Graph<EntrySchema>, g: Graph<string>, goal: set<string>, s: EntrySchema, n: EntrySchema,
                   c: EntrySchema)
    requires Spells(orig, g) && Found(orig, s, n) && c in orig[n]
    ensures Found(orig, s, c) && (Leads(g, goal, c.path) ==> Leads(g, goal, n.path))
  {
    FindsChild(orig, s, n, c);
    var i :| 0 <= i < |orig[n]| && orig[n][i] == c;
    assert Paths(orig[n])[i] == c.path;
    if Leads(g, goal, c.path) { ChildJustifies(g, goal, n.path, i); }
  }

  lemma HopelessChild(orig: Graph<EntrySchema>, g: Graph<string>, goal: set<string>, s: EntrySchema, at: Position,
                      typeID: string)
    requires Spells(orig, g) && Hopeless(orig, g, goal, s, at)
    ensures Hopeless(orig, g, goal, s, ChildPosition(orig, at, typeID))
  {
    if at.At? {
      ChildAtFacts(orig[at.node], typeID);
      var c := ChildPosition(orig, at, typeID);
      if c.At? { ChildFound(orig, g, goal, s, at.node, c.node); }
    }
  }

  // Nothing prints below a hopeless position.
  lemma {:induction false} HopelessPrintsNothing(q: Query, orig: Graph<EntrySchema>, g: Graph<string>,
                                                 goal: set<string>, s: EntrySchema,
                                                 e: Entry, at: Position, depth: nat)
    requires Spells(orig, g) && Covers(q, orig, g, goal, s) && Hopeless(orig, g, goal, s, at)
    ensures Everything(q, orig, e, at, depth).0 == []
    decreases e
  {
    if Descends(q, e, depth) && e.listing.Children? {
      HopelessBelow(q, orig, g, goal, s, e.listing.entries, at, depth + 1);
    }
  }

  lemma {:induction false} HopelessBelow(q: Query, orig: Graph<EntrySchema>, g: Graph<string>, goal: set<string>,
                                         s: EntrySchema,
                                         es: seq<Entry>, at: Position, depth: nat)
    requires Spells(orig, g) && Covers(q, orig, g, goal, s) && Hopeless(orig, g, goal, s, at)
    ensures EverythingBelow(q, orig, es, at, depth).0 == []
    decreases es
  {
    if es != [] {
      var last := es[|es| - 1];
      HopelessBelow(q, orig, g, goal, s, es[..|es| - 1], at, depth);
      HopelessChild(orig, g, goal, s, at, last.typeID);
      HopelessPrintsNothing(q, orig, g, goal, s, last, ChildPosition(orig, at, last.typeID), depth);
    }
  }

  /*** The guided walk prints what the plain meaning prints ***/

  lemma ChildAtOnward(orig: Graph<EntrySchema>, g: Graph<string>, goal: set<string>, n: EntrySchema, typeID: string)
    requires n in orig && TypedApart(orig)
    ensures var full, cut := ChildAt(orig[n], typeID), ChildAt(OnwardNodes(g, goal, orig[n]), typeID);
      cut == if full.At? && Leads(g, goal, full.node.path) then full else Absent
  {
    ChildAtFacts(orig[n], typeID);
    ChildAtFacts(OnwardNodes(g, goal, orig[n]), typeID);
    OnwardFacts(g, goal, orig[n]);
  }

  // Every child list of h is the original one, or what of it leads somewhere.
  ghost predicate Thinned(orig: Graph<EntrySchema>, h: Graph<EntrySchema>, g: Graph<string>, goal: set<string>) {
    forall n :: n in orig ==> n in h && (h[n] == orig[n] || h[n] == OnwardNodes(g, goal, orig[n]))
  }

  // Where the guided walk stands, relative to the plain one.
  ghost predicate Matches(orig: Graph<EntrySchema>, g: Graph<string>, goal: set<string>, s: EntrySchema, full: Position,
                          cut: Position) {
    match full
    case Unknown => cut.Unknown?
    case Absent => cut.Absent?
    case At(n) => Found(orig, s, n) && (cut == full || (cut.Absent? && !Leads(g, goal, n.path)))
  }

  lemma MatchesChild(orig: Graph<EntrySchema>, h: Graph<EntrySchema>, g: Graph<string>, goal: set<string>,
                     s: EntrySchema,
                     n: EntrySchema, typeID: string)
    requires Spells(orig, g) && TypedApart(orig) && Thinned(orig, h, g, goal) && Found(orig, s, n)
    ensures !ChildPosition(orig, At(n), typeID).Unknown?
    ensures Matches(orig, g, goal, s, ChildPosition(orig, At(n), typeID), ChildPosition(h, At(n), typeID))
  {
    ChildAtFacts(orig[n], typeID);
    ChildAtOnward(orig, g, goal, n, typeID);
    var c := ChildAt(orig[n], typeID);
    if c.At? { ChildFound(orig, g, goal, s, n, c.node); }
  }

  // A node whose children all lead nowhere.
  lemma {:induction false} NoLeadingChild(q: Query, orig: Graph<EntrySchema>, g: Graph<string>, goal: set<string>,
                                          s: EntrySchema,
                                          n: EntrySchema, es: seq<Entry>, depth: nat)
    requires Spells(orig, g) && Covers(q, orig, g, goal, s) && Found(orig, s, n) && OnwardNodes(g, goal, orig[n]) == []
    ensures EverythingBelow(q, orig, es, At(n), depth).0 == []
  {
    if es != [] {
      var last := es[|es| - 1];
      NoLeadingChild(q, orig, g, goal, s, n, es[..|es| - 1], depth);
      OnwardFacts(g, goal, orig[n]);
      ChildAtFacts(orig[n], last.typeID);
      var c := ChildAt(orig[n], last.typeID);
      if c.At? { ChildFound(orig, g, goal, s, n, c.node); }
      HopelessPrintsNothing(q, orig, g, goal, s, last, c, depth);
    }
  }

  // Same lines in the same order; the guided walk, asking for less, fails no more often.
  predicate SameOutput(guided: (seq<string>, bool), full: (seq<string>, bool)) {
    guided.0 == full.0 && (full.1 ==> guided.1)
  }

  lemma {:induction false} GuidedIsEverything(q: Query, orig: Graph<EntrySchema>, h: Graph<EntrySchema>,
                                              g: Graph<string>, goal: set<string>,
                                              s: EntrySchema, e: Entry, full: Position, cut: Position, depth: nat)
    requires Spells(orig, g) && TypedApart(orig) && Thinned(orig, h, g, goal) && Covers(q, orig, g, goal, s)
    requires !full.Unknown? && Matches(orig, g, goal, s, full, cut)
    ensures SameOutput(Guided(q, h, e, cut, depth), Everything(q, orig, e, full, depth))
    decreases e
  {
    if cut.Absent? {
      HopelessPrintsNothing(q, orig, g, goal, s, e, full, depth);
    } else if Descends(q, e, depth) && e.listing.Children? {
      var es := e.listing.entries;
      if DeadEnd(h, cut) {
        OnwardFacts(g, goal, orig[full.node]);
        assert OnwardNodes(g, goal, orig[full.node]) == [];
        NoLeadingChild(q, orig, g, goal, s, full.node, es, depth + 1);
      } else {
        GuidedIsEverythingBelow(q, orig, h, g, goal, s, es, full.node, depth + 1);
      }
    }
  }

  lemma {:induction false} GuidedIsEverythingBelow(q: Query, orig: Graph<EntrySchema>, h: Graph<EntrySchema>,
                                                   g: Graph<string>, goal: set<string>,
                                                   s: EntrySchema, es: seq<Entry>, n: EntrySchema, depth: nat)
    requires Spells(orig, g) && TypedApart(orig) && Thinned(orig, h, g, goal) && Covers(q, orig, g, goal, s)
    requires Found(orig, s, n)
    ensures SameOutput(GuidedAll(q, h, es, At(n), depth), EverythingBelow(q, orig, es, At(n), depth))
    decreases es
  {
    if es != [] {
      var last := es[|es| - 1];
      GuidedIsEverythingBelow(q, orig, h, g, goal, s, es[..|es| - 1], n, depth);
      MatchesChild(orig, h, g, goal, s, n, last.typeID);
      GuidedIsEverything(q, orig, h, g, goal, s, last, ChildPosition(orig, At(n), last.typeID),
                         ChildPosition(h, At(n), last.typeID), depth);
    }
  }

  /*** The code ***/

  function PositionOf(known: bool, schema: EntrySchema?): Position {
    if !known then Unknown else if schema == null then Absent else At(schema)
  }

  lemma {:induction false} FirstIsChildAt(kids: seq<EntrySchema>, typeID: string, child: EntrySchema?)
    requires child == null <==> forall c :: c in kids ==> c.typeID != typeID
    requires child != null ==>
      exists i :: 0 <= i < |kids| && child == kids[i] && child.typeID == typeID && forall j :: 0 <= j < i ==>
        kids[j].typeID != typeID
    ensures ChildAt(kids, typeID) == PositionOf(true, child)
  {
    if kids != [] && kids[0].typeID != typeID {
      if child != null {
        var i :| 0 <= i < |kids| && child == kids[i] && child.typeID == typeID && forall j :: 0 <= j < i ==>
          kids[j].typeID != typeID;
        assert child == kids[1..][i - 1] && forall j :: 0 <= j < i - 1 ==> kids[1..][j] == kids[j + 1];
      }
      FirstIsChildAt(kids[1..], typeID, child);
    }
  }

  class WalkerImpl {
    const q: Query
    var printed: seq<string>

    constructor (q: Query)
      ensures this.q == q && printed == []
    {
      this.q, printed := q, [];
    }

    method VisitEntry(e: Entry, known: bool, schema: EntrySchema?, depth: nat) returns (ok: bool)
      requires schema != null ==> known
      modifies this
      ensures var (out, good) := Visit(q, e, PositionOf(known, schema), depth);
        printed == old(printed) + out && ok == good
    {
      assert printed + [] == printed;
      if depth < q.mindepth { return true; }
      if known {
        if schema == null || !q.schemaP(schema) { return true; }
      }
      var fetched := false;
      if q.fullmeta {
        var fetchFullMetadata := !known || q.hasMeta(schema);
        if fetchFullMetadata {
          if !q.metadataOk(e) { return false; }
          fetched := true;
        }
      }
      if q.p(e, PositionOf(known, schema), fetched) {
        printed := printed + [e.name];
      }
      return true;
    }

    method WalkFrom(e: Entry, known: bool, schema: EntrySchema?, depth: nat,
                    ghost nodes: set<EntrySchema>, ghost h: Graph<EntrySchema>) returns (successful: bool)
      requires (schema != null ==> known && schema in nodes) && h == NodeGraph(nodes) && ChildrenInside(h)
      modifies this
      ensures var (out, ok) := Guided(q, h, e, PositionOf(known, schema), depth);
        printed == old(printed) + out && successful == ok
      decreases e, 0
    {
      successful := VisitEntry(e, known, schema, depth);
      var childDepth := depth + 1;
      if childDepth <= q.maxdepth && e.canList {
        if known {
          if schema == null || |schema.children| == 0 { return; }
        }
        if e.listing.ListError? {
          successful := false;
        } else {
          var ok := WalkChildren(e.listing.entries, known, schema, childDepth, nodes, h);
          successful := successful && ok;
        }
      }
    }

    // The loop over the listed children.
    method WalkChildren(kids: seq<Entry>, known: bool, schema: EntrySchema?, childDepth: nat,
                        ghost nodes: set<EntrySchema>, ghost h: Graph<EntrySchema>) returns (ok: bool)
      requires (schema != null ==> schema in nodes) && (known <==> schema != null) && h == NodeGraph(nodes)
      requires ChildrenInside(h)
      modifies this
      ensures var (out, good) := GuidedAll(q, h, kids, PositionOf(known, schema), childDepth);
        printed == old(printed) + out && ok == good
      decreases kids
    {
      ok := true;
      for i := 0 to |kids|
        invariant var (out, good) := GuidedAll(q, h, kids[..i], PositionOf(known, schema), childDepth);
          printed == old(printed) + out && ok == good
      {
        GuidedAllStep(q, h, kids, i, PositionOf(known, schema), childDepth);
        var result := WalkChild(kids[i], known, schema, childDepth, nodes, h);
        ok := ok && result;
      }
      assert kids[..|kids|] == kids;
    }

    // A listed child takes its schema from its parent's.
    method WalkChild(child: Entry, known: bool, schema: EntrySchema?, childDepth: nat,
                     ghost nodes: set<EntrySchema>, ghost h: Graph<EntrySchema>) returns (ok: bool)
      requires (schema != null ==> schema in nodes) && (known <==> schema != null) && h == NodeGraph(nodes)
      requires ChildrenInside(h)
      modifies this
      ensures var (out, good) := Guided(q, h, child, ChildPosition(h, PositionOf(known, schema), child.typeID),
                                        childDepth);
        printed == old(printed) + out && ok == good
      decreases child, 1
    {
      var childSchema: EntrySchema? := null;
      if known {
        childSchema := schema.GetChild(child.typeID);
        FirstIsChildAt(schema.children, child.typeID, childSchema);
        if childSchema != null { ChildInside(h, schema, childSchema); }
      }
      ok := WalkFrom(child, known, childSchema, childDepth, nodes, h);
    }

    /** The whole walk.  With a schema: prune it, then walk what is left; the output is that
        of the plain, unpruned traversal, unless `inner` alone satisfies the schema predicate:
        then nothing prints.  Without: walk everything, or nothing at all when the predicate needs
        a schema. */
    method Walk(e: Entry, root: EntrySchema?, schemaRequired: bool,
                ghost nodes: set<EntrySchema>, ghost inner: EntrySchema, ghost g: Graph<string>,
                ghost goal: set<string>) returns (ok: bool)
      requires root != null ==>
        && Outer(nodes, root, inner) && PathsApart(nodes, inner) && Shows(nodes, inner, q.schemaP, g, goal)
        && TypedApart(NodeGraph(nodes))
      modifies this, nodes
      ensures root != null ==>
        var orig := old(NodeGraph(nodes));
        var full := Everything(q, orig, e, At(root), 0);
        if Agreeable(orig, inner, g, goal, root, q.schemaP) then printed == old(printed) + full.0 && (full.1 ==> ok)
        else printed == old(printed) && ok
      ensures root == null ==>
        if schemaRequired then printed == old(printed) && ok
        else (var full := Everything(q, map[], e, Unknown, 0); printed == old(printed) + full.0 && ok == full.1)
    {
      assert printed + [] == printed;
      if root != null {
        ghost var orig := NodeGraph(nodes);
        assert Spells(orig, g) && ChildrenInside(orig);
        var schema := Prune(root, q.schemaP, nodes, inner, g, goal);
        PrunedInside(orig, inner, g, goal, root.path);
        ok := WalkFrom(e, true, schema, 0, nodes, NodeGraph(nodes));
        WalkOutcome(q, orig, inner, g, goal, root, e);
      } else if schemaRequired {
        return true;
      } else {
        assert NodeGraph({}) == map[];
        ok := WalkFrom(e, false, null, 0, {}, map[]);
        GuidedUnknown(q, map[], e, 0);
      }
    }
  }

  ghost predicate ChildrenInside(h: Graph<EntrySchema>) {
    forall n, c :: n in h && c in h[n] ==> c in h
  }

  lemma ChildInside(h: Graph<EntrySchema>, n: EntrySchema, c: EntrySchema)
    requires ChildrenInside(h) && n in h && c in h[n]
    ensures c in h
  {
  }

  lemma OnwardInside(orig: Graph<EntrySchema>, inner: EntrySchema, g: Graph<string>, goal: set<string>, root: string,
                     n: EntrySchema, c: EntrySchema)
    requires n in orig && c in PrunedNodes(orig, inner, g, goal, root)[n]
    ensures c in orig[n]
  {
    OnwardFacts(g, goal, orig[n]);
  }

  lemma PrunedInside(orig: Graph<EntrySchema>, inner: EntrySchema, g: Graph<string>, goal: set<string>, root: string)
    requires ChildrenInside(orig)
    ensures ChildrenInside(PrunedNodes(orig, inner, g, goal, root))
    ensures Thinned(orig, PrunedNodes(orig, inner, g, goal, root), g, goal)
  {
    hide OnTheWay, OnwardNodes;
    var h := PrunedNodes(orig, inner, g, goal, root);
    forall n, c | n in h && c in h[n] ensures c in h {
      OnwardInside(orig, inner, g, goal, root, n, c);
      ChildInside(orig, n, c);
    }
  }

  // Where no schema is known the two walks are the same.
  lemma {:induction false} GuidedUnknown(q: Query, h: Graph<EntrySchema>, e: Entry, depth: nat)
    ensures Guided(q, h, e, Unknown, depth) == Everything(q, h, e, Unknown, depth)
    decreases e
  {
    if e.listing.Children? { GuidedUnknownBelow(q, h, e.listing.entries, depth + 1); }
  }

  lemma {:induction false} GuidedUnknownBelow(q: Query, h: Graph<EntrySchema>, es: seq<Entry>, depth: nat)
    ensures GuidedAll(q, h, es, Unknown, depth) == EverythingBelow(q, h, es, Unknown, depth)
    decreases es
  {
    if es != [] {
      GuidedUnknownBelow(q, h, es[..|es| - 1], depth);
      GuidedUnknown(q, h, es[|es| - 1], depth);
    }
  }

  lemma GuidedAllStep(q: Query, h: Graph<EntrySchema>, kids: seq<Entry>, i: nat, at: Position, depth: nat)
    requires i < |kids|
    ensures var (out, ok) := GuidedAll(q, h, kids[..i], at, depth);
      var (out', ok') := Guided(q, h, kids[i], ChildPosition(h, at, kids[i].typeID), depth);
      GuidedAll(q, h, kids[..i + 1], at, depth) == (out + out', ok && ok')
  {
    assert kids[..i + 1][..i] == kids[..i];
  }

  /*** Exactly when pruning does not show ***/

  // Something is kept, or `inner` does not satisfy the predicate, or no walk comes to it.
  ghost predicate Agreeable(orig: Graph<EntrySchema>, inner: EntrySchema, g: Graph<string>, goal: set<string>,
                            s: EntrySchema, p: EntrySchema -> bool) {
    Leads(g, goal, s.path) || !(inner in orig && p(inner) && Finds(orig, s, inner))
  }

  // What the walk makes of a schema: it is pruned, perhaps away.
  ghost function Outcome(q: Query, orig: Graph<EntrySchema>, inner: EntrySchema, g: Graph<string>, goal: set<string>,
                         s: EntrySchema, e: Entry): (seq<string>, bool) {
    if Leads(g, goal, s.path) then Guided(q, PrunedNodes(orig, inner, g, goal, s.path), e, At(s), 0)
    else Guided(q, orig, e, Absent, 0)
  }

  // `goal` holds the paths of the nodes other than `inner` that satisfy p.
  ghost predicate Seeks(orig: Graph<EntrySchema>, inner: EntrySchema, goal: set<string>, p: EntrySchema -> bool) {
    Marks(orig.Keys - {inner}, p, goal)
  }

  lemma AgreeableCovers(q: Query, orig: Graph<EntrySchema>, inner: EntrySchema, g: Graph<string>, goal: set<string>,
                        s: EntrySchema)
    requires Spells(orig, g) && Seeks(orig, inner, goal, q.schemaP) && (inner in orig ==> inner.path == s.path)
    requires Agreeable(orig, inner, g, goal, s, q.schemaP)
    ensures Covers(q, orig, g, goal, s)
  {
    forall n | n in orig && Finds(orig, s, n) && q.schemaP(n) ensures Leads(g, goal, n.path) {
      if n != inner { ReachesSelf(g, n.path); }
    }
  }

  /** The walk prints what the plain traversal of the original schema prints when agreeable, and
      nothing otherwise. */
  lemma WalkOutcome(q: Query, orig: Graph<EntrySchema>, inner: EntrySchema, g: Graph<string>, goal: set<string>,
                    s: EntrySchema, e: Entry)
    requires Spells(orig, g) && TypedApart(orig) && s in orig && (inner in orig ==> inner.path == s.path)
    requires Seeks(orig, inner, goal, q.schemaP)
    ensures var r := Outcome(q, orig, inner, g, goal, s, e);
      if Agreeable(orig, inner, g, goal, s, q.schemaP) then SameOutput(r, Everything(q, orig, e, At(s), 0))
          else r == ([], true)
  {
    if Agreeable(orig, inner, g, goal, s, q.schemaP) {
      AgreeableCovers(q, orig, inner, g, goal, s);
      assert s in Within(orig, s, 0);
      var kept := Leads(g, goal, s.path);
      var h := if kept then PrunedNodes(orig, inner, g, goal, s.path) else orig;
      PrunedInside(orig, inner, g, goal, s.path);
      GuidedIsEverything(q, orig, h, g, goal, s, e, At(s), if kept then At(s) else Absent, 0);
    }
  }

  /** With one predicate for both nodes of the root's path the walk is always agreeable. */
  lemma AlikeIsAgreeable(orig: Graph<EntrySchema>, inner: EntrySchema, g: Graph<string>, goal: set<string>,
                         s: EntrySchema, p: EntrySchema -> bool)
    requires Spells(orig, g) && Seeks(orig, inner, goal, p) && s in orig && s != inner && p(s) == p(inner)
    ensures Agreeable(orig, inner, g, goal, s, p)
  {
    if p(inner) { ReachesSelf(g, s.path); }
  }

  // The walk of nodes behind a finding.
  lemma {:induction false} FoundWalk(h: Graph<EntrySchema>, a: EntrySchema, b: EntrySchema, k: nat)
    returns (w: seq<EntrySchema>)
    requires a in h && b in Within(h, a, k)
    ensures IsWalk(h, w) && w[0] == a && w[|w| - 1] == b
  {
    if k == 0 || b in Within(h, a, k - 1) {
      if k == 0 { w := [a]; } else { w := FoundWalk(h, a, b, k - 1); }
    } else {
      var n :| n in Within(h, a, k - 1) && n in h && b in h[n];
      var v := FoundWalk(h, a, n, k - 1);
      w := v + [b];
      forall i | 0 <= i < |w| - 1 ensures w[i] in h && w[i + 1] in h[w[i]] {
        if i < |v| - 1 { assert v[i] in h && v[i + 1] in h[v[i]]; }
      }
    }
  }

  // A directory in a directory and so on, of the types along a walk.
  function Chain(w: seq<EntrySchema>): Entry
    requires w != []
  {
    Entry("entry", w[0].typeID, true, Children(if |w| == 1 then [] else [Chain(w[1..])]))
  }

  function Wide(p: EntrySchema -> bool, maxdepth: int): Query {
    Query(0, maxdepth, false, e => true, p, n => false, (e, at, b) => true)
  }

  lemma {:induction false} ChainPrints(p: EntrySchema -> bool, maxdepth: int, orig: Graph<EntrySchema>,
                                       w: seq<EntrySchema>, depth: nat)
    requires IsWalk(orig, w) && TypedApart(orig) && ChildrenInside(orig) && p(w[|w| - 1]) && depth + |w| <= maxdepth + 1
    ensures Everything(Wide(p, maxdepth), orig, Chain(w), At(w[0]), depth).0 != []
    decreases |w|
  {
    var q := Wide(p, maxdepth);
    if |w| > 1 {
      var next := w[1..];
      assert w[1] in orig[w[0]];
      forall i | 0 <= i < |next| - 1 ensures next[i] in orig
          && next[i + 1] in orig[next[i]] { assert w[i + 1] in orig; }
      ChainPrints(p, maxdepth, orig, next, depth + 1);
      ChildAtFacts(orig[w[0]], w[1].typeID);
      assert ChildPosition(orig, At(w[0]), w[1].typeID) == At(w[1]);
      assert [Chain(next)][..0] == [];
      assert EverythingBelow(q, orig, [Chain(next)], At(w[0]), depth + 1).0
          == [] + Everything(q, orig, Chain(next), At(w[1]), depth + 1).0;
    }
  }

  /** For every schema predicate: whatever the rest of the query and the entries, the walk prints
      what the plain traversal prints, exactly when it is agreeable. */
  lemma AlwaysSameIff(orig: Graph<EntrySchema>, inner: EntrySchema, g: Graph<string>, goal: set<string>, s: EntrySchema,
                      p: EntrySchema -> bool)
    requires Spells(orig, g) && TypedApart(orig) && s in orig && (inner in orig ==> inner.path == s.path)
    requires Seeks(orig, inner, goal, p)
    ensures (forall q: Query, e: Entry :: q.schemaP == p ==>
               SameOutput(Outcome(q, orig, inner, g, goal, s, e), Everything(q, orig, e, At(s), 0)))
       <==> Agreeable(orig, inner, g, goal, s, p)
  {
    if Agreeable(orig, inner, g, goal, s, p) {
      forall q: Query, e: Entry | q.schemaP == p
        ensures SameOutput(Outcome(q, orig, inner, g, goal, s, e), Everything(q, orig, e, At(s), 0))
      {
        WalkOutcome(q, orig, inner, g, goal, s, e);
      }
    } else {
      var k: nat :| inner in Within(orig, s, k);
      var w := FoundWalk(orig, s, inner, k);
      var q := Wide(p, |w|);
      ChainPrints(p, |w|, orig, w, 0);
      WalkOutcome(q, orig, inner, g, goal, s, Chain(w));
    }
  }

  function Is(n: EntrySchema): EntrySchema -> bool {
    m => m == n
  }

  /** The smallest case: directories that list directories, and a predicate true of `inner` only.
      The full traversal prints a directory in a directory, the walk prints nothing. */
  lemma InnerAlonePrintsNothing(s: EntrySchema, inner: EntrySchema)
    requires s != inner && s.path == inner.path == "dir"
    ensures var orig: Graph<EntrySchema> := map[s := [inner], inner := [inner]];
      var q, e := Wide(Is(inner), 2), Chain([s, inner]);
      && Everything(q, orig, e, At(s), 0).0 != []
      && Outcome(q, orig, inner, map["dir" := ["dir"]], {}, s, e) == ([], true)
  {
    var orig: Graph<EntrySchema> := map[s := [inner], inner := [inner]];
    var g: Graph<string> := map["dir" := ["dir"]];
    var q, e := Wide(Is(inner), 2), Chain([s, inner]);
    assert Paths([inner]) == ["dir"];
    assert inner in Within(orig, s, 1) by { assert s in Within(orig, s, 0) && inner in orig[s]; }
    ChainPrints(Is(inner), 2, orig, [s, inner], 0);
    WalkOutcome(q, orig, inner, g, {}, s, e);
  }

  /*** End to end ***/

  // Sibling nodes of one type are one node, because their labels would clash.
  lemma DecodedTypedApart(types: map<string, TypeSchema>, nodes: set<EntrySchema>)
    requires ClosedTypes(types) && DistinctLabels(types) && Complete(types, nodes, {})
    ensures TypedApart(NodeGraph(nodes))
  {
    forall n, c, d | n in nodes && c in n.children && d in n.children && c.typeID == d.typeID ensures c == d {
      var i :| 0 <= i < |n.children| && n.children[i] == c;
      var j :| 0 <= j < |n.children| && n.children[j] == d;
      SameTypeSamePosition(types, n, i, j);
    }
  }

  lemma SameTypeSamePosition(types: map<string, TypeSchema>, n: EntrySchema, i: nat, j: nat)
    requires ClosedTypes(types) && DistinctLabels(types) && n.typeID in types
    requires TypeIDs(n.children) == types[n.typeID].children
    requires i < |n.children| && j < |n.children| && n.children[i].typeID == n.children[j].typeID
    ensures i == j
  {
    var kids := types[n.typeID].children;
    assert kids[i] == n.children[i].typeID && kids[j] == n.children[j].typeID;
    assert kids[i] in kids;
  }

  // The nodes' child lists spell those of the type graph, below two nodes for the first type.
  ghost predicate Unfolds(types: map<string, TypeSchema>, rootID: string, orig: Graph<EntrySchema>, s: EntrySchema,
                          inner: EntrySchema) {
    && s in orig && inner in orig && s != inner && s.typeID == rootID == inner.typeID && s.path == inner.path
        && orig[s] == orig[inner]
    && forall n :: n in orig ==>
      && n.typeID in types && TypeIDs(orig[n]) == types[n.typeID].children
      && forall c :: c in orig[n] ==> c in orig && c != s
  }

  // A decoded stree unfolds its types ...
  lemma DecodedUnfolds(types: map<string, TypeSchema>, rootID: string, nodes: set<EntrySchema>, s: EntrySchema,
                       inner: EntrySchema)
    requires Complete(types, nodes, {}) && s.typeID == rootID && Decoded(nodes, s, inner)
    ensures Unfolds(types, rootID, NodeGraph(nodes), s, inner)
  {
  }

  lemma ShownIsSpelt(nodes: set<EntrySchema>, inner: EntrySchema, p: EntrySchema -> bool, g: Graph<string>,
                     goal: set<string>)
    requires Shows(nodes, inner, p, g, goal)
    ensures Spells(NodeGraph(nodes), g) && Seeks(NodeGraph(nodes), inner, goal, p)
  {
    assert NodeGraph(nodes).Keys == nodes;
  }

  // ... and meets everything Walk asks for.
  lemma DecodedReady(types: map<string, TypeSchema>, rootID: string, nodes: set<EntrySchema>, s: EntrySchema,
                     inner: EntrySchema, p: EntrySchema -> bool)
    requires ClosedTypes(types) && DistinctLabels(types) && Complete(types, nodes, {}) && s.typeID == rootID
    requires Decoded(nodes, s, inner) && PathsApart(nodes, inner)
    ensures var orig, g, goal := NodeGraph(nodes), View(nodes - {inner}), Satisfying(nodes - {inner}, p);
      && Unfolds(types, rootID, orig, s, inner) && Spells(orig, g) && Seeks(orig, inner, goal, p)
      && Outer(nodes, s, inner) && Shows(nodes, inner, p, g, goal) && TypedApart(orig)
  {
    assert Outer(nodes, s, inner);
    ShowsDecoded(nodes, s, inner, p);
    hide Shows, Spells, Seeks, Unfolds, Outer, Satisfying, Complete, Decoded, DistinctLabels, ClosedTypes, TypedApart;
    DecodedTypedApart(types, nodes);
    DecodedUnfolds(types, rootID, nodes, s, inner);
    ShownIsSpelt(nodes, inner, p, View(nodes - {inner}), Satisfying(nodes - {inner}, p));
  }

  /** From the decoded type graph to the printed lines: for every closed type graph with distinct
      sibling labels the walk over the pruned schema prints what the plain traversal of the
      decoded one prints, unless only `inner` satisfies the schema predicate. */
  method Find(types: map<string, TypeSchema>, rootID: string, q: Query, e: Entry)
    returns (printed: seq<string>, ok: bool, ghost s: EntrySchema, ghost inner: EntrySchema,
             ghost orig: Graph<EntrySchema>, ghost g: Graph<string>, ghost goal: set<string>)
    requires ClosedTypes(types) && DistinctLabels(types) && rootID in types
    ensures Unfolds(types, rootID, orig, s, inner) && Spells(orig, g) && Seeks(orig, inner, goal, q.schemaP)
    ensures if Agreeable(orig, inner, g, goal, s, q.schemaP)
        then SameOutput((printed, ok), Everything(q, orig, e, At(s), 0))
            else printed == [] && ok
  {
    hide Unfolds, Spells, Agreeable, Shows, Outer, PathsApart, Seeks, TypedApart, ClosedTypes, DistinctLabels, Complete,
        Everything, UniquePaths, Decoded;
    var root;
    ghost var nodes;
    root, inner, nodes := Unmarshal(types, rootID);
    s, orig := root, NodeGraph(nodes);
    g, goal := View(nodes - {inner}), Satisfying(nodes - {inner}, q.schemaP);
    DecodedReady(types, rootID, nodes, root, inner, q.schemaP);
    var w := new WalkerImpl(q);
    ok := w.Walk(e, root, false, nodes, inner, g, goal);
    printed := w.printed;
  }
}
