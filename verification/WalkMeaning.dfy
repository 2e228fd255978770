/** What find prints, entry by entry (cmd/internal/find/walker.go): the whole tree in preorder,
    without any bound, and which of its entries are printed. */
module WalkMeaning {
  import opened Graph
  import opened EntrySchemas
  import opened Walker

  // An entry of the tree, its schema position and depth, and whether all above it can be listed.
  datatype Place = Place(e: Entry, at: Position, depth: nat, open: bool)

  function Preorder(orig: Graph<EntrySchema>, e: Entry, at: Position, depth: nat, open: bool): seq<Place> {
    [Place(e, at, depth, open)] +
    match e.listing
    case ListError => []
    case Children(kids) => PreorderBelow(orig, kids, at, depth + 1, open && e.canList)
  }

  function PreorderBelow(orig: Graph<EntrySchema>, es: seq<Entry>, at: Position, depth: nat, open: bool): seq<Place> {
    if es == [] then []
    else
      var last := es[|es| - 1];
      PreorderBelow(orig, es[..|es| - 1], at, depth, open)
      + Preorder(orig, last, ChildPosition(orig, at, last.typeID), depth, open)
  }

  // Come to: the start, or no deeper than maxdepth below directories that can be listed.
  predicate Reached(q: Query, x: Place) {
    x.open && (x.depth == 0 || x.depth <= q.maxdepth)
  }

  // Deep enough, and its schema node, if schemas are known, is there and satisfies.
  predicate Chosen(q: Query, x: Place) {
    x.depth >= q.mindepth && !x.at.Absent? && (x.at.At? ==> q.schemaP(x.at.node))
  }

  // Its full metadata are wanted, and there are any.
  predicate WantsMeta(q: Query, x: Place)
    requires !x.at.Absent?
  {
    q.fullmeta && (x.at.At? ==> q.hasMeta(x.at.node))
  }

  predicate Prints(q: Query, x: Place) {
    && Reached(q, x) && Chosen(q, x)
    && (WantsMeta(q, x) ==> q.metadataOk(x.e))
    && q.p(x.e, x.at, WantsMeta(q, x))
  }

  // Its metadata cannot be fetched, or its children cannot be listed.
  predicate Fails(q: Query, x: Place) {
    Reached(q, x) &&
    ((Chosen(q, x) && WantsMeta(q, x) && !q.metadataOk(x.e))
     || (x.e.canList && x.depth < q.maxdepth && x.e.listing.ListError?))
  }

  function Lines(q: Query, xs: seq<Place>): seq<string> {
    if xs == [] then []
    else
      var last := xs[|xs| - 1];
      Lines(q, xs[..|xs| - 1]) + if Prints(q, last) then [last.e.name] else []
  }

  predicate AllWell(q: Query, xs: seq<Place>) {
    forall x :: x in xs ==> !Fails(q, x)
  }

  lemma {:induction false} LinesAppend(q: Query, xs: seq<Place>, ys: seq<Place>)
    ensures Lines(q, xs + ys) == Lines(q, xs) + Lines(q, ys)
    ensures AllWell(q, xs + ys) <==> AllWell(q, xs) && AllWell(q, ys)
  {
    if ys == [] {
      assert xs + ys == xs;
    } else {
      var init, last := ys[..|ys| - 1], ys[|ys| - 1];
      LinesAppend(q, xs, init);
      assert (xs + ys)[..|xs + ys| - 1] == xs + init && xs + ys == xs + init + [last] && ys == init + [last];
    }
  }

  lemma LinesOne(q: Query, x: Place)
    ensures Lines(q, [x]) == if Prints(q, x) then [x.e.name] else []
    ensures AllWell(q, [x]) <==> !Fails(q, x)
  {
    assert [x][..0] == [] && x in [x];
  }

  // Nothing is printed, and nothing fails, below what is not listed.
  lemma {:induction false} NothingBeyond(q: Query, orig: Graph<EntrySchema>, e: Entry, at: Position, depth: nat,
                                         open: bool)
    requires depth > 0 && (!open || depth > q.maxdepth)
    ensures Lines(q, Preorder(orig, e, at, depth, open)) == [] && AllWell(q, Preorder(orig, e, at, depth, open))
    decreases e, 0
  {
    var x := Place(e, at, depth, open);
    LinesOne(q, x);
    if e.listing.Children? {
      NothingBeyondBelow(q, orig, e.listing.entries, at, depth + 1, open && e.canList);
      LinesAppend(q, [x], PreorderBelow(orig, e.listing.entries, at, depth + 1, open && e.canList));
    } else {
      assert [x] + [] == [x];
    }
  }

  lemma {:induction false} NothingBeyondBelow(q: Query, orig: Graph<EntrySchema>, es: seq<Entry>, at: Position,
                                              depth: nat, open: bool)
    requires depth > 0 && (!open || depth > q.maxdepth)
    ensures Lines(q, PreorderBelow(orig, es, at, depth, open)) == []
    ensures AllWell(q, PreorderBelow(orig, es, at, depth, open))
    decreases es
  {
    if es != [] {
      var init, last := es[..|es| - 1], es[|es| - 1];
      NothingBeyondBelow(q, orig, init, at, depth, open);
      NothingBeyond(q, orig, last, ChildPosition(orig, at, last.typeID), depth, open);
      LinesAppend(q, PreorderBelow(orig, init, at, depth, open),
                  Preorder(orig, last, ChildPosition(orig, at, last.typeID), depth, open));
    }
  }

  // r is what the places of a subtree print, and whether all went well.
  ghost predicate Tells(q: Query, r: (seq<string>, bool), xs: seq<Place>) {
    r.0 == Lines(q, xs) && (r.1 <==> AllWell(q, xs))
  }

  lemma TellsBoth(q: Query, r: (seq<string>, bool), xs: seq<Place>, r': (seq<string>, bool), xs': seq<Place>)
    requires Tells(q, r, xs) && Tells(q, r', xs')
    ensures Tells(q, (r.0 + r'.0, r.1 && r'.1), xs + xs')
  {
    LinesAppend(q, xs, xs');
  }

  // The entry itself.
  lemma VisitTells(q: Query, e: Entry, at: Position, depth: nat)
    requires depth == 0 || depth <= q.maxdepth
    ensures var x := Place(e, at, depth, true);
      var (out, ok) := Visit(q, e, at, depth);
      && out == (if Prints(q, x) then [e.name] else [])
      && (Fails(q, x) <==> !ok || (Descends(q, e, depth) && e.listing.ListError?))
  {
  }

  // The tree is the entry and what is below it, as the traversal is.
  lemma PreorderIs(q: Query, orig: Graph<EntrySchema>, e: Entry, at: Position, depth: nat)
    ensures var x, r, v := Place(e, at, depth, true), Everything(q, orig, e, at, depth), Visit(q, e, at, depth);
      match e.listing
      case ListError =>
        && Preorder(orig, e, at, depth, true) == [x]
        && r == if Descends(q, e, depth) then (v.0, false) else v
      case Children(kids) =>
        && Preorder(orig, e, at, depth, true) == [x] + PreorderBelow(orig, kids, at, depth + 1, e.canList)
        && (!Descends(q, e, depth) ==> r == v)
        && var b := EverythingBelow(q, orig, kids, at, depth + 1);
           Descends(q, e, depth) ==> r == (v.0 + b.0, v.1 && b.1)
  {
    assert [Place(e, at, depth, true)] + [] == [Place(e, at, depth, true)];
  }

  // The entry, and the list of what is below it.
  lemma EntryTells(q: Query, e: Entry, at: Position, depth: nat, r: (seq<string>, bool))
    requires depth == 0 || depth <= q.maxdepth
    requires var v := Visit(q, e, at, depth);
      r == if Descends(q, e, depth) && e.listing.ListError? then (v.0, false) else v
    ensures Tells(q, r, [Place(e, at, depth, true)])
  {
    VisitTells(q, e, at, depth);
    LinesOne(q, Place(e, at, depth, true));
    hide Prints, Fails, Visit, Lines, AllWell;
  }

  // Nothing comes from below an entry that is not descended into.
  lemma ClosedTells(q: Query, orig: Graph<EntrySchema>, e: Entry, at: Position, depth: nat, r: (seq<string>, bool))
    requires e.listing.Children? && !Descends(q, e, depth) && Tells(q, r, [Place(e, at, depth, true)])
    ensures Tells(q, r, [Place(e, at, depth, true)] + PreorderBelow(orig, e.listing.entries, at, depth + 1, e.canList))
  {
    NothingBeyondBelow(q, orig, e.listing.entries, at, depth + 1, e.canList);
    hide PreorderBelow, Lines, AllWell;
    LinesAppend(q, [Place(e, at, depth, true)], PreorderBelow(orig, e.listing.entries, at, depth + 1, e.canList));
    assert r.0 + [] == r.0;
  }

  /** Down from a reached entry: what the traversal prints are the names of the printed places. */
  lemma {:induction false} TreeTells(q: Query, orig: Graph<EntrySchema>, e: Entry, at: Position, depth: nat)
    requires depth == 0 || depth <= q.maxdepth
    ensures Tells(q, Everything(q, orig, e, at, depth), Preorder(orig, e, at, depth, true))
    decreases e, 0
  {
    PreorderIs(q, orig, e, at, depth);
    hide Visit, Preorder, PreorderBelow, Everything, EverythingBelow, Tells;
    var v := Visit(q, e, at, depth);
    if e.listing.ListError? {
      EntryTells(q, e, at, depth, Everything(q, orig, e, at, depth));
    } else {
      EntryTells(q, e, at, depth, v);
      if Descends(q, e, depth) {
        var kids := e.listing.entries;
        TreesTell(q, orig, kids, at, depth + 1);
        TellsBoth(q, v, [Place(e, at, depth, true)], EverythingBelow(q, orig, kids, at, depth + 1),
                  PreorderBelow(orig, kids, at, depth + 1, e.canList));
      } else {
        ClosedTells(q, orig, e, at, depth, v);
      }
    }
  }

  lemma {:induction false} TreesTell(q: Query, orig: Graph<EntrySchema>, es: seq<Entry>, at: Position, depth: nat)
    requires 0 < depth <= q.maxdepth
    ensures Tells(q, EverythingBelow(q, orig, es, at, depth), PreorderBelow(orig, es, at, depth, true))
    decreases es
  {
    if es != [] {
      var init, last := es[..|es| - 1], es[|es| - 1];
      var place := ChildPosition(orig, at, last.typeID);
      TreesTell(q, orig, init, at, depth);
      TreeTells(q, orig, last, place, depth);
      TellsBoth(q, EverythingBelow(q, orig, init, at, depth), PreorderBelow(orig, init, at, depth, true),
                Everything(q, orig, last, place, depth), Preorder(orig, last, place, depth, true));
    }
  }

  /** find prints, in preorder, the names of exactly those entries of the tree that are the start or
      no deeper than maxdepth below directories that can be listed, no less deep than mindepth, whose
      schema node satisfies, and which satisfy the predicate, with the full metadata when they are
      wanted and there are any. It reports success exactly when no metadata fetch and no listing
      on the way failed. */
  lemma FindPrints(q: Query, orig: Graph<EntrySchema>, e: Entry, at: Position)
    ensures var xs := Preorder(orig, e, at, 0, true);
      Everything(q, orig, e, at, 0) == (Lines(q, xs), AllWell(q, xs))
  {
    TreeTells(q, orig, e, at, 0);
  }
}
