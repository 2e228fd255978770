/** The directory map of a listing of paths (volume/stat.go). */
module DirMaps {
  import opened Options
  import opened StatPaths

  // An entry's attributes: whether its mode is a directory's, and all else.
  datatype Attr = Attr(isDir: bool, rest: int)

  // The attributes of a directory that was not listed: mode 0550 and nothing else.
  const MADE := Attr(true, 360)

  // What a directory holds, or None for a nil map: not explored.
  type Children = Option<map<string, Attr>>

  type DirMap = map<Path, Children>

  const START: DirMap := map[Root := Some(map[])]

  // The root is there, and only directories at maxdepth or deeper are unexplored.
  predicate Safe(d: DirMap, maxdepth: nat) {
    Root in d && forall x :: x in d && d[x].None? ==> Depth(x) >= maxdepth
  }

  predicate Rooted(d: DirMap) {
    forall x :: x in d && x.Under? ==> x.parent in d
  }

  predicate Has(d: DirMap, y: Path) {
    y.Under? && y.parent in d && d[y.parent].Some? && y.name in d[y.parent].value
  }

  function At(d: DirMap, y: Path): Attr
    requires Has(d, y)
  {
    d[y.parent].value[y.name]
  }

  /*** What the operations compute ***/

  function PutEntry(d: DirMap, y: Path, a: Attr): (r: DirMap)
    requires y.Under? && y.parent in d && d[y.parent].Some?
    ensures r.Keys == d.Keys
    ensures forall x :: x in d ==> (r[x].None? <==> d[x].None?)
  {
    d[y.parent := Some(d[y.parent].value[y.name := a])]
  }

  lemma PutEntryHas(d: DirMap, y: Path, a: Attr, z: Path)
    requires y.Under? && y.parent in d && d[y.parent].Some?
    ensures var r := PutEntry(d, y, a);
      && (Has(r, z) <==> Has(d, z) || z == y)
      && (Has(r, z) ==> At(r, z) == if z == y then a else At(d, z))
  {
  }

  lemma PutEntryCommutes(d: DirMap, y: Path, v: Children, a: Attr, p: Path, c: Children)
    requires y.Under? && y.parent in d && d[y.parent].Some? && p != y && p != y.parent && y.parent != y
    ensures PutEntry(d[p := c][y := v], y, a) == PutEntry(d[y := v], y, a)[p := c]
  {
    assert d[p := c][y := v] == d[y := v][p := c];
  }

  // Makes p and the directories above it, as far as they are missing.
  function MakeDirs(d: DirMap, maxdepth: nat, p: Path): (r: DirMap)
    requires Safe(d, maxdepth) && Depth(p) < maxdepth
    ensures Safe(r, maxdepth) && p in r && d.Keys <= r.Keys
  {
    if p in d then d
    else PutEntry(MakeDirs(d, maxdepth, p.parent)[p := Some(map[])], p, MADE)
  }

  function NewDir(maxdepth: nat, p: Path): Children {
    if Depth(p) == maxdepth then None else Some(map[])
  }

  function AddLine(d: DirMap, maxdepth: nat, p: Path, a: Attr): (r: DirMap)
    requires Safe(d, maxdepth) && p.Under? && Depth(p) <= maxdepth
    ensures Safe(r, maxdepth)
  {
    PutEntry(MakeDirs(if a.isDir then d[p := NewDir(maxdepth, p)] else d, maxdepth, p.parent), p, a)
  }

  // Setting a key first or last makes no difference to directories that do not lie below it.
  lemma {:induction false} MakeDirsCommutes(d: DirMap, maxdepth: nat, q: Path, p: Path, c: Children)
    requires Safe(d, maxdepth) && Depth(q) < maxdepth && Depth(q) < Depth(p) && (c.None? ==> Depth(p) >= maxdepth)
    ensures Safe(d[p := c], maxdepth)
    ensures MakeDirs(d[p := c], maxdepth, q) == MakeDirs(d, maxdepth, q)[p := c]
  {
    if q !in d {
      MakeDirsCommutes(d, maxdepth, q.parent, p, c);
      PutEntryCommutes(MakeDirs(d, maxdepth, q.parent), q, Some(map[]), MADE, p, c);
    }
  }

  /*** One line ***/

  // r is d with some missing directories made, each entered in its parent.
  ghost predicate Extended(d: DirMap, r: DirMap) {
    && d.Keys <= r.Keys
    && (forall x :: x in r ==> (r[x].None? <==> x in d && d[x].None?))
    && forall y :: ExtendedAt(d, r, y)
  }

  predicate ExtendedAt(d: DirMap, r: DirMap, y: Path) {
    && (Has(r, y) <==> Has(d, y) || (y in r && y !in d))
    && (Has(r, y) ==> At(r, y) == if y in r && y !in d then MADE else At(d, y))
  }

  lemma {:induction false} MakeDirsExtends(d: DirMap, maxdepth: nat, p: Path)
    requires Safe(d, maxdepth) && Depth(p) < maxdepth && Rooted(d)
    ensures var r := MakeDirs(d, maxdepth, p);
      Extended(d, r) && Rooted(r) && forall x :: x in r <==> x in d || x == p || Below(p, x)
  {
    if p in d {
      RootedHoldsAncestors(d, p);
    } else {
      MakeDirsExtends(d, maxdepth, p.parent);
      var e := MakeDirs(d, maxdepth, p.parent);
      BelowIsShorter(p.parent, p);
      MakeLastExtends(d, e, p);
    }
  }

  lemma {:induction false} RootedHoldsAncestors(d: DirMap, p: Path)
    requires Rooted(d) && p in d
    ensures forall x :: Below(p, x) ==> x in d
  {
    if p.Under? { RootedHoldsAncestors(d, p.parent); }
  }

  lemma {:induction false} BelowIsShorter(q: Path, p: Path)
    ensures Below(q, p) ==> Depth(p) < Depth(q)
  {
    if q.Under? { BelowIsShorter(q.parent, p); }
  }

  lemma EmptyDirHas(e: DirMap, p: Path, y: Path)
    requires p !in e
    ensures var f := e[p := Some(map[])]; (Has(f, y) <==> Has(e, y)) && (Has(f, y) ==> At(f, y) == At(e, y))
  {
  }

  lemma MakeLastEntry(d: DirMap, e: DirMap, p: Path, y: Path)
    requires ExtendedAt(d, e, y) && d.Keys <= e.Keys && p.Under? && p !in e && p.parent in e && e[p.parent].Some?
    ensures ExtendedAt(d, PutEntry(e[p := Some(map[])], p, MADE), y)
  {
    EmptyDirHas(e, p, y);
    PutEntryHas(e[p := Some(map[])], p, MADE, y);
  }

  lemma MakeLastExtends(d: DirMap, e: DirMap, p: Path)
    requires Extended(d, e) && Rooted(e) && p.Under? && p !in e && p.parent in e && e[p.parent].Some?
    ensures var r := PutEntry(e[p := Some(map[])], p, MADE);
      Extended(d, r) && Rooted(r) && r.Keys == e.Keys + {p}
  {
    var r := PutEntry(e[p := Some(map[])], p, MADE);
    forall y ensures ExtendedAt(d, r, y) {
      assert ExtendedAt(d, e, y);
      MakeLastEntry(d, e, p, y);
    }
  }

  // What was listed for a path.
  datatype Stat = Stat(path: Path, attr: Attr)

  predicate Passed(ls: seq<Stat>, x: Path) {
    exists i :: 0 <= i < |ls| && Below(ls[i].path, x)
  }

  predicate ListedDir(ls: seq<Stat>, x: Path) {
    exists i :: 0 <= i < |ls| && ls[i].path == x && ls[i].attr.isDir
  }

  predicate Listed(ls: seq<Stat>, x: Path) {
    exists i :: 0 <= i < |ls| && ls[i].path == x
  }

  /** The map of a listing: its keys are the root, the listed directories and all directories on
      the way to what was listed; the listed directories at maxdepth are unexplored; every listed
      path and every directory on the way is an entry of its parent, with its attributes if it was
      listed, and nothing else is an entry of anything. */
  ghost predicate Consistent(d: DirMap, ls: seq<Stat>, maxdepth: nat) {
    && (forall x :: x in d <==> x == Root || Passed(ls, x) || ListedDir(ls, x))
    && (forall x :: x in d ==> (d[x].None? <==> ListedDir(ls, x) && Depth(x) == maxdepth))
    && (forall y :: Has(d, y) <==> y.Under? && (Passed(ls, y) || Listed(ls, y)))
    && (forall y :: Has(d, y) && !Listed(ls, y) ==> At(d, y) == MADE)
    && (forall i :: 0 <= i < |ls| && Has(d, ls[i].path) ==> At(d, ls[i].path) == ls[i].attr)
  }

  // The next path is new, nothing below it came before it, and what came above it are directories.
  predicate InOrder(ls: seq<Stat>, p: Path) {
    forall i :: 0 <= i < |ls| ==>
      ls[i].path != p && !Below(ls[i].path, p) && (Below(p, ls[i].path) ==> ls[i].attr.isDir)
  }

  lemma ListingGrows(ls: seq<Stat>, s: Stat, x: Path)
    ensures Passed(ls + [s], x) <==> Passed(ls, x) || Below(s.path, x)
    ensures Listed(ls + [s], x) <==> Listed(ls, x) || s.path == x
    ensures ListedDir(ls + [s], x) <==> ListedDir(ls, x) || (s.path == x && s.attr.isDir)
  {
    var more := ls + [s];
    assert more[|ls|] == s;
    if i :| 0 <= i < |ls| && Below(ls[i].path, x) { assert Below(more[i].path, x); }
    if i :| 0 <= i < |ls| && ls[i].path == x { assert more[i].path == x; }
    if i :| 0 <= i < |ls| && ls[i].path == x && ls[i].attr.isDir { assert more[i].path == x; }
  }

  // A new key that was made on the way to p was not listed.
  lemma MadeIsUnlisted(d: DirMap, ls: seq<Stat>, maxdepth: nat, p: Path, y: Path)
    requires Consistent(d, ls, maxdepth) && InOrder(ls, p) && Below(p, y) && y !in d
    ensures !Listed(ls, y)
  {
    if i :| 0 <= i < |ls| && ls[i].path == y { assert ListedDir(ls, y); }
  }

  // Entering p itself, and making it a directory, in a map whose directories above p were made.
  function Enter(e: DirMap, maxdepth: nat, p: Path, a: Attr): (r: DirMap)
    requires p.Under? && p.parent in e && e[p.parent].Some?
    ensures p.parent != p && Has(r, p) && At(r, p) == a
    ensures r.Keys == if a.isDir then e.Keys + {p} else e.Keys
  {
    PutEntry(if a.isDir then e[p := NewDir(maxdepth, p)] else e, p, a)
  }

  lemma AddLineIsEnter(d: DirMap, maxdepth: nat, p: Path, a: Attr)
    requires Safe(d, maxdepth) && p.Under? && Depth(p) <= maxdepth
    ensures AddLine(d, maxdepth, p, a) == Enter(MakeDirs(d, maxdepth, p.parent), maxdepth, p, a)
  {
    MakeDirsCommutes(d, maxdepth, p.parent, p, NewDir(maxdepth, p));
  }

  // A directory's line empties it; the line's path becomes an entry.
  lemma EnterHas(e: DirMap, maxdepth: nat, p: Path, a: Attr, y: Path)
    requires p.Under? && p.parent in e && e[p.parent].Some?
    ensures var r := Enter(e, maxdepth, p, a);
      && (Has(r, y) <==> y == p || (Has(e, y) && !(a.isDir && y.parent == p)))
      && (Has(r, y) ==> At(r, y) == if y == p then a else At(e, y))
  {
    PutEntryHas(if a.isDir then e[p := NewDir(maxdepth, p)] else e, p, a, y);
  }

  // One entry of a consistent map after one line in order.
  lemma EntryStays(d: DirMap, ls: seq<Stat>, maxdepth: nat, p: Path, a: Attr, y: Path)
    requires Consistent(d, ls, maxdepth) && Rooted(d) && Safe(d, maxdepth)
    requires p.Under? && Depth(p) <= maxdepth && InOrder(ls, p)
    ensures var r, more := AddLine(d, maxdepth, p, a), ls + [Stat(p, a)];
      && (Has(r, y) <==> y.Under? && (Passed(more, y) || Listed(more, y)))
      && (Has(r, y) && !Listed(more, y) ==> At(r, y) == MADE)
      && (Has(r, y) ==> At(r, y) == if y == p then a else if Below(p, y) && y !in d then MADE else At(d, y))
  {
    var e := MakeDirs(d, maxdepth, p.parent);
    AddLineIsEnter(d, maxdepth, p, a);
    MakeDirsExtends(d, maxdepth, p.parent);
    assert ExtendedAt(d, e, y);
    EnterHas(e, maxdepth, p, a, y);
    ListingGrows(ls, Stat(p, a), y);
    NewPathIsAbsent(d, ls, maxdepth, p, y);
    if Below(p, y) && y !in d { MadeIsUnlisted(d, ls, maxdepth, p, y); }
  }

  // Neither p nor anything below it is known.
  lemma NewPathIsAbsent(d: DirMap, ls: seq<Stat>, maxdepth: nat, p: Path, y: Path)
    requires Consistent(d, ls, maxdepth) && Rooted(d) && p.Under? && InOrder(ls, p)
    ensures p !in d && !Below(p, p) && (y.Under? && y.parent == p ==> !Has(d, y) && y !in d)
  {
    BelowIsShorter(p, p);
  }

  lemma KeysAfterLine(d: DirMap, ls: seq<Stat>, maxdepth: nat, p: Path, a: Attr)
    requires Consistent(d, ls, maxdepth) && Rooted(d) && Safe(d, maxdepth)
    requires p.Under? && Depth(p) <= maxdepth && InOrder(ls, p)
    ensures var r, more := AddLine(d, maxdepth, p, a), ls + [Stat(p, a)];
      && Rooted(r)
      && (forall x :: x in r <==> x == Root || Passed(more, x) || ListedDir(more, x))
      && (forall x :: x in r ==> (r[x].None? <==> ListedDir(more, x) && Depth(x) == maxdepth))
  {
    var r, more, e := AddLine(d, maxdepth, p, a), ls + [Stat(p, a)], MakeDirs(d, maxdepth, p.parent);
    AddLineIsEnter(d, maxdepth, p, a);
    MakeDirsExtends(d, maxdepth, p.parent);
    NewPathIsAbsent(d, ls, maxdepth, p, p);
    BelowIsShorter(p, p);
    assert r.Keys == if a.isDir then e.Keys + {p} else e.Keys;
    forall x
      ensures x in r <==> x == Root || Passed(more, x) || ListedDir(more, x)
      ensures x in r ==> (r[x].None? <==> ListedDir(more, x) && Depth(x) == maxdepth)
    {
      ListingGrows(ls, Stat(p, a), x);
      KeyAfterLine(d, ls, maxdepth, p, x);
    }
  }

  // A directory on the way that is not there yet was not listed.
  lemma KeyAfterLine(d: DirMap, ls: seq<Stat>, maxdepth: nat, p: Path, x: Path)
    requires Consistent(d, ls, maxdepth) && p.Under? && InOrder(ls, p)
    ensures Below(p, x) ==> x != p
    ensures x !in d ==> !ListedDir(ls, x)
    ensures !ListedDir(ls, p) && p !in d
  {
    BelowIsShorter(p, p);
  }

  /** A line in order keeps the map that of the listing so far. */
  lemma LineKeepsConsistent(d: DirMap, ls: seq<Stat>, maxdepth: nat, s: Stat)
    requires Consistent(d, ls, maxdepth) && Rooted(d) && Safe(d, maxdepth)
    requires s.path.Under? && Depth(s.path) <= maxdepth && InOrder(ls, s.path)
    ensures var r := AddLine(d, maxdepth, s.path, s.attr);
      Rooted(r) && Consistent(r, ls + [s], maxdepth)
  {
    var r, more := AddLine(d, maxdepth, s.path, s.attr), ls + [s];
    KeysAfterLine(d, ls, maxdepth, s.path, s.attr);
    forall y
      ensures Has(r, y) <==> y.Under? && (Passed(more, y) || Listed(more, y))
      ensures Has(r, y) && !Listed(more, y) ==> At(r, y) == MADE
    {
      EntryStays(d, ls, maxdepth, s.path, s.attr, y);
    }
    forall i | 0 <= i < |more| && Has(r, more[i].path) ensures At(r, more[i].path) == more[i].attr {
      EntryStays(d, ls, maxdepth, s.path, s.attr, more[i].path);
      if i < |ls| { ListedStays(d, ls, maxdepth, s.path, i); }
    }
  }

  lemma ListedStays(d: DirMap, ls: seq<Stat>, maxdepth: nat, p: Path, i: nat)
    requires Consistent(d, ls, maxdepth) && InOrder(ls, p) && i < |ls|
    ensures ls[i].path != p && !(Below(p, ls[i].path) && ls[i].path !in d)
    ensures ls[i].path.Under? ==> Has(d, ls[i].path) && At(d, ls[i].path) == ls[i].attr
  {
    var y := ls[i].path;
    assert Listed(ls, y);
    if Below(p, y) && y !in d { MadeIsUnlisted(d, ls, maxdepth, p, y); }
  }

  /*** All lines ***/

  predicate Shallow(ls: seq<Stat>, maxdepth: nat) {
    forall i :: 0 <= i < |ls| ==> ls[i].path.Under? && Depth(ls[i].path) <= maxdepth
  }

  ghost predicate Unique(ls: seq<Stat>) {
    forall i, j :: 0 <= i < j < |ls| ==> ls[i].path != ls[j].path
  }

  ghost predicate DirsAbove(ls: seq<Stat>) {
    forall i, j :: 0 <= i < |ls| && 0 <= j < |ls| && Below(ls[i].path, ls[j].path) ==> ls[j].attr.isDir
  }

  // What find prints below its start: paths no deeper than maxdepth, each once, and what has
  // anything below it is a directory.
  ghost predicate Listing(ls: seq<Stat>, maxdepth: nat) {
    Shallow(ls, maxdepth) && Unique(ls) && DirsAbove(ls)
  }

  // A directory's line comes after that of something below it.
  predicate Late(ls: seq<Stat>, i: nat, j: nat) {
    i < j < |ls| && Below(ls[i].path, ls[j].path)
  }

  function MapOf(ls: seq<Stat>, maxdepth: nat): (d: DirMap)
    requires Shallow(ls, maxdepth)
    ensures Safe(d, maxdepth)
  {
    if ls == [] then START
    else var s := ls[|ls| - 1]; AddLine(MapOf(ls[..|ls| - 1], maxdepth), maxdepth, s.path, s.attr)
  }

  // The map of the first n lines.
  function MapUpTo(ls: seq<Stat>, maxdepth: nat, n: nat): DirMap
    requires Shallow(ls, maxdepth) && n <= |ls|
  {
    MapOf(ls[..n], maxdepth)
  }

  lemma MapStep(ls: seq<Stat>, maxdepth: nat, n: nat)
    requires Shallow(ls, maxdepth) && n < |ls|
    ensures ls[n].path.Under? && Depth(ls[n].path) <= maxdepth
    ensures var d := MapUpTo(ls, maxdepth, n);
      Safe(d, maxdepth) && MapUpTo(ls, maxdepth, n + 1) == AddLine(d, maxdepth, ls[n].path, ls[n].attr)
  {
    assert ls[..n + 1][..n] == ls[..n];
  }

  lemma ListingInOrder(ls: seq<Stat>, maxdepth: nat, n: nat)
    requires Listing(ls, maxdepth) && n < |ls| && forall i :: !Late(ls, i, n)
    ensures InOrder(ls[..n], ls[n].path)
  {
    forall i | 0 <= i < n ensures !Below(ls[i].path, ls[n].path) { assert !Late(ls, i, n); }
  }

  lemma ConsistentStep(ls: seq<Stat>, maxdepth: nat, n: nat)
    requires Shallow(ls, maxdepth) && n < |ls| && InOrder(ls[..n], ls[n].path)
    ensures var d, e := MapUpTo(ls, maxdepth, n), MapUpTo(ls, maxdepth, n + 1);
      Rooted(d) && Consistent(d, ls[..n], maxdepth) ==> Rooted(e) && Consistent(e, ls[..n + 1], maxdepth)
  {
    hide Consistent;
    var d := MapUpTo(ls, maxdepth, n);
    MapStep(ls, maxdepth, n);
    if Rooted(d) && Consistent(d, ls[..n], maxdepth) {
      LineKeepsConsistent(d, ls[..n], maxdepth, ls[n]);
      assert ls[..n + 1] == ls[..n] + [ls[n]];
    }
  }

  lemma StartIsConsistent(maxdepth: nat)
    ensures Rooted(MapOf([], maxdepth)) && Consistent(MapOf([], maxdepth), [], maxdepth)
  {
  }

  lemma {:induction false} OrderedIsConsistent(ls: seq<Stat>, maxdepth: nat, n: nat)
    requires Listing(ls, maxdepth) && n <= |ls| && forall i, j :: !Late(ls, i, j)
    ensures Rooted(MapUpTo(ls, maxdepth, n)) && Consistent(MapUpTo(ls, maxdepth, n), ls[..n], maxdepth)
  {
    hide Consistent;
    if n == 0 {
      assert ls[..0] == [];
      StartIsConsistent(maxdepth);
    } else {
      OrderedIsConsistent(ls, maxdepth, n - 1);
      ListingInOrder(ls, maxdepth, n - 1);
      ConsistentStep(ls, maxdepth, n - 1);
    }
  }

  // Whatever the order, all directories above a key are keys, and keys stay.
  lemma AddLineRooted(d: DirMap, maxdepth: nat, p: Path, a: Attr)
    requires Safe(d, maxdepth) && Rooted(d) && p.Under? && Depth(p) <= maxdepth
    ensures var r := AddLine(d, maxdepth, p, a);
      && Rooted(r) && d.Keys <= r.Keys && (a.isDir ==> p in r) && (forall x :: Below(p, x) ==> x in r)
  {
    AddLineIsEnter(d, maxdepth, p, a);
    MakeDirsExtends(d, maxdepth, p.parent);
  }

  lemma {:induction false} MapHolds(ls: seq<Stat>, maxdepth: nat, n: nat, i: nat)
    requires Shallow(ls, maxdepth) && n <= |ls|
    ensures Rooted(MapOf(ls[..n], maxdepth))
    ensures i < n ==> var d, s := MapOf(ls[..n], maxdepth), ls[i];
      (s.attr.isDir ==> s.path in d) && forall x :: Below(s.path, x) ==> x in d
  {
    if n > 0 {
      MapHolds(ls, maxdepth, n - 1, i);
      assert ls[..n][..n - 1] == ls[..n - 1];
      AddLineRooted(MapOf(ls[..n - 1], maxdepth), maxdepth, ls[n - 1].path, ls[n - 1].attr);
    }
  }

  // The directory or file right below p on the way to q.
  function Toward(q: Path, p: Path): (c: Path)
    requires Below(q, p)
    ensures c.Under? && c.parent == p && (c == q || Below(q, c))
  {
    if q.parent == p then q else Toward(q.parent, p)
  }

  // An entry that is missing although nothing will make it any more.
  predicate Lost(ls: seq<Stat>, d: DirMap, c: Path) {
    !Has(d, c) && (c in d || forall k :: 0 <= k < |ls| ==> !Below(ls[k].path, c))
  }

  lemma NothingBelowFiles(ls: seq<Stat>, i: nat, k: nat)
    requires DirsAbove(ls) && i < |ls| && k < |ls|
    ensures Below(ls[k].path, ls[i].path) ==> ls[i].attr.isDir
  {
  }

  lemma LosingLine(ls: seq<Stat>, maxdepth: nat, d: DirMap, i: nat, j: nat)
    requires Shallow(ls, maxdepth) && DirsAbove(ls) && Late(ls, i, j) && Safe(d, maxdepth) && Rooted(d)
    requires (ls[i].attr.isDir ==> ls[i].path in d) && forall x :: Below(ls[i].path, x) ==> x in d
    ensures Lost(ls, AddLine(d, maxdepth, ls[j].path, ls[j].attr), Toward(ls[i].path, ls[j].path))
  {
    var c, p := Toward(ls[i].path, ls[j].path), ls[j].path;
    AddLineIsEnter(d, maxdepth, p, ls[j].attr);
    EnterHas(MakeDirs(d, maxdepth, p.parent), maxdepth, p, ls[j].attr, c);
    AddLineRooted(d, maxdepth, p, ls[j].attr);
    if c !in d {
      assert c == ls[i].path;
      forall k | 0 <= k < |ls| ensures !Below(ls[k].path, c) { NothingBelowFiles(ls, i, k); }
    }
  }

  lemma StaysLost(ls: seq<Stat>, maxdepth: nat, d: DirMap, n: nat, c: Path)
    requires Shallow(ls, maxdepth) && n < |ls| && Safe(d, maxdepth) && Rooted(d)
    requires Lost(ls, d, c) && ls[n].path != c
    ensures Lost(ls, AddLine(d, maxdepth, ls[n].path, ls[n].attr), c)
  {
    var p, a := ls[n].path, ls[n].attr;
    var e := MakeDirs(d, maxdepth, p.parent);
    AddLineIsEnter(d, maxdepth, p, a);
    MakeDirsExtends(d, maxdepth, p.parent);
    assert ExtendedAt(d, e, c);
    EnterHas(e, maxdepth, p, a, c);
    assert c in e && c !in d ==> Below(p, c);
  }

  // c is not listed from line n on.
  predicate ListedNoMore(ls: seq<Stat>, c: Path, n: nat) {
    forall k :: n <= k < |ls| ==> ls[k].path != c
  }

  lemma LostStep(ls: seq<Stat>, maxdepth: nat, c: Path, n: nat)
    requires Shallow(ls, maxdepth) && n < |ls| && ls[n].path != c
    ensures Lost(ls, MapUpTo(ls, maxdepth, n), c) ==> Lost(ls, MapUpTo(ls, maxdepth, n + 1), c)
  {
    MapStep(ls, maxdepth, n);
    MapHolds(ls, maxdepth, n, n);
    var d := MapUpTo(ls, maxdepth, n);
    if Lost(ls, d, c) { StaysLost(ls, maxdepth, d, n, c); }
  }

  lemma {:induction false} LostToEnd(ls: seq<Stat>, maxdepth: nat, c: Path, n: nat)
    requires Shallow(ls, maxdepth) && n <= |ls| && ListedNoMore(ls, c, n)
    ensures Lost(ls, MapUpTo(ls, maxdepth, n), c) ==> Lost(ls, MapUpTo(ls, maxdepth, |ls|), c)
    decreases |ls| - n
  {
    if n < |ls| {
      LostStep(ls, maxdepth, c, n);
      LostToEnd(ls, maxdepth, c, n + 1);
    }
  }

  lemma LostAtLate(ls: seq<Stat>, maxdepth: nat, i: nat, j: nat)
    requires Shallow(ls, maxdepth) && DirsAbove(ls) && Late(ls, i, j)
    ensures Lost(ls, MapUpTo(ls, maxdepth, j + 1), Toward(ls[i].path, ls[j].path))
  {
    MapStep(ls, maxdepth, j);
    MapHolds(ls, maxdepth, j, i);
    LosingLine(ls, maxdepth, MapUpTo(ls, maxdepth, j), i, j);
  }

  lemma LostIsInconsistent(ls: seq<Stat>, maxdepth: nat, c: Path, i: nat)
    requires Shallow(ls, maxdepth) && c.Under? && i < |ls| && (ls[i].path == c || Below(ls[i].path, c))
    requires !Has(MapUpTo(ls, maxdepth, |ls|), c)
    ensures !Consistent(MapOf(ls, maxdepth), ls, maxdepth)
  {
    assert ls[..|ls|] == ls;
    assert Passed(ls, c) || Listed(ls, c);
  }

  // A later line for the directory that lost its entry loses one itself.
  lemma LateAgain(ls: seq<Stat>, maxdepth: nat, i: nat, j: nat, k: nat)
    requires Listing(ls, maxdepth) && Late(ls, i, j) && j < k < |ls| && ls[k].path == Toward(ls[i].path, ls[j].path)
    ensures Late(ls, i, k) && Depth(ls[j].path) < Depth(ls[k].path) < Depth(ls[i].path)
  {
    assert ls[i].path != ls[k].path;
    BelowIsShorter(ls[i].path, ls[k].path);
  }

  lemma LostForGood(ls: seq<Stat>, maxdepth: nat, c: Path, i: nat, n: nat)
    requires Shallow(ls, maxdepth) && c.Under? && i < |ls| && (ls[i].path == c || Below(ls[i].path, c))
    requires n <= |ls| && Lost(ls, MapUpTo(ls, maxdepth, n), c) && ListedNoMore(ls, c, n)
    ensures !Consistent(MapOf(ls, maxdepth), ls, maxdepth)
  {
    LostToEnd(ls, maxdepth, c, n);
    LostIsInconsistent(ls, maxdepth, c, i);
  }

  lemma {:induction false} LateIsInconsistent(ls: seq<Stat>, maxdepth: nat, i: nat, j: nat)
    requires Listing(ls, maxdepth) && Late(ls, i, j)
    ensures !Consistent(MapOf(ls, maxdepth), ls, maxdepth)
    decreases Depth(ls[i].path) - Depth(ls[j].path)
  {
    var c := Toward(ls[i].path, ls[j].path);
    if ListedNoMore(ls, c, j + 1) {
      LostAtLate(ls, maxdepth, i, j);
      LostForGood(ls, maxdepth, c, i, j + 1);
    } else {
      var k :| j + 1 <= k < |ls| && ls[k].path == c;
      LateAgain(ls, maxdepth, i, j, k);
      LateIsInconsistent(ls, maxdepth, i, k);
    }
  }

  /** A listing gives its map exactly when no directory's line comes after that of something
      below it. */
  lemma ConsistentIff(ls: seq<Stat>, maxdepth: nat)
    requires Listing(ls, maxdepth)
    ensures Consistent(MapOf(ls, maxdepth), ls, maxdepth) <==> forall i, j :: !Late(ls, i, j)
  {
    if i, j :| Late(ls, i, j) {
      LateIsInconsistent(ls, maxdepth, i, j);
    } else {
      OrderedIsConsistent(ls, maxdepth, |ls|);
      assert ls[..|ls|] == ls;
    }
  }

  /** The smallest case: a file in a directory, then the directory. The file is gone. */
  lemma LateDirectoryLosesFile(file: Attr)
    requires !file.isDir
    ensures var d := Under(Root, "d");
      var ls := [Stat(Under(d, "f"), file), Stat(d, Attr(true, 0))];
      Shallow(ls, 2) && MapOf(ls, 2) == map[Root := Some(map["d" := Attr(true, 0)]), d := Some(map[])]
  {
    var d := Under(Root, "d");
    var f := Under(d, "f");
    var ls := [Stat(f, file), Stat(d, Attr(true, 0))];
    assert MakeDirs(START, 2, d) == map[Root := Some(map["d" := MADE]), d := Some(map[])];
    var one := AddLine(START, 2, f, file);
    assert one == map[Root := Some(map["d" := MADE]), d := Some(map["f" := file])];
    assert ls[..1] == [ls[0]] && ls[..1][..0] == [];
    assert MapOf(ls[..1], 2) == one;
    DirectoryIsEmptied(one, d);
  }

  lemma DirectoryIsEmptied(one: DirMap, d: Path)
    requires Safe(one, 2) && one.Keys == {Root, d} && d == Under(Root, "d") && one[Root] == Some(map["d" := MADE])
    ensures AddLine(one, 2, d, Attr(true, 0)) == map[Root := Some(map["d" := Attr(true, 0)]), d := Some(map[])]
  {
    var e := one[d := Some(map[])];
    assert NewDir(2, d) == Some(map[]) && MakeDirs(e, 2, Root) == e;
    assert map["d" := MADE]["d" := Attr(true, 0)] == map["d" := Attr(true, 0)];
  }
}
