/** Building a directory map, keyed by strings, from stat output (volume/stat.go,
    volume/statPosix.go). */
module StatScan {
  import opened Options
  import opened StatPaths
  import opened DirMaps

  type TextMap = map<string, Children>

  const EMPTY: TextMap := map["" := Some(map[])]

  // The root is explored, and only directories at maxdepth or deeper are unexplored.
  predicate Sound(d: TextMap, maxdepth: nat) {
    && "" in d && d[""].Some?
    && forall x :: x in d && d[x].None? ==> NumPathSegments(x) >= maxdepth
  }

  // A directory that is explored once it is there.
  predicate CanHold(x: string, maxdepth: nat) {
    x == "" || NumPathSegments(x) < maxdepth
  }

  lemma RootParents()
    ensures ParentText("") == "" == ParentText("/")
  {
  }

  lemma ParentCanHold(s: string, maxdepth: nat)
    requires NumPathSegments(s) <= maxdepth
    ensures CanHold(ParentText(s), maxdepth)
  {
    hide ParentText, NumPathSegments;
    SegmentsIsDepth(s);
    SegmentsIsDepth(ParentText(s));
    RootParents();
  }

  /*** What the operations compute ***/

  function PutText(d: TextMap, s: string, a: Attr): TextMap
    requires ParentText(s) in d && d[ParentText(s)].Some?
  {
    d[ParentText(s) := Some(d[ParentText(s)].value[SplitFile(s) := a])]
  }

  lemma PutSound(d: TextMap, maxdepth: nat, dir: string, entries: map<string, Attr>)
    requires Sound(d, maxdepth)
    ensures Sound(d[dir := Some(entries)], maxdepth)
  {
    hide NumPathSegments;
  }

  lemma BeforeMaking(d: TextMap, maxdepth: nat, s: string)
    requires Sound(d, maxdepth) && CanHold(s, maxdepth)
    ensures if s in d then d[s].Some? else CanHold(ParentText(s), maxdepth) && Sound(d[s := Some(map[])], maxdepth)
  {
    hide NumPathSegments, ParentText;
    if s !in d { ParentCanHold(s, maxdepth); }
  }

  function MakeText(d: TextMap, maxdepth: nat, s: string): (r: TextMap)
    requires Sound(d, maxdepth) && CanHold(s, maxdepth)
    ensures Sound(r, maxdepth) && s in r && r[s].Some? && d.Keys <= r.Keys
    ensures forall x :: x in r && r[x].None? ==> x in d && d[x].None?
    ensures forall x :: x in d && d[x].None? ==> r[x].None?
    decreases |s|
  {
    hide NumPathSegments, ParentText, SplitFile, Sound, CanHold;
    BeforeMaking(d, maxdepth, s);
    if s in d then d
    else
      assert s != "" by { RootIsThere(d, maxdepth); }
      var dir := ParentText(s);
      var e := MakeText(d[s := Some(map[])], maxdepth, dir);
      PutSound(e, maxdepth, dir, e[dir].value[SplitFile(s) := MADE]);
      PutText(e, s, MADE)
  }

  lemma RootIsThere(d: TextMap, maxdepth: nat)
    requires Sound(d, maxdepth)
    ensures "" in d
  {
  }

  // Too many segments, or a root that has just been marked as unexplored: the code panics.
  predicate Refused(s: string, a: Attr, maxdepth: nat) {
    NumPathSegments(s) > maxdepth || (s == "" && a.isDir && maxdepth == 0)
  }

  function Marked(d: TextMap, maxdepth: nat, s: string, a: Attr): TextMap {
    if a.isDir then d[s := if NumPathSegments(s) == maxdepth then None else Some(map[])] else d
  }

  lemma MarkedFacts(d: TextMap, maxdepth: nat, s: string, a: Attr)
    requires Sound(d, maxdepth) && NumPathSegments(s) <= maxdepth
    ensures "" in d && CanHold(ParentText(s), maxdepth)
    ensures var e := Marked(d, maxdepth, s, a);
      && "" in e && (e[""].None? ==> s == "")
      && if Refused(s, a, maxdepth) then e == d["" := None] && e[""].None? else Sound(e, maxdepth) && e[""].Some?
  {
    assert NumPathSegments("") == 0;
    hide NumPathSegments, ParentText;
    ParentCanHold(s, maxdepth);
  }

  function AddText(d: TextMap, maxdepth: nat, s: string, a: Attr): (r: TextMap)
    requires Sound(d, maxdepth) && !Refused(s, a, maxdepth)
    ensures Sound(r, maxdepth)
  {
    MarkedFacts(d, maxdepth, s, a);
    hide NumPathSegments, ParentText, SplitFile, Marked, Sound, Refused, CanHold;
    var e := MakeText(Marked(d, maxdepth, s, a), maxdepth, ParentText(s));
    var dir := ParentText(s);
    PutSound(e, maxdepth, dir, e[dir].value[SplitFile(s) := a]);
    PutText(e, s, a)
  }

  /** A line's directory is left unexplored exactly when it is at maxdepth. */
  lemma UnexploredAtDepth(d: TextMap, maxdepth: nat, s: string, a: Attr)
    requires Sound(d, maxdepth) && !Refused(s, a, maxdepth) && a.isDir && s != ""
    ensures var r := AddText(d, maxdepth, s, a);
      s in r && (r[s].None? <==> NumPathSegments(s) == maxdepth)
  {
    MarkedFacts(d, maxdepth, s, a);
    hide NumPathSegments, SplitFile, Sound, Refused, CanHold;
    assert |ParentText(s)| < |s|;
  }

  /*** The builder ***/

  class DirMapBuilder {
    var dirmap: TextMap

    constructor ()
      ensures dirmap == EMPTY
    {
      dirmap := EMPTY;
    }

    method MakeChildren(newpath: string, ghost maxdepth: nat)
      requires Sound(dirmap, maxdepth) && CanHold(newpath, maxdepth)
      modifies this
      ensures dirmap == MakeText(old(dirmap), maxdepth, newpath)
      decreases |newpath|
    {
      hide NumPathSegments, ParentText, SplitFile;
      if newpath in dirmap { return; }
      dirmap := dirmap[newpath := Some(map[])];
      var parent, file := ParentText(newpath), SplitFile(newpath);
      ParentCanHold(newpath, maxdepth);
      MakeChildren(parent, maxdepth);
      dirmap := dirmap[parent := Some(dirmap[parent].value[file := MADE])];
    }

    // False is a panic: too many segments, or an entry for a nil map.
    method AddAttributesForPath(attr: Attr, base: string, fullpath: string, maxdepth: nat) returns (ok: bool)
      requires Sound(dirmap, maxdepth)
      modifies this
      ensures var s := TrimPrefix(fullpath, base);
        && ok == !Refused(s, attr, maxdepth)
        && dirmap == if ok then AddText(old(dirmap), maxdepth, s, attr)
                     else if NumPathSegments(s) > maxdepth then old(dirmap)
                     else old(dirmap)["" := None]
    {
      hide NumPathSegments, ParentText, SplitFile, TrimPrefix, Sound;
      var relative := TrimPrefix(fullpath, base);
      var numSegments := NumPathSegments(relative);
      if numSegments > maxdepth {
        return false;
      }
      MarkedFacts(dirmap, maxdepth, relative, attr);
      if attr.isDir {
        if numSegments == maxdepth {
          dirmap := dirmap[relative := None];
        } else {
          dirmap := dirmap[relative := Some(map[])];
        }
      }
      assert dirmap == Marked(old(dirmap), maxdepth, relative, attr);
      if relative == "" && dirmap[""].None? { return false; }
      var parent, file := ParentText(relative), SplitFile(relative);
      MakeChildren(parent, maxdepth);
      dirmap := dirmap[parent := Some(dirmap[parent].value[file := attr])];
      ok := true;
    }
  }

  /*** The output of stat ***/

  // A line of output: blank or find's own error messages, one that does not parse, or a path
  // with its attributes.
  datatype Line = Skipped | Unparsed | Parsed(attr: Attr, fullpath: string)

  datatype Outcome = Built(d: TextMap) | ParseError | Panicked

  // maxdepth counts from start, the map's depths from base.
  function EffectiveDepth(base: string, start: string, maxdepth: nat): nat {
    maxdepth + NumPathSegments(TrimPrefix(start, base))
  }

  predicate HasUnparsed(lines: seq<Line>) {
    exists i :: 0 <= i < |lines| && lines[i].Unparsed?
  }

  lemma SegmentsBelow(r: string, x: string)
    requires x != "" && r != "/"
    ensures NumPathSegments(r + "/" + x) == NumPathSegments(r) + Slashes(x) + 1
  {
    var s := r + "/" + x;
    var t := TrimPrefix(r, "/");
    assert Slashes("/") == 1;
    if r == "" {
      assert TrimPrefix(s, "/") == x;
    } else {
      assert TrimPrefix(s, "/") == t + "/" + x;
      SlashesAppend(t + "/", x);
      SlashesAppend(t, "/");
    }
  }

  /** maxdepth counts from where the search started: of what lies below it, a line is refused exactly
      when it is more than maxdepth names down, and a directory is left unexplored exactly when it is
      maxdepth names down. */
  lemma DepthFromStart(base: string, start: string, maxdepth: nat, x: string, a: Attr, d: TextMap)
    requires base <= start && TrimPrefix(start, base) != "/" && x != ""
    requires Sound(d, EffectiveDepth(base, start, maxdepth))
    ensures var s, depth := TrimPrefix(start + "/" + x, base), EffectiveDepth(base, start, maxdepth);
      && (Refused(s, a, depth) <==> Slashes(x) + 1 > maxdepth)
      && (a.isDir && !Refused(s, a, depth) ==>
           var r := AddText(d, depth, s, a);
           s in r && (r[s].None? <==> Slashes(x) + 1 == maxdepth))
  {
    var r, s := TrimPrefix(start, base), TrimPrefix(start + "/" + x, base);
    assert s == r + "/" + x;
    SegmentsBelow(r, x);
    var depth := EffectiveDepth(base, start, maxdepth);
    hide NumPathSegments, AddText, Slashes, TrimPrefix;
    if a.isDir && !Refused(s, a, depth) { UnexploredAtDepth(d, depth, s, a); }
  }

  // Line after line, onto the map d.
  function Scan(lines: seq<Line>, base: string, maxdepth: nat, d: TextMap): Outcome
    requires Sound(d, maxdepth)
  {
    if lines == [] then Built(d)
    else if lines[0].Unparsed? then ParseError
    else if lines[0].Skipped? then Scan(lines[1..], base, maxdepth, d)
    else
      var s := TrimPrefix(lines[0].fullpath, base);
      if Refused(s, lines[0].attr, maxdepth) then Panicked
      else Scan(lines[1..], base, maxdepth, AddText(d, maxdepth, s, lines[0].attr))
  }

  method ParseStatPOSIX(lines: seq<Line>, base: string, start: string, maxdepth: nat) returns (r: Outcome)
    ensures r == Scan(lines, base, EffectiveDepth(base, start, maxdepth), EMPTY)
  {
    hide NumPathSegments, AddText, Refused;
    var depth := maxdepth + NumPathSegments(TrimPrefix(start, base));
    var builder := new DirMapBuilder();
    for i := 0 to |lines|
      invariant fresh(builder) && Sound(builder.dirmap, depth)
      invariant Scan(lines, base, depth, EMPTY) == Scan(lines[i..], base, depth, builder.dirmap)
    {
      var line := lines[i];
      assert lines[i..][0] == line && lines[i..][1..] == lines[i + 1..];
      if line.Unparsed? { return ParseError; }
      if line.Parsed? {
        var ok := builder.AddAttributesForPath(line.attr, base, line.fullpath, depth);
        if !ok { return Panicked; }
      }
    }
    r := Built(builder.dirmap);
  }

  // What was listed, with the base trimmed, up to the first line that does not parse.
  datatype Found = Found(relative: string, attr: Attr)

  function ListedOf(lines: seq<Line>, base: string): seq<Found> {
    if lines == [] || lines[0].Unparsed? then []
    else if lines[0].Skipped? then ListedOf(lines[1..], base)
    else [Found(TrimPrefix(lines[0].fullpath, base), lines[0].attr)] + ListedOf(lines[1..], base)
  }

  predicate NoneRefused(fs: seq<Found>, maxdepth: nat) {
    forall i :: 0 <= i < |fs| ==> !Refused(fs[i].relative, fs[i].attr, maxdepth)
  }

  function TextMapOf(fs: seq<Found>, maxdepth: nat): (d: TextMap)
    requires NoneRefused(fs, maxdepth)
    ensures Sound(d, maxdepth)
  {
    if fs == [] then EMPTY
    else var f := fs[|fs| - 1]; AddText(TextMapOf(fs[..|fs| - 1], maxdepth), maxdepth, f.relative, f.attr)
  }

  lemma FoundGrows(fs: seq<Found>, f: Found, maxdepth: nat)
    requires NoneRefused(fs, maxdepth) && !Refused(f.relative, f.attr, maxdepth)
    ensures NoneRefused(fs + [f], maxdepth)
    ensures TextMapOf(fs + [f], maxdepth) == AddText(TextMapOf(fs, maxdepth), maxdepth, f.relative, f.attr)
  {
    hide Refused, AddText;
    assert (fs + [f])[..|fs|] == fs;
  }

  lemma HasUnparsedTail(lines: seq<Line>)
    requires lines != [] && !lines[0].Unparsed?
    ensures HasUnparsed(lines) <==> HasUnparsed(lines[1..])
  {
    if i :| 0 <= i < |lines| && lines[i].Unparsed? { assert lines[1..][i - 1].Unparsed?; }
    if i :| 0 <= i < |lines[1..]| && lines[1..][i].Unparsed? { assert lines[i + 1].Unparsed?; }
  }

  /** For any output: the code panics exactly when a refused path is listed before any line that
      does not parse; apart from that it fails exactly when some line does not parse, and else
      builds the map of what was listed. */
  lemma {:induction false} ScanOutcome(lines: seq<Line>, base: string, maxdepth: nat, done: seq<Found>)
    requires NoneRefused(done, maxdepth)
    ensures var all := done + ListedOf(lines, base);
      Scan(lines, base, maxdepth, TextMapOf(done, maxdepth))
      == if !NoneRefused(all, maxdepth) then Panicked
         else if HasUnparsed(lines) then ParseError
         else Built(TextMapOf(all, maxdepth))
    decreases |lines|
  {
    hide Refused, AddText, TextMapOf, TrimPrefix;
    var all := done + ListedOf(lines, base);
    if lines == [] || lines[0].Unparsed? {
      assert all == done;
    } else if lines[0].Skipped? {
      HasUnparsedTail(lines);
      ScanOutcome(lines[1..], base, maxdepth, done);
    } else {
      var f := Found(TrimPrefix(lines[0].fullpath, base), lines[0].attr);
      assert all[|done|] == f;
      if !Refused(f.relative, f.attr, maxdepth) {
        FoundGrows(done, f, maxdepth);
        HasUnparsedTail(lines);
        ScanOutcome(lines[1..], base, maxdepth, done + [f]);
        assert done + [f] + ListedOf(lines[1..], base) == all;
      }
    }
  }

  /*** Strings stand for paths ***/

  predicate KeysStyled(d: TextMap, slash: bool) {
    forall x :: x in d ==> Styled(x, slash)
  }

  // The map of paths that a map of strings in one style stands for.
  function Meaning(d: TextMap, slash: bool): DirMap {
    map p | p in (set x | x in d :: PathOf(x)) && Text(p, slash) in d :: d[Text(p, slash)]
  }

  lemma MeaningHas(d: TextMap, slash: bool, p: Path)
    requires KeysStyled(d, slash)
    ensures p in Meaning(d, slash) <==> Spelled(p, slash) && Text(p, slash) in d
  {
    hide Text, PathOf, Styled;
    if p in Meaning(d, slash) {
      var x :| x in d && PathOf(x) == p;
      TextOfPath(x, slash);
    }
    if Spelled(p, slash) { PathOfText(p, slash); }
  }

  lemma MeaningAt(d: TextMap, slash: bool, s: string)
    requires KeysStyled(d, slash) && Styled(s, slash)
    ensures PathOf(s) in Meaning(d, slash) <==> s in d
    ensures s in d ==> Meaning(d, slash)[PathOf(s)] == d[s]
  {
    hide Text, PathOf, Styled;
    TextOfPath(s, slash);
  }

  lemma MeaningUpdate(d: TextMap, slash: bool, s: string, c: Children)
    requires KeysStyled(d, slash) && Styled(s, slash)
    ensures Meaning(d[s := c], slash) == Meaning(d, slash)[PathOf(s) := c]
  {
    hide Text, PathOf, Styled, Meaning, Spelled;
    var l, r := Meaning(d[s := c], slash), Meaning(d, slash)[PathOf(s) := c];
    forall p ensures (p in l <==> p in r) && (p in l ==> l[p] == r[p]) {
      UpdateAt(d, slash, s, c, p);
    }
  }

  lemma UpdateAt(d: TextMap, slash: bool, s: string, c: Children, p: Path)
    requires KeysStyled(d, slash) && Styled(s, slash)
    ensures var l, r := Meaning(d[s := c], slash), Meaning(d, slash)[PathOf(s) := c];
      (p in l <==> p in r) && (p in l ==> l[p] == r[p])
  {
    hide Text, PathOf, Styled, Spelled;
    MeaningHas(d, slash, p);
    MeaningHas(d[s := c], slash, p);
    TextOfPath(s, slash);
    if Spelled(p, slash) { PathOfText(p, slash); }
  }

  lemma MeaningPut(d: TextMap, slash: bool, s: string, a: Attr)
    requires KeysStyled(d, slash) && s != "" && Styled(s, slash)
    requires ParentText(s) in d && d[ParentText(s)].Some?
    ensures KeysStyled(PutText(d, s, a), slash)
    ensures var p, m := PathOf(s), Meaning(d, slash);
      && p.parent in m && m[p.parent].Some?
      && Meaning(PutText(d, s, a), slash) == PutEntry(m, p, a)
  {
    hide Styled, Meaning, ParentText, SplitFile;
    var dir := ParentText(s);
    MeaningAt(d, slash, dir);
    MeaningUpdate(d, slash, dir, Some(d[dir].value[SplitFile(s) := a]));
  }

  lemma MeaningSafe(d: TextMap, slash: bool, maxdepth: nat)
    requires KeysStyled(d, slash) && Sound(d, maxdepth)
    ensures Safe(Meaning(d, slash), maxdepth)
  {
    hide NumPathSegments, Meaning;
    var m := Meaning(d, slash);
    MeaningAt(d, slash, "");
    forall p | p in m && m[p].None? ensures Depth(p) >= maxdepth {
      MeaningHas(d, slash, p);
      PathOfText(p, slash);
      MeaningAt(d, slash, Text(p, slash));
      SegmentsIsDepth(Text(p, slash));
    }
  }

  lemma {:induction false} MeaningMake(d: TextMap, slash: bool, maxdepth: nat, s: string)
    requires KeysStyled(d, slash) && Sound(d, maxdepth) && Styled(s, slash) && CanHold(s, maxdepth)
    requires Depth(PathOf(s)) < maxdepth
    ensures KeysStyled(MakeText(d, maxdepth, s), slash) && Safe(Meaning(d, slash), maxdepth)
    ensures Meaning(MakeText(d, maxdepth, s), slash) == MakeDirs(Meaning(d, slash), maxdepth, PathOf(s))
    decreases |s|
  {
    hide NumPathSegments, Meaning, ParentText, SplitFile, Styled, MakeDirs, PutEntry, PutText;
    MeaningSafe(d, slash, maxdepth);
    MeaningAt(d, slash, s);
    if s in d {
      MakeDirsNone(Meaning(d, slash), maxdepth, PathOf(s));
    } else {
      var e, p := d[s := Some(map[])], PathOf(s);
      ParentStyled(s, slash);
      ParentCanHold(s, maxdepth);
      MeaningMake(e, slash, maxdepth, ParentText(s));
      MeaningUpdate(d, slash, s, Some(map[]));
      MakeDirsCommutes(Meaning(d, slash), maxdepth, p.parent, p, Some(map[]));
      MeaningPut(MakeText(e, maxdepth, ParentText(s)), slash, s, MADE);
      MakeDirsOne(Meaning(d, slash), maxdepth, p);
    }
  }

  lemma MakeDirsNone(d: DirMap, maxdepth: nat, p: Path)
    requires Safe(d, maxdepth) && Depth(p) < maxdepth && p in d
    ensures MakeDirs(d, maxdepth, p) == d
  {
  }

  lemma MakeDirsOne(d: DirMap, maxdepth: nat, p: Path)
    requires Safe(d, maxdepth) && Depth(p) < maxdepth && p !in d
    ensures var e := MakeDirs(d, maxdepth, p.parent)[p := Some(map[])];
      p.parent in e && e[p.parent].Some? && MakeDirs(d, maxdepth, p) == PutEntry(e, p, MADE)
  {
  }

  // Below the base, a line adds to the strings what it adds to the paths.
  lemma MeaningAdd(d: TextMap, slash: bool, maxdepth: nat, s: string, a: Attr)
    requires KeysStyled(d, slash) && Sound(d, maxdepth) && Styled(s, slash) && s != "" && s != "/"
    requires !Refused(s, a, maxdepth)
    ensures PathOf(s).Under? && Depth(PathOf(s)) <= maxdepth
    ensures KeysStyled(AddText(d, maxdepth, s, a), slash) && Safe(Meaning(d, slash), maxdepth)
    ensures Meaning(AddText(d, maxdepth, s, a), slash) == AddLine(Meaning(d, slash), maxdepth, PathOf(s), a)
  {
    hide NumPathSegments, Meaning, ParentText, SplitFile, Styled, MakeDirs, PutEntry, PutText, MakeText;
    var e, p := Marked(d, maxdepth, s, a), PathOf(s);
    SegmentsIsDepth(s);
    MeaningSafe(d, slash, maxdepth);
    MeaningUpdate(d, slash, s, NewDir(maxdepth, p));
    ParentStyled(s, slash);
    ParentCanHold(s, maxdepth);
    MeaningMake(e, slash, maxdepth, ParentText(s));
    MeaningPut(MakeText(e, maxdepth, ParentText(s)), slash, s, a);
  }

  // Paths below the base, all with a slash in front or all without.
  predicate InStyle(fs: seq<Found>, slash: bool) {
    forall i :: 0 <= i < |fs| ==> Styled(fs[i].relative, slash) && fs[i].relative != "" && fs[i].relative != "/"
  }

  function StatsOf(fs: seq<Found>): (ls: seq<Stat>)
    ensures |ls| == |fs| && forall i :: 0 <= i < |fs| ==> ls[i] == Stat(PathOf(fs[i].relative), fs[i].attr)
  {
    seq(|fs|, i requires 0 <= i < |fs| => Stat(PathOf(fs[i].relative), fs[i].attr))
  }

  lemma RefusedIsDeep(fs: seq<Found>, slash: bool, maxdepth: nat)
    requires InStyle(fs, slash)
    ensures NoneRefused(fs, maxdepth) <==> Shallow(StatsOf(fs), maxdepth)
  {
    hide NumPathSegments, Styled, PathOf;
    forall i | 0 <= i < |fs|
      ensures Refused(fs[i].relative, fs[i].attr, maxdepth) <==> Depth(StatsOf(fs)[i].path) > maxdepth
      ensures StatsOf(fs)[i].path.Under?
    {
      SegmentsIsDepth(fs[i].relative);
      NonEmptyIsUnder(fs[i].relative);
    }
  }

  lemma NonEmptyIsUnder(s: string)
    requires s != ""
    ensures PathOf(s).Under?
  {
  }

  /** The strings stand for the map of the listed paths. */
  lemma {:induction false} MapMeans(fs: seq<Found>, slash: bool, maxdepth: nat)
    requires InStyle(fs, slash) && NoneRefused(fs, maxdepth)
    ensures KeysStyled(TextMapOf(fs, maxdepth), slash) && Shallow(StatsOf(fs), maxdepth)
    ensures Meaning(TextMapOf(fs, maxdepth), slash) == MapOf(StatsOf(fs), maxdepth)
  {
    hide Refused, AddText, AddLine, Styled, PathOf;
    RefusedIsDeep(fs, slash, maxdepth);
    if fs == [] {
      StartMeans(slash);
    } else {
      var init, f := fs[..|fs| - 1], fs[|fs| - 1];
      MapMeans(init, slash, maxdepth);
      MeaningAdd(TextMapOf(init, maxdepth), slash, maxdepth, f.relative, f.attr);
      assert StatsOf(fs)[..|fs| - 1] == StatsOf(init);
    }
  }

  lemma StartMeans(slash: bool)
    ensures KeysStyled(EMPTY, slash) && Meaning(EMPTY, slash) == START
  {
    forall p ensures p in Meaning(EMPTY, slash) <==> p == Root { MeaningHas(EMPTY, slash, p); }
    MeaningAt(EMPTY, slash, "");
  }

  /** On a listing below the base, in one style, that parses: what is built stands for the map of
      the listing exactly when no directory's line comes after that of something below it. */
  lemma ParsedIff(lines: seq<Line>, base: string, maxdepth: nat, slash: bool)
    requires var fs := ListedOf(lines, base); InStyle(fs, slash) && Listing(StatsOf(fs), maxdepth)
    requires !HasUnparsed(lines)
    ensures var r, ls := Scan(lines, base, maxdepth, EMPTY), StatsOf(ListedOf(lines, base));
      && r.Built? && KeysStyled(r.d, slash)
      && (Consistent(Meaning(r.d, slash), ls, maxdepth) <==> forall i, j :: !Late(ls, i, j))
  {
    hide Refused, AddText, Styled, PathOf, Consistent, Meaning;
    var fs := ListedOf(lines, base);
    RefusedIsDeep(fs, slash, maxdepth);
    MapMeans(fs, slash, maxdepth);
    ConsistentIff(StatsOf(fs), maxdepth);
    ScanOutcome(lines, base, maxdepth, []);
    assert [] + fs == fs;
  }
}
