/** The paths in stat output, as strings and as what they stand for (volume/stat.go). */
module StatPaths {
  // Below the root, a path is its directory and a name.
  datatype Path = Root | Under(parent: Path, name: string)

  function Depth(p: Path): nat { if p.Root? then 0 else Depth(p.parent) + 1 }

  /** p is a proper ancestor of q. */
  predicate Below(q: Path, p: Path) {
    q.Under? && (q.parent == p || Below(q.parent, p))
  }

  /** The text of a path, with or without a slash in front. */
  function Text(p: Path, slash: bool): string {
    if p.Root? then ""
    else if p.parent.Root? && !slash then p.name
    else Text(p.parent, slash) + "/" + p.name
  }

  // No name has a slash; without a slash in front, the first name is not empty.
  predicate Spelled(p: Path, slash: bool) {
    p.Under? ==> '/' !in p.name && Spelled(p.parent, slash) && (p.parent.Root? && !slash ==> p.name != "")
  }

  predicate Styled(s: string, slash: bool) {
    s != "" ==> (s[0] == '/' <==> slash)
  }

  /*** What the code does with strings ***/

  // The index of the last slash before n, or -1.
  function LastSlashBefore(s: string, n: nat): (i: int)
    requires n <= |s|
    ensures -1 <= i < n
  {
    if n == 0 then -1 else if s[n - 1] == '/' then n - 1 else LastSlashBefore(s, n - 1)
  }

  function LastSlash(s: string): (i: int)
    ensures -1 <= i < |s|
  {
    LastSlashBefore(s, |s|)
  }

  lemma {:induction false} LastSlashFacts(s: string, n: nat)
    requires n <= |s|
    ensures var i := LastSlashBefore(s, n);
      (i >= 0 ==> s[i] == '/') && forall k :: i < k < n ==> s[k] != '/'
  {
    if n > 0 && s[n - 1] != '/' { LastSlashFacts(s, n - 1); }
  }

  // path.Split, and strings.TrimSuffix of a slash.
  function SplitDir(s: string): string { if s == "" then "" else s[..LastSlash(s) + 1] }

  function SplitFile(s: string): string { if s == "" then "" else s[LastSlash(s) + 1..] }

  function TrimSlash(s: string): string {
    if s != "" && s[|s| - 1] == '/' then s[..|s| - 1] else s
  }

  function ParentText(s: string): (r: string)
    ensures s != "" ==> |r| < |s|
  {
    TrimSlash(SplitDir(s))
  }

  function TrimPrefix(s: string, prefix: string): string {
    if s != "" && prefix <= s then s[|prefix|..] else s
  }

  function SlashesBefore(s: string, n: nat): nat
    requires n <= |s|
  {
    if n == 0 then 0 else SlashesBefore(s, n - 1) + if s[n - 1] == '/' then 1 else 0
  }

  function Slashes(s: string): nat { SlashesBefore(s, |s|) }

  function NumPathSegments(s: string): nat {
    var t := TrimPrefix(s, "/");
    if t == "" then 0 else Slashes(t) + 1
  }

  // The path a string stands for: "/a/b" and "a/b" stand for the same.
  function PathOf(s: string): Path
    decreases |s|
  {
    if s == "" then Root else Under(PathOf(ParentText(s)), SplitFile(s))
  }

  /*** The two agree ***/

  lemma ParentTextIs(s: string)
    ensures ParentText(s) == if LastSlash(s) < 0 then "" else s[..LastSlash(s)]
  {
    hide LastSlash;
    var i := LastSlash(s);
    if i >= 0 {
      assert s[i] == '/' by { LastSlashIsSlash(s); }
      assert s[..i + 1][..i] == s[..i];
    }
  }

  lemma LastSlashIsSlash(s: string)
    ensures var i := LastSlash(s); (i >= 0 ==> s[i] == '/') && forall k :: i < k < |s| ==> s[k] != '/'
  {
    LastSlashFacts(s, |s|);
  }

  lemma LastSlashIs(s: string, i: nat)
    requires i < |s| && s[i] == '/' && forall k :: i < k < |s| ==> s[k] != '/'
    ensures LastSlash(s) == i
  {
    LastSlashIsSlash(s);
  }

  // A directory, a slash and a name.
  lemma JoinSplits(dir: string, file: string)
    requires '/' !in file
    ensures var s := dir + "/" + file; ParentText(s) == dir && SplitFile(s) == file
  {
    hide LastSlash, ParentText;
    var s, i := dir + "/" + file, |dir|;
    assert s[i] == '/' && s[i + 1..] == file && s[..i] == dir;
    forall k | i < k < |s| ensures s[k] != '/' { assert s[k] == file[k - i - 1]; }
    LastSlashIs(s, i);
    ParentTextIs(s);
  }

  lemma NameSplits(s: string)
    requires '/' !in s
    ensures ParentText(s) == "" && SplitFile(s) == s
  {
    hide LastSlash, ParentText;
    LastSlashIsSlash(s);
    ParentTextIs(s);
  }

  lemma TextSplits(p: Path, slash: bool)
    requires Spelled(p, slash) && p.Under?
    ensures var s := Text(p, slash);
      s != "" && ParentText(s) == Text(p.parent, slash) && SplitFile(s) == p.name
  {
    hide LastSlash, ParentText, SplitFile;
    if p.parent.Root? && !slash { NameSplits(p.name); } else { JoinSplits(Text(p.parent, slash), p.name); }
  }

  /** A path is the one its text stands for, ... */
  lemma {:induction false} PathOfText(p: Path, slash: bool)
    requires Spelled(p, slash)
    ensures PathOf(Text(p, slash)) == p && Styled(Text(p, slash), slash)
  {
    hide LastSlash, ParentText, SplitFile;
    if p.Under? {
      PathOfText(p.parent, slash);
      TextSplits(p, slash);
      if p.parent.Under? { TextSplits(p.parent, slash); }
    }
  }

  // A string is its parent, a slash and its name, or a name alone.
  lemma SplitJoins(s: string)
    requires s != ""
    ensures '/' !in SplitFile(s)
    ensures if '/' in s then s == ParentText(s) + "/" + SplitFile(s) else ParentText(s) == "" && SplitFile(s) == s
  {
    hide LastSlash, ParentText;
    var i := LastSlash(s);
    LastSlashIsSlash(s);
    ParentTextIs(s);
    if i >= 0 { assert s == s[..i] + "/" + s[i + 1..]; }
  }

  lemma ParentStyled(s: string, slash: bool)
    requires s != "" && Styled(s, slash)
    ensures Styled(ParentText(s), slash)
    ensures ParentText(s) == "" && !slash ==> '/' !in s
  {
    SplitJoins(s);
    if '/' in s && ParentText(s) != "" { assert s[0] == ParentText(s)[0]; }
  }

  /** ... and a string is the text of the path it stands for. */
  lemma {:induction false} TextOfPath(s: string, slash: bool)
    requires Styled(s, slash)
    ensures Text(PathOf(s), slash) == s && Spelled(PathOf(s), slash)
    decreases |s|
  {
    hide LastSlash, ParentText, SplitFile;
    if s != "" {
      ParentStyled(s, slash);
      TextOfPath(ParentText(s), slash);
      SplitJoins(s);
    }
  }

  lemma {:induction false} SlashesInPrefix(s: string, t: string, n: nat)
    requires n <= |s|
    ensures SlashesBefore(s + t, n) == SlashesBefore(s, n)
  {
    if n > 0 { SlashesInPrefix(s, t, n - 1); }
  }

  lemma {:induction false} SlashesAppendBefore(s: string, t: string, n: nat)
    requires n <= |t|
    ensures SlashesBefore(s + t, |s| + n) == Slashes(s) + SlashesBefore(t, n)
  {
    if n == 0 { SlashesInPrefix(s, t, |s|); } else { SlashesAppendBefore(s, t, n - 1); }
  }

  lemma SlashesAppend(s: string, t: string)
    ensures Slashes(s + t) == Slashes(s) + Slashes(t)
  {
    SlashesAppendBefore(s, t, |t|);
  }

  lemma {:induction false} NoSlashesBefore(s: string, n: nat)
    requires n <= |s| && '/' !in s
    ensures SlashesBefore(s, n) == 0
  {
    if n > 0 { NoSlashesBefore(s, n - 1); }
  }

  lemma NoSlashes(s: string)
    requires '/' !in s
    ensures Slashes(s) == 0
  {
    NoSlashesBefore(s, |s|);
  }

  lemma {:induction false} SlashesIsDepth(s: string)
    ensures Depth(PathOf(s)) == Slashes(s) + if s == "" || s[0] == '/' then 0 else 1
    decreases |s|
  {
    hide LastSlash, ParentText, SplitFile;
    if s != "" {
      SlashesIsDepth(ParentText(s));
      SplitJoins(s);
      if '/' in s { JoinSlashes(ParentText(s), SplitFile(s)); } else { NoSlashes(s); }
    }
  }

  lemma JoinSlashes(dir: string, file: string)
    requires '/' !in file
    ensures var s := dir + "/" + file;
      Slashes(s) == Slashes(dir) + 1 && (s[0] == '/' <==> dir == "" || dir[0] == '/')
  {
    NoSlashes(file);
    SlashesAppend(dir + "/", file);
    SlashesAppend(dir, "/");
    assert Slashes("/") == 1;
  }

  /** The number of segments is the depth, except of a single slash. */
  lemma SegmentsIsDepth(s: string)
    ensures NumPathSegments(s) == if s == "/" then 0 else Depth(PathOf(s))
  {
    SlashesIsDepth(s);
    if s != "" && s[0] == '/' {
      assert s == s[..1] + s[1..] && s[..1] == "/";
      SlashesAppend(s[..1], s[1..]);
      assert Slashes("/") == 1;
    }
  }
}
