/** What find expressions mean, word by word (cmd/internal/find/parser/expression/parser.go,
    binaryOp.go, atom.go). */
module FindMeaning {
  import opened Options
  import opened EvalStacks
  import opened FindParser
  import opened FindGrammar

  /*** The documented meaning ***/

  predicate SaysOr(j: Join) {
    j.Spelled? && (j.word == "-o" || j.word == "-or")
  }

  // What stands after the last OR: all of it must hold.
  predicate Since(e: Expression, env: nat -> bool)
    decreases e, 0
  {
    match e
    case Single(a) => MeansAtom(a, env)
    case Linked(f, j, a) => (SaysOr(j) || Since(f, env)) && MeansAtom(a, env)
  }

  // What stands between two ORs, or before the first, holds somewhere.
  predicate Earlier(e: Expression, env: nat -> bool)
    decreases e, 0
  {
    match e
    case Single(_) => false
    case Linked(f, j, _) => Earlier(f, env) || (SaysOr(j) && Since(f, env))
  }

  /** An expression holds when all atoms between some ORs do. */
  predicate Means(e: Expression, env: nat -> bool)
    decreases e, 1
  {
    Earlier(e, env) || Since(e, env)
  }

  predicate MeansAtom(a: Atom, env: nat -> bool)
    decreases a, 0
  {
    match a
    case Word(_, id) => env(id)
    case NotOf(_, b) => !MeansAtom(b, env)
    case Parens(e) => Means(e, env)
  }

  /*** The reference tree has it ***/

  // The tree of an OR of what came earlier and what came since, or of what came since alone.
  ghost predicate Split(t: Predicate, env: nat -> bool, earlier: bool, since: bool) {
    if t.Combined? && t.op.OrOp? then
      Holds(t.left, env) == earlier && Holds(t.right, env) == since && !(t.right.Combined? && t.right.op.OrOp?)
    else !earlier && Holds(t, env) == since
  }

  lemma InsertSplits(t: Predicate, op: Op, p: Predicate, env: nat -> bool, earlier: bool, since: bool)
    requires Split(t, env, earlier, since) && !p.Combined?
    ensures var r := Insert(t, op, p);
      if op.OrOp? then Split(r, env, earlier || since, Holds(p, env))
          else Split(r, env, earlier, since && Holds(p, env))
  {
  }

  lemma JoinsAs(j: Join, p: Predicate)
    ensures LinkOf(j, p).op.OrOp? <==> SaysOr(j)
  {
    if j.Spelled? { assert OpOf(j.word).Some?; }
  }

  lemma {:induction false} AtomMeans(a: Atom, env: nat -> bool)
    ensures Holds(StandardAtom(a), env) <==> MeansAtom(a, env)
    decreases a, 1
  {
    match a
    case Word(_, _) =>
    case NotOf(_, b) => AtomMeans(b, env);
    case Parens(e) =>
      StandardSplits(e, env);
      assert StandardAtom(a) == Grouped(StandardTree(e));
  }

  lemma {:induction false} StandardSplits(e: Expression, env: nat -> bool)
    ensures Split(StandardTree(e), env, Earlier(e, env), Since(e, env))
    decreases e, 0
  {
    AtomMeans(e.a, env);
    if e.Linked? {
      var link := LinkOf(e.join, StandardAtom(e.a));
      StandardSplits(e.e, env);
      JoinsAs(e.join, StandardAtom(e.a));
      InsertSplits(StandardTree(e.e), link.op, link.p, env, Earlier(e.e, env), Since(e.e, env));
      var links := StandardLinks(e);
      assert links[..|links| - 1] == StandardLinks(e.e) && links[|links| - 1] == link;
    }
  }

  /** The reference tree of every sentence has the documented meaning, ... */
  lemma StandardMeans(e: Expression, env: nat -> bool)
    ensures Holds(StandardTree(e), env) <==> Means(e, env)
  {
    StandardSplits(e, env);
  }

  /** ... so that a sentence without an OR followed by two ANDs is parsed to a predicate with that
      meaning. */
  lemma PlainSentenceMeans(leaf: Leaf, e: Expression, env: nat -> bool)
    requires Consumes(leaf) && Reads(leaf, e, []) && Plain(e)
    ensures var r := ParseExpression(leaf, Print(e), 0);
      r.Done? && r.rest == [] && r.err == None && (Holds(r.p, env) <==> Means(e, env))
  {
    assert Sentence(leaf, Print(e), Tree(e));
    ParsesIff(leaf, Print(e), Tree(e));
    TreeIsStandardIff(e);
    StandardMeans(e, env);
  }

  /*** Word by word ***/

  // The word is a primary to the caller's parser, which takes it alone.
  ghost predicate IsPrimary(leaf: Leaf, word: string, id: nat) {
    && word != "!" && word != "-not" && word != "(" && word != ")"
    && forall rest: Tokens :: leaf([word] + rest) == Took(id, rest, None)
  }

  // The word is nothing to the caller's parser.
  ghost predicate IsNothing(leaf: Leaf, word: string) {
    forall rest: Tokens :: leaf([word] + rest) == Refused
  }

  // The tokens are parsed, all of them, to a predicate that holds just when `holds` says.
  predicate ParsedAs(leaf: Leaf, tokens: Tokens, env: nat -> bool, holds: bool)
    requires Consumes(leaf)
  {
    var r := ParseExpression(leaf, tokens, 0);
    r.Done? && r.rest == [] && r.err == None && Holds(r.p, env) == holds
  }

  function One(word: string, id: nat): Expression {
    Single(Word([word], id))
  }

  lemma IsWord(word: string)
    ensures word == "-a" || word == "-and" || word == "-o" || word == "-or" <==> OpOf(word).Some?
    ensures word == "!" || word == "-not" <==> IsNot(word)
    ensures OpOf(word).Some? ==> (OpOf(word).value.OrOp? <==> word == "-o" || word == "-or")
  {
    assert |"-a"| == 2 && |"-o"| == 2 && |"-and"| == 4 && |"-or"| == 3 && |"!"| == 1 && |"-not"| == 4;
    assert "-a"[1] == 'a' && "-o"[1] == 'o' && "-and"[1] == 'a' && "-not"[1] == 'n';
  }

  lemma OneIs(word: string, id: nat, env: nat -> bool)
    ensures var e := One(word, id);
      && Print(e) == [word] && Links(e) == [] && PlainAtoms(e)
      && !Earlier(e, env) && Since(e, env) == env(id)
  {
  }

  // One more primary, after a word or none.
  lemma OneMore(e: Expression, j: Join, word: string, id: nat, env: nat -> bool)
    requires PlainAtoms(e)
    ensures var f := Linked(e, j, Word([word], id));
      && Print(f) == Print(e) + (if j.Implied? then [word] else [j.word, word])
      && |Links(f)| == |Links(e)| + 1 && PlainAtoms(f)
      && Earlier(f, env) == (Earlier(e, env) || (SaysOr(j) && Since(e, env)))
      && Since(f, env) == ((SaysOr(j) || Since(e, env)) && env(id))
  {
    assert PrintAtom(Word([word], id)) == [word] && MeansAtom(Word([word], id), env) == env(id);
  }

  lemma ShortIsPlain(e: Expression)
    requires |Links(e)| <= 2 && PlainAtoms(e)
    ensures Plain(e)
  {
  }

  lemma ReadsOne(leaf: Leaf, word: string, id: nat, rest: Tokens)
    requires IsPrimary(leaf, word, id)
    ensures ReadsAtom(leaf, Word([word], id), rest)
  {
    IsWord(word);
    assert leaf([word] + rest) == Took(id, rest, None);
  }

  /** a -o b and a -or b hold when a or b does; a -a b, a -and b and a b when both do. */
  lemma TwoPrimaries(leaf: Leaf, a: string, i: nat, b: string, j: nat, env: nat -> bool)
    requires Consumes(leaf) && IsPrimary(leaf, a, i) && IsPrimary(leaf, b, j)
    requires IsNothing(leaf, "-o") && IsNothing(leaf, "-or") && IsNothing(leaf, "-a") && IsNothing(leaf, "-and")
    ensures ParsedAs(leaf, [a, "-o", b], env, env(i) || env(j)) && ParsedAs(leaf, [a, "-or", b], env, env(i) || env(j))
    ensures ParsedAs(leaf, [a, "-a", b], env, env(i) && env(j)) && ParsedAs(leaf, [a, "-and", b], env, env(i) && env(j))
    ensures ParsedAs(leaf, [a, b], env, env(i) && env(j))
  {
    JoinedBy(leaf, a, i, "-o", b, j, env);
    JoinedBy(leaf, a, i, "-or", b, j, env);
    JoinedBy(leaf, a, i, "-a", b, j, env);
    JoinedBy(leaf, a, i, "-and", b, j, env);
    var e := Linked(One(a, i), Implied, Word([b], j));
    ReadsOne(leaf, a, i, [b]);
    ReadsOne(leaf, b, j, []);
    OneIs(a, i, env);
    OneMore(One(a, i), Implied, b, j, env);
    assert Print(e) == [a, b] && [] + [b] + [] == [b];
    ShortIsPlain(e);
    PlainSentenceMeans(leaf, e, env);
  }

  lemma JoinedBy(leaf: Leaf, a: string, i: nat, w: string, b: string, j: nat, env: nat -> bool)
    requires Consumes(leaf) && IsPrimary(leaf, a, i) && IsPrimary(leaf, b, j) && IsNothing(leaf, w)
    requires w == "-o" || w == "-or" || w == "-a" || w == "-and"
    ensures ParsedAs(leaf, [a, w, b], env, if w == "-o" || w == "-or" then env(i) || env(j) else env(i) && env(j))
  {
    IsWord(w);
    var e := Linked(One(a, i), Spelled(w), Word([b], j));
    ReadsOne(leaf, a, i, [w, b]);
    ReadsOne(leaf, b, j, []);
    OneIs(a, i, env);
    OneMore(One(a, i), Spelled(w), b, j, env);
    assert Print(e) == [a, w, b] && [w] + [b] + [] == [w, b];
    assert leaf([w] + ([b] + [])) == Refused;
    ShortIsPlain(e);
    PlainSentenceMeans(leaf, e, env);
  }

  /** ! a and -not a hold when a does not. */
  lemma NotPrimary(leaf: Leaf, w: string, a: string, i: nat, env: nat -> bool)
    requires Consumes(leaf) && IsPrimary(leaf, a, i) && (w == "!" || w == "-not")
    ensures ParsedAs(leaf, [w, a], env, !env(i))
  {
    IsWord(w);
    var e := Single(NotOf(w, Word([a], i)));
    ReadsOne(leaf, a, i, []);
    assert PrintAtom(Word([a], i)) == [a] && MeansAtom(Word([a], i), env) == env(i);
    assert MeansAtom(e.a, env) == !env(i) && Print(e) == [w, a];
    assert Since(e, env) == MeansAtom(e.a, env);
    ShortIsPlain(e);
    PlainSentenceMeans(leaf, e, env);
  }

  /** AND binds tighter than OR, on either side: a -o b -a c, and a -a b -o c. */
  lemma ThreePrimaries(leaf: Leaf, a: string, i: nat, b: string, j: nat, c: string, k: nat, env: nat -> bool)
    requires Consumes(leaf) && IsPrimary(leaf, a, i) && IsPrimary(leaf, b, j) && IsPrimary(leaf, c, k)
    requires IsNothing(leaf, "-o") && IsNothing(leaf, "-a")
    ensures ParsedAs(leaf, [a, "-o", b, "-a", c], env, env(i) || (env(j) && env(k)))
    ensures ParsedAs(leaf, [a, "-a", b, "-o", c], env, (env(i) && env(j)) || env(k))
  {
    JoinedTwice(leaf, a, i, "-o", b, j, "-a", c, k, env);
    JoinedTwice(leaf, a, i, "-a", b, j, "-o", c, k, env);
  }

  lemma JoinedTwice(leaf: Leaf, a: string, i: nat, w: string, b: string, j: nat, x: string, c: string, k: nat,
                    env: nat -> bool)
    requires Consumes(leaf) && IsPrimary(leaf, a, i) && IsPrimary(leaf, b, j) && IsPrimary(leaf, c, k)
    requires IsNothing(leaf, w) && IsNothing(leaf, x) && ((w == "-o" && x == "-a") || (w == "-a" && x == "-o"))
    ensures ParsedAs(leaf, [a, w, b, x, c], env,
                     if w == "-o" then env(i) || (env(j) && env(k)) else (env(i) && env(j)) || env(k))
  {
    IsWord(w);
    IsWord(x);
    var f := Linked(One(a, i), Spelled(w), Word([b], j));
    var e := Linked(f, Spelled(x), Word([c], k));
    ReadsOne(leaf, a, i, [w, b, x, c]);
    ReadsOne(leaf, b, j, [x, c]);
    ReadsOne(leaf, c, k, []);
    OneIs(a, i, env);
    OneMore(One(a, i), Spelled(w), b, j, env);
    OneMore(f, Spelled(x), c, k, env);
    assert Print(f) == [a, w, b] && Print(e) == [a, w, b, x, c];
    assert [x] + [c] + [] == [x, c] && [w] + [b] + [x, c] == [w, b, x, c];
    assert leaf([w] + ([b] + [x, c])) == Refused && leaf([x] + ([c] + [])) == Refused;
    ShortIsPlain(e);
    PlainSentenceMeans(leaf, e, env);
  }

  /** A word that is nothing to anyone is handed back with what follows it. */
  lemma UnknownWord(leaf: Leaf, a: string, i: nat, w: string, rest: Tokens)
    requires Consumes(leaf) && IsPrimary(leaf, a, i) && IsNothing(leaf, w)
    requires w != "!" && w != "-not" && w != "(" && w != ")"
    requires w != "-a" && w != "-and" && w != "-o" && w != "-or"
    ensures ParseExpression(leaf, [a, w] + rest, 0) == ParseResult.Done(Primary(i), [w] + rest, Some(UnknownToken))
  {
    IsWord(a);
    IsWord(w);
    var tokens := [w] + rest;
    assert [a, w] + rest == [a] + tokens;
    assert leaf([a] + tokens) == Took(i, tokens, None) && leaf([w] + rest) == Refused;
    assert ParseAtom(leaf, [a] + tokens, 0) == Parsed(Primary(i), tokens, None);
    assert ParseAtom(leaf, tokens, 0) == NoMatch;
    var st := PushOperand(EMPTY, Primary(i));
    assert ParseLoop(leaf, tokens, 0, st) == Stopped(st, tokens, Some(UnknownToken));
    assert ParseLoop(leaf, [a] + tokens, 0, EMPTY) == Stopped(st, tokens, Some(UnknownToken));
  }

  // A primary and what the loop makes of the rest.
  lemma AfterPrimary(leaf: Leaf, a: string, i: nat, rest: Tokens, depth: nat)
    requires Consumes(leaf) && IsPrimary(leaf, a, i)
    ensures Shaped(PushOperand(EMPTY, Primary(i)))
    ensures ParseLoop(leaf, [a] + rest, depth, EMPTY) == ParseLoop(leaf, rest, depth, PushOperand(EMPTY, Primary(i)))
  {
    IsWord(a);
    assert leaf([a] + rest) == Took(i, rest, None);
    assert ParseAtom(leaf, [a] + rest, depth) == Parsed(Primary(i), rest, None);
  }

  /** A closing parenthesis that nothing opened is handed back with what follows it. */
  lemma UnmatchedParen(leaf: Leaf, a: string, i: nat, rest: Tokens)
    requires Consumes(leaf) && IsPrimary(leaf, a, i)
    ensures ParseExpression(leaf, [a, ")"] + rest, 0)
         == ParseResult.Done(Primary(i), [")"] + rest, Some(IncompleteOperator))
  {
    assert [a, ")"] + rest == [a] + ([")"] + rest);
    AfterPrimary(leaf, a, i, [")"] + rest, 0);
  }

  /** No tokens are an empty expression. An operator at the start or the end, a negation of nothing, and
      a parenthesis that is not closed or encloses nothing are syntax errors. */
  lemma SyntaxErrors(leaf: Leaf, a: string, i: nat, w: string, n: string, rest: Tokens)
    requires Consumes(leaf) && IsPrimary(leaf, a, i) && IsNothing(leaf, w)
    requires (w == "-a" || w == "-and" || w == "-o" || w == "-or") && (n == "!" || n == "-not")
    ensures ParseExpression(leaf, [], 0) == EmptyExpression([])
    ensures ParseExpression(leaf, [w] + rest, 0) == SyntaxError
    ensures ParseExpression(leaf, [a, w], 0) == SyntaxError
    ensures ParseExpression(leaf, [n], 0) == SyntaxError
    ensures ParseExpression(leaf, ["(", a], 0) == SyntaxError
    ensures ParseExpression(leaf, ["(", ")"], 0) == SyntaxError
  {
    IsWord(w);
    IsWord(n);
    LeadingOperator(leaf, w, rest);
    TrailingOperator(leaf, a, i, w);
    assert ParseNot(leaf, [n], 0) == BadAtom && ParseAtom(leaf, [n], 0) == BadAtom;
    BadParens(leaf, [a]) by {
      assert [a] == [a] + [];
      AfterPrimary(leaf, a, i, [], 1);
    }
    BadParens(leaf, [")"]);
    assert ["("] + [a] == ["(", a] && ["("] + [")"] == ["(", ")"];
  }

  lemma LeadingOperator(leaf: Leaf, w: string, rest: Tokens)
    requires Consumes(leaf) && IsNothing(leaf, w) && OpOf(w).Some? && !IsNot(w) && w != "(" && w != ")"
    ensures ParseExpression(leaf, [w] + rest, 0) == SyntaxError
  {
    assert leaf([w] + rest) == Refused;
    assert ParseAtom(leaf, [w] + rest, 0) == NoMatch;
    assert ParseLoop(leaf, [w] + rest, 0, EMPTY) == BadTokens;
  }

  lemma TrailingOperator(leaf: Leaf, a: string, i: nat, w: string)
    requires Consumes(leaf) && IsPrimary(leaf, a, i)
    requires IsNothing(leaf, w) && OpOf(w).Some? && !IsNot(w) && w != "(" && w != ")"
    ensures ParseExpression(leaf, [a, w], 0) == SyntaxError
  {
    assert [a, w] == [a] + [w] && [w] == [w] + [] && [w][1..] == [];
    AfterPrimary(leaf, a, i, [w], 0);
    assert leaf([w] + []) == Refused;
    assert ParseAtom(leaf, [w], 0) == NoMatch;
    var st := PushOperand(EMPTY, Primary(i));
    var pushed := PushOperator(st, w, OpOf(w).value);
    assert ParseLoop(leaf, [w], 0, st) == ParseLoop(leaf, [], 0, pushed) == Stopped(pushed, [], None);
  }

  // What stands in the parentheses ends them badly.
  lemma BadParens(leaf: Leaf, tokens: Tokens)
    requires Consumes(leaf)
    requires var r := ParseExpression(leaf, tokens, 1);
      r.EmptyExpression? || r.SyntaxError? || (r.Done? && r.err.None? && r.rest == [])
    ensures ParseExpression(leaf, ["("] + tokens, 0) == SyntaxError
  {
    var all := ["("] + tokens;
    IsWord("(");
    assert all[1..] == tokens && "(" != "!" && "(" != "-not";
    assert ParseParens(leaf, all, 0) == BadAtom;
    assert ParseAtom(leaf, all, 0) == BadAtom;
    assert ParseLoop(leaf, all, 0, EMPTY) == BadTokens;
  }
}
