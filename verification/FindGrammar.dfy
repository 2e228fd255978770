/** The grammar of find expressions, and the proof that the parser accepts exactly its sentences
    (cmd/internal/find/parser/expression/parser.go, atom.go). */
module FindGrammar {
  import opened Options
  import opened EvalStacks
  import opened FindParser

  type OpWord = w: string | OpOf(w).Some? witness "-a"
  type NotWord = w: string | IsNot(w) witness "!"

  // Two atoms in a row, or two atoms joined by a word.
  datatype Join = Implied | Spelled(word: OpWord)

  datatype Expression = Single(a: Atom) | Linked(e: Expression, join: Join, a: Atom)
  datatype Atom = Word(tokens: Tokens, id: nat) | NotOf(word: NotWord, a: Atom) | Parens(e: Expression)

  function Print(e: Expression): Tokens {
    match e
    case Single(a) => PrintAtom(a)
    case Linked(f, j, a) => Print(f) + PrintJoin(j) + PrintAtom(a)
  }

  function PrintJoin(j: Join): Tokens {
    if j.Implied? then [] else [j.word]
  }

  function PrintAtom(a: Atom): Tokens {
    match a
    case Word(tokens, _) => tokens
    case NotOf(w, b) => [w] + PrintAtom(b)
    case Parens(e) => ["("] + Print(e) + [")"]
  }

  /** The caller's parser reads every primary of e, and none of its operators, where they stand
      when `rest` follows e. */
  predicate Reads(leaf: Leaf, e: Expression, rest: Tokens) {
    match e
    case Single(a) => ReadsAtom(leaf, a, rest)
    case Linked(f, j, a) =>
      && Reads(leaf, f, PrintJoin(j) + PrintAtom(a) + rest)
      && (j.Spelled? ==> leaf([j.word] + (PrintAtom(a) + rest)).Refused?)
      && ReadsAtom(leaf, a, rest)
  }

  predicate ReadsAtom(leaf: Leaf, a: Atom, rest: Tokens) {
    match a
    case Word(tokens, id) =>
      && tokens != [] && !IsNot(tokens[0]) && tokens[0] != "(" && tokens[0] != ")"
      && var r := leaf(tokens + rest);
      && r.Took? && r.id == id && r.rest == rest
    case NotOf(_, b) => ReadsAtom(leaf, b, rest)
    case Parens(e) => Reads(leaf, e, [")"] + rest)
  }

  /*** What the parser makes of a sentence ***/

  function Denote(a: Atom): (p: Predicate)
    ensures !p.Combined?
  {
    match a
    case Word(_, id) => Primary(id)
    case NotOf(_, b) => Negated(Denote(b))
    case Parens(e) => Grouped(Result(First(e), Links(e)))
  }

  function First(e: Expression): (p: Predicate)
    ensures !p.Combined?
  {
    if e.Single? then Denote(e.a) else First(e.e)
  }

  function Links(e: Expression): (links: seq<Link>)
    ensures Opaque(links)
  {
    if e.Single? then [] else Links(e.e) + [LinkOf(e.join, Denote(e.a))]
  }

  function LinkOf(j: Join, p: Predicate): (l: Link)
    ensures l.p == p
  {
    if j.Implied? then Link("-a", AndOp, p) else Link(j.word, OpOf(j.word).value, p)
  }

  function Tree(e: Expression): Predicate { Result(First(e), Links(e)) }

  // The stack once e has been read.
  function StackOf(e: Expression): (st: Stack)
    ensures EndsInOperand(st.items) && Shaped(st)
  {
    After(First(e), Links(e))
  }

  lemma StackGrows(e: Expression, j: Join, a: Atom)
    ensures var l := LinkOf(j, Denote(a));
      && StackOf(Linked(e, j, a)) == PushOperand(PushOperator(StackOf(e), l.word, l.op), Denote(a))
      && (j.Implied? ==> StackOf(Linked(e, j, a)) == PushOperand(StackOf(e), Denote(a)))
  {
    var links := Links(Linked(e, j, a));
    assert links[..|links| - 1] == Links(e);
  }

  lemma Assoc(a: Tokens, b: Tokens, c: Tokens)
    ensures a + b + c == a + (b + c)
  {
  }

  lemma TopIsOperand(items: seq<Item>)
    requires Alternates(items) && items != [] && !EndsInOperator(items)
    ensures EndsInOperand(items)
  {
    assert items[|items| - 1].Operand?;
  }

  /*** Every sentence is parsed ***/

  lemma {:induction false} AtomStart(leaf: Leaf, a: Atom, rest: Tokens)
    requires ReadsAtom(leaf, a, rest)
    ensures PrintAtom(a) != [] && PrintAtom(a)[0] != ")"
  {
  }

  // An operator between two atoms is not an atom.
  lemma WordIsNoAtom(leaf: Leaf, w: OpWord, rest: Tokens, depth: nat)
    requires Consumes(leaf) && leaf([w] + rest).Refused?
    ensures ParseAtom(leaf, [w] + rest, depth) == NoMatch
  {
  }

  lemma LoopPushesAtom(leaf: Leaf, a: Atom, rest: Tokens, depth: nat, st: Stack)
    requires Consumes(leaf) && Shaped(st) && ReadsAtom(leaf, a, rest)
    requires var r := ParseAtom(leaf, PrintAtom(a) + rest, depth); r.Parsed? && r.p == Denote(a) && r.rest == rest
    ensures ParseLoop(leaf, PrintAtom(a) + rest, depth, st) == ParseLoop(leaf, rest, depth, PushOperand(st, Denote(a)))
  {
    AtomStart(leaf, a, rest);
  }

  lemma LoopPushesWord(leaf: Leaf, w: OpWord, rest: Tokens, depth: nat, st: Stack)
    requires Consumes(leaf) && Shaped(st) && EndsInOperand(st.items) && leaf([w] + rest).Refused?
    ensures ParseLoop(leaf, [w] + rest, depth, st) == ParseLoop(leaf, rest, depth, PushOperator(st, w, OpOf(w).value))
  {
    WordIsNoAtom(leaf, w, rest, depth);
    assert ([w] + rest)[1..] == rest;
  }

  lemma LoopPushesLink(leaf: Leaf, e: Expression, j: Join, a: Atom, rest: Tokens, depth: nat)
    requires Consumes(leaf) && ReadsAtom(leaf, a, rest)
    requires (j.Spelled? ==> leaf([j.word] + (PrintAtom(a) + rest)).Refused?)
    requires var r := ParseAtom(leaf, PrintAtom(a) + rest, depth); r.Parsed? && r.p == Denote(a) && r.rest == rest
    ensures ParseLoop(leaf, PrintJoin(j) + PrintAtom(a) + rest, depth, StackOf(e))
        == ParseLoop(leaf, rest, depth, StackOf(Linked(e, j, a)))
  {
    var st := StackOf(e);
    StackGrows(e, j, a);
    if j.Implied? {
      assert PrintJoin(j) + PrintAtom(a) + rest == PrintAtom(a) + rest;
      LoopPushesAtom(leaf, a, rest, depth, st);
    } else {
      assert PrintJoin(j) + PrintAtom(a) + rest == [j.word] + (PrintAtom(a) + rest);
      LoopPushesWord(leaf, j.word, PrintAtom(a) + rest, depth, st);
      LoopPushesAtom(leaf, a, rest, depth, PushOperator(st, j.word, OpOf(j.word).value));
    }
  }

  lemma {:induction false} AtomParses(leaf: Leaf, a: Atom, rest: Tokens, depth: nat)
    requires Consumes(leaf) && ReadsAtom(leaf, a, rest)
    ensures PrintAtom(a) != []
    ensures var r := ParseAtom(leaf, PrintAtom(a) + rest, depth); r.Parsed? && r.p == Denote(a) && r.rest == rest
  {
    match a
    case Word(tokens, id) =>
    case NotOf(w, b) =>
      AtomStart(leaf, b, rest);
      AtomParses(leaf, b, rest, depth);
      assert (PrintAtom(a) + rest)[1..] == PrintAtom(b) + rest;
    case Parens(e) =>
      LoopParses(leaf, e, [")"] + rest, depth + 1);
      ParensParse(leaf, e, rest, depth);
  }

  lemma ParensParse(leaf: Leaf, e: Expression, rest: Tokens, depth: nat)
    requires Consumes(leaf)
    requires ParseLoop(leaf, Print(e) + ([")"] + rest), depth + 1, EMPTY)
        == ParseLoop(leaf, [")"] + rest, depth + 1, StackOf(e))
    ensures ParseAtom(leaf, PrintAtom(Parens(e)) + rest, depth) == Parsed(Denote(Parens(e)), rest, None)
  {
    var tokens := PrintAtom(Parens(e)) + rest;
    assert tokens[1..] == Print(e) + ([")"] + rest);
    assert ParseExpression(leaf, tokens[1..], depth + 1) == Done(Tree(e), [")"] + rest, None);
    assert ([")"] + rest)[1..] == rest;
  }

  lemma PrintLinked(e: Expression, rest: Tokens)
    requires e.Linked?
    ensures Print(e) + rest == Print(e.e) + (PrintJoin(e.join) + PrintAtom(e.a) + rest)
  {
    var p, j, a := Print(e.e), PrintJoin(e.join), PrintAtom(e.a);
    assert p + j + a + rest == p + (j + a + rest);
  }

  lemma {:induction false} LoopParses(leaf: Leaf, e: Expression, rest: Tokens, depth: nat)
    requires Consumes(leaf) && Reads(leaf, e, rest)
    ensures ParseLoop(leaf, Print(e) + rest, depth, EMPTY) == ParseLoop(leaf, rest, depth, StackOf(e))
  {
    AtomParses(leaf, e.a, rest, depth);
    if e.Single? {
      LoopPushesAtom(leaf, e.a, rest, depth, EMPTY);
    } else {
      var tail := PrintJoin(e.join) + PrintAtom(e.a) + rest;
      LoopParses(leaf, e.e, tail, depth);
      PrintLinked(e, rest);
      LoopPushesLink(leaf, e.e, e.join, e.a, rest, depth);
    }
  }

  /*** Nothing else is ***/

  // How far the token loop has come: nowhere, after an expression, after an operator.
  datatype Progress = Nothing | Whole(e: Expression) | Dangling(e: Expression, word: OpWord)

  function Text(pr: Progress): Tokens {
    match pr
    case Nothing => []
    case Whole(e) => Print(e)
    case Dangling(e, w) => Print(e) + [w]
  }

  function StackAt(pr: Progress): (st: Stack)
    ensures Shaped(st)
  {
    match pr
    case Nothing => EMPTY
    case Whole(e) => StackOf(e)
    case Dangling(e, w) => PushOperator(StackOf(e), w, OpOf(w).value)
  }

  predicate ReadSoFar(leaf: Leaf, pr: Progress, rest: Tokens) {
    match pr
    case Nothing => true
    case Whole(e) => Reads(leaf, e, rest)
    case Dangling(e, w) => Reads(leaf, e, [w] + rest) && leaf([w] + rest).Refused?
  }

  function AddAtom(pr: Progress, a: Atom): Progress {
    match pr
    case Nothing => Whole(Single(a))
    case Whole(e) => Whole(Linked(e, Implied, a))
    case Dangling(e, w) => Whole(Linked(e, Spelled(w), a))
  }

  lemma AtomAdded(leaf: Leaf, pr: Progress, a: Atom, rest: Tokens)
    requires ReadSoFar(leaf, pr, PrintAtom(a) + rest) && ReadsAtom(leaf, a, rest)
    ensures ReadSoFar(leaf, AddAtom(pr, a), rest)
    ensures Text(AddAtom(pr, a)) == Text(pr) + PrintAtom(a)
  {
    var p := PrintAtom(a);
    if pr.Whole? {
      assert PrintJoin(Implied) + p == p;
      Assoc(Print(pr.e), PrintJoin(Implied), p);
    } else if pr.Dangling? {
      Assoc([pr.word], p, rest);
    }
  }

  lemma StackWithAtom(pr: Progress, a: Atom)
    ensures StackAt(AddAtom(pr, a)) == PushOperand(StackAt(pr), Denote(a))
  {
    if pr.Whole? {
      StackGrows(pr.e, Implied, a);
    } else if pr.Dangling? {
      StackGrows(pr.e, Spelled(pr.word), a);
    }
  }

  predicate AtomBefore(leaf: Leaf, tokens: Tokens, a: Atom, p: Predicate, rest: Tokens) {
    tokens == PrintAtom(a) + rest && ReadsAtom(leaf, a, rest) && Denote(a) == p
  }

  predicate ExpressionBefore(leaf: Leaf, tokens: Tokens, e: Expression, p: Predicate, rest: Tokens) {
    tokens == Print(e) + rest && Reads(leaf, e, rest) && Tree(e) == p
  }

  predicate ProgressBefore(leaf: Leaf, tokens: Tokens, pr: Progress, st: Stack, rest: Tokens) {
    tokens == Text(pr) + rest && ReadSoFar(leaf, pr, rest) && StackAt(pr) == st
  }

  lemma NotBefore(leaf: Leaf, tokens: Tokens, b: Atom, p: Predicate, rest: Tokens)
    requires tokens != [] && IsNot(tokens[0]) && AtomBefore(leaf, tokens[1..], b, p, rest)
    ensures AtomBefore(leaf, tokens, NotOf(tokens[0], b), Negated(p), rest)
  {
    assert tokens == [tokens[0]] + tokens[1..];
    assert PrintAtom(NotOf(tokens[0], b)) + rest == [tokens[0]] + (PrintAtom(b) + rest);
  }

  lemma ParensBefore(leaf: Leaf, tokens: Tokens, e: Expression, p: Predicate, rest: Tokens)
    requires tokens != [] && tokens[0] == "(" && ExpressionBefore(leaf, tokens[1..], e, p, [")"] + rest)
    ensures AtomBefore(leaf, tokens, Parens(e), Grouped(p), rest)
  {
    assert tokens == ["("] + tokens[1..];
    assert PrintAtom(Parens(e)) + rest == ["("] + (Print(e) + ([")"] + rest));
  }

  lemma WordBefore(leaf: Leaf, tokens: Tokens, rest: Tokens)
    requires Consumes(leaf) && leaf(tokens).Took? && leaf(tokens).rest == rest
    requires tokens != [] && !IsNot(tokens[0]) && tokens[0] != "(" && tokens[0] != ")"
    ensures |rest| <= |tokens| && AtomBefore(leaf, tokens, Word(tokens[..|tokens| - |rest|], leaf(tokens).id),
                                             Primary(leaf(tokens).id), rest)
  {
    var n := |tokens| - |rest|;
    assert tokens == tokens[..n] + tokens[n..];
  }

  // Which of the three parsers of an atom answered.
  lemma AtomCases(leaf: Leaf, tokens: Tokens, depth: nat)
    requires Consumes(leaf) && tokens != [] && ParseAtom(leaf, tokens, depth).Parsed?
    ensures tokens[0] != ")"
    ensures IsNot(tokens[0]) ==>
      && |tokens| > 1
      && var inner := ParseAtom(leaf, tokens[1..], depth);
      && inner.Parsed? && ParseAtom(leaf, tokens, depth) == inner.(p := Negated(inner.p))
    ensures tokens[0] == "(" ==>
      var inner := ParseExpression(leaf, tokens[1..], depth + 1);
      && inner.Done? && inner.rest != [] && inner.rest[0] == ")"
      && ParseAtom(leaf, tokens, depth) == Parsed(Grouped(inner.p), inner.rest[1..], None)
    ensures !IsNot(tokens[0]) && tokens[0] != "(" ==>
      var l := leaf(tokens); l.Took? && ParseAtom(leaf, tokens, depth) == Parsed(Primary(l.id), l.rest, l.err)
  {
  }

  lemma {:induction false} AtomSound(leaf: Leaf, tokens: Tokens, depth: nat) returns (a: Atom)
    requires Consumes(leaf) && tokens != [] && ParseAtom(leaf, tokens, depth).Parsed?
    ensures var r := ParseAtom(leaf, tokens, depth); AtomBefore(leaf, tokens, a, r.p, r.rest)
    decreases |tokens|, 1
  {
    AtomCases(leaf, tokens, depth);
    var r := ParseAtom(leaf, tokens, depth);
    if IsNot(tokens[0]) {
      var b := AtomSound(leaf, tokens[1..], depth);
      a := NotOf(tokens[0], b);
      NotBefore(leaf, tokens, b, r.p.p, r.rest);
    } else if tokens[0] == "(" {
      var inner := ParseExpression(leaf, tokens[1..], depth + 1);
      var e := ExpressionSound(leaf, tokens[1..], depth + 1);
      a := Parens(e);
      assert inner.rest == [")"] + inner.rest[1..];
      ParensBefore(leaf, tokens, e, inner.p, inner.rest[1..]);
    } else {
      a := Word(tokens[..|tokens| - |r.rest|], leaf(tokens).id);
      WordBefore(leaf, tokens, r.rest);
    }
  }

  // What one round of the token loop does when it goes on.
  lemma LoopCases(leaf: Leaf, tokens: Tokens, depth: nat, st: Stack)
    requires Consumes(leaf) && Shaped(st) && ParseLoop(leaf, tokens, depth, st).Stopped?
    ensures tokens == [] || tokens[0] == ")" ==>
      ParseLoop(leaf, tokens, depth, st).st == st && ParseLoop(leaf, tokens, depth, st).rest == tokens
    ensures tokens != [] && tokens[0] != ")" ==>
      var r, l := ParseAtom(leaf, tokens, depth), ParseLoop(leaf, tokens, depth, st);
      if r.Parsed? then l == ParseLoop(leaf, r.rest, depth, PushOperand(st, r.p))
      else if r.NoMatch? && OpOf(tokens[0]).Some? then
        && EndsInOperand(st.items) && leaf(tokens).Refused?
        && l == ParseLoop(leaf, tokens[1..], depth, PushOperator(st, tokens[0], OpOf(tokens[0]).value))
      else l.st == st && l.rest == tokens
  {
    if st.items != [] && !EndsInOperator(st.items) { TopIsOperand(st.items); }
  }

  lemma {:induction false} LoopSound(leaf: Leaf, all: Tokens, tokens: Tokens, depth: nat, pr: Progress)
    returns (after: Progress)
    requires Consumes(leaf) && ProgressBefore(leaf, all, pr, StackAt(pr), tokens)
    requires ParseLoop(leaf, tokens, depth, StackAt(pr)).Stopped?
    ensures var r := ParseLoop(leaf, tokens, depth, StackAt(pr)); ProgressBefore(leaf, all, after, r.st, r.rest)
    decreases |tokens|, 2
  {
    LoopCases(leaf, tokens, depth, StackAt(pr));
    after := pr;
    if tokens != [] && tokens[0] != ")" {
      var r := ParseAtom(leaf, tokens, depth);
      if r.Parsed? {
        var a := AtomSound(leaf, tokens, depth);
        AtomAdded(leaf, pr, a, r.rest);
        StackWithAtom(pr, a);
        Assoc(Text(pr), PrintAtom(a), r.rest);
        after := LoopSound(leaf, all, r.rest, depth, AddAtom(pr, a));
      } else if r.NoMatch? && OpOf(tokens[0]).Some? {
        var next := WordAdded(leaf, all, tokens, pr);
        after := LoopSound(leaf, all, tokens[1..], depth, next);
      }
    }
  }

  lemma WordAdded(leaf: Leaf, all: Tokens, tokens: Tokens, pr: Progress) returns (next: Progress)
    requires ProgressBefore(leaf, all, pr, StackAt(pr), tokens) && tokens != [] && OpOf(tokens[0]).Some?
    requires EndsInOperand(StackAt(pr).items) && leaf(tokens).Refused?
    ensures ProgressBefore(leaf, all, next, PushOperator(StackAt(pr), tokens[0], OpOf(tokens[0]).value), tokens[1..])
  {
    assert tokens == [tokens[0]] + tokens[1..];
    assert pr.Whole?;
    next := Dangling(pr.e, tokens[0]);
    assert Text(next) + tokens[1..] == Print(pr.e) + tokens;
  }

  // A trailing operator that is given back leaves the tree of what came before it.
  lemma CollapseDangling(e: Expression, w: OpWord)
    ensures var items := PushOperator(StackOf(e), w, OpOf(w).value).items;
      EndsInOperand(items[..|items| - 1]) && Collapse(items[..|items| - 1]) == Tree(e)
  {
    var st := StackOf(e);
    var items := PushOperator(st, w, OpOf(w).value).items;
    assert items[..|items| - 1] == st.items || items[..|items| - 1] == [Operand(Collapse(st.items))];
  }

  lemma WholeFinishes(leaf: Leaf, all: Tokens, e: Expression, st: Stack, rest: Tokens, err: Option<Soft>, depth: nat)
    requires ProgressBefore(leaf, all, Whole(e), st, rest) && Shaped(st) && Finish(st, rest, err, depth).Done?
    ensures var r := Finish(st, rest, err, depth); ExpressionBefore(leaf, all, e, r.p, r.rest)
  {
    assert EndsInOperand(st.items) && Tree(e) == Collapse(st.items);
    assert st.items[|st.items| - 1].Operand?;
  }

  lemma DanglingFinishes(leaf: Leaf, all: Tokens, e: Expression, w: OpWord, st: Stack, rest: Tokens, err: Option<Soft>,
                         depth: nat)
    requires ProgressBefore(leaf, all, Dangling(e, w), st, rest) && Shaped(st) && Finish(st, rest, err, depth).Done?
    ensures var r := Finish(st, rest, err, depth); ExpressionBefore(leaf, all, e, r.p, r.rest)
  {
    CollapseDangling(e, w);
    assert st.word == w && EndsInOperator(st.items);
    Assoc(Print(e), [w], rest);
  }

  // What Finish makes of the stack, when it succeeds.
  lemma FinishSound(leaf: Leaf, all: Tokens, pr: Progress, st: Stack, rest: Tokens, err: Option<Soft>, depth: nat)
    requires ProgressBefore(leaf, all, pr, st, rest) && Shaped(st) && Finish(st, rest, err, depth).Done?
    ensures !pr.Nothing?
    ensures var r := Finish(st, rest, err, depth); ExpressionBefore(leaf, all, pr.e, r.p, r.rest)
  {
    if pr.Whole? {
      WholeFinishes(leaf, all, pr.e, st, rest, err, depth);
    } else if pr.Dangling? {
      DanglingFinishes(leaf, all, pr.e, pr.word, st, rest, err, depth);
    }
  }

  lemma {:induction false} ExpressionSound(leaf: Leaf, tokens: Tokens, depth: nat) returns (e: Expression)
    requires Consumes(leaf) && ParseExpression(leaf, tokens, depth).Done?
    ensures var r := ParseExpression(leaf, tokens, depth); ExpressionBefore(leaf, tokens, e, r.p, r.rest)
    decreases |tokens|, 3
  {
    var l := ParseLoop(leaf, tokens, depth, EMPTY);
    assert l.Stopped? && ParseExpression(leaf, tokens, depth) == Finish(l.st, l.rest, l.err, depth);
    var pr := LoopSound(leaf, tokens, tokens, depth, Nothing);
    FinishSound(leaf, tokens, pr, l.st, l.rest, l.err, depth);
    e := pr.e;
  }

  /*** The parser's language ***/

  ghost predicate Sentence(leaf: Leaf, tokens: Tokens, p: Predicate) {
    exists e :: Print(e) == tokens && Reads(leaf, e, []) && Tree(e) == p
  }

  /** The parser takes a whole token list for p exactly when it is a sentence of the grammar
      whose primaries the caller's parser reads, and p is what its evaluation stack builds. */
  lemma ParsesIff(leaf: Leaf, tokens: Tokens, p: Predicate)
    requires Consumes(leaf)
    ensures ParseExpression(leaf, tokens, 0) == Done(p, [], None) <==> Sentence(leaf, tokens, p)
  {
    if ParseExpression(leaf, tokens, 0) == Done(p, [], None) {
      var e := ExpressionSound(leaf, tokens, 0);
      assert Print(e) + [] == Print(e);
    }
    if Sentence(leaf, tokens, p) {
      var e :| Print(e) == tokens && Reads(leaf, e, []) && Tree(e) == p;
      LoopParses(leaf, e, [], 0);
      assert Print(e) + [] == Print(e);
    }
  }

  /** A predicate that comes with an unknown token or an incomplete operator stands for a
      sentence up to the tokens that are handed back. */
  lemma PartialParseIsSentence(leaf: Leaf, tokens: Tokens) returns (e: Expression)
    requires Consumes(leaf) && ParseExpression(leaf, tokens, 0).Done?
    ensures var r := ParseExpression(leaf, tokens, 0);
      tokens == Print(e) + r.rest && Reads(leaf, e, r.rest) && Tree(e) == r.p
  {
    e := ExpressionSound(leaf, tokens, 0);
  }

  /*** Precedence ***/

  // What precedence and left associativity make of a sentence, in every pair of parentheses.
  function StandardAtom(a: Atom): (p: Predicate)
    ensures !p.Combined?
  {
    match a
    case Word(_, id) => Primary(id)
    case NotOf(_, b) => Negated(StandardAtom(b))
    case Parens(e) => Grouped(Standard(StandardFirst(e), StandardLinks(e)))
  }

  function StandardFirst(e: Expression): (p: Predicate)
    ensures !p.Combined?
  {
    if e.Single? then StandardAtom(e.a) else StandardFirst(e.e)
  }

  function StandardLinks(e: Expression): (links: seq<Link>)
    ensures |links| == |Links(e)| && Opaque(links)
    ensures forall i :: 0 <= i < |links| ==> links[i].word == Links(e)[i].word && links[i].op == Links(e)[i].op
  {
    if e.Single? then [] else StandardLinks(e.e) + [LinkOf(e.join, StandardAtom(e.a))]
  }

  function StandardTree(e: Expression): Predicate { Standard(StandardFirst(e), StandardLinks(e)) }

  /** Nowhere in e, parentheses included, is an OR followed by two ANDs. */
  ghost predicate Plain(e: Expression) { !HasTriple(Links(e)) && PlainAtoms(e) }

  ghost predicate PlainAtoms(e: Expression) {
    (e.Linked? ==> PlainAtoms(e.e)) && PlainAtom(e.a)
  }

  ghost predicate PlainAtom(a: Atom) {
    match a
    case Word(_, _) => true
    case NotOf(_, b) => PlainAtom(b)
    case Parens(e) => !HasTriple(Links(e)) && PlainAtoms(e)
  }

  lemma {:induction false} AtomStandardIff(a: Atom)
    ensures Denote(a) == StandardAtom(a) <==> PlainAtom(a)
    decreases a, 1
  {
    match a
    case Word(_, _) =>
    case NotOf(_, b) => AtomStandardIff(b);
    case Parens(e) =>
      ChainStandardIff(e);
      TreeFromChain(e);
  }

  lemma {:induction false} ChainStandardIff(e: Expression)
    ensures First(e) == StandardFirst(e) && Links(e) == StandardLinks(e) <==> PlainAtoms(e)
    decreases e, 0
  {
    AtomStandardIff(e.a);
    if e.Linked? {
      ChainStandardIff(e.e);
      var l, s := Links(e), StandardLinks(e);
      if l == s {
        assert l[..|l| - 1] == Links(e.e) && s[..|s| - 1] == StandardLinks(e.e);
        assert l[|l| - 1].p == Denote(e.a) && s[|s| - 1].p == StandardAtom(e.a);
      }
    }
  }

  lemma SameOperands(f: Predicate, l: seq<Link>, g: Predicate, s: seq<Link>)
    requires OperandsOf(f, l) == OperandsOf(g, s) && |l| == |s|
    requires forall i :: 0 <= i < |l| ==> l[i].word == s[i].word && l[i].op == s[i].op
    ensures f == g && l == s
  {
    assert OperandsOf(f, l)[0] == f && OperandsOf(g, s)[0] == g;
    forall i | 0 <= i < |l| ensures l[i] == s[i] {
      assert OperandsOf(f, l)[i + 1] == l[i].p && OperandsOf(g, s)[i + 1] == s[i].p;
    }
  }

  lemma TreeFromChain(e: Expression)
    requires First(e) == StandardFirst(e) && Links(e) == StandardLinks(e) <==> PlainAtoms(e)
    ensures Tree(e) == StandardTree(e) <==> Plain(e)
  {
    hide Result, Standard, Operands, Operators;
    var f, l, g, s := First(e), Links(e), StandardFirst(e), StandardLinks(e);
    ResultIsStandardIff(f, l);
    ResultKeepsOrder(f, l);
    StandardLayered(g, s);
    if OperandsOf(f, l) == OperandsOf(g, s) { SameOperands(f, l, g, s); }
  }

  /** The parser gives a sentence the tree its precedences ask for exactly when the sentence is
      plain. */
  lemma TreeIsStandardIff(e: Expression)
    ensures Tree(e) == StandardTree(e) <==> Plain(e)
  {
    ChainStandardIff(e);
    TreeFromChain(e);
  }

  /*** The panic ***/

  // The parser of primaries is asked about these tokens and answers with an unknown token and no
  // predicate. It is never asked about a NOT word or a parenthesis.
  predicate LostAt(leaf: Leaf, tokens: Tokens) {
    tokens != [] && !IsNot(tokens[0]) && tokens[0] != "(" && tokens[0] != ")" && leaf(tokens).Lost?
  }

  ghost predicate NeverLost(leaf: Leaf) {
    forall tokens :: !LostAt(leaf, tokens)
  }

  lemma {:induction false} AtomSafe(leaf: Leaf, tokens: Tokens, depth: nat)
    requires Consumes(leaf) && NeverLost(leaf) && tokens != []
    ensures !ParseAtom(leaf, tokens, depth).AtomPanic? && !ParseAtom(leaf, tokens, depth).NoPredicate?
    decreases |tokens|, 1
  {
    assert !LostAt(leaf, tokens);
    if IsNot(tokens[0]) && |tokens| > 1 {
      AtomSafe(leaf, tokens[1..], depth);
    } else if tokens[0] == "(" {
      LoopSafe(leaf, tokens[1..], depth + 1, EMPTY);
      assert !ParseExpression(leaf, tokens[1..], depth + 1).Panic?;
    }
  }

  lemma {:induction false} LoopSafe(leaf: Leaf, tokens: Tokens, depth: nat, st: Stack)
    requires Consumes(leaf) && NeverLost(leaf) && Shaped(st)
    ensures !ParseLoop(leaf, tokens, depth, st).LoopPanic?
    decreases |tokens|, 2
  {
    if tokens != [] && tokens[0] != ")" {
      AtomSafe(leaf, tokens, depth);
      var r := ParseAtom(leaf, tokens, depth);
      if r.Parsed? {
        LoopSafe(leaf, r.rest, depth, PushOperand(st, r.p));
      } else if r.NoMatch? && OpOf(tokens[0]).Some? && st.items != [] && !EndsInOperator(st.items) {
        LoopSafe(leaf, tokens[1..], depth, PushOperator(st, tokens[0], OpOf(tokens[0]).value));
      }
    }
  }

  lemma ParserNeverPanics(leaf: Leaf, tokens: Tokens, depth: nat)
    requires Consumes(leaf) && NeverLost(leaf)
    ensures ParseExpression(leaf, tokens, depth) != Panic
  {
    LoopSafe(leaf, tokens, depth, EMPTY);
  }

  ghost predicate CanPanic(leaf: Leaf, depth: nat)
    requires Consumes(leaf)
  {
    exists tokens :: ParseExpression(leaf, tokens, depth) == Panic
  }

  /** The parser panics on some input exactly when the parser of primaries answers somewhere with an
      unknown token and no predicate, on tokens it can be asked about. */
  lemma ParserPanicsIff(leaf: Leaf, depth: nat)
    requires Consumes(leaf)
    ensures CanPanic(leaf, depth) <==> !NeverLost(leaf)
  {
    if NeverLost(leaf) {
      forall tokens ensures ParseExpression(leaf, tokens, depth) != Panic { ParserNeverPanics(leaf, tokens, depth); }
    } else {
      var tokens :| LostAt(leaf, tokens);
      assert ParseNot(leaf, tokens, depth).NoMatch? && ParseParens(leaf, tokens, depth).NoMatch?;
      assert ParseAtom(leaf, tokens, depth) == NoPredicate;
      assert ParseLoop(leaf, tokens, depth, EMPTY) == LoopPanic;
      assert ParseExpression(leaf, tokens, depth) == Panic;
    }
  }
}
