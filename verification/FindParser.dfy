/** The find expression parser over an arbitrary parser of primaries
    (cmd/internal/find/parser/expression/parser.go, atom.go; predicate/parser.go). */
module FindParser {
  import opened Options
  import opened EvalStacks

  type Tokens = seq<string>

  // The errors an expression may end with and still be a predicate.
  datatype Soft = UnknownToken | IncompleteOperator

  // What the caller's predicate parser answers: a primary (perhaps with an error after it), a
  // match error, an error of one of the two soft kinds without a predicate, a syntax error.
  datatype LeafResult = Took(id: nat, rest: Tokens, err: Option<Soft>) | Refused | Unfinished | Lost | Malformed

  type Leaf = Tokens -> LeafResult

  /** A primary is at least one token, and what it leaves is the end of what it was given. */
  ghost predicate Consumes(leaf: Leaf) {
    forall tokens :: leaf(tokens).Took? ==>
      var rest := leaf(tokens).rest;
      |rest| < |tokens| && rest == tokens[|tokens| - |rest|..]
  }

  datatype AtomResult = Parsed(p: Predicate, rest: Tokens, err: Option<Soft>) | NoMatch | NoOperand | NoPredicate
      | BadAtom | AtomPanic

  datatype LoopResult = Stopped(st: Stack, rest: Tokens, err: Option<Soft>) | BadTokens | LoopPanic

  datatype ParseResult = Done(p: Predicate, rest: Tokens, err: Option<Soft>) | EmptyExpression(rest: Tokens)
      | SyntaxError | Panic

  predicate IsNot(word: string) { word == "!" || word == "-not" }

  function OpOf(word: string): Option<Op> {
    if word == "-a" || word == "-and" then Some(AndOp)
    else if word == "-o" || word == "-or" then Some(OrOp)
    else None
  }

  predicate EndsInOperator(items: seq<Item>) { items != [] && items[|items| - 1].Operator? }

  /*** The functions the parser computes ***/

  function ParseAtom(leaf: Leaf, tokens: Tokens, depth: nat): (r: AtomResult)
    requires Consumes(leaf) && tokens != []
    ensures r.Parsed? ==> |r.rest| < |tokens|
    decreases |tokens|, 1
  {
    var n := ParseNot(leaf, tokens, depth);
    if !n.NoMatch? then n
    else
      var q := ParseParens(leaf, tokens, depth);
      if !q.NoMatch? then q
      else
        match leaf(tokens)
        case Took(id, rest, err) => Parsed(Primary(id), rest, err)
        case Refused => NoMatch
        case Unfinished => NoOperand
        case Lost => NoPredicate
        case Malformed => BadAtom
  }

  function ParseNot(leaf: Leaf, tokens: Tokens, depth: nat): (r: AtomResult)
    requires Consumes(leaf) && tokens != []
    ensures r.Parsed? ==> |r.rest| < |tokens|
    decreases |tokens|, 0
  {
    if !IsNot(tokens[0]) then NoMatch
    else if |tokens| == 1 || tokens[1] == ")" then BadAtom
    else
      var r := ParseAtom(leaf, tokens[1..], depth);
      if r.NoMatch? then NoOperand else if r.Parsed? then r.(p := Negated(r.p)) else r
  }

  function ParseParens(leaf: Leaf, tokens: Tokens, depth: nat): (r: AtomResult)
    requires Consumes(leaf) && tokens != []
    ensures r.Parsed? ==> |r.rest| < |tokens|
    decreases |tokens|, 0
  {
    if tokens[0] == ")" then BadAtom
    else if tokens[0] != "(" then NoMatch
    else
      match ParseExpression(leaf, tokens[1..], depth + 1)
      case SyntaxError => BadAtom
      case Panic => AtomPanic
      case EmptyExpression(rest) => BadAtom
      case Done(p, rest, err) =>
        if err.Some? then Parsed(Grouped(p), rest, err)
        else if rest == [] || rest[0] != ")" then BadAtom
        else Parsed(Grouped(p), rest[1..], None)
  }

  function ParseExpression(leaf: Leaf, tokens: Tokens, depth: nat): (r: ParseResult)
    requires Consumes(leaf)
    ensures r.Done? ==> |r.rest| <= |tokens|
    decreases |tokens|, 3
  {
    match ParseLoop(leaf, tokens, depth, EMPTY)
    case BadTokens => SyntaxError
    case LoopPanic => Panic
    case Stopped(st, rest, err) => Finish(st, rest, err, depth)
  }

  function Finish(st: Stack, rest: Tokens, err: Option<Soft>, depth: nat): ParseResult
    requires Shaped(st)
  {
    if st.items == [] then
      if err.None? then EmptyExpression(rest) else SyntaxError
    else if depth > 0 && err.Some? then SyntaxError
    else if EndsInOperator(st.items) then
      if err.None? then SyntaxError else Done(Collapse(st.items[..|st.items| - 1]), [st.word] + rest, err)
    else Done(Collapse(st.items), rest, err)
  }

  function ParseLoop(leaf: Leaf, tokens: Tokens, depth: nat, st: Stack): (r: LoopResult)
    requires Consumes(leaf) && Shaped(st)
    ensures r.Stopped? ==> Shaped(r.st) && |r.rest| <= |tokens|
    ensures r.Stopped? && EndsInOperator(r.st.items) && !EndsInOperator(st.items) ==> |r.rest| < |tokens|
    decreases |tokens|, 2
  {
    if tokens == [] then Stopped(st, tokens, None)
    else if tokens[0] == ")" then Stopped(st, tokens, if depth > 0 then None else Some(IncompleteOperator))
    else
      match ParseAtom(leaf, tokens, depth)
      case Parsed(p, rest, _) => ParseLoop(leaf, rest, depth, PushOperand(st, p))
      case NoOperand => Stopped(st, tokens, Some(IncompleteOperator))
      case NoPredicate => LoopPanic
      case AtomPanic => LoopPanic
      case BadAtom => BadTokens
      case NoMatch =>
        var op := OpOf(tokens[0]);
        if op.None? then Stopped(st, tokens, Some(UnknownToken))
        else if st.items == [] || EndsInOperator(st.items) then BadTokens
        else ParseLoop(leaf, tokens[1..], depth, PushOperator(st, tokens[0], op.value))
  }

  /*** The parser ***/

  class Parser {
    const leaf: Leaf
    var stack: EvalStack
    var numOpenParens: nat

    constructor (leaf: Leaf)
      ensures this.leaf == leaf && numOpenParens == 0
    {
      this.leaf := leaf;
      stack := new EvalStack();
      numOpenParens := 0;
    }

    method Parse(tokens: Tokens) returns (r: ParseResult)
      requires Consumes(leaf)
      modifies this
      ensures numOpenParens == old(numOpenParens)
      ensures r == ParseExpression(leaf, tokens, numOpenParens)
      decreases |tokens|, 3
    {
      stack := new EvalStack();
      var l := ParseTokens(tokens);
      if l.BadTokens? { return SyntaxError; }
      if l.LoopPanic? { return Panic; }
      r := Conclude(l.rest, l.err);
    }

    // The part of Parse that follows the token loop.
    method Conclude(rest: Tokens, err: Option<Soft>) returns (r: ParseResult)
      requires Shaped(stack.State())
      modifies stack
      ensures r == Finish(old(stack.State()), rest, err, numOpenParens)
    {
      if stack.items == [] {
        return if err.None? then EmptyExpression(rest) else SyntaxError;
      }
      if numOpenParens > 0 && err.Some? { return SyntaxError; }
      var tokens := rest;
      if stack.items[|stack.items| - 1].Operator? {
        if err.None? { return SyntaxError; }
        ghost var before := stack.items;
        var op := stack.Pop();
        assert stack.items == before[..|before| - 1];
        tokens := [stack.mostRecentOpToken] + tokens;
      }
      stack.Evaluate();
      var p := stack.Pop();
      r := Done(p.p, tokens, err);
    }

    // On success the returned stack is the state the evaluation stack is left in.
    method ParseTokens(start: Tokens) returns (r: LoopResult)
      requires Consumes(leaf) && Shaped(stack.State())
      modifies this, stack
      ensures stack == old(stack) && numOpenParens == old(numOpenParens)
      ensures r == ParseLoop(leaf, start, numOpenParens, old(stack.State()))
      ensures r.Stopped? ==> r.st == stack.State()
      decreases |start|, 2
    {
      var tokens := start;
      while true
        invariant stack == old(stack) && numOpenParens == old(numOpenParens)
        invariant Shaped(stack.State()) && |tokens| <= |start|
        invariant ParseLoop(leaf, start, numOpenParens, old(stack.State()))
            == ParseLoop(leaf, tokens, numOpenParens, stack.State())
        decreases |tokens|
      {
        if tokens == [] { return Stopped(stack.State(), tokens, None); }
        var token := tokens[0];
        if token == ")" {
          return Stopped(stack.State(), tokens, if numOpenParens > 0 then None else Some(IncompleteOperator));
        }
        var a := Atom(tokens);
        if a.Parsed? {
          stack.PushPredicate(a.p);
          tokens := a.rest;
          continue;
        }
        if a.BadAtom? { return BadTokens; }
        if a.NoPredicate? || a.AtomPanic? { return LoopPanic; }
        if a.NoOperand? { return Stopped(stack.State(), tokens, Some(IncompleteOperator)); }
        var b := OpOf(token);
        if b.None? { return Stopped(stack.State(), tokens, Some(UnknownToken)); }
        if stack.mostRecentOp.None? {
          if stack.items == [] { return BadTokens; }
        } else if stack.items[|stack.items| - 1].Operator? {
          return BadTokens;
        }
        stack.PushBinaryOp(token, b.value);
        tokens := tokens[1..];
      }
    }

    method Atom(tokens: Tokens) returns (r: AtomResult)
      requires Consumes(leaf) && tokens != []
      modifies this
      ensures stack == old(stack) && numOpenParens == old(numOpenParens)
      ensures r == ParseAtom(leaf, tokens, numOpenParens)
      decreases |tokens|, 1
    {
      r := NotOp(tokens);
      if !r.NoMatch? { return; }
      r := Parenthesize(tokens);
      if !r.NoMatch? { return; }
      match leaf(tokens)
      case Took(id, rest, err) => r := Parsed(Primary(id), rest, err);
      case Refused => r := NoMatch;
      case Unfinished => r := NoOperand;
      case Lost => r := NoPredicate;
      case Malformed => r := BadAtom;
    }

    method NotOp(tokens: Tokens) returns (r: AtomResult)
      requires Consumes(leaf) && tokens != []
      modifies this
      ensures stack == old(stack) && numOpenParens == old(numOpenParens)
      ensures r == ParseNot(leaf, tokens, numOpenParens)
      decreases |tokens|, 0
    {
      if !IsNot(tokens[0]) { return NoMatch; }
      var after := tokens[1..];
      if |after| == 0 { return BadAtom; }
      if after[0] == ")" { return BadAtom; }
      r := Atom(after);
      if r.NoMatch? {
        r := NoOperand;
      } else if r.Parsed? {
        r := r.(p := Negated(r.p));
      }
    }

    // The evaluation stack of the surrounding expression is put back however the inner parse ends.
    method Parenthesize(tokens: Tokens) returns (r: AtomResult)
      requires Consumes(leaf) && tokens != []
      modifies this
      ensures stack == old(stack) && numOpenParens == old(numOpenParens)
      ensures r == ParseParens(leaf, tokens, numOpenParens)
      decreases |tokens|, 0
    {
      if tokens[0] == ")" { return BadAtom; }
      if tokens[0] != "(" { return NoMatch; }
      numOpenParens := numOpenParens + 1;
      var saved := stack;
      var inner := Parse(tokens[1..]);
      stack := saved;
      numOpenParens := numOpenParens - 1;
      match inner
      case SyntaxError => r := BadAtom;
      case Panic => r := AtomPanic;
      case EmptyExpression(rest) => r := BadAtom;
      case Done(p, rest, err) =>
        if err.Some? {
          r := Parsed(Grouped(p), rest, err);
        } else if |rest| == 0 || rest[0] != ")" {
          r := BadAtom;
        } else {
          r := Parsed(Grouped(p), rest[1..], None);
        }
    }
  }
}
