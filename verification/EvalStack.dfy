/** The evaluation stack of the find expression parser, and what its precedence rule computes
    (cmd/internal/find/parser/expression/parser.go, binaryOp.go). */
module EvalStacks {
  import opened Options

  datatype Op = AndOp | OrOp

  function Precedence(op: Op): nat { if op.AndOp? then 1 else 0 }

  // Grouped marks a predicate that was parenthesised; to the stack it is one operand, like a
  // primary or a negation.
  datatype Predicate =
    | Primary(id: nat)
    | Negated(p: Predicate)
    | Grouped(p: Predicate)
    | Combined(op: Op, left: Predicate, right: Predicate)

  predicate Holds(p: Predicate, env: nat -> bool) {
    match p
    case Primary(id) => env(id)
    case Negated(q) => !Holds(q, env)
    case Grouped(q) => Holds(q, env)
    case Combined(op, l, r) => if op.AndOp? then Holds(l, env) && Holds(r, env) else Holds(l, env) || Holds(r, env)
  }

  datatype Item = Operand(p: Predicate) | Operator(op: Op)

  // The state of an evalStack: the last pushed operator and its spelling outlive evaluation.
  datatype Stack = Stack(items: seq<Item>, recent: Option<Op>, word: string)

  const EMPTY := Stack([], None, "")

  predicate Alternates(items: seq<Item>) {
    forall i :: 0 <= i < |items| ==> (items[i].Operand? <==> i % 2 == 0)
  }

  predicate Increasing(items: seq<Item>) {
    forall i, j :: 0 <= i < j < |items| && items[i].Operator? && items[j].Operator? ==>
      Precedence(items[i].op) < Precedence(items[j].op)
  }

  // The position of the operator nearest the top.
  function LastOperator(items: seq<Item>): int {
    if |items| % 2 == 0 then |items| - 1 else |items| - 2
  }

  /** Operands and operators alternate, an operand at the bottom, precedences rising; the most
      recent operator is the one nearest the top. */
  predicate Shaped(st: Stack) {
    && Alternates(st.items)
    && Increasing(st.items)
    && st.recent == if |st.items| < 2 then None else Some(st.items[LastOperator(st.items)].op)
  }

  predicate EndsInOperand(items: seq<Item>) { Alternates(items) && |items| % 2 == 1 }

  lemma {:induction false} PrecedenceRises(items: seq<Item>, k: nat)
    requires Alternates(items) && Increasing(items) && 2 * k + 1 < |items|
    ensures Precedence(items[2 * k + 1].op) >= k
  {
    if k > 0 {
      PrecedenceRises(items, k - 1);
      assert items[2 * k - 1].Operator? && items[2 * k + 1].Operator?;
    }
  }

  /** With two precedences a shaped stack never holds more than five items. */
  lemma ShapedIsShort(st: Stack)
    requires Shaped(st)
    ensures |st.items| <= 5
  {
    if |st.items| > 5 { PrecedenceRises(st.items, 2); }
  }

  /*** What the operations compute ***/

  // Combines from the top down to a single operand.
  function Collapse(items: seq<Item>): Predicate
    requires EndsInOperand(items)
    decreases |items|
  {
    var n := |items|;
    if n == 1 then items[0].p
    else Collapse(items[..n - 3] + [Operand(Combined(items[n - 2].op, items[n - 3].p, items[n - 1].p))])
  }

  lemma CollapseTop(items: seq<Item>, below: seq<Item>, p1: Item, op: Item, p2: Item)
    requires EndsInOperand(items) && |items| > 1 && items == below + [p1] + [op] + [p2]
    ensures p1.Operand? && op.Operator? && p2.Operand?
    ensures var r := below + [Operand(Combined(op.op, p1.p, p2.p))];
      EndsInOperand(r) && Collapse(r) == Collapse(items)
  {
    var n := |items|;
    assert p1 == items[n - 3] && op == items[n - 2] && p2 == items[n - 1];
    assert items[..n - 3] == below;
  }

  function PushOperator(st: Stack, word: string, op: Op): (r: Stack)
    requires EndsInOperand(st.items)
    ensures Alternates(r.items) && |r.items| % 2 == 0
    ensures Shaped(st) ==> Shaped(r)
  {
    var under := if st.recent.Some? && Precedence(op) <= Precedence(st.recent.value) then [Operand(Collapse(st.items))]
        else st.items;
    Stack(under + [Operator(op)], Some(op), word)
  }

  function PushOperand(st: Stack, p: Predicate): (r: Stack)
    requires Alternates(st.items)
    ensures EndsInOperand(r.items)
    ensures Shaped(st) ==> Shaped(r)
  {
    var under := if |st.items| % 2 == 1 then PushOperator(st, "-a", AndOp) else st;
    under.(items := under.items + [Operand(p)])
  }

  class EvalStack {
    var items: seq<Item>
    var mostRecentOp: Option<Op>
    var mostRecentOpToken: string

    function State(): Stack
      reads this
    {
      Stack(items, mostRecentOp, mostRecentOpToken)
    }

    constructor ()
      ensures State() == EMPTY
    {
      items, mostRecentOp, mostRecentOpToken := [], None, "";
    }

    // The stack is not empty in any state the operations below meet.
    method Pop() returns (top: Item)
      requires items != []
      modifies this`items
      ensures old(items) == items + [top] && top == old(items[|items| - 1])
    {
      top := items[|items| - 1];
      items := items[..|items| - 1];
    }

    method Evaluate()
      requires EndsInOperand(items)
      modifies this`items
      ensures items == [Operand(Collapse(old(items)))]
    {
      while |items| > 1
        invariant EndsInOperand(items)
        invariant Collapse(items) == Collapse(old(items))
        decreases |items|
      {
        ghost var before := items;
        var p2 := Pop();
        var op := Pop();
        var p1 := Pop();
        CollapseTop(before, items, p1, op, p2);
        items := items + [Operand(Combined(op.op, p1.p, p2.p))];
      }
      assert items == [items[0]];
    }

    method PushBinaryOp(token: string, op: Op)
      requires EndsInOperand(items)
      modifies this
      ensures State() == PushOperator(old(State()), token, op)
    {
      if mostRecentOp.Some? {
        if Precedence(op) <= Precedence(mostRecentOp.value) {
          Evaluate();
        }
      }
      mostRecentOp := Some(op);
      mostRecentOpToken := token;
      items := items + [Operator(op)];
    }

    method PushPredicate(p: Predicate)
      requires Alternates(items)
      modifies this
      ensures State() == PushOperand(old(State()), p)
    {
      if items != [] && items[|items| - 1].Operand? {
        PushBinaryOp("-a", AndOp);
      }
      items := items + [Operand(p)];
    }
  }

  /*** The tree precedence asks for ***/

  // A predicate followed by operators and their right operands.
  datatype Link = Link(word: string, op: Op, p: Predicate)

  function Operands(t: Predicate): (r: seq<Predicate>)
    ensures |r| == |Operators(t)| + 1
  {
    if t.Combined? then Operands(t.left) + Operands(t.right) else [t]
  }

  function Operators(t: Predicate): seq<Op> {
    if t.Combined? then Operators(t.left) + [t.op] + Operators(t.right) else []
  }

  /** Left-associative, with AND binding tighter than OR. */
  predicate Layered(t: Predicate) {
    t.Combined? ==>
      && Layered(t.left) && Layered(t.right)
      && (t.left.Combined? ==> Precedence(t.op) <= Precedence(t.left.op))
      && (t.right.Combined? ==> Precedence(t.op) < Precedence(t.right.op))
  }

  lemma {:induction false} LayeredOperators(t: Predicate)
    requires Layered(t) && t.Combined?
    ensures forall i :: 0 <= i < |Operators(t.left)| ==> Precedence(t.op) <= Precedence(Operators(t.left)[i])
    ensures forall i :: 0 <= i < |Operators(t.right)| ==> Precedence(t.op) < Precedence(Operators(t.right)[i])
  {
    if t.left.Combined? { LayeredOperators(t.left); }
    if t.right.Combined? { LayeredOperators(t.right); }
  }

  lemma OperatorAt(t: Predicate, k: nat)
    requires Layered(t) && t.Combined? && k < |Operators(t)|
    ensures k < |Operators(t.left)| ==> Precedence(t.op) <= Precedence(Operators(t)[k])
    ensures k == |Operators(t.left)| ==> t.op == Operators(t)[k]
    ensures k > |Operators(t.left)| ==> Precedence(t.op) < Precedence(Operators(t)[k])
  {
    LayeredOperators(t);
    var n := |Operators(t.left)|;
    if k > n {
      assert Operators(t)[k] == Operators(t.right)[k - n - 1];
    }
  }

  lemma SameRoot(t: Predicate, u: Predicate)
    requires Layered(t) && Layered(u) && t.Combined? && u.Combined? && Operators(t) == Operators(u)
    ensures |Operators(t.left)| == |Operators(u.left)|
  {
    var i, j := |Operators(t.left)|, |Operators(u.left)|;
    OperatorAt(t, i);
    OperatorAt(u, i);
    OperatorAt(t, j);
    OperatorAt(u, j);
  }

  /** At most one layered tree has given operands and operators. */
  lemma {:induction false} LayeredUnique(t: Predicate, u: Predicate)
    requires Layered(t) && Layered(u) && Operands(t) == Operands(u) && Operators(t) == Operators(u)
    ensures t == u
  {
    assert |Operators(t)| > 0 <==> t.Combined?;
    assert |Operators(u)| > 0 <==> u.Combined?;
    if t.Combined? && u.Combined? {
      SameRoot(t, u);
      var n := |Operators(t.left)|;
      assert Operators(t)[..n] == Operators(t.left) && Operators(u)[..n] == Operators(u.left);
      assert Operators(t)[n + 1..] == Operators(t.right) && Operators(u)[n + 1..] == Operators(u.right);
      assert Operators(t)[n] == t.op && Operators(u)[n] == u.op;
      assert Operands(t)[..n + 1] == Operands(t.left) && Operands(u)[..n + 1] == Operands(u.left);
      assert Operands(t)[n + 1..] == Operands(t.right) && Operands(u)[n + 1..] == Operands(u.right);
      LayeredUnique(t.left, u.left);
      LayeredUnique(t.right, u.right);
    }
  }

  function Insert(t: Predicate, op: Op, p: Predicate): Predicate {
    if t.Combined? && Precedence(t.op) < Precedence(op) then Combined(t.op, t.left, Insert(t.right, op, p))
    else Combined(op, t, p)
  }

  lemma {:induction false} InsertLayered(t: Predicate, op: Op, p: Predicate)
    requires Layered(t) && !p.Combined?
    ensures Layered(Insert(t, op, p))
    ensures Operands(Insert(t, op, p)) == Operands(t) + [p]
    ensures Operators(Insert(t, op, p)) == Operators(t) + [op]
    ensures Insert(t, op, p).Combined?
    ensures t.Combined? && Precedence(t.op) < Precedence(op) ==> Insert(t, op, p).op == t.op
  {
    if t.Combined? && Precedence(t.op) < Precedence(op) { InsertLayered(t.right, op, p); }
  }

  predicate Opaque(links: seq<Link>) {
    forall i :: 0 <= i < |links| ==> !links[i].p.Combined?
  }

  function OperandsOf(first: Predicate, links: seq<Link>): seq<Predicate> {
    [first] + seq(|links|, i requires 0 <= i < |links| => links[i].p)
  }

  function OperatorsOf(links: seq<Link>): seq<Op> {
    seq(|links|, i requires 0 <= i < |links| => links[i].op)
  }

  // The layered tree, grown from the left.
  function Standard(first: Predicate, links: seq<Link>): Predicate {
    if links == [] then first
    else var last := links[|links| - 1]; Insert(Standard(first, links[..|links| - 1]), last.op, last.p)
  }

  lemma ListsGrow(first: Predicate, links: seq<Link>)
    requires links != []
    ensures var n := |links| - 1;
      && OperandsOf(first, links) == OperandsOf(first, links[..n]) + [links[n].p]
      && OperatorsOf(links) == OperatorsOf(links[..n]) + [links[n].op]
  {
  }

  lemma {:induction false} StandardLayered(first: Predicate, links: seq<Link>)
    requires !first.Combined? && Opaque(links)
    ensures Layered(Standard(first, links))
    ensures Operands(Standard(first, links)) == OperandsOf(first, links)
    ensures Operators(Standard(first, links)) == OperatorsOf(links)
  {
    if links != [] {
      var n := |links| - 1;
      StandardLayered(first, links[..n]);
      InsertLayered(Standard(first, links[..n]), links[n].op, links[n].p);
      ListsGrow(first, links);
    } else {
      assert OperandsOf(first, links) == [first];
    }
  }

  /*** What the stack computes instead ***/

  // The stack after the first operand and every link, ...
  function After(first: Predicate, links: seq<Link>): (r: Stack)
    ensures EndsInOperand(r.items) && Shaped(r)
  {
    if links == [] then PushOperand(EMPTY, first)
    else
      var last := links[|links| - 1];
      PushOperand(PushOperator(After(first, links[..|links| - 1]), last.word, last.op), last.p)
  }

  // ... and the predicate it is evaluated to.
  function Result(first: Predicate, links: seq<Link>): Predicate {
    Collapse(After(first, links).items)
  }

  // The link at n - 1 is an AND straight after an OR.
  predicate Tight(links: seq<Link>, n: int) {
    1 < n <= |links| && links[n - 2].op.OrOp? && links[n - 1].op.AndOp?
  }

  lemma CollapseThree(a: Predicate, op: Op, b: Predicate)
    ensures Collapse([Operand(a), Operator(op), Operand(b)]) == Combined(op, a, b)
  {
    var items := [Operand(a), Operator(op), Operand(b)];
    assert items[..0] + [Operand(Combined(op, a, b))] == [Operand(Combined(op, a, b))];
  }

  lemma CollapseFive(a: Predicate, o: Op, b: Predicate, op: Op, c: Predicate)
    ensures Collapse([Operand(a), Operator(o), Operand(b), Operator(op), Operand(c)])
        == Combined(o, a, Combined(op, b, c))
  {
    var items := [Operand(a), Operator(o), Operand(b), Operator(op), Operand(c)];
    assert items[..2] + [Operand(Combined(op, b, c))] == [Operand(a), Operator(o), Operand(Combined(op, b, c))];
    CollapseThree(a, o, Combined(op, b, c));
  }

  // The tree the stack builds: an AND straight after an OR binds its neighbours, any other
  // operator takes everything to its left.
  function Built(first: Predicate, links: seq<Link>): Predicate
    decreases |links|
  {
    var n := |links|;
    if n == 0 then first
    else if Tight(links, n) then Combined(OrOp, Built(first, links[..n - 2]),
                                          Combined(AndOp, links[n - 2].p, links[n - 1].p))
    else Combined(links[n - 1].op, Built(first, links[..n - 1]), links[n - 1].p)
  }

  // The stack holds one, three or five items: five exactly between an AND that follows an OR
  // and whatever comes next.
  function ItemsAfter(first: Predicate, links: seq<Link>): (items: seq<Item>)
    ensures EndsInOperand(items)
  {
    var n := |links|;
    if n == 0 then [Operand(first)]
    else if Tight(links, n) then
      [Operand(Built(first, links[..n - 2])), Operator(OrOp), Operand(links[n - 2].p), Operator(AndOp),
       Operand(links[n - 1].p)]
    else [Operand(Built(first, links[..n - 1])), Operator(links[n - 1].op), Operand(links[n - 1].p)]
  }

  lemma CollapseAfter(first: Predicate, links: seq<Link>)
    ensures Collapse(ItemsAfter(first, links)) == Built(first, links)
  {
    var n := |links|;
    if Tight(links, n) {
      CollapseFive(Built(first, links[..n - 2]), OrOp, links[n - 2].p, AndOp, links[n - 1].p);
    } else if n > 0 {
      CollapseThree(Built(first, links[..n - 1]), links[n - 1].op, links[n - 1].p);
    }
  }

  // Pushing one more link.
  lemma ItemsGrow(first: Predicate, links: seq<Link>, st: Stack)
    requires links != []
    requires var n := |links| - 1;
      && st.items == ItemsAfter(first, links[..n])
      && st.recent == if n == 0 then None else Some(links[n - 1].op)
    ensures var last := links[|links| - 1];
      PushOperand(PushOperator(st, last.word, last.op), last.p).items == ItemsAfter(first, links)
  {
    var n := |links| - 1;
    CollapseAfter(first, links[..n]);
    if Tight(links, n + 1) { assert links[..n][..n - 1] == links[..n - 1]; }
  }

  lemma {:induction false} StackIs(first: Predicate, links: seq<Link>)
    ensures After(first, links).items == ItemsAfter(first, links)
    ensures After(first, links).recent == if links == [] then None else Some(links[|links| - 1].op)
  {
    if links != [] {
      var n := |links| - 1;
      StackIs(first, links[..n]);
      ItemsGrow(first, links, After(first, links[..n]));
    }
  }

  lemma ResultIsBuilt(first: Predicate, links: seq<Link>)
    ensures Result(first, links) == Built(first, links)
  {
    StackIs(first, links);
    CollapseAfter(first, links);
  }

  lemma CombinedLists(op: Op, l: Predicate, r: Predicate)
    requires !r.Combined?
    ensures Operands(Combined(op, l, r)) == Operands(l) + [r]
    ensures Operators(Combined(op, l, r)) == Operators(l) + [op]
  {
    assert Operators(l) + [op] + [] == Operators(l) + [op];
  }

  lemma TightLists(l: Predicate, b: Predicate, c: Predicate)
    requires !b.Combined? && !c.Combined?
    ensures Operands(Combined(OrOp, l, Combined(AndOp, b, c))) == Operands(l) + [b] + [c]
    ensures Operators(Combined(OrOp, l, Combined(AndOp, b, c))) == Operators(l) + [OrOp] + [AndOp]
  {
    CombinedLists(AndOp, b, c);
    assert Operators(b) + [AndOp] == [AndOp];
    assert Operands(l) + ([b] + [c]) == Operands(l) + [b] + [c];
  }

  lemma {:induction false} BuiltKeepsOrder(first: Predicate, links: seq<Link>)
    requires !first.Combined? && Opaque(links)
    ensures Operands(Built(first, links)) == OperandsOf(first, links)
    ensures Operators(Built(first, links)) == OperatorsOf(links)
    decreases |links|
  {
    var n := |links|;
    if n == 0 {
      assert OperandsOf(first, links) == [first];
    } else {
      ListsGrow(first, links);
      if Tight(links, n) {
        assert links[..n - 1][..n - 2] == links[..n - 2];
        BuiltKeepsOrder(first, links[..n - 2]);
        ListsGrow(first, links[..n - 1]);
        TightLists(Built(first, links[..n - 2]), links[n - 2].p, links[n - 1].p);
      } else {
        BuiltKeepsOrder(first, links[..n - 1]);
        CombinedLists(links[n - 1].op, Built(first, links[..n - 1]), links[n - 1].p);
      }
    }
  }

  /*** Exactly when they agree ***/

  predicate TripleAt(links: seq<Link>, i: int) {
    0 <= i < |links| - 2 && links[i].op.OrOp? && links[i + 1].op.AndOp? && links[i + 2].op.AndOp?
  }

  /** An OR followed by two ANDs: `a -o b -a c -a d`. */
  ghost predicate HasTriple(links: seq<Link>) {
    exists i :: TripleAt(links, i)
  }

  lemma TriplePrefix(links: seq<Link>, n: nat)
    requires n <= |links| && HasTriple(links[..n])
    ensures HasTriple(links)
  {
    var i :| TripleAt(links[..n], i);
    assert TripleAt(links, i);
  }

  lemma {:induction false} LayeredWithoutTriple(first: Predicate, links: seq<Link>)
    requires !first.Combined? && Opaque(links) && !HasTriple(links)
    ensures Layered(Built(first, links))
    decreases |links|
  {
    var n := |links|;
    if Tight(links, n) {
      if HasTriple(links[..n - 2]) { TriplePrefix(links, n - 2); }
      LayeredWithoutTriple(first, links[..n - 2]);
    } else if n > 0 {
      if HasTriple(links[..n - 1]) { TriplePrefix(links, n - 1); }
      LayeredWithoutTriple(first, links[..n - 1]);
      assert !TripleAt(links, n - 3);
    }
  }

  // The second AND is applied to the whole disjunction.
  lemma AtTriple(first: Predicate, links: seq<Link>)
    requires TripleAt(links, |links| - 3)
    ensures !Layered(Built(first, links))
  {
    var n := |links|;
    var shorter := links[..n - 1];
    assert Tight(shorter, n - 1);
    assert Built(first, shorter).op.OrOp?;
  }

  // How many links the left subtree of the result takes in.
  function LeftLinks(links: seq<Link>): nat
    requires links != []
  {
    if Tight(links, |links|) then |links| - 2 else |links| - 1
  }

  lemma TripleEarlier(links: seq<Link>, i: int)
    requires TripleAt(links, i) && i + 3 < |links|
    ensures TripleAt(links[..LeftLinks(links)], i)
  {
  }

  lemma BuiltLeft(first: Predicate, links: seq<Link>)
    requires links != []
    ensures Built(first, links).Combined? && Built(first, links).left == Built(first, links[..LeftLinks(links)])
  {
  }

  lemma {:induction false} NotLayeredWithTriple(first: Predicate, links: seq<Link>, i: int)
    requires TripleAt(links, i)
    ensures !Layered(Built(first, links))
    decreases |links|
  {
    if i + 3 == |links| {
      AtTriple(first, links);
    } else {
      var left := links[..LeftLinks(links)];
      TripleEarlier(links, i);
      NotLayeredWithTriple(first, left, i);
      BuiltLeft(first, links);
    }
  }

  /** Nothing is lost, repeated or reordered, whatever the operators. */
  lemma ResultKeepsOrder(first: Predicate, links: seq<Link>)
    requires !first.Combined? && Opaque(links)
    ensures Operands(Result(first, links)) == OperandsOf(first, links)
    ensures Operators(Result(first, links)) == OperatorsOf(links)
  {
    ResultIsBuilt(first, links);
    BuiltKeepsOrder(first, links);
  }

  /** The stack builds the tree that precedence and left associativity ask for exactly when no
      OR is followed by two ANDs. */
  lemma ResultIsStandardIff(first: Predicate, links: seq<Link>)
    requires !first.Combined? && Opaque(links)
    ensures Result(first, links) == Standard(first, links) <==> !HasTriple(links)
  {
    ResultIsBuilt(first, links);
    StandardLayered(first, links);
    if HasTriple(links) {
      var i :| TripleAt(links, i);
      NotLayeredWithTriple(first, links, i);
    } else {
      BuiltKeepsOrder(first, links);
      LayeredWithoutTriple(first, links);
      LayeredUnique(Built(first, links), Standard(first, links));
    }
  }

  /*** ... in meaning too ***/

  lemma {:induction false} InsertHolds(t: Predicate, op: Op, p: Predicate, env: nat -> bool)
    requires Holds(t, env) && Holds(p, env)
    ensures Holds(Insert(t, op, p), env)
  {
    if t.Combined? && Precedence(t.op) < Precedence(op) && Holds(t.right, env) { InsertHolds(t.right, op, p, env); }
  }

  // What stands before an OR decides the standard tree once it holds.
  lemma {:induction false} StandardHolds(first: Predicate, links: seq<Link>, i: int, env: nat -> bool)
    requires -1 <= i < |links| && Holds(first, env) && forall j :: 0 <= j < i ==> Holds(links[j].p, env)
    requires i >= 0 ==> links[i].op.OrOp?
    requires i == -1 ==> forall j :: 0 <= j < |links| ==> Holds(links[j].p, env)
    ensures Holds(Standard(first, links), env)
    ensures i >= 0 ==> var t := Standard(first, links); t.Combined? && t.op.OrOp? && Holds(t.left, env)
  {
    if links != [] {
      var n := |links| - 1;
      var shorter, last := links[..n], links[n];
      if i == n {
        StandardHolds(first, shorter, -1, env);
      } else {
        StandardHolds(first, shorter, i, env);
        if i == -1 { InsertHolds(Standard(first, shorter), last.op, last.p, env); }
      }
    }
  }

  // What comes after the second AND decides the stack's tree once it fails.
  lemma {:induction false} BuiltFails(first: Predicate, links: seq<Link>, i: int, env: nat -> bool)
    requires TripleAt(links, i) && forall j :: i + 2 <= j < |links| ==> !Holds(links[j].p, env)
    ensures !Holds(Built(first, links), env)
    decreases |links|
  {
    if i + 3 < |links| {
      TripleEarlier(links, i);
      BuiltFails(first, links[..LeftLinks(links)], i, env);
    }
  }

  // Operands that can be made true and false at will.
  predicate Independent(first: Predicate, links: seq<Link>) {
    && first == Primary(0)
    && forall i :: 0 <= i < |links| ==> links[i].p == Primary(i + 1)
  }

  ghost predicate SameMeaning(p: Predicate, q: Predicate) {
    forall env: nat -> bool :: Holds(p, env) == Holds(q, env)
  }

  /** With independent operands the stack's tree means what precedence asks for exactly when no
      OR is followed by two ANDs. */
  lemma MeaningIff(first: Predicate, links: seq<Link>)
    requires Independent(first, links)
    ensures SameMeaning(Result(first, links), Standard(first, links)) <==> !HasTriple(links)
  {
    ResultIsStandardIff(first, links);
    if HasTriple(links) {
      var i :| TripleAt(links, i);
      var env := (k: nat) => k <= i + 2;
      ResultIsBuilt(first, links);
      BuiltFails(first, links, i, env);
      StandardHolds(first, links, i, env);
      assert Holds(Result(first, links), env) != Holds(Standard(first, links), env);
    }
  }

  /** The smallest case: `a -o b -a c -a d` comes out as `(a -o b -a c) -a d`. */
  lemma SmallestTriple()
    ensures var links := [Link("-o", OrOp, Primary(1)), Link("-a", AndOp, Primary(2)), Link("-a", AndOp, Primary(3))];
      && Result(Primary(0), links)
         == Combined(AndOp, Combined(OrOp, Primary(0), Combined(AndOp, Primary(1), Primary(2))), Primary(3))
      && Standard(Primary(0), links)
         == Combined(OrOp, Primary(0), Combined(AndOp, Combined(AndOp, Primary(1), Primary(2)), Primary(3)))
  {
    var links := [Link("-o", OrOp, Primary(1)), Link("-a", AndOp, Primary(2)), Link("-a", AndOp, Primary(3))];
    ResultIsBuilt(Primary(0), links);
    assert links[..2] == [links[0], links[1]] && links[..2][..1] == [links[0]] && links[..1] == [links[0]];
    assert links[..2][..0] == [] && [links[0]][..0] == [];
    assert Standard(Primary(0), links[..1]) == Combined(OrOp, Primary(0), Primary(1));
    assert Standard(Primary(0), links[..2]) == Combined(OrOp, Primary(0), Combined(AndOp, Primary(1), Primary(2)));
  }
}
