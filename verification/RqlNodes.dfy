/** RQL predicate trees as the unmarshaller builds them (api/rql/internal/predicate), their
    evaluation, and the reduction of NOT (predicate/expression/expression.go). */
module RqlNodes {
  import opened Options

  // Go's interface{} values: JSON, plus a time.Time.
  datatype Value =
    | VNull
    | VBool(b: bool)
    | VNum(x: real)
    | VStr(s: string)
    | VTime(t: int)
    | VArr(elems: seq<Value>)
    | VObj(fields: map<string, Value>)

  datatype CompareOp = LT | LTE | GT | GTE | EQL | NEQL

  datatype Selector = SomeOf | AllOf | Index(i: nat)

  /** The nodes of an RQL tree.  Expression is the nonterminal wrapper that stays around a
      nested expression; AND, OR and NOT hold unravelled operands.  The `atom` wrapper, which
      only forwards, is left implicit. */
  datatype Node =
    | Expression(matched: Node)
    | And(p1: Node, p2: Node)
    | Or(p1: Node, p2: Node)
    | Not(p: Node)
    | Object(c: Node)
    | Array(c: Node)
    | Null
    | Boolean(val: bool)
    | NumericValue(np: Node)
    | TimeValue(tp: Node)
    | StringValue(sp: Node)
    | Size(isArray: bool, np: Node)
    | ObjectElement(key: string, e: Node)
    | ArrayElement(sel: Selector, e: Node)
    | Numeric(op: CompareOp, n: real, unsigned: bool)
    | Time(op: CompareOp, tm: int)
    | Glob(pattern: string)
    | Regex(pattern: string)
    | StringEqual(str: string)

  // The predicate types of the grammars in predicate/expression.go.
  datatype PType = ValueP | NumericP | UnsignedP | TimeP | StringP

  /** What an expression of type t matches: AND, OR and NOT over such nodes, or an atom.
      NPE := NOT(NPE) | AND(NPE, NPE) | OR(NPE, NPE) | Atom(ptype) */
  predicate IsMatched(t: PType, n: Node)
    decreases n
  {
    match n
    case And(p1, p2) => IsMatched(t, p1) && IsMatched(t, p2)
    case Or(p1, p2) => IsMatched(t, p1) && IsMatched(t, p2)
    case Not(p) => IsMatched(t, p)
    case Object(c) => t.ValueP? &&
      if c.Size? then !c.isArray && IsNPE(UnsignedP, c.np) else c.ObjectElement? && IsNPE(ValueP, c.e)
    case Array(c) => t.ValueP? &&
      if c.Size? then c.isArray && IsNPE(UnsignedP, c.np) else c.ArrayElement? && IsNPE(ValueP, c.e)
    case Null => t.ValueP?
    case Boolean(_) => t.ValueP?
    case NumericValue(np) => t.ValueP? && IsNPE(NumericP, np)
    case TimeValue(tp) => t.ValueP? && IsNPE(TimeP, tp)
    case StringValue(sp) => t.ValueP? && IsNPE(StringP, sp)
    case Numeric(_, x, unsigned) => if unsigned then t.UnsignedP? && x >= 0.0 else t.NumericP?
    case Time(_, _) => t.TimeP?
    case Glob(_) => t.StringP?
    case Regex(_) => t.StringP?
    case StringEqual(_) => t.StringP?
    case Size(_, _) => false
    case ObjectElement(_, _) => false
    case ArrayElement(_, _) => false
    case Expression(_) => false
  }

  predicate IsNPE(t: PType, n: Node)
    decreases n
  {
    n.Expression? && IsMatched(t, n.matched)
  }

  predicate IsAtom(n: Node) {
    !n.And? && !n.Or? && !n.Not? && !n.Expression?
  }

  /** The engines behind the leaves: glob and regex libraries, decimals, time parsing and
      upper-casing. */
  datatype Engines = Engines(
    globOk: string -> bool, globMatch: (string, string) -> bool,
    regexOk: string -> bool, regexMatch: (string, string) -> bool,
    showDecimal: real -> string, parseDecimal: string -> Option<real>,
    toTime: Value -> Option<int>, upper: string -> string)

  /*** Evaluation ***/

  // An evaluation can panic: an index out of range, != on times, a value of the wrong type.
  datatype Verdict = True | False | Panics

  function Of(b: bool): Verdict {
    if b then True else False
  }

  function Compare(op: CompareOp, x: real, y: real): bool {
    match op
    case LT => x < y
    case LTE => x <= y
    case GT => x > y
    case GTE => x >= y
    case EQL => x == y
    case NEQL => x != y
  }

  function CompareTime(op: CompareOp, x: int, y: int): Verdict {
    match op
    case LT => Of(x < y)
    case LTE => Of(x <= y)
    case GT => Of(x > y)
    case GTE => Of(x >= y)
    case EQL => Of(x == y)
    case NEQL => Panics
  }

  // findMatchingKey: some key equal to `key` up to case (Go's map order is arbitrary).
  ghost function MatchingKey<T>(eng: Engines, m: map<string, T>, key: string): (r: Option<string>)
    ensures r.None? <==> forall k :: k in m ==> eng.upper(k) != eng.upper(key)
    ensures r.Some? ==> r.value in m && eng.upper(r.value) == eng.upper(key)
  {
    if k :| k in m && eng.upper(k) == eng.upper(key) then Some(k) else None
  }

  /** EvalValue, EvalNumeric, EvalTime and EvalString in one: a numeric predicate is asked
      about a VNum, a time predicate about a VTime, a string predicate about a VStr. */
  ghost function Eval(eng: Engines, n: Node, v: Value): Verdict
    decreases n, 0
  {
    match n
    case Expression(m) => Eval(eng, m, v)
    case And(p1, p2) =>
      var r := Eval(eng, p1, v);
      if r.True? then Eval(eng, p2, v) else r
    case Or(p1, p2) =>
      var r := Eval(eng, p1, v);
      if r.False? then Eval(eng, p2, v) else r
    case Not(p) => Negate(Eval(eng, p, v))
    case Object(c) => Eval(eng, c, v)
    case Array(c) => Eval(eng, c, v)
    case Null => Of(v.VNull?)
    case Boolean(b) => Of(v == VBool(b))
    case NumericValue(np) => if v.VNum? then Eval(eng, np, v) else False
    case TimeValue(tp) => if eng.toTime(v).Some? then Eval(eng, tp, VTime(eng.toTime(v).value)) else False
    case StringValue(sp) => if v.VStr? then Eval(eng, sp, v) else False
    case Size(isArray, np) =>
      if v.VObj? && !isArray then Eval(eng, np, VNum(|v.fields| as real))
      else if v.VArr? && isArray then Eval(eng, np, VNum(|v.elems| as real))
      else False
    case ObjectElement(key, e) =>
      if v.VObj? && MatchingKey(eng, v.fields, key).Some?
      then Eval(eng, e, v.fields[MatchingKey(eng, v.fields, key).value]) else False
    case ArrayElement(sel, e) =>
      if !v.VArr? then False
      else (match sel
            case Index(i) => if i < |v.elems| then Eval(eng, e, v.elems[i]) else Panics
            case SomeOf => EvalSome(eng, e, v.elems)
            case AllOf => EvalAll(eng, e, v.elems))
    case Numeric(op, x, _) => if v.VNum? then Of(Compare(op, v.x, x)) else Panics
    case Time(op, t) => if v.VTime? then CompareTime(op, v.t, t) else Panics
    case Glob(g) => if v.VStr? then Of(eng.globMatch(g, v.s)) else Panics
    case Regex(g) => if v.VStr? then Of(eng.regexMatch(g, v.s)) else Panics
    case StringEqual(s) => if v.VStr? then Of(v.s == s) else Panics
  }

  ghost function EvalSome(eng: Engines, e: Node, vs: seq<Value>): Verdict
    decreases e, 1, |vs|
  {
    if vs == [] then False
    else
      var r := Eval(eng, e, vs[0]);
      if r.False? then EvalSome(eng, e, vs[1..]) else r
  }

  ghost function EvalAll(eng: Engines, e: Node, vs: seq<Value>): Verdict
    decreases e, 1, |vs|
  {
    if vs == [] then True
    else
      var r := Eval(eng, e, vs[0]);
      if r.True? then EvalAll(eng, e, vs[1..]) else r
  }

  function Negate(r: Verdict): Verdict {
    match r
    case True => False
    case False => True
    case Panics => Panics
  }

  /** The atoms an evaluation asks, in order. */
  ghost function Asked(eng: Engines, n: Node, v: Value): seq<Node> {
    match n
    case And(p1, p2) => Asked(eng, p1, v) + if Eval(eng, p1, v).True? then Asked(eng, p2, v) else []
    case Or(p1, p2) => Asked(eng, p1, v) + if Eval(eng, p1, v).False? then Asked(eng, p2, v) else []
    case Not(p) => Asked(eng, p, v)
    case _ => [n]
  }

  /*** reduce ***/

  // NOT weighs double, so that De Morgan steps go down although they add nodes.
  function Weight(n: Node): nat {
    match n
    case And(p1, p2) => 2 + Weight(p1) + Weight(p2)
    case Or(p1, p2) => 2 + Weight(p1) + Weight(p2)
    case Not(p) => 1 + 2 * Weight(p)
    case _ => 1
  }

  lemma NotFacts(p: Node)
    ensures Weight(Not(p)) == 1 + 2 * Weight(p) && Reducible(Not(p)) == Reducible(p)
  {
  }

  lemma PushedFacts(q1: Node, q2: Node)
    ensures Weight(Or(Not(q1), Not(q2))) == Weight(And(Not(q1), Not(q2))) == 4 + 2 * Weight(q1) + 2 * Weight(q2)
    ensures Reducible(Or(Not(q1), Not(q2))) == Reducible(And(Not(q1), Not(q2))) == (Reducible(q1) && Reducible(q2))
  {
    NotFacts(q1);
    NotFacts(q2);
  }

  // reduce panics on any other operand of AND, OR or NOT.
  predicate Reducible(n: Node) {
    match n
    case And(p1, p2) => Reducible(p1) && Reducible(p2)
    case Or(p1, p2) => Reducible(p1) && Reducible(p2)
    case Not(p) => Reducible(p)
    case _ => IsAtom(n)
  }

  function Reduce(n: Node): Node
    requires Reducible(n)
    decreases Weight(n)
  {
    match n
    case And(p1, p2) => And(Reduce(p1), Reduce(p2))
    case Or(p1, p2) => Or(Reduce(p1), Reduce(p2))
    case Not(p) =>
      (match p
       case Not(q) => NotFacts(p); Reduce(q)
       case And(q1, q2) => NotFacts(p); PushedFacts(q1, q2); Reduce(Or(Not(q1), Not(q2)))
       case Or(q1, q2) => NotFacts(p); PushedFacts(q1, q2); Reduce(And(Not(q1), Not(q2)))
       case _ => n)
    case _ => n
  }

  // RNPE := Not(Atom) | And(RNPE, RNPE) | Or(RNPE, RNPE) | Atom
  predicate IsReduced(n: Node) {
    match n
    case And(p1, p2) => IsReduced(p1) && IsReduced(p2)
    case Or(p1, p2) => IsReduced(p1) && IsReduced(p2)
    case Not(p) => IsAtom(p)
    case _ => IsAtom(n)
  }

  /** A matched tree never makes reduce panic. */
  lemma {:induction false} MatchedIsReducible(t: PType, n: Node)
    requires IsMatched(t, n)
    ensures Reducible(n)
  {
    if n.And? || n.Or? {
      MatchedIsReducible(t, n.p1);
      MatchedIsReducible(t, n.p2);
    } else if n.Not? {
      MatchedIsReducible(t, n.p);
    }
  }

  /** reduce leaves NOT on atoms only and keeps the type of the expression. */
  lemma {:induction false} ReduceShape(t: PType, n: Node)
    requires Reducible(n)
    ensures IsReduced(Reduce(n))
    ensures IsMatched(t, n) ==> IsMatched(t, Reduce(n))
    decreases Weight(n)
  {
    if n.And? || n.Or? {
      ReduceShape(t, n.p1);
      ReduceShape(t, n.p2);
    } else if n.Not? {
      var p := n.p;
      NotFacts(p);
      if p.Not? {
        assert IsMatched(t, p) == IsMatched(t, p.p);
        ReduceShape(t, p.p);
      } else if p.And? || p.Or? {
        PushedFacts(p.p1, p.p2);
        assert IsMatched(t, p) ==> IsMatched(t, Not(p.p1)) && IsMatched(t, Not(p.p2));
        ReduceShape(t, if p.And? then Or(Not(p.p1), Not(p.p2)) else And(Not(p.p1), Not(p.p2)));
      }
    }
  }

  // De Morgan keeps the value and the atoms asked.
  lemma DeMorgan(eng: Engines, q1: Node, q2: Node, v: Value)
    ensures Eval(eng, Not(And(q1, q2)), v) == Eval(eng, Or(Not(q1), Not(q2)), v)
    ensures Eval(eng, Not(Or(q1, q2)), v) == Eval(eng, And(Not(q1), Not(q2)), v)
    ensures Asked(eng, Not(And(q1, q2)), v) == Asked(eng, Or(Not(q1), Not(q2)), v)
    ensures Asked(eng, Not(Or(q1, q2)), v) == Asked(eng, And(Not(q1), Not(q2)), v)
  {
    assert Eval(eng, Not(q1), v) == Negate(Eval(eng, q1, v));
    assert Eval(eng, Not(q2), v) == Negate(Eval(eng, q2, v));
    assert Asked(eng, Not(q1), v) == Asked(eng, q1, v);
    assert Asked(eng, Not(q2), v) == Asked(eng, q2, v);
  }

  /** reduce keeps the value of every evaluation, panics included, and the atoms asked, in
      the same order. */
  lemma {:induction false} ReduceMeaning(eng: Engines, n: Node, v: Value)
    requires Reducible(n)
    ensures Eval(eng, Reduce(n), v) == Eval(eng, n, v)
    ensures Asked(eng, Reduce(n), v) == Asked(eng, n, v)
    decreases Weight(n)
  {
    if n.And? || n.Or? {
      ReduceMeaning(eng, n.p1, v);
      ReduceMeaning(eng, n.p2, v);
    } else if n.Not? {
      var p := n.p;
      NotFacts(p);
      if p.Not? {
        ReduceMeaning(eng, p.p, v);
        assert Eval(eng, p, v) == Negate(Eval(eng, p.p, v)) && Asked(eng, p, v) == Asked(eng, p.p, v);
      } else if p.And? || p.Or? {
        PushedFacts(p.p1, p.p2);
        DeMorgan(eng, p.p1, p.p2, v);
        ReduceMeaning(eng, if p.And? then Or(Not(p.p1), Not(p.p2)) else And(Not(p.p1), Not(p.p2)), v);
      }
    }
  }
}
