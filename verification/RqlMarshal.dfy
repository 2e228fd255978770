/** Marshalling RQL trees and reading them back: ordered choice between alternatives, where a
    match error passes to the next one and any other error is final
    (api/rql/internal/nonterminalNode.go and the Unmarshal methods of predicate/). */
module RqlMarshal {
  import opened Options
  import opened RqlNodes

  datatype Outcome = Ok(node: Node) | MatchError | HardError

  /*** Ordered choice ***/

  function Choose(rs: seq<Outcome>): Outcome {
    if rs == [] then MatchError
    else if rs[0].MatchError? then Choose(rs[1..])
    else rs[0]
  }

  method UnmarshalNonterminal(nodes: seq<Value -> Outcome>, input: Value) returns (r: Outcome)
    ensures r == Choose(seq(|nodes|, i requires 0 <= i < |nodes| => nodes[i](input)))
  {
    ghost var rs := seq(|nodes|, i requires 0 <= i < |nodes| => nodes[i](input));
    for i := 0 to |nodes|
      invariant Choose(rs) == Choose(rs[i..])
    {
      r := nodes[i](input);
      if !r.MatchError? { return; }
    }
    return MatchError;
  }

  predicate AtMostOne(rs: seq<Outcome>) {
    forall i, j :: 0 <= i < j < |rs| ==> rs[i].MatchError? || rs[j].MatchError?
  }

  lemma {:induction false} ChooseIsMember(rs: seq<Outcome>)
    ensures if Choose(rs).MatchError? then forall r :: r in rs ==> r.MatchError? else Choose(rs) in rs
  {
    if rs != [] && rs[0].MatchError? { ChooseIsMember(rs[1..]); }
  }

  /** When at most one alternative avoids a match error, the order does not matter. */
  lemma OrderIrrelevant(rs: seq<Outcome>, ss: seq<Outcome>)
    requires AtMostOne(rs) && multiset(rs) == multiset(ss)
    ensures Choose(rs) == Choose(ss)
  {
    ChooseIsMember(rs);
    ChooseIsMember(ss);
    assert forall r :: r in rs <==> r in multiset(rs);
    assert forall r :: r in ss <==> r in multiset(ss);
    if !Choose(rs).MatchError? {
      assert Choose(ss) in rs;
      var i :| 0 <= i < |rs| && rs[i] == Choose(rs);
      var j :| 0 <= j < |rs| && rs[j] == Choose(ss);
    }
  }

  /*** Tokens ***/

  function OpName(op: CompareOp): string {
    match op
    case LT => "<"
    case LTE => "<="
    case GT => ">"
    case GTE => ">="
    case EQL => "="
    case NEQL => "!="
  }

  function ParseOp(s: string): Option<CompareOp> {
    if s == "<" then Some(LT)
    else if s == "<=" then Some(LTE)
    else if s == ">" then Some(GT)
    else if s == ">=" then Some(GTE)
    else if s == "=" then Some(EQL)
    else if s == "!=" then Some(NEQL)
    else None
  }

  // matcher.Array(matcher.Value(head))
  predicate Headed(input: Value, head: string) {
    input.VArr? && |input.elems| >= 1 && input.elems[0] == VStr(head)
  }

  /*** Unmarshal ***/

  /** The expression of type t: OR, the atom, NOT, AND, in the order they are tried. */
  function UnmarshalNPE(eng: Engines, t: PType, input: Value): Outcome
    decreases input, 4
  {
    match Choose(NPEAlternatives(eng, t, input))
    case Ok(n) => Ok(Expression(n))
    case MatchError => MatchError
    case HardError => HardError
  }

  function NPEAlternatives(eng: Engines, t: PType, input: Value): (rs: seq<Outcome>)
    ensures |rs| == 4
    decreases input, 3
  {
    [UnmarshalBinOp(eng, t, false, input), UnmarshalAtom(eng, t, input),
     UnmarshalNot(eng, t, input), UnmarshalBinOp(eng, t, true, input)]
  }

  function Unravel(r: Outcome): Outcome {
    if r.Ok? && r.node.Expression? then Ok(r.node.matched) else r
  }

  function UnmarshalBinOp(eng: Engines, t: PType, isAnd: bool, input: Value): Outcome
    decreases input, 2
  {
    if !Headed(input, if isAnd then "AND" else "OR") then MatchError
    else if |input.elems| != 3 then HardError
    else
      var r1 := Unravel(UnmarshalNPE(eng, t, input.elems[1]));
      var r2 := Unravel(UnmarshalNPE(eng, t, input.elems[2]));
      if !r1.Ok? || !r2.Ok? then HardError
      else Ok(if isAnd then And(r1.node, r2.node) else Or(r1.node, r2.node))
  }

  function UnmarshalNot(eng: Engines, t: PType, input: Value): Outcome
    decreases input, 2
  {
    if !Headed(input, "NOT") then MatchError
    else if |input.elems| != 2 then HardError
    else
      var r := Unravel(UnmarshalNPE(eng, t, input.elems[1]));
      if r.Ok? then Ok(Not(r.node)) else HardError
  }

  function UnmarshalAtom(eng: Engines, t: PType, input: Value): Outcome
    decreases input, 2
  {
    match t
    case ValueP => Choose(ValueAlternatives(eng, input))
    case NumericP => UnmarshalNumeric(eng, false, input)
    case UnsignedP => UnmarshalNumeric(eng, true, input)
    case TimeP => UnmarshalTime(eng, input)
    case StringP => Choose(StringAlternatives(eng, input))
  }

  function ValueAlternatives(eng: Engines, input: Value): (rs: seq<Outcome>)
    ensures |rs| == 7
    decreases input, 1
  {
    [UnmarshalCollection(eng, true, input),
     if input.VNull? then Ok(Null) else MatchError,
     if input.VBool? then Ok(Boolean(input.b)) else MatchError,
     UnmarshalLeaf(eng, NumericP, "number", input),
     UnmarshalLeaf(eng, TimeP, "time", input),
     UnmarshalLeaf(eng, StringP, "string", input),
     UnmarshalCollection(eng, false, input)]
  }

  function Leaf(t: PType, n: Node): Node {
    match t
    case NumericP => NumericValue(n)
    case TimeP => TimeValue(n)
    case _ => StringValue(n)
  }

  // numericValue, tmValue and stringValue
  function UnmarshalLeaf(eng: Engines, t: PType, head: string, input: Value): Outcome
    decreases input, 0
  {
    if !Headed(input, head) then MatchError
    else if |input.elems| != 2 then HardError
    else
      var r := UnmarshalNPE(eng, t, input.elems[1]);
      if r.Ok? then Ok(Leaf(t, r.node)) else HardError
  }

  // collectionBase, for arrays and objects
  function UnmarshalCollection(eng: Engines, isArray: bool, input: Value): Outcome
    decreases input, 0
  {
    if !Headed(input, if isArray then "array" else "object") then MatchError
    else if |input.elems| != 2 then HardError
    else
      var r := Choose(CollectionAlternatives(eng, isArray, input.elems[1]));
      if r.Ok? then Ok(if isArray then Array(r.node) else Object(r.node)) else HardError
  }

  function CollectionAlternatives(eng: Engines, isArray: bool, input: Value): (rs: seq<Outcome>)
    ensures |rs| == 2
    decreases input, 5
  {
    [if isArray then UnmarshalArrayElement(eng, input) else UnmarshalObjectElement(eng, input),
     UnmarshalSize(eng, isArray, input)]
  }

  function UnmarshalSize(eng: Engines, isArray: bool, input: Value): Outcome
    decreases input, 0
  {
    if !Headed(input, "size") then MatchError
    else if |input.elems| != 2 then HardError
    else
      var r := UnmarshalNPE(eng, UnsignedP, input.elems[1]);
      if r.Ok? then Ok(Size(isArray, r.node)) else HardError
  }

  function UnmarshalObjectElement(eng: Engines, input: Value): Outcome
    decreases input, 0
  {
    if !input.VArr? || |input.elems| < 1 || !Headed(input.elems[0], "key") then MatchError
    else
      var selector := input.elems[0].elems;
      if |selector| != 2 || !selector[1].VStr? || |input.elems| != 2 then HardError
      else
        var r := UnmarshalNPE(eng, ValueP, input.elems[1]);
        if r.Ok? then Ok(ObjectElement(selector[1].s, r.node)) else HardError
  }

  // The selector of an array element: None is a match error.
  function ParseSelector(v: Value): Option<Option<Selector>> {
    if v == VStr("some") then Some(Some(SomeOf))
    else if v == VStr("all") then Some(Some(AllOf))
    else if !v.VNum? then None
    else if v.x < 0.0 then Some(None)
    else Some(Some(Index(v.x.Floor)))
  }

  function UnmarshalArrayElement(eng: Engines, input: Value): Outcome
    decreases input, 0
  {
    if !input.VArr? || |input.elems| < 1 || ParseSelector(input.elems[0]).None? then MatchError
    else
      var selector := ParseSelector(input.elems[0]).value;
      if selector.None? || |input.elems| != 2 then HardError
      else
        var r := UnmarshalNPE(eng, ValueP, input.elems[1]);
        if r.Ok? then Ok(ArrayElement(selector.value, r.node)) else HardError
  }

  predicate OpHeaded(input: Value) {
    input.VArr? && |input.elems| >= 1 && input.elems[0].VStr? && ParseOp(input.elems[0].s).Some?
  }

  function UnmarshalNumeric(eng: Engines, unsigned: bool, input: Value): Outcome {
    if !OpHeaded(input) then MatchError
    else if |input.elems| != 2 then HardError
    else
      var x := match input.elems[1]
        case VNum(x) => Some(x)
        case VStr(s) => eng.parseDecimal(s)
        case _ => None;
      if x.None? || (unsigned && x.value < 0.0) then HardError
      else Ok(Numeric(ParseOp(input.elems[0].s).value, x.value, unsigned))
  }

  function UnmarshalTime(eng: Engines, input: Value): Outcome {
    if !OpHeaded(input) then MatchError
    else if |input.elems| != 2 || eng.toTime(input.elems[1]).None? then HardError
    else Ok(Time(ParseOp(input.elems[0].s).value, eng.toTime(input.elems[1]).value))
  }

  function StringAlternatives(eng: Engines, input: Value): (rs: seq<Outcome>)
    ensures |rs| == 3
  {
    [UnmarshalString(eng, "regex", input), UnmarshalString(eng, "=", input), UnmarshalString(eng, "glob", input)]
  }

  // stringRegex, stringEqual and stringGlob
  function UnmarshalString(eng: Engines, head: string, input: Value): Outcome {
    if !Headed(input, head) then MatchError
    else if |input.elems| != 2 || !input.elems[1].VStr? then HardError
    else
      var s := input.elems[1].s;
      if head == "regex" then if eng.regexOk(s) then Ok(Regex(s)) else HardError
      else if head == "glob" then if eng.globOk(s) then Ok(Glob(s)) else HardError
      else Ok(StringEqual(s))
  }

  /*** Marshal ***/

  function SelectorValue(sel: Selector): Value {
    match sel
    case SomeOf => VStr("some")
    case AllOf => VStr("all")
    case Index(i) => VNum(i as real)
  }

  function Marshal(eng: Engines, n: Node): Value {
    match n
    case Expression(m) => Marshal(eng, m)
    case And(p1, p2) => VArr([VStr("AND"), Marshal(eng, p1), Marshal(eng, p2)])
    case Or(p1, p2) => VArr([VStr("OR"), Marshal(eng, p1), Marshal(eng, p2)])
    case Not(p) => VArr([VStr("NOT"), Marshal(eng, p)])
    case Object(c) => VArr([VStr("object"), Marshal(eng, c)])
    case Array(c) => VArr([VStr("array"), Marshal(eng, c)])
    case Null => VNull
    case Boolean(b) => VBool(b)
    case NumericValue(np) => VArr([VStr("number"), Marshal(eng, np)])
    case TimeValue(tp) => VArr([VStr("time"), Marshal(eng, tp)])
    case StringValue(sp) => VArr([VStr("string"), Marshal(eng, sp)])
    case Size(_, np) => VArr([VStr("size"), Marshal(eng, np)])
    case ObjectElement(key, e) => VArr([VArr([VStr("key"), VStr(key)]), Marshal(eng, e)])
    case ArrayElement(sel, e) => VArr([SelectorValue(sel), Marshal(eng, e)])
    case Numeric(op, x, _) => VArr([VStr(OpName(op)), VStr(eng.showDecimal(x))])
    case Time(op, t) => VArr([VStr(OpName(op)), VTime(t)])
    case Glob(g) => VArr([VStr("glob"), VStr(g)])
    case Regex(g) => VArr([VStr("regex"), VStr(g)])
    case StringEqual(s) => VArr([VStr("="), VStr(s)])
  }

  /*** No ambiguity at any choice point ***/

  lemma StringAlternativesApart(eng: Engines, input: Value)
    ensures AtMostOne(StringAlternatives(eng, input))
    ensures !Choose(StringAlternatives(eng, input)).MatchError? ==>
      Headed(input, "regex") || Headed(input, "=") || Headed(input, "glob")
  {
    ChooseIsMember(StringAlternatives(eng, input));
  }

  lemma CollectionAlternativesApart(eng: Engines, isArray: bool, input: Value)
    ensures AtMostOne(CollectionAlternatives(eng, isArray, input))
  {
    var rs := CollectionAlternatives(eng, isArray, input);
    assert rs[1] == UnmarshalSize(eng, isArray, input);
    assert rs[0] == if isArray then UnmarshalArrayElement(eng, input) else UnmarshalObjectElement(eng, input);
  }

  predicate ValueHeaded(input: Value) {
    || input.VNull? || input.VBool?
    || Headed(input, "array") || Headed(input, "number") || Headed(input, "time")
    || Headed(input, "string") || Headed(input, "object")
  }

  lemma ValueAlternativesApart(eng: Engines, input: Value)
    ensures AtMostOne(ValueAlternatives(eng, input))
    ensures !Choose(ValueAlternatives(eng, input)).MatchError? ==> ValueHeaded(input)
  {
    var rs := ValueAlternatives(eng, input);
    assert rs[0] == UnmarshalCollection(eng, true, input);
    assert rs[3] == UnmarshalLeaf(eng, NumericP, "number", input);
    assert rs[4] == UnmarshalLeaf(eng, TimeP, "time", input);
    assert rs[5] == UnmarshalLeaf(eng, StringP, "string", input);
    assert rs[6] == UnmarshalCollection(eng, false, input);
    ChooseIsMember(rs);
  }

  // No atom reads what AND, OR or NOT would read.
  lemma AtomHeads(eng: Engines, t: PType, input: Value)
    requires !UnmarshalAtom(eng, t, input).MatchError?
    ensures !Headed(input, "AND") && !Headed(input, "OR") && !Headed(input, "NOT")
  {
    ValueAlternativesApart(eng, input);
    StringAlternativesApart(eng, input);
    assert ParseOp("AND").None? && ParseOp("OR").None? && ParseOp("NOT").None?;
  }

  lemma NPEAlternativesApart(eng: Engines, t: PType, input: Value)
    ensures AtMostOne(NPEAlternatives(eng, t, input))
  {
    var rs := NPEAlternatives(eng, t, input);
    if !UnmarshalAtom(eng, t, input).MatchError? { AtomHeads(eng, t, input); }
    assert rs[0] == UnmarshalBinOp(eng, t, false, input) && rs[3] == UnmarshalBinOp(eng, t, true, input);
    assert rs[1] == UnmarshalAtom(eng, t, input) && rs[2] == UnmarshalNot(eng, t, input);
  }

  /** Wherever the unmarshaller chooses, at most one alternative avoids a match error, so any
      order of the alternatives gives the same outcome. */
  lemma ChoicesUnambiguous(eng: Engines, t: PType, isArray: bool, input: Value, rs: seq<Outcome>)
    ensures multiset(rs) == multiset(NPEAlternatives(eng, t, input)) ==>
      Choose(rs) == Choose(NPEAlternatives(eng, t, input))
    ensures multiset(rs) == multiset(ValueAlternatives(eng, input)) ==>
      Choose(rs) == Choose(ValueAlternatives(eng, input))
    ensures multiset(rs) == multiset(StringAlternatives(eng, input)) ==>
      Choose(rs) == Choose(StringAlternatives(eng, input))
    ensures multiset(rs) == multiset(CollectionAlternatives(eng, isArray, input))
        ==> Choose(rs) == Choose(CollectionAlternatives(eng, isArray, input))
  {
    NPEAlternativesApart(eng, t, input);
    ValueAlternativesApart(eng, input);
    StringAlternativesApart(eng, input);
    CollectionAlternativesApart(eng, isArray, input);
    OrderIrrelevantIf(NPEAlternatives(eng, t, input), rs);
    OrderIrrelevantIf(ValueAlternatives(eng, input), rs);
    OrderIrrelevantIf(StringAlternatives(eng, input), rs);
    OrderIrrelevantIf(CollectionAlternatives(eng, isArray, input), rs);
  }

  lemma OrderIrrelevantIf(rs: seq<Outcome>, ss: seq<Outcome>)
    requires AtMostOne(rs)
    ensures multiset(ss) == multiset(rs) ==> Choose(ss) == Choose(rs)
  {
    if multiset(ss) == multiset(rs) { OrderIrrelevant(rs, ss); }
  }

  lemma {:induction false} ChooseUnique(rs: seq<Outcome>, i: nat)
    requires AtMostOne(rs) && i < |rs| && !rs[i].MatchError?
    ensures Choose(rs) == rs[i]
  {
    if i > 0 { ChooseUnique(rs[1..], i - 1); }
  }

  /*** Round trip ***/

  // The numbers and times in the tree survive their own text.
  predicate Survives(eng: Engines, n: Node) {
    match n
    case Expression(m) => Survives(eng, m)
    case And(p1, p2) => Survives(eng, p1) && Survives(eng, p2)
    case Or(p1, p2) => Survives(eng, p1) && Survives(eng, p2)
    case Not(p) => Survives(eng, p)
    case Object(c) => Survives(eng, c)
    case Array(c) => Survives(eng, c)
    case NumericValue(np) => Survives(eng, np)
    case TimeValue(tp) => Survives(eng, tp)
    case StringValue(sp) => Survives(eng, sp)
    case Size(_, np) => Survives(eng, np)
    case ObjectElement(_, e) => Survives(eng, e)
    case ArrayElement(_, e) => Survives(eng, e)
    case Numeric(_, x, _) => eng.parseDecimal(eng.showDecimal(x)) == Some(x)
    case Time(_, t) => eng.toTime(VTime(t)) == Some(t)
    case _ => true
  }

  // Every glob and regex in the tree compiles.
  predicate Compiles(eng: Engines, n: Node) {
    match n
    case Expression(m) => Compiles(eng, m)
    case And(p1, p2) => Compiles(eng, p1) && Compiles(eng, p2)
    case Or(p1, p2) => Compiles(eng, p1) && Compiles(eng, p2)
    case Not(p) => Compiles(eng, p)
    case Object(c) => Compiles(eng, c)
    case Array(c) => Compiles(eng, c)
    case NumericValue(np) => Compiles(eng, np)
    case TimeValue(tp) => Compiles(eng, tp)
    case StringValue(sp) => Compiles(eng, sp)
    case Size(_, np) => Compiles(eng, np)
    case ObjectElement(_, e) => Compiles(eng, e)
    case ArrayElement(_, e) => Compiles(eng, e)
    case Glob(g) => eng.globOk(g)
    case Regex(g) => eng.regexOk(g)
    case _ => true
  }

  lemma PickNPE(eng: Engines, t: PType, input: Value, i: nat, m: Node)
    requires i < 4 && NPEAlternatives(eng, t, input)[i] == Ok(m)
    ensures UnmarshalNPE(eng, t, input) == Ok(Expression(m))
  {
    NPEAlternativesApart(eng, t, input);
    ChooseUnique(NPEAlternatives(eng, t, input), i);
  }

  lemma BinOpRoundTrip(eng: Engines, t: PType, isAnd: bool, v1: Value, v2: Value, p1: Node, p2: Node)
    requires UnmarshalNPE(eng, t, v1) == Ok(Expression(p1)) && UnmarshalNPE(eng, t, v2) == Ok(Expression(p2))
    ensures UnmarshalNPE(eng, t, VArr([VStr(if isAnd then "AND" else "OR"), v1, v2]))
         == Ok(Expression(if isAnd then And(p1, p2) else Or(p1, p2)))
  {
    var input := VArr([VStr(if isAnd then "AND" else "OR"), v1, v2]);
    assert input.elems[1] == v1 && input.elems[2] == v2;
    assert NPEAlternatives(eng, t, input)[if isAnd then 3 else 0] == UnmarshalBinOp(eng, t, isAnd, input);
    PickNPE(eng, t, input, if isAnd then 3 else 0, if isAnd then And(p1, p2) else Or(p1, p2));
  }

  lemma NotRoundTrip(eng: Engines, t: PType, v: Value, p: Node)
    requires UnmarshalNPE(eng, t, v) == Ok(Expression(p))
    ensures UnmarshalNPE(eng, t, VArr([VStr("NOT"), v])) == Ok(Expression(Not(p)))
  {
    var input := VArr([VStr("NOT"), v]);
    assert input.elems[1] == v;
    assert NPEAlternatives(eng, t, input)[2] == UnmarshalNot(eng, t, input);
    PickNPE(eng, t, input, 2, Not(p));
  }

  lemma {:induction false} MatchedRoundTrip(eng: Engines, t: PType, m: Node)
    requires IsMatched(t, m) && Compiles(eng, m) && Survives(eng, m)
    ensures UnmarshalNPE(eng, t, Marshal(eng, m)) == Ok(Expression(m))
    decreases m, 1
  {
    if m.And? || m.Or? {
      MatchedRoundTrip(eng, t, m.p1);
      MatchedRoundTrip(eng, t, m.p2);
      BinOpRoundTrip(eng, t, m.And?, Marshal(eng, m.p1), Marshal(eng, m.p2), m.p1, m.p2);
    } else if m.Not? {
      MatchedRoundTrip(eng, t, m.p);
      NotRoundTrip(eng, t, Marshal(eng, m.p), m.p);
    } else {
      if t.ValueP? { ValueRoundTrip(eng, m); } else { LeafRoundTrip(eng, t, m); }
      assert NPEAlternatives(eng, t, Marshal(eng, m))[1] == UnmarshalAtom(eng, t, Marshal(eng, m));
      PickNPE(eng, t, Marshal(eng, m), 1, m);
    }
  }

  /** Unmarshal(Marshal(n)) is n, for every expression of every type. */
  lemma {:induction false} RoundTrip(eng: Engines, t: PType, n: Node)
    requires IsNPE(t, n) && Compiles(eng, n) && Survives(eng, n)
    ensures UnmarshalNPE(eng, t, Marshal(eng, n)) == Ok(n)
    decreases n, 0
  {
    MatchedRoundTrip(eng, t, n.matched);
  }

  lemma LeafRoundTrip(eng: Engines, t: PType, m: Node)
    requires IsMatched(t, m) && IsAtom(m) && Compiles(eng, m) && Survives(eng, m) && !t.ValueP?
    ensures UnmarshalAtom(eng, t, Marshal(eng, m)) == Ok(m)
  {
    var input := Marshal(eng, m);
    if t.StringP? {
      var rs := StringAlternatives(eng, input);
      StringAlternativesApart(eng, input);
      ChooseUnique(rs, if m.Regex? then 0 else if m.StringEqual? then 1 else 2);
    } else {
      OpNameParses(m.op);
    }
  }

  lemma OpNameParses(op: CompareOp)
    ensures ParseOp(OpName(op)) == Some(op)
  {
  }

  lemma PickValue(eng: Engines, input: Value, i: nat, m: Node)
    requires i < 7 && ValueAlternatives(eng, input)[i] == Ok(m)
    ensures UnmarshalAtom(eng, ValueP, input) == Ok(m)
  {
    ValueAlternativesApart(eng, input);
    ChooseUnique(ValueAlternatives(eng, input), i);
  }

  // number, time and string, from the outcome for their operand.
  lemma LeafValueRoundTrip(eng: Engines, t: PType, i: nat, v: Value, n: Node)
    requires UnmarshalNPE(eng, t, v) == Ok(n)
    requires (t == NumericP && i == 3) || (t == TimeP && i == 4) || (t == StringP && i == 5)
    ensures UnmarshalAtom(eng, ValueP, VArr([VStr(["number", "time", "string"][i - 3]), v])) == Ok(Leaf(t, n))
  {
    var head := ["number", "time", "string"][i - 3];
    var input := VArr([VStr(head), v]);
    assert input.elems[1] == v;
    assert UnmarshalLeaf(eng, t, head, input) == Ok(Leaf(t, n));
    assert ValueAlternatives(eng, input)[i] == UnmarshalLeaf(eng, t, head, input);
    PickValue(eng, input, i, Leaf(t, n));
  }

  lemma CollectionValueRoundTrip(eng: Engines, isArray: bool, v: Value, c: Node)
    requires Choose(CollectionAlternatives(eng, isArray, v)) == Ok(c)
    ensures UnmarshalAtom(eng, ValueP, VArr([VStr(if isArray then "array" else "object"), v]))
         == Ok(if isArray then Array(c) else Object(c))
  {
    var input := VArr([VStr(if isArray then "array" else "object"), v]);
    assert input.elems[1] == v;
    var i, m := if isArray then 0 else 6, if isArray then Array(c) else Object(c);
    assert UnmarshalCollection(eng, isArray, input) == Ok(m);
    assert ValueAlternatives(eng, input)[i] == UnmarshalCollection(eng, isArray, input);
    PickValue(eng, input, i, m);
  }

  lemma {:induction false} ValueRoundTrip(eng: Engines, m: Node)
    requires IsMatched(ValueP, m) && IsAtom(m) && Compiles(eng, m) && Survives(eng, m)
    ensures UnmarshalAtom(eng, ValueP, Marshal(eng, m)) == Ok(m)
    decreases m, 0
  {
    match m
    case Null => PickValue(eng, VNull, 1, m);
    case Boolean(b) => PickValue(eng, VBool(b), 2, m);
    case NumericValue(np) =>
      RoundTrip(eng, NumericP, np);
      LeafValueRoundTrip(eng, NumericP, 3, Marshal(eng, np), np);
    case TimeValue(tp) =>
      RoundTrip(eng, TimeP, tp);
      LeafValueRoundTrip(eng, TimeP, 4, Marshal(eng, tp), tp);
    case StringValue(sp) =>
      RoundTrip(eng, StringP, sp);
      LeafValueRoundTrip(eng, StringP, 5, Marshal(eng, sp), sp);
    case Object(c) =>
      CollectionRoundTrip(eng, false, c);
      CollectionValueRoundTrip(eng, false, Marshal(eng, c), c);
    case Array(c) =>
      CollectionRoundTrip(eng, true, c);
      CollectionValueRoundTrip(eng, true, Marshal(eng, c), c);
  }

  lemma {:induction false} CollectionRoundTrip(eng: Engines, isArray: bool, c: Node)
    requires IsMatched(ValueP, if isArray then Array(c) else Object(c))
    requires Compiles(eng, c) && Survives(eng, c)
    ensures Choose(CollectionAlternatives(eng, isArray, Marshal(eng, c))) == Ok(c)
    decreases c, 2
  {
    var input := Marshal(eng, c);
    var rs := CollectionAlternatives(eng, isArray, input);
    CollectionAlternativesApart(eng, isArray, input);
    if c.Size? {
      RoundTrip(eng, UnsignedP, c.np);
      assert input.elems[1] == Marshal(eng, c.np);
      assert rs[1] == UnmarshalSize(eng, isArray, input);
      ChooseUnique(rs, 1);
    } else {
      RoundTrip(eng, ValueP, c.e);
      assert input.elems[1] == Marshal(eng, c.e);
      if isArray {
        SelectorParses(c.sel);
        assert rs[0] == UnmarshalArrayElement(eng, input);
      } else {
        assert rs[0] == UnmarshalObjectElement(eng, input);
      }
      ChooseUnique(rs, 0);
    }
  }

  lemma SelectorParses(sel: Selector)
    ensures ParseSelector(SelectorValue(sel)) == Some(Some(sel))
  {
  }

  /*** What is read is well formed ***/

  ghost predicate GoodNPE(eng: Engines, t: PType, r: Outcome) {
    r.Ok? ==> IsNPE(t, r.node) && Compiles(eng, r.node)
  }

  ghost predicate GoodMatch(eng: Engines, t: PType, r: Outcome) {
    r.Ok? ==> IsMatched(t, r.node) && Compiles(eng, r.node)
  }

  lemma BinOpSound(eng: Engines, t: PType, isAnd: bool, input: Value)
    requires input.VArr? && |input.elems| == 3 ==>
      GoodNPE(eng, t, UnmarshalNPE(eng, t, input.elems[1])) && GoodNPE(eng, t, UnmarshalNPE(eng, t, input.elems[2]))
    ensures GoodMatch(eng, t, UnmarshalBinOp(eng, t, isAnd, input))
  {
  }

  lemma NotSound(eng: Engines, t: PType, input: Value)
    requires input.VArr? && |input.elems| == 2 ==> GoodNPE(eng, t, UnmarshalNPE(eng, t, input.elems[1]))
    ensures GoodMatch(eng, t, UnmarshalNot(eng, t, input))
  {
  }

  /** Every accepted input gives a well-formed tree of its type. */
  lemma {:induction false} UnmarshalSound(eng: Engines, t: PType, input: Value)
    ensures GoodNPE(eng, t, UnmarshalNPE(eng, t, input))
    decreases input, 2
  {
    var rs := NPEAlternatives(eng, t, input);
    ChooseIsMember(rs);
    if input.VArr? && |input.elems| >= 2 { UnmarshalSound(eng, t, input.elems[1]); }
    if input.VArr? && |input.elems| >= 3 { UnmarshalSound(eng, t, input.elems[2]); }
    BinOpSound(eng, t, false, input);
    BinOpSound(eng, t, true, input);
    NotSound(eng, t, input);
    AtomSound(eng, t, input);
    forall r | r in rs ensures GoodMatch(eng, t, r) {
      assert rs[0] == UnmarshalBinOp(eng, t, false, input) && rs[3] == UnmarshalBinOp(eng, t, true, input);
      assert rs[1] == UnmarshalAtom(eng, t, input) && rs[2] == UnmarshalNot(eng, t, input);
    }
  }

  lemma LeafSound(eng: Engines, t: PType, head: string, input: Value)
    requires t.NumericP? || t.TimeP? || t.StringP?
    requires input.VArr? && |input.elems| == 2 ==> GoodNPE(eng, t, UnmarshalNPE(eng, t, input.elems[1]))
    ensures GoodMatch(eng, ValueP, UnmarshalLeaf(eng, t, head, input))
  {
  }

  lemma {:induction false} AtomSound(eng: Engines, t: PType, input: Value)
    ensures GoodMatch(eng, t, UnmarshalAtom(eng, t, input))
    decreases input, 1
  {
    if t.StringP? {
      ChooseIsMember(StringAlternatives(eng, input));
    } else if t.ValueP? {
      ValueSound(eng, input);
    }
  }

  lemma {:induction false} ValueSound(eng: Engines, input: Value)
    ensures GoodMatch(eng, ValueP, Choose(ValueAlternatives(eng, input)))
    decreases input, 0
  {
    var rs := ValueAlternatives(eng, input);
    ChooseIsMember(rs);
    if input.VArr? && |input.elems| == 2 {
      UnmarshalSound(eng, NumericP, input.elems[1]);
      UnmarshalSound(eng, TimeP, input.elems[1]);
      UnmarshalSound(eng, StringP, input.elems[1]);
      CollectionSound(eng, true, input.elems[1]);
      CollectionSound(eng, false, input.elems[1]);
    }
    LeafSound(eng, NumericP, "number", input);
    LeafSound(eng, TimeP, "time", input);
    LeafSound(eng, StringP, "string", input);
    assert GoodMatch(eng, ValueP, UnmarshalCollection(eng, true, input));
    assert GoodMatch(eng, ValueP, UnmarshalCollection(eng, false, input));
    forall r | r in rs ensures GoodMatch(eng, ValueP, r) {
      assert rs[0] == UnmarshalCollection(eng, true, input) && rs[6] == UnmarshalCollection(eng, false, input);
      assert rs[3] == UnmarshalLeaf(eng, NumericP, "number", input);
      assert rs[4] == UnmarshalLeaf(eng, TimeP, "time", input);
      assert rs[5] == UnmarshalLeaf(eng, StringP, "string", input);
    }
  }

  lemma {:induction false} CollectionSound(eng: Engines, isArray: bool, input: Value)
    ensures var r := Choose(CollectionAlternatives(eng, isArray, input));
      r.Ok? ==> IsMatched(ValueP, if isArray then Array(r.node) else Object(r.node)) && Compiles(eng, r.node)
    decreases input, 3
  {
    var rs := CollectionAlternatives(eng, isArray, input);
    ChooseIsMember(rs);
    assert rs[0] == if isArray then UnmarshalArrayElement(eng, input) else UnmarshalObjectElement(eng, input);
    assert rs[1] == UnmarshalSize(eng, isArray, input);
    if input.VArr? && |input.elems| >= 2 {
      UnmarshalSound(eng, ValueP, input.elems[1]);
      UnmarshalSound(eng, UnsignedP, input.elems[1]);
    }
  }

  /** Whatever is unmarshalled can be reduced: the panics of reduce are out of reach. */
  lemma UnmarshalledIsReducible(eng: Engines, t: PType, input: Value)
    requires UnmarshalNPE(eng, t, input).Ok?
    ensures Reducible(UnmarshalNPE(eng, t, input).node.matched)
  {
    UnmarshalSound(eng, t, input);
    MatchedIsReducible(t, UnmarshalNPE(eng, t, input).node.matched);
  }

  /*** What the round trip needs ***/

  // An alternative that avoids a match error is the one that was read.
  lemma ReadBy(eng: Engines, t: PType, input: Value, i: nat, m: Node)
    requires i < 4 && !NPEAlternatives(eng, t, input)[i].MatchError?
    requires UnmarshalNPE(eng, t, input) == Ok(Expression(m))
    ensures NPEAlternatives(eng, t, input)[i] == Ok(m)
  {
    NPEAlternativesApart(eng, t, input);
    ChooseUnique(NPEAlternatives(eng, t, input), i);
  }

  lemma BinOpParts(eng: Engines, t: PType, isAnd: bool, input: Value, p1: Node, p2: Node)
    requires UnmarshalBinOp(eng, t, isAnd, input) == Ok(if isAnd then And(p1, p2) else Or(p1, p2))
    ensures UnmarshalNPE(eng, t, input.elems[1]) == Ok(Expression(p1))
    ensures UnmarshalNPE(eng, t, input.elems[2]) == Ok(Expression(p2))
  {
  }

  lemma BinOpNeeds(eng: Engines, t: PType, isAnd: bool, v1: Value, v2: Value, p1: Node, p2: Node)
    requires UnmarshalNPE(eng, t, VArr([VStr(if isAnd then "AND" else "OR"), v1, v2]))
          == Ok(Expression(if isAnd then And(p1, p2) else Or(p1, p2)))
    ensures UnmarshalNPE(eng, t, v1) == Ok(Expression(p1)) && UnmarshalNPE(eng, t, v2) == Ok(Expression(p2))
  {
    var input, i := VArr([VStr(if isAnd then "AND" else "OR"), v1, v2]), if isAnd then 3 else 0;
    assert !UnmarshalBinOp(eng, t, isAnd, input).MatchError?;
    assert NPEAlternatives(eng, t, input)[i] == UnmarshalBinOp(eng, t, isAnd, input);
    hide UnmarshalNPE, NPEAlternatives, UnmarshalBinOp;
    ReadBy(eng, t, input, i, if isAnd then And(p1, p2) else Or(p1, p2));
    BinOpParts(eng, t, isAnd, input, p1, p2);
  }

  lemma NotNeeds(eng: Engines, t: PType, v: Value, p: Node)
    requires UnmarshalNPE(eng, t, VArr([VStr("NOT"), v])) == Ok(Expression(Not(p)))
    ensures UnmarshalNPE(eng, t, v) == Ok(Expression(p))
  {
    var input := VArr([VStr("NOT"), v]);
    assert NPEAlternatives(eng, t, input)[2] == UnmarshalNot(eng, t, input);
    assert !UnmarshalNot(eng, t, input).MatchError?;
    ReadBy(eng, t, input, 2, Not(p));
    assert input.elems[1] == v;
  }

  lemma AtomPicked(eng: Engines, t: PType, input: Value, m: Node)
    requires IsAtom(m) && UnmarshalNPE(eng, t, input) == Ok(Expression(m))
    ensures UnmarshalAtom(eng, t, input) == Ok(m)
  {
    var rs := NPEAlternatives(eng, t, input);
    ChooseIsMember(rs);
    assert rs[1] == UnmarshalAtom(eng, t, input) && rs[2] == UnmarshalNot(eng, t, input);
    assert rs[0] == UnmarshalBinOp(eng, t, false, input) && rs[3] == UnmarshalBinOp(eng, t, true, input);
    var i :| 0 <= i < 4 && rs[i] == Ok(m);
    assert i == 1;
  }

  // Which alternative of a value gives which node.
  lemma ValueKinds(eng: Engines, v: Value)
    ensures var rs := ValueAlternatives(eng, v);
      && (rs[0].Ok? ==> rs[0].node.Array?) && (rs[1].Ok? ==> rs[1].node.Null?) && (rs[2].Ok? ==> rs[2].node.Boolean?)
      && (rs[3].Ok? ==> rs[3].node.NumericValue?) && (rs[4].Ok? ==> rs[4].node.TimeValue?)
      && (rs[5].Ok? ==> rs[5].node.StringValue?) && (rs[6].Ok? ==> rs[6].node.Object?)
  {
    var rs := ValueAlternatives(eng, v);
    assert rs[0] == UnmarshalCollection(eng, true, v) && rs[6] == UnmarshalCollection(eng, false, v);
    assert rs[3] == UnmarshalLeaf(eng, NumericP, "number", v);
    assert rs[4] == UnmarshalLeaf(eng, TimeP, "time", v);
    assert rs[5] == UnmarshalLeaf(eng, StringP, "string", v);
  }

  lemma LeafValueNeeds(eng: Engines, t: PType, v: Value, n: Node)
    requires t.NumericP? || t.TimeP? || t.StringP?
    requires UnmarshalAtom(eng, ValueP, v) == Ok(Leaf(t, n)) && v.VArr? && |v.elems| == 2
    ensures UnmarshalNPE(eng, t, v.elems[1]) == Ok(n)
  {
    var rs := ValueAlternatives(eng, v);
    ChooseIsMember(rs);
    ValueKinds(eng, v);
    assert rs[3] == UnmarshalLeaf(eng, NumericP, "number", v);
    assert rs[4] == UnmarshalLeaf(eng, TimeP, "time", v);
    assert rs[5] == UnmarshalLeaf(eng, StringP, "string", v);
    var i :| 0 <= i < 7 && rs[i] == Ok(Leaf(t, n));
    assert i == if t.NumericP? then 3 else if t.TimeP? then 4 else 5;
  }

  lemma CollectionValueNeeds(eng: Engines, isArray: bool, v: Value, c: Node)
    requires v.VArr? && |v.elems| == 2
    requires UnmarshalAtom(eng, ValueP, v) == Ok(if isArray then Array(c) else Object(c))
    ensures Choose(CollectionAlternatives(eng, isArray, v.elems[1])) == Ok(c)
  {
    var rs := ValueAlternatives(eng, v);
    ChooseIsMember(rs);
    ValueKinds(eng, v);
    assert rs[0] == UnmarshalCollection(eng, true, v) && rs[6] == UnmarshalCollection(eng, false, v);
    var i :| 0 <= i < 7 && rs[i] == Ok(if isArray then Array(c) else Object(c));
    assert i == if isArray then 0 else 6;
  }

  lemma {:induction false} MatchedNeeds(eng: Engines, t: PType, m: Node)
    requires IsMatched(t, m) && UnmarshalNPE(eng, t, Marshal(eng, m)) == Ok(Expression(m))
    ensures Survives(eng, m)
    decreases m, 1
  {
    if m.And? || m.Or? {
      BinOpNeeds(eng, t, m.And?, Marshal(eng, m.p1), Marshal(eng, m.p2), m.p1, m.p2);
      MatchedNeeds(eng, t, m.p1);
      MatchedNeeds(eng, t, m.p2);
    } else if m.Not? {
      NotNeeds(eng, t, Marshal(eng, m.p), m.p);
      MatchedNeeds(eng, t, m.p);
    } else {
      AtomPicked(eng, t, Marshal(eng, m), m);
      if t.ValueP? { ValueNeeds(eng, m); }
    }
  }

  lemma {:induction false} ValueNeeds(eng: Engines, m: Node)
    requires IsMatched(ValueP, m) && IsAtom(m) && UnmarshalAtom(eng, ValueP, Marshal(eng, m)) == Ok(m)
    ensures Survives(eng, m)
    decreases m, 0
  {
    match m
    case Null =>
    case Boolean(_) =>
    case NumericValue(np) =>
      LeafValueNeeds(eng, NumericP, Marshal(eng, m), np);
      MatchedNeeds(eng, NumericP, np.matched);
    case TimeValue(tp) =>
      LeafValueNeeds(eng, TimeP, Marshal(eng, m), tp);
      MatchedNeeds(eng, TimeP, tp.matched);
    case StringValue(sp) =>
      LeafValueNeeds(eng, StringP, Marshal(eng, m), sp);
      MatchedNeeds(eng, StringP, sp.matched);
    case Object(c) =>
      CollectionValueNeeds(eng, false, Marshal(eng, m), c);
      CollectionNeeds(eng, false, c);
    case Array(c) =>
      CollectionValueNeeds(eng, true, Marshal(eng, m), c);
      CollectionNeeds(eng, true, c);
  }

  lemma {:induction false} CollectionNeeds(eng: Engines, isArray: bool, c: Node)
    requires IsMatched(ValueP, if isArray then Array(c) else Object(c))
    requires Choose(CollectionAlternatives(eng, isArray, Marshal(eng, c))) == Ok(c)
    ensures Survives(eng, c)
    decreases c, 2
  {
    var input := Marshal(eng, c);
    var rs := CollectionAlternatives(eng, isArray, input);
    ChooseIsMember(rs);
    assert rs[0] == if isArray then UnmarshalArrayElement(eng, input) else UnmarshalObjectElement(eng, input);
    assert rs[1] == UnmarshalSize(eng, isArray, input);
    MatchedNeeds(eng, if c.Size? then UnsignedP else ValueP, if c.Size? then c.np.matched else c.e.matched);
  }

  /** Unmarshal(Marshal(n)) is n exactly when the patterns in n compile and its numbers and times
      survive their own text. */
  lemma RoundTripIff(eng: Engines, t: PType, n: Node)
    requires IsNPE(t, n)
    ensures UnmarshalNPE(eng, t, Marshal(eng, n)) == Ok(n) <==> Compiles(eng, n) && Survives(eng, n)
  {
    if UnmarshalNPE(eng, t, Marshal(eng, n)) == Ok(n) {
      UnmarshalSound(eng, t, Marshal(eng, n));
      MatchedNeeds(eng, t, n.matched);
    } else if Compiles(eng, n) && Survives(eng, n) {
      RoundTrip(eng, t, n);
    }
  }
}
