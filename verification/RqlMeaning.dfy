/** What RQL queries mean: which values satisfy a tree, in plain logic, and what the literal JSON
    forms are read as (api/rql/internal/predicate). */
module RqlMeaning {
  import opened Options
  import opened RqlNodes
  import opened RqlMarshal

  /*** Satisfaction ***/

  // How a value lies to the operand, by their difference.
  predicate Lies(op: CompareOp, d: real) {
    match op
    case LT => d < 0.0
    case LTE => d < 0.0 || d == 0.0
    case GT => d > 0.0
    case GTE => d > 0.0 || d == 0.0
    case EQL => d == 0.0
    case NEQL => d < 0.0 || d > 0.0
  }

  /** The value satisfies the tree: plain logic, without order or panics. */
  ghost predicate Satisfies(eng: Engines, n: Node, v: Value)
    decreases n
  {
    match n
    case Expression(m) => Satisfies(eng, m, v)
    case And(p1, p2) => Satisfies(eng, p1, v) && Satisfies(eng, p2, v)
    case Or(p1, p2) => Satisfies(eng, p1, v) || Satisfies(eng, p2, v)
    case Not(p) => !Satisfies(eng, p, v)
    case Object(c) => Satisfies(eng, c, v)
    case Array(c) => Satisfies(eng, c, v)
    case Null => v == VNull
    case Boolean(b) => v == VBool(b)
    case NumericValue(np) => v.VNum? && Satisfies(eng, np, v)
    case TimeValue(tp) => eng.toTime(v).Some? && Satisfies(eng, tp, VTime(eng.toTime(v).value))
    case StringValue(sp) => v.VStr? && Satisfies(eng, sp, v)
    case Size(true, np) => v.VArr? && Satisfies(eng, np, VNum(|v.elems| as real))
    case Size(false, np) => v.VObj? && Satisfies(eng, np, VNum(|v.fields| as real))
    case ObjectElement(key, e) =>
      v.VObj? && var k := MatchingKey(eng, v.fields, key); k.Some? && Satisfies(eng, e, v.fields[k.value])
    case ArrayElement(sel, e) =>
      v.VArr? &&
      (match sel
       case SomeOf => exists i :: 0 <= i < |v.elems| && Satisfies(eng, e, v.elems[i])
       case AllOf => forall i :: 0 <= i < |v.elems| ==> Satisfies(eng, e, v.elems[i])
       case Index(i) => i < |v.elems| && Satisfies(eng, e, v.elems[i]))
    case Numeric(op, x, _) => v.VNum? && Lies(op, v.x - x)
    case Time(op, t) => v.VTime? && Lies(op, (v.t - t) as real)
    case Glob(g) => v.VStr? && eng.globMatch(g, v.s)
    case Regex(g) => v.VStr? && eng.regexMatch(g, v.s)
    case StringEqual(s) => v == VStr(s)
  }

  // The evaluation says what satisfaction says, unless it panics.
  ghost predicate Right(eng: Engines, n: Node, v: Value) {
    !Eval(eng, n, v).Panics? ==> (Eval(eng, n, v).True? <==> Satisfies(eng, n, v))
  }

  lemma {:induction false} SomeRight(eng: Engines, e: Node, vs: seq<Value>)
    requires forall v :: v in vs ==> Right(eng, e, v)
    ensures var r := EvalSome(eng, e, vs);
      !r.Panics? ==> (r.True? <==> exists i :: 0 <= i < |vs| && Satisfies(eng, e, vs[i]))
    decreases |vs|
  {
    if vs != [] {
      assert vs[0] in vs && Right(eng, e, vs[0]);
      forall v | v in vs[1..] ensures Right(eng, e, v) { assert v in vs; }
      SomeRight(eng, e, vs[1..]);
      if i :| 0 <= i < |vs[1..]| && Satisfies(eng, e, vs[1..][i]) { assert vs[i + 1] == vs[1..][i]; }
      if i :| 0 < i < |vs| && Satisfies(eng, e, vs[i]) { assert vs[1..][i - 1] == vs[i]; }
    }
  }

  lemma {:induction false} AllRight(eng: Engines, e: Node, vs: seq<Value>)
    requires forall v :: v in vs ==> Right(eng, e, v)
    ensures var r := EvalAll(eng, e, vs);
      !r.Panics? ==> (r.True? <==> forall i :: 0 <= i < |vs| ==> Satisfies(eng, e, vs[i]))
    decreases |vs|
  {
    if vs != [] {
      assert vs[0] in vs && Right(eng, e, vs[0]);
      forall v | v in vs[1..] ensures Right(eng, e, v) { assert v in vs; }
      AllRight(eng, e, vs[1..]);
      if i :| 0 <= i < |vs[1..]| && !Satisfies(eng, e, vs[1..][i]) { assert vs[i + 1] == vs[1..][i]; }
      if i :| 0 < i < |vs| && !Satisfies(eng, e, vs[i]) { assert vs[1..][i - 1] == vs[i]; }
    }
  }

  lemma {:induction false} ElementRight(eng: Engines, sel: Selector, e: Node, v: Value)
    requires v.VArr? ==> forall w :: w in v.elems ==> Right(eng, e, w)
    ensures Right(eng, ArrayElement(sel, e), v)
  {
    if v.VArr? {
      match sel
      case SomeOf => SomeRight(eng, e, v.elems);
      case AllOf => AllRight(eng, e, v.elems);
      case Index(i) => if i < |v.elems| { assert v.elems[i] in v.elems && Right(eng, e, v.elems[i]); }
    }
  }

  lemma ConnectiveRight(eng: Engines, n: Node, v: Value)
    requires n.And? || n.Or? ==> Right(eng, n.p1, v) && Right(eng, n.p2, v)
    requires n.Not? ==> Right(eng, n.p, v)
    ensures n.And? || n.Or? || n.Not? ==> Right(eng, n, v)
  {
  }

  lemma WrapperRight(eng: Engines, n: Node, v: Value)
    requires n.Expression? ==> Right(eng, n.matched, v)
    requires n.Object? || n.Array? ==> Right(eng, n.c, v)
    ensures n.Expression? || n.Object? || n.Array? ==> Right(eng, n, v)
  {
  }

  lemma ValueRight(eng: Engines, n: Node, v: Value)
    requires n.NumericValue? ==> Right(eng, n.np, v)
    requires n.TimeValue? && eng.toTime(v).Some? ==> Right(eng, n.tp, VTime(eng.toTime(v).value))
    requires n.StringValue? ==> Right(eng, n.sp, v)
    ensures n.NumericValue? || n.TimeValue? || n.StringValue? ==> Right(eng, n, v)
  {
  }

  lemma SizeRight(eng: Engines, isArray: bool, np: Node, v: Value)
    requires v.VArr? ==> Right(eng, np, VNum(|v.elems| as real))
    requires v.VObj? ==> Right(eng, np, VNum(|v.fields| as real))
    ensures Right(eng, Size(isArray, np), v)
  {
  }

  lemma KeyRight(eng: Engines, key: string, e: Node, v: Value)
    requires v.VObj? && MatchingKey(eng, v.fields, key).Some? ==>
      Right(eng, e, v.fields[MatchingKey(eng, v.fields, key).value])
    ensures Right(eng, ObjectElement(key, e), v)
  {
  }

  lemma LeafRight(eng: Engines, n: Node, v: Value)
    requires n.Null? || n.Boolean? || n.Numeric? || n.Time? || n.Glob? || n.Regex? || n.StringEqual?
    ensures Right(eng, n, v)
  {
  }

  /** For every tree and value: an evaluation that does not panic is true exactly when the value
      satisfies the tree. */
  lemma {:induction false} EvalIsSatisfies(eng: Engines, n: Node, v: Value)
    ensures Right(eng, n, v)
    decreases n
  {
    hide Right;
    if n.Expression? {
      EvalIsSatisfies(eng, n.matched, v);
      WrapperRight(eng, n, v);
    } else if n.Object? || n.Array? {
      EvalIsSatisfies(eng, n.c, v);
      WrapperRight(eng, n, v);
    } else if n.And? || n.Or? {
      EvalIsSatisfies(eng, n.p1, v);
      EvalIsSatisfies(eng, n.p2, v);
      ConnectiveRight(eng, n, v);
    } else if n.Not? {
      EvalIsSatisfies(eng, n.p, v);
      ConnectiveRight(eng, n, v);
    } else if n.NumericValue? {
      EvalIsSatisfies(eng, n.np, v);
      ValueRight(eng, n, v);
    } else if n.TimeValue? {
      if eng.toTime(v).Some? { EvalIsSatisfies(eng, n.tp, VTime(eng.toTime(v).value)); }
      ValueRight(eng, n, v);
    } else if n.StringValue? {
      EvalIsSatisfies(eng, n.sp, v);
      ValueRight(eng, n, v);
    } else if n.Size? {
      if v.VArr? { EvalIsSatisfies(eng, n.np, VNum(|v.elems| as real)); }
      if v.VObj? { EvalIsSatisfies(eng, n.np, VNum(|v.fields| as real)); }
      SizeRight(eng, n.isArray, n.np, v);
    } else if n.ObjectElement? {
      if v.VObj? && MatchingKey(eng, v.fields, n.key).Some? {
        EvalIsSatisfies(eng, n.e, v.fields[MatchingKey(eng, v.fields, n.key).value]);
      }
      KeyRight(eng, n.key, n.e, v);
    } else if n.ArrayElement? {
      if v.VArr? { forall w | w in v.elems ensures Right(eng, n.e, w) { EvalIsSatisfies(eng, n.e, w); } }
      ElementRight(eng, n.sel, n.e, v);
    } else {
      LeafRight(eng, n, v);
    }
  }

  /*** Panics ***/

  // No element by index, and no != on times.
  predicate Tame(n: Node) {
    match n
    case Expression(m) => Tame(m)
    case And(p1, p2) => Tame(p1) && Tame(p2)
    case Or(p1, p2) => Tame(p1) && Tame(p2)
    case Not(p) => Tame(p)
    case Object(c) => Tame(c)
    case Array(c) => Tame(c)
    case NumericValue(np) => Tame(np)
    case TimeValue(tp) => Tame(tp)
    case StringValue(sp) => Tame(sp)
    case Size(_, np) => Tame(np)
    case ObjectElement(_, e) => Tame(e)
    case ArrayElement(sel, e) => !sel.Index? && Tame(e)
    case Time(op, _) => !op.NEQL?
    case _ => true
  }

  // The values a predicate of type t is asked about.
  predicate OfType(t: PType, v: Value) {
    match t
    case ValueP => true
    case NumericP => v.VNum?
    case UnsignedP => v.VNum?
    case TimeP => v.VTime?
    case StringP => v.VStr?
  }

  ghost predicate Calm(eng: Engines, n: Node, v: Value) {
    !Eval(eng, n, v).Panics?
  }

  lemma {:induction false} ElementsCalm(eng: Engines, e: Node, vs: seq<Value>)
    requires forall v :: v in vs ==> Calm(eng, e, v)
    ensures !EvalSome(eng, e, vs).Panics? && !EvalAll(eng, e, vs).Panics?
    decreases |vs|
  {
    if vs != [] {
      assert vs[0] in vs && Calm(eng, e, vs[0]);
      forall v | v in vs[1..] ensures Calm(eng, e, v) { assert v in vs; }
      ElementsCalm(eng, e, vs[1..]);
    }
  }

  // Whatever the wrapper or connective, it panics only if what it holds does.
  lemma CalmAbove(eng: Engines, n: Node, v: Value)
    requires n.And? || n.Or? ==> Calm(eng, n.p1, v) && Calm(eng, n.p2, v)
    requires n.Not? ==> Calm(eng, n.p, v)
    requires n.Object? || n.Array? ==> Calm(eng, n.c, v)
    requires n.Expression? ==> Calm(eng, n.matched, v)
    ensures n.And? || n.Or? || n.Not? || n.Object? || n.Array? || n.Expression? ==> Calm(eng, n, v)
  {
  }

  lemma CalmValue(eng: Engines, n: Node, v: Value)
    requires n.NumericValue? && v.VNum? ==> Calm(eng, n.np, v)
    requires n.TimeValue? && eng.toTime(v).Some? ==> Calm(eng, n.tp, VTime(eng.toTime(v).value))
    requires n.StringValue? && v.VStr? ==> Calm(eng, n.sp, v)
    ensures n.NumericValue? || n.TimeValue? || n.StringValue? ==> Calm(eng, n, v)
  {
  }

  lemma CalmCollection(eng: Engines, c: Node, v: Value)
    requires c.Size? && v.VArr? ==> Calm(eng, c.np, VNum(|v.elems| as real))
    requires c.Size? && v.VObj? ==> Calm(eng, c.np, VNum(|v.fields| as real))
    requires c.ObjectElement? && v.VObj? ==> forall k :: k in v.fields ==> Calm(eng, c.e, v.fields[k])
    requires c.ArrayElement? && v.VArr? ==> !c.sel.Index? && forall w :: w in v.elems ==> Calm(eng, c.e, w)
    ensures c.Size? || c.ObjectElement? || c.ArrayElement? ==> Calm(eng, c, v)
  {
    if c.ArrayElement? && v.VArr? { ElementsCalm(eng, c.e, v.elems); }
  }

  lemma CalmLeaf(eng: Engines, t: PType, n: Node, v: Value)
    requires IsMatched(t, n) && Tame(n) && OfType(t, v)
    requires n.Null? || n.Boolean? || n.Numeric? || n.Time? || n.Glob? || n.Regex? || n.StringEqual?
    ensures Calm(eng, n, v)
  {
  }

  /** Of a well-formed tree only an element by index and != on times can panic. */
  lemma {:induction false} OnlyTwoPanics(eng: Engines, t: PType, n: Node, v: Value)
    requires IsMatched(t, n) && Tame(n) && OfType(t, v)
    ensures Calm(eng, n, v)
    decreases n
  {
    hide Calm;
    if n.And? || n.Or? {
      OnlyTwoPanics(eng, t, n.p1, v);
      OnlyTwoPanics(eng, t, n.p2, v);
      CalmAbove(eng, n, v);
    } else if n.Not? {
      OnlyTwoPanics(eng, t, n.p, v);
      CalmAbove(eng, n, v);
    } else if n.NumericValue? {
      if v.VNum? { WrappedCalm(eng, NumericP, n.np, v); }
      CalmValue(eng, n, v);
    } else if n.TimeValue? {
      if eng.toTime(v).Some? { WrappedCalm(eng, TimeP, n.tp, VTime(eng.toTime(v).value)); }
      CalmValue(eng, n, v);
    } else if n.StringValue? {
      if v.VStr? { WrappedCalm(eng, StringP, n.sp, v); }
      CalmValue(eng, n, v);
    } else if n.Object? || n.Array? {
      CollectionCalm(eng, n.c, v);
      CalmAbove(eng, n, v);
    } else {
      CalmLeaf(eng, t, n, v);
    }
  }

  lemma {:induction false} WrappedCalm(eng: Engines, t: PType, n: Node, v: Value)
    requires IsNPE(t, n) && Tame(n) && OfType(t, v)
    ensures Calm(eng, n, v)
    decreases n
  {
    hide Calm;
    OnlyTwoPanics(eng, t, n.matched, v);
    CalmAbove(eng, n, v);
  }

  lemma {:induction false} CollectionCalm(eng: Engines, c: Node, v: Value)
    requires Tame(c) && if c.Size? then IsNPE(UnsignedP, c.np)
                        else (c.ObjectElement? || c.ArrayElement?) && IsNPE(ValueP, c.e)
    ensures Calm(eng, c, v)
    decreases c
  {
    hide Calm;
    if c.Size? {
      if v.VArr? { WrappedCalm(eng, UnsignedP, c.np, VNum(|v.elems| as real)); }
      if v.VObj? { WrappedCalm(eng, UnsignedP, c.np, VNum(|v.fields| as real)); }
    } else {
      if v.VObj? { forall k | k in v.fields
                  ensures Calm(eng, c.e, v.fields[k]) { WrappedCalm(eng, ValueP, c.e, v.fields[k]); } }
      if v.VArr? { forall w | w in v.elems ensures Calm(eng, c.e, w) { WrappedCalm(eng, ValueP, c.e, w); } }
    }
    CalmCollection(eng, c, v);
  }

  /** And an index out of range does. */
  lemma IndexPanics(eng: Engines, i: nat, e: Node, vs: seq<Value>)
    ensures Eval(eng, ArrayElement(Index(i), e), VArr(vs)).Panics? <==> i >= |vs| || Eval(eng, e, vs[i]).Panics?
  {
  }

  /*** Leaves ***/

  /** Numbers: d below x is less, d above is greater, and the six operators go together. */
  lemma NumericLaws(eng: Engines, x: real, d: real, y: real, u: bool)
    ensures Eval(eng, Numeric(LT, x, u), VNum(x - d)) == Of(d > 0.0)
    ensures Eval(eng, Numeric(GT, x, u), VNum(x + d)) == Of(d > 0.0)
    ensures Eval(eng, Numeric(EQL, x, u), VNum(x + d)) == Of(d == 0.0)
    ensures var lt, eq, gt := Eval(eng, Numeric(LT, x, u), VNum(y)).True?, Eval(eng, Numeric(EQL, x, u), VNum(y)).True?,
                              Eval(eng, Numeric(GT, x, u), VNum(y)).True?;
      && (if lt then !eq && !gt else eq == !gt)
      && Eval(eng, Numeric(LTE, x, u), VNum(y)) == Of(lt || eq)
      && Eval(eng, Numeric(GTE, x, u), VNum(y)) == Of(!lt)
      && Eval(eng, Numeric(NEQL, x, u), VNum(y)) == Of(!eq)
  {
  }

  /** Times the same, but that != panics. */
  lemma TimeLaws(eng: Engines, t: int, d: int, y: int)
    ensures Eval(eng, Time(LT, t), VTime(t - d)) == Of(d > 0)
    ensures Eval(eng, Time(GT, t), VTime(t + d)) == Of(d > 0)
    ensures Eval(eng, Time(EQL, t), VTime(t + d)) == Of(d == 0)
    ensures var lt, eq, gt := Eval(eng, Time(LT, t), VTime(y)).True?, Eval(eng, Time(EQL, t), VTime(y)).True?,
                              Eval(eng, Time(GT, t), VTime(y)).True?;
      && (if lt then !eq && !gt else eq == !gt)
      && Eval(eng, Time(LTE, t), VTime(y)) == Of(lt || eq)
      && Eval(eng, Time(GTE, t), VTime(y)) == Of(!lt)
      && Eval(eng, Time(NEQL, t), VTime(y)) == Panics
  {
  }

  /** Null, a Boolean and a string equality are each met by one value. */
  lemma LeafValues(eng: Engines, v: Value, b: bool, s: string)
    ensures Eval(eng, Null, v) == Of(v == VNull)
    ensures Eval(eng, Boolean(b), v) == Of(v == VBool(b))
    ensures Eval(eng, StringValue(Expression(StringEqual(s))), v) == Of(v == VStr(s))
  {
    StringIs(eng, s, v);
  }

  /** Of values of other kinds a value predicate is false. */
  lemma OtherKinds(eng: Engines, v: Value, np: Node)
    ensures !v.VNum? ==> Eval(eng, NumericValue(np), v) == False
    ensures !v.VStr? ==> Eval(eng, StringValue(np), v) == False
    ensures eng.toTime(v).None? ==> Eval(eng, TimeValue(np), v) == False
    ensures !v.VArr? ==> Eval(eng, Size(true, np), v) == False
    ensures !v.VObj? ==> Eval(eng, Size(false, np), v) == False
  {
  }

  lemma StringIs(eng: Engines, s: string, v: Value)
    ensures Eval(eng, StringValue(Expression(StringEqual(s))), v) == Of(v == VStr(s))
  {
    var n := Expression(StringEqual(s));
    assert Eval(eng, StringValue(n), v) == if v.VStr? then Eval(eng, n, v) else False;
    assert Eval(eng, n, v) == Eval(eng, n.matched, v);
  }

  /*** Literal forms ***/

  // Whether y op x, for the operators' words.
  predicate ByWord(word: string, y: real, x: real)
  {
    (word == "<" && x - y > 0.0) || (word == "<=" && x - y >= 0.0) || (word == ">" && y - x > 0.0)
    || (word == ">=" && y - x >= 0.0) || (word == "=" && y - x == 0.0) || (word == "!=" && y - x != 0.0)
  }

  predicate IsWord(word: string) {
    word == "<" || word == "<=" || word == ">" || word == ">=" || word == "=" || word == "!="
  }

  // The operand of a comparison, as a number or as the text of one.
  predicate Denotes(eng: Engines, operand: Value, x: real) {
    operand == VNum(x) || (operand.VStr? && eng.parseDecimal(operand.s) == Some(x))
  }

  lemma WordOf(word: string)
    requires IsWord(word)
    ensures ParseOp(word).Some?
    ensures forall eng: Engines, y: real, x: real, u: bool ::
      Eval(eng, Numeric(ParseOp(word).value, x, u), VNum(y)) == Of(ByWord(word, y, x))
    ensures word != "!=" ==> forall eng: Engines, y: int, x: int ::
      Eval(eng, Time(ParseOp(word).value, x), VTime(y)) == Of(ByWord(word, y as real, x as real))
  {
    assert |"<"| == 1 && |">"| == 1 && |"="| == 1 && |"<="| == 2 && |">="| == 2 && |"!="| == 2;
    assert "<"[0] == '<' && ">"[0] == '>' && "="[0] == '=' && "<="[0] == '<' && ">="[0] == '>' && "!="[0] == '!';
  }

  /** A comparison as it is written: ["<", 5] holds of the numbers below 5, and so on; the operand may
      be a text that is a decimal. */
  lemma ReadsComparison(eng: Engines, word: string, operand: Value, x: real, y: real)
    requires IsWord(word) && Denotes(eng, operand, x)
    ensures var r := UnmarshalNPE(eng, NumericP, VArr([VStr(word), operand]));
      r.Ok? && Eval(eng, r.node, VNum(y)) == Of(ByWord(word, y, x))
  {
    var input := VArr([VStr(word), operand]);
    WordOf(word);
    assert input.elems[0] == VStr(word) && input.elems[1] == operand;
    var m := Numeric(ParseOp(word).value, x, false);
    assert UnmarshalAtom(eng, NumericP, input) == Ok(m);
    assert NPEAlternatives(eng, NumericP, input)[1] == UnmarshalAtom(eng, NumericP, input);
    PickNPE(eng, NumericP, input, 1, m);
    assert Eval(eng, Expression(m), VNum(y)) == Eval(eng, m, VNum(y));
  }

  lemma ReadsTimeComparison(eng: Engines, word: string, operand: Value, y: int)
    requires IsWord(word) && word != "!=" && eng.toTime(operand).Some?
    ensures var r := UnmarshalNPE(eng, TimeP, VArr([VStr(word), operand]));
      r.Ok? && Eval(eng, r.node, VTime(y)) == Of(ByWord(word, y as real, eng.toTime(operand).value as real))
  {
    var input := VArr([VStr(word), operand]);
    WordOf(word);
    assert input.elems[0] == VStr(word) && input.elems[1] == operand;
    var m := Time(ParseOp(word).value, eng.toTime(operand).value);
    assert UnmarshalAtom(eng, TimeP, input) == Ok(m);
    assert NPEAlternatives(eng, TimeP, input)[1] == UnmarshalAtom(eng, TimeP, input);
    PickNPE(eng, TimeP, input, 1, m);
    assert Eval(eng, Expression(m), VTime(y)) == Eval(eng, m, VTime(y));
  }

  lemma ReadAtom(eng: Engines, t: PType, input: Value, m: Node)
    requires UnmarshalAtom(eng, t, input) == Ok(m)
    ensures UnmarshalNPE(eng, t, input) == Ok(Expression(m))
  {
    assert NPEAlternatives(eng, t, input)[1] == UnmarshalAtom(eng, t, input);
    PickNPE(eng, t, input, 1, m);
  }

  // What is read is an expression.
  lemma ReadIsExpression(eng: Engines, t: PType, input: Value)
    requires UnmarshalNPE(eng, t, input).Ok?
    ensures UnmarshalNPE(eng, t, input).node.Expression?
  {
  }

  /** ["AND", a, b] is met by what meets both, ["OR", a, b] by what meets one of them, ["NOT", a] by
      what does not meet a. */
  lemma ReadsConnectives(eng: Engines, t: PType, a: Value, b: Value, v: Value)
    requires UnmarshalNPE(eng, t, a).Ok? && UnmarshalNPE(eng, t, b).Ok?
    ensures var m, n := UnmarshalNPE(eng, t, a).node, UnmarshalNPE(eng, t, b).node;
      var and, or := UnmarshalNPE(eng, t, VArr([VStr("AND"), a, b])), UnmarshalNPE(eng, t, VArr([VStr("OR"), a, b]));
      var not := UnmarshalNPE(eng, t, VArr([VStr("NOT"), a]));
      && and.Ok? && (Satisfies(eng, and.node, v) <==> Satisfies(eng, m, v) && Satisfies(eng, n, v))
      && or.Ok? && (Satisfies(eng, or.node, v) <==> Satisfies(eng, m, v) || Satisfies(eng, n, v))
      && not.Ok? && (Satisfies(eng, not.node, v) <==> !Satisfies(eng, m, v))
  {
    ReadIsExpression(eng, t, a);
    ReadIsExpression(eng, t, b);
    var p, q := UnmarshalNPE(eng, t, a).node.matched, UnmarshalNPE(eng, t, b).node.matched;
    BinOpRoundTrip(eng, t, true, a, b, p, q);
    BinOpRoundTrip(eng, t, false, a, b, p, q);
    NotRoundTrip(eng, t, a, p);
    hide UnmarshalNPE;
    SatisfiesMatched(eng, And(p, q), v);
    SatisfiesMatched(eng, Or(p, q), v);
    SatisfiesMatched(eng, Not(p), v);
  }

  /** null, true and false are met by themselves. */
  lemma ReadsConstants(eng: Engines, b: bool, v: Value)
    ensures var none, truth := UnmarshalNPE(eng, ValueP, VNull), UnmarshalNPE(eng, ValueP, VBool(b));
      && none.Ok? && (Satisfies(eng, none.node, v) <==> v == VNull)
      && truth.Ok? && (Satisfies(eng, truth.node, v) <==> v == VBool(b))
  {
    PickValue(eng, VNull, 1, Null);
    ReadAtom(eng, ValueP, VNull, Null);
    PickValue(eng, VBool(b), 2, Boolean(b));
    ReadAtom(eng, ValueP, VBool(b), Boolean(b));
    hide UnmarshalNPE, UnmarshalAtom;
    SatisfiesMatched(eng, Null, v);
    SatisfiesMatched(eng, Boolean(b), v);
  }

  /** ["number", e] is met by the numbers that meet e, ["time", e] by what is a time that does, and
      ["string", e] by the strings that do. */
  lemma ReadsLeaf(eng: Engines, t: PType, e: Value, v: Value)
    requires (t.NumericP? || t.TimeP? || t.StringP?) && UnmarshalNPE(eng, t, e).Ok?
    ensures var n := UnmarshalNPE(eng, t, e).node;
      var word := if t.NumericP? then "number" else if t.TimeP? then "time" else "string";
      var r := UnmarshalNPE(eng, ValueP, VArr([VStr(word), e]));
      && r.Ok?
      && (Satisfies(eng, r.node, v) <==>
           if t.NumericP? then v.VNum? && Satisfies(eng, n, v)
           else if t.TimeP? then eng.toTime(v).Some? && Satisfies(eng, n, VTime(eng.toTime(v).value))
           else v.VStr? && Satisfies(eng, n, v))
  {
    var n := UnmarshalNPE(eng, t, e).node;
    var i := if t.NumericP? then 3 else if t.TimeP? then 4 else 5;
    var input := VArr([VStr(["number", "time", "string"][i - 3]), e]);
    LeafValueRoundTrip(eng, t, i, e, n);
    ReadAtom(eng, ValueP, input, Leaf(t, n));
    hide UnmarshalNPE, UnmarshalAtom;
    assert Satisfies(eng, Expression(Leaf(t, n)), v) == Satisfies(eng, Leaf(t, n), v);
  }

  /** ["=", s] is met by s, ["glob", g] and ["regex", g] by what the libraries match. */
  lemma ReadsString(eng: Engines, s: string, v: Value)
    ensures var eq, glob, regex := UnmarshalNPE(eng, StringP, VArr([VStr("="), VStr(s)])),
        UnmarshalNPE(eng, StringP, VArr([VStr("glob"), VStr(s)])),
            UnmarshalNPE(eng, StringP, VArr([VStr("regex"), VStr(s)]));
      && eq.Ok? && (Satisfies(eng, eq.node, v) <==> v == VStr(s))
      && (eng.globOk(s) ==> glob.Ok? && (Satisfies(eng, glob.node, v) <==> v.VStr? && eng.globMatch(s, v.s)))
      && (eng.regexOk(s) ==> regex.Ok? && (Satisfies(eng, regex.node, v) <==> v.VStr? && eng.regexMatch(s, v.s)))
  {
    hide UnmarshalNPE, Satisfies;
    ReadsStringAs(eng, "=", s, StringEqual(s), v);
    if eng.globOk(s) { ReadsStringAs(eng, "glob", s, Glob(s), v); }
    if eng.regexOk(s) { ReadsStringAs(eng, "regex", s, Regex(s), v); }
    SatisfiesString(eng, s, v);
  }

  lemma SatisfiesString(eng: Engines, s: string, v: Value)
    ensures Satisfies(eng, StringEqual(s), v) <==> v == VStr(s)
    ensures Satisfies(eng, Glob(s), v) <==> v.VStr? && eng.globMatch(s, v.s)
    ensures Satisfies(eng, Regex(s), v) <==> v.VStr? && eng.regexMatch(s, v.s)
  {
  }

  lemma SatisfiesMatched(eng: Engines, m: Node, v: Value)
    ensures Satisfies(eng, Expression(m), v) == Satisfies(eng, m, v)
  {
  }

  lemma ReadsStringAs(eng: Engines, head: string, s: string, m: Node, v: Value)
    requires head == "=" || (head == "glob" && eng.globOk(s)) || (head == "regex" && eng.regexOk(s))
    requires m == if head == "=" then StringEqual(s) else if head == "glob" then Glob(s) else Regex(s)
    ensures var r := UnmarshalNPE(eng, StringP, VArr([VStr(head), VStr(s)]));
      r == Ok(Expression(m)) && Satisfies(eng, r.node, v) == Satisfies(eng, m, v)
  {
    SatisfiesMatched(eng, m, v);
    hide Satisfies;
    var input := VArr([VStr(head), VStr(s)]);
    assert input.elems[0] == VStr(head) && input.elems[1] == VStr(s);
    assert UnmarshalString(eng, head, input) == Ok(m);
    StringAlternativesApart(eng, input);
    ChooseUnique(StringAlternatives(eng, input), if head == "regex" then 0 else if head == "=" then 1 else 2);
    ReadAtom(eng, StringP, input, m);
  }

  lemma ReadsCollectionAs(eng: Engines, isArray: bool, v: Value, c: Node, i: nat)
    requires i < 2 && CollectionAlternatives(eng, isArray, v)[i] == Ok(c)
    ensures UnmarshalNPE(eng, ValueP, VArr([VStr(if isArray then "array" else "object"), v]))
         == Ok(Expression(if isArray then Array(c) else Object(c)))
  {
    CollectionAlternativesApart(eng, isArray, v);
    ChooseUnique(CollectionAlternatives(eng, isArray, v), i);
    CollectionValueRoundTrip(eng, isArray, v, c);
    ReadAtom(eng, ValueP, VArr([VStr(if isArray then "array" else "object"), v]), if isArray then Array(c)
             else Object(c));
  }

  /** ["array", ["size", e]] is met by arrays of which the number of elements meets e, and
      ["object", ["size", e]] by objects of which the number of keys does. */
  lemma ReadsSize(eng: Engines, isArray: bool, e: Value, v: Value)
    requires UnmarshalNPE(eng, UnsignedP, e).Ok?
    ensures var n := UnmarshalNPE(eng, UnsignedP, e).node;
      var r := UnmarshalNPE(eng, ValueP, VArr([VStr(if isArray then "array" else "object"), VArr([VStr("size"), e])]));
      && r.Ok?
      && (Satisfies(eng, r.node, v) <==>
           if isArray then v.VArr? && Satisfies(eng, n, VNum(|v.elems| as real))
           else v.VObj? && Satisfies(eng, n, VNum(|v.fields| as real)))
  {
    var n, inner := UnmarshalNPE(eng, UnsignedP, e).node, VArr([VStr("size"), e]);
    var c := Size(isArray, n);
    assert inner.elems[0] == VStr("size") && inner.elems[1] == e;
    assert UnmarshalSize(eng, isArray, inner) == Ok(c);
    assert CollectionAlternatives(eng, isArray, inner)[1] == UnmarshalSize(eng, isArray, inner);
    ReadsCollectionAs(eng, isArray, inner, c, 1);
    hide UnmarshalNPE;
    var m := if isArray then Array(c) else Object(c);
    assert Satisfies(eng, Expression(m), v) == Satisfies(eng, m, v) == Satisfies(eng, c, v);
  }

  /** ["object", [["key", k], e]] is met by objects of which the value under k, up to case, meets e. */
  lemma ReadsObject(eng: Engines, key: string, e: Value, v: Value)
    requires UnmarshalNPE(eng, ValueP, e).Ok?
    ensures var n := UnmarshalNPE(eng, ValueP, e).node;
      var r := UnmarshalNPE(eng, ValueP, VArr([VStr("object"), VArr([VArr([VStr("key"), VStr(key)]), e])]));
      && r.Ok?
      && (Satisfies(eng, r.node, v) ==> v.VObj? && exists k :: k in v.fields && eng.upper(k) == eng.upper(key))
      && (v.VObj? ==>
           forall k :: k in v.fields && OnlyMatch(eng, v.fields, key, k) ==>
             (Satisfies(eng, r.node, v) <==> Satisfies(eng, n, v.fields[k])))
  {
    var n, sel := UnmarshalNPE(eng, ValueP, e).node, VArr([VStr("key"), VStr(key)]);
    var inner, c := VArr([sel, e]), ObjectElement(key, n);
    assert inner.elems[0] == sel && inner.elems[1] == e && sel.elems[0] == VStr("key") && sel.elems[1] == VStr(key);
    assert UnmarshalObjectElement(eng, inner) == Ok(c);
    assert CollectionAlternatives(eng, false, inner)[0] == UnmarshalObjectElement(eng, inner);
    ReadsCollectionAs(eng, false, inner, c, 0);
    hide UnmarshalNPE;
    assert Satisfies(eng, Expression(Object(c)), v) == Satisfies(eng, Object(c), v) == Satisfies(eng, c, v);
  }

  predicate OnlyMatch(eng: Engines, fields: map<string, Value>, key: string, k: string) {
    eng.upper(k) == eng.upper(key) && forall j :: j in fields && eng.upper(j) == eng.upper(key) ==> j == k
  }

  /** ["array", [sel, e]]: "some" asks for an element that meets e, "all" that all do, a number i that
      the element at i does. */
  lemma ReadsArray(eng: Engines, e: Value, i: nat, v: Value)
    requires UnmarshalNPE(eng, ValueP, e).Ok?
    ensures var n := UnmarshalNPE(eng, ValueP, e).node;
      var some := UnmarshalNPE(eng, ValueP, VArr([VStr("array"), VArr([VStr("some"), e])]));
      var all := UnmarshalNPE(eng, ValueP, VArr([VStr("array"), VArr([VStr("all"), e])]));
      var at := UnmarshalNPE(eng, ValueP, VArr([VStr("array"), VArr([VNum(i as real), e])]));
      && some.Ok? && all.Ok? && at.Ok?
      && (Satisfies(eng, some.node, v) <==> v.VArr? && exists j :: 0 <= j < |v.elems| && Satisfies(eng, n, v.elems[j]))
      && (Satisfies(eng, all.node, v) <==> v.VArr? && forall j :: 0 <= j < |v.elems| ==> Satisfies(eng, n, v.elems[j]))
      && (Satisfies(eng, at.node, v) <==> v.VArr? && i < |v.elems| && Satisfies(eng, n, v.elems[i]))
  {
    var n := UnmarshalNPE(eng, ValueP, e).node;
    ReadsArrayAs(eng, VStr("some"), SomeOf, e, v);
    ReadsArrayAs(eng, VStr("all"), AllOf, e, v);
    ReadsArrayAs(eng, VNum(i as real), Index(i), e, v);
  }

  lemma ReadsArrayAs(eng: Engines, head: Value, sel: Selector, e: Value, v: Value)
    requires UnmarshalNPE(eng, ValueP, e).Ok?
    requires (head == VStr("some") && sel.SomeOf?) || (head == VStr("all") && sel.AllOf?)
          || (sel.Index? && head == VNum(sel.i as real))
    ensures var c := ArrayElement(sel, UnmarshalNPE(eng, ValueP, e).node);
      var r := UnmarshalNPE(eng, ValueP, VArr([VStr("array"), VArr([head, e])]));
      r == Ok(Expression(Array(c))) && Satisfies(eng, r.node, v) == Satisfies(eng, c, v)
  {
    var inner, c := VArr([head, e]), ArrayElement(sel, UnmarshalNPE(eng, ValueP, e).node);
    assert inner.elems[0] == head && inner.elems[1] == e;
    assert ParseSelector(head) == Some(Some(sel));
    assert UnmarshalArrayElement(eng, inner) == Ok(c);
    assert CollectionAlternatives(eng, true, inner)[0] == UnmarshalArrayElement(eng, inner);
    ReadsCollectionAs(eng, true, inner, c, 0);
    hide UnmarshalNPE;
    assert Satisfies(eng, Expression(Array(c)), v) == Satisfies(eng, Array(c), v) == Satisfies(eng, c, v);
  }
}
