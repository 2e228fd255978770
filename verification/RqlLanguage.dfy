/** The JSON forms of RQL, each with the tree it is read as (api/rql/internal/predicate). */
module RqlLanguage {
  import opened Options
  import opened RqlNodes
  import opened RqlMarshal
  import opened RqlMeaning

  // A list of a word and one more value.
  predicate Pair(v: Value, head: Value) {
    v.VArr? && |v.elems| == 2 && v.elems[0] == head
  }

  predicate Word(op: CompareOp, word: string) {
    match op
    case LT => word == "<"
    case LTE => word == "<="
    case GT => word == ">"
    case GTE => word == ">="
    case EQL => word == "="
    case NEQL => word == "!="
  }

  // A list of an operator's word and an operand.
  predicate Comparison(v: Value, op: CompareOp) {
    v.VArr? && |v.elems| == 2 && v.elems[0].VStr? && Word(op, v.elems[0].s)
  }

  predicate SelectorForm(v: Value, sel: Selector) {
    match sel
    case SomeOf => v == VStr("some")
    case AllOf => v == VStr("all")
    case Index(i) => v.VNum? && v.x >= 0.0 && v.x.Floor == i
  }

  /** v is written for the tree n of an expression of type t. */
  predicate Written(eng: Engines, t: PType, v: Value, n: Node)
    decreases n
  {
    match n
    case And(p1, p2) =>
      && v.VArr? && |v.elems| == 3 && v.elems[0] == VStr("AND")
      && Written(eng, t, v.elems[1], p1) && Written(eng, t, v.elems[2], p2)
    case Or(p1, p2) =>
      && v.VArr? && |v.elems| == 3 && v.elems[0] == VStr("OR")
      && Written(eng, t, v.elems[1], p1) && Written(eng, t, v.elems[2], p2)
    case Not(p) => Pair(v, VStr("NOT")) && Written(eng, t, v.elems[1], p)
    case Null => t.ValueP? && v == VNull
    case Boolean(b) => t.ValueP? && v == VBool(b)
    case NumericValue(np) => t.ValueP? && Pair(v, VStr("number")) && WrittenExpr(eng, NumericP, v.elems[1], np)
    case TimeValue(tp) => t.ValueP? && Pair(v, VStr("time")) && WrittenExpr(eng, TimeP, v.elems[1], tp)
    case StringValue(sp) => t.ValueP? && Pair(v, VStr("string")) && WrittenExpr(eng, StringP, v.elems[1], sp)
    case Object(c) => t.ValueP? && Pair(v, VStr("object")) && WrittenCollection(eng, false, v.elems[1], c)
    case Array(c) => t.ValueP? && Pair(v, VStr("array")) && WrittenCollection(eng, true, v.elems[1], c)
    case Numeric(op, x, unsigned) =>
      && (if unsigned then t.UnsignedP? && x >= 0.0 else t.NumericP?)
      && Comparison(v, op) && Denotes(eng, v.elems[1], x)
    case Time(op, tm) => t.TimeP? && Comparison(v, op) && eng.toTime(v.elems[1]) == Some(tm)
    case Glob(g) => t.StringP? && Pair(v, VStr("glob")) && v.elems[1] == VStr(g) && eng.globOk(g)
    case Regex(g) => t.StringP? && Pair(v, VStr("regex")) && v.elems[1] == VStr(g) && eng.regexOk(g)
    case StringEqual(s) => t.StringP? && Pair(v, VStr("=")) && v.elems[1] == VStr(s)
    case _ => false
  }

  predicate WrittenExpr(eng: Engines, t: PType, v: Value, n: Node)
    decreases n
  {
    n.Expression? && Written(eng, t, v, n.matched)
  }

  predicate WrittenCollection(eng: Engines, isArray: bool, v: Value, c: Node)
    decreases c
  {
    match c
    case Size(forArray, np) => forArray == isArray && Pair(v, VStr("size"))
        && WrittenExpr(eng, UnsignedP, v.elems[1], np)
    case ObjectElement(key, e) =>
      !isArray && Pair(v, VArr([VStr("key"), VStr(key)])) && WrittenExpr(eng, ValueP, v.elems[1], e)
    case ArrayElement(sel, e) =>
      && isArray && v.VArr? && |v.elems| == 2 && SelectorForm(v.elems[0], sel)
      && WrittenExpr(eng, ValueP, v.elems[1], e)
    case _ => false
  }

  /*** What is written is read ***/

  lemma WordParses(op: CompareOp, word: string)
    ensures Word(op, word) <==> ParseOp(word) == Some(op)
  {
    assert |"<"| == 1 && |">"| == 1 && |"="| == 1 && |"<="| == 2 && |">="| == 2 && |"!="| == 2;
    assert "<"[0] == '<' && ">"[0] == '>' && "="[0] == '=' && "<="[0] == '<' && ">="[0] == '>' && "!="[0] == '!';
  }

  lemma ComparisonRead(eng: Engines, t: PType, v: Value, n: Node)
    requires (n.Numeric? || n.Time?) && Written(eng, t, v, n)
    ensures UnmarshalAtom(eng, t, v) == Ok(n)
  {
    WordParses(n.op, v.elems[0].s);
  }

  lemma StringRead(eng: Engines, v: Value, n: Node)
    requires (n.Glob? || n.Regex? || n.StringEqual?) && Written(eng, StringP, v, n)
    ensures UnmarshalAtom(eng, StringP, v) == Ok(n)
  {
    var i, head := if n.Regex? then 0 else if n.StringEqual? then 1 else 2,
      if n.Regex? then "regex" else if n.StringEqual? then "=" else "glob";
    assert UnmarshalString(eng, head, v) == Ok(n);
    assert StringAlternatives(eng, v)[i] == UnmarshalString(eng, head, v);
    StringAlternativesApart(eng, v);
    ChooseUnique(StringAlternatives(eng, v), i);
  }

  lemma PairIs(v: Value, head: Value)
    requires Pair(v, head)
    ensures v == VArr([head, v.elems[1]])
  {
    assert v.elems == [head, v.elems[1]];
  }

  lemma TripleIs(v: Value, head: Value)
    requires v.VArr? && |v.elems| == 3 && v.elems[0] == head
    ensures v == VArr([head, v.elems[1], v.elems[2]])
  {
    assert v.elems == [head, v.elems[1], v.elems[2]];
  }

  lemma {:induction false} WrittenIsRead(eng: Engines, t: PType, v: Value, n: Node)
    requires Written(eng, t, v, n)
    ensures UnmarshalNPE(eng, t, v) == Ok(Expression(n))
    decreases n, 1
  {
    if n.And? || n.Or? {
      WrittenIsRead(eng, t, v.elems[1], n.p1);
      WrittenIsRead(eng, t, v.elems[2], n.p2);
      TripleIs(v, VStr(if n.And? then "AND" else "OR"));
      BinOpRoundTrip(eng, t, n.And?, v.elems[1], v.elems[2], n.p1, n.p2);
    } else if n.Not? {
      WrittenIsRead(eng, t, v.elems[1], n.p);
      PairIs(v, VStr("NOT"));
      NotRoundTrip(eng, t, v.elems[1], n.p);
    } else {
      AtomIsRead(eng, t, v, n);
      ReadAtom(eng, t, v, n);
    }
  }

  lemma {:induction false} AtomIsRead(eng: Engines, t: PType, v: Value, n: Node)
    requires Written(eng, t, v, n) && !n.And? && !n.Or? && !n.Not?
    ensures UnmarshalAtom(eng, t, v) == Ok(n)
    decreases n, 0
  {
    if n.Null? {
      PickValue(eng, VNull, 1, n);
    } else if n.Boolean? {
      PickValue(eng, v, 2, n);
    } else if n.NumericValue? {
      WrittenIsRead(eng, NumericP, v.elems[1], n.np.matched);
      PairIs(v, VStr("number"));
      LeafValueRoundTrip(eng, NumericP, 3, v.elems[1], n.np);
    } else if n.TimeValue? {
      WrittenIsRead(eng, TimeP, v.elems[1], n.tp.matched);
      PairIs(v, VStr("time"));
      LeafValueRoundTrip(eng, TimeP, 4, v.elems[1], n.tp);
    } else if n.StringValue? {
      WrittenIsRead(eng, StringP, v.elems[1], n.sp.matched);
      PairIs(v, VStr("string"));
      LeafValueRoundTrip(eng, StringP, 5, v.elems[1], n.sp);
    } else if n.Object? || n.Array? {
      CollectionIsRead(eng, n.Array?, v.elems[1], n.c);
      PairIs(v, VStr(if n.Array? then "array" else "object"));
      CollectionValueRoundTrip(eng, n.Array?, v.elems[1], n.c);
    } else if n.Numeric? || n.Time? {
      ComparisonRead(eng, t, v, n);
    } else {
      StringRead(eng, v, n);
    }
  }

  lemma {:induction false} CollectionIsRead(eng: Engines, isArray: bool, v: Value, c: Node)
    requires WrittenCollection(eng, isArray, v, c)
    ensures Choose(CollectionAlternatives(eng, isArray, v)) == Ok(c)
    decreases c, 2
  {
    var rs := CollectionAlternatives(eng, isArray, v);
    CollectionAlternativesApart(eng, isArray, v);
    if c.Size? {
      WrittenIsRead(eng, UnsignedP, v.elems[1], c.np.matched);
      assert rs[1] == UnmarshalSize(eng, isArray, v);
      ChooseUnique(rs, 1);
    } else {
      WrittenIsRead(eng, ValueP, v.elems[1], c.e.matched);
      if isArray { SelectorRead(v.elems[0], c.sel); }
      assert rs[0] == if isArray then UnmarshalArrayElement(eng, v) else UnmarshalObjectElement(eng, v);
      ChooseUnique(rs, 0);
    }
  }

  lemma SelectorRead(v: Value, sel: Selector)
    ensures SelectorForm(v, sel) <==> ParseSelector(v) == Some(Some(sel))
  {
  }

  /*** What is read is written ***/

  lemma AtomIsAtom(eng: Engines, t: PType, v: Value)
    ensures var r := UnmarshalAtom(eng, t, v); r.Ok? ==> IsAtom(r.node)
  {
    if t.ValueP? {
      ChooseIsMember(ValueAlternatives(eng, v));
      ValueKinds(eng, v);
    } else if t.StringP? {
      ChooseIsMember(StringAlternatives(eng, v));
    }
  }

  // The alternative that gave a node.
  lemma ReadFrom(eng: Engines, t: PType, v: Value, m: Node)
    requires UnmarshalNPE(eng, t, v) == Ok(Expression(m))
    ensures if m.And? then UnmarshalBinOp(eng, t, true, v) == Ok(m)
            else if m.Or? then UnmarshalBinOp(eng, t, false, v) == Ok(m)
            else if m.Not? then UnmarshalNot(eng, t, v) == Ok(m)
            else UnmarshalAtom(eng, t, v) == Ok(m)
  {
    var rs := NPEAlternatives(eng, t, v);
    ChooseIsMember(rs);
    AtomIsAtom(eng, t, v);
    assert rs[1] == UnmarshalAtom(eng, t, v) && rs[2] == UnmarshalNot(eng, t, v);
    assert rs[0] == UnmarshalBinOp(eng, t, false, v) && rs[3] == UnmarshalBinOp(eng, t, true, v);
    var i :| 0 <= i < 4 && rs[i] == Ok(m);
  }

  lemma BinOpForm(eng: Engines, t: PType, isAnd: bool, v: Value, p1: Node, p2: Node)
    requires UnmarshalBinOp(eng, t, isAnd, v) == Ok(if isAnd then And(p1, p2) else Or(p1, p2))
    ensures v.VArr? && |v.elems| == 3 && v.elems[0] == VStr(if isAnd then "AND" else "OR")
  {
  }

  lemma NotForm(eng: Engines, t: PType, v: Value, p: Node)
    requires UnmarshalNot(eng, t, v) == Ok(Not(p))
    ensures Pair(v, VStr("NOT")) && UnmarshalNPE(eng, t, v.elems[1]) == Ok(Expression(p))
  {
  }

  lemma ComparisonForm(eng: Engines, t: PType, v: Value, n: Node)
    requires t.NumericP? || t.UnsignedP? || t.TimeP?
    requires UnmarshalAtom(eng, t, v) == Ok(n)
    ensures Written(eng, t, v, n)
  {
    WordParses(n.op, v.elems[0].s);
  }

  lemma StringForm(eng: Engines, v: Value, n: Node)
    requires UnmarshalAtom(eng, StringP, v) == Ok(n)
    ensures Written(eng, StringP, v, n)
  {
    ChooseIsMember(StringAlternatives(eng, v));
  }

  // A value predicate that was read: a constant, a leaf or a collection.
  lemma ValueForm(eng: Engines, v: Value, n: Node)
    requires UnmarshalAtom(eng, ValueP, v) == Ok(n)
    ensures n.Null? || n.Boolean? || n.NumericValue? || n.TimeValue? || n.StringValue? || n.Object? || n.Array?
    ensures n.Null? ==> v == VNull
    ensures n.Boolean? ==> v == VBool(n.val)
    ensures n.NumericValue? ==> UnmarshalLeaf(eng, NumericP, "number", v) == Ok(n)
    ensures n.TimeValue? ==> UnmarshalLeaf(eng, TimeP, "time", v) == Ok(n)
    ensures n.StringValue? ==> UnmarshalLeaf(eng, StringP, "string", v) == Ok(n)
    ensures n.Object? || n.Array? ==> UnmarshalCollection(eng, n.Array?, v) == Ok(n)
  {
    var rs := ValueAlternatives(eng, v);
    ChooseIsMember(rs);
    ValueKinds(eng, v);
    assert rs[0] == UnmarshalCollection(eng, true, v) && rs[6] == UnmarshalCollection(eng, false, v);
    assert rs[3] == UnmarshalLeaf(eng, NumericP, "number", v) && rs[4] == UnmarshalLeaf(eng, TimeP, "time", v);
    assert rs[5] == UnmarshalLeaf(eng, StringP, "string", v);
    assert rs[1] == (if v.VNull? then Ok(Null) else MatchError);
    assert rs[2] == if v.VBool? then Ok(Boolean(v.b)) else MatchError;
    var i :| 0 <= i < 7 && rs[i] == Ok(n);
  }

  lemma LeafForm(eng: Engines, t: PType, head: string, v: Value, n: Node)
    requires (t.NumericP? || t.TimeP? || t.StringP?) && UnmarshalLeaf(eng, t, head, v) == Ok(Leaf(t, n))
    ensures Pair(v, VStr(head)) && UnmarshalNPE(eng, t, v.elems[1]) == Ok(n) && n.Expression?
  {
  }

  lemma CollectionForm(eng: Engines, isArray: bool, v: Value, c: Node)
    requires UnmarshalCollection(eng, isArray, v) == Ok(if isArray then Array(c) else Object(c))
    ensures Pair(v, VStr(if isArray then "array" else "object"))
    ensures Choose(CollectionAlternatives(eng, isArray, v.elems[1])) == Ok(c)
  {
  }

  // What was read of a collection predicate: a size or an element.
  lemma InnerForm(eng: Engines, isArray: bool, v: Value, c: Node)
    requires Choose(CollectionAlternatives(eng, isArray, v)) == Ok(c)
    ensures v.VArr? && |v.elems| == 2
    ensures c.Size? || c.ObjectElement? || c.ArrayElement?
    ensures c.Size? ==>
      c.isArray == isArray && Pair(v, VStr("size")) && UnmarshalNPE(eng, UnsignedP, v.elems[1]) == Ok(c.np)
    ensures c.ObjectElement? ==> !isArray && Pair(v, VArr([VStr("key"), VStr(c.key)]))
    ensures c.ArrayElement? ==> isArray && SelectorForm(v.elems[0], c.sel)
    ensures !c.Size? ==> UnmarshalNPE(eng, ValueP, v.elems[1]) == Ok(c.e)
  {
    var rs := CollectionAlternatives(eng, isArray, v);
    ChooseIsMember(rs);
    assert rs[0] == if isArray then UnmarshalArrayElement(eng, v) else UnmarshalObjectElement(eng, v);
    assert rs[1] == UnmarshalSize(eng, isArray, v);
    var i :| 0 <= i < 2 && rs[i] == Ok(c);
    if c.ArrayElement? {
      SelectorRead(v.elems[0], c.sel);
    } else if c.ObjectElement? {
      assert v.elems[0].elems == [VStr("key"), VStr(c.key)];
    }
  }

  lemma {:induction false} ReadIsWritten(eng: Engines, t: PType, v: Value, n: Node)
    requires UnmarshalNPE(eng, t, v) == Ok(Expression(n))
    ensures Written(eng, t, v, n)
    decreases v, 3
  {
    ReadFrom(eng, t, v, n);
    hide UnmarshalNPE;
    if n.And? || n.Or? {
      BinOpForm(eng, t, n.And?, v, n.p1, n.p2);
      BinOpParts(eng, t, n.And?, v, n.p1, n.p2);
      ReadIsWritten(eng, t, v.elems[1], n.p1);
      ReadIsWritten(eng, t, v.elems[2], n.p2);
    } else if n.Not? {
      NotForm(eng, t, v, n.p);
      ReadIsWritten(eng, t, v.elems[1], n.p);
    } else if t.ValueP? {
      ValueIsWritten(eng, v, n);
    } else if t.StringP? {
      StringForm(eng, v, n);
    } else {
      ComparisonForm(eng, t, v, n);
    }
  }

  lemma {:induction false} ValueIsWritten(eng: Engines, v: Value, n: Node)
    requires UnmarshalAtom(eng, ValueP, v) == Ok(n)
    ensures Written(eng, ValueP, v, n)
    decreases v, 2
  {
    ValueForm(eng, v, n);
    hide UnmarshalNPE, UnmarshalAtom;
    if n.NumericValue? {
      LeafForm(eng, NumericP, "number", v, n.np);
      ReadIsWritten(eng, NumericP, v.elems[1], n.np.matched);
    } else if n.TimeValue? {
      LeafForm(eng, TimeP, "time", v, n.tp);
      ReadIsWritten(eng, TimeP, v.elems[1], n.tp.matched);
    } else if n.StringValue? {
      LeafForm(eng, StringP, "string", v, n.sp);
      ReadIsWritten(eng, StringP, v.elems[1], n.sp.matched);
    } else if n.Object? || n.Array? {
      CollectionForm(eng, n.Array?, v, n.c);
      CollectionIsWritten(eng, n.Array?, v.elems[1], n.c);
    }
  }

  lemma {:induction false} CollectionIsWritten(eng: Engines, isArray: bool, v: Value, c: Node)
    requires Choose(CollectionAlternatives(eng, isArray, v)) == Ok(c)
    ensures WrittenCollection(eng, isArray, v, c)
    decreases v, 4
  {
    InnerForm(eng, isArray, v, c);
    var t, n := if c.Size? then UnsignedP else ValueP, if c.Size? then c.np else c.e;
    ReadIsExpression(eng, t, v.elems[1]);
    hide UnmarshalNPE;
    ReadIsWritten(eng, t, v.elems[1], n.matched);
  }

  /** For every input and tree: the input is read as the tree exactly when it is written for it. In
      particular nothing else is accepted. */
  lemma ReadIff(eng: Engines, t: PType, v: Value, n: Node)
    ensures UnmarshalNPE(eng, t, v) == Ok(n) <==> WrittenExpr(eng, t, v, n)
  {
    if UnmarshalNPE(eng, t, v) == Ok(n) {
      ReadIsExpression(eng, t, v);
      ReadIsWritten(eng, t, v, n.matched);
    }
    if WrittenExpr(eng, t, v, n) { WrittenIsRead(eng, t, v, n.matched); }
  }
}
