/** From value predicates to schema predicates by way of representative values
    (api/rql/internal/primary/meta). */
module RqlSchema {
  import opened Options
  import opened RqlNodes

  datatype Kind = NullK | BoolK | NumK | StrK

  // The schemas of metadata: closed objects, arrays and primitives.
  datatype Schema =
    | Primitive(kind: Kind)
    | ArrayOf(items: Schema, minItems: nat)
    | ObjectOf(props: map<string, Schema>, required: set<string>, minProps: nat)

  predicate OfKind(k: Kind, v: Value) {
    match k
    case NullK => v.VNull?
    case BoolK => v.VBool?
    case NumK => v.VNum?
    case StrK => v.VStr?
  }

  // The schema validator.
  predicate Conforms(s: Schema, v: Value) {
    match s
    case Primitive(k) => OfKind(k, v)
    case ArrayOf(items, n) => v.VArr? && n <= |v.elems| && forall i :: 0 <= i < |v.elems| ==>
      Conforms(items, v.elems[i])
    case ObjectOf(props, required, n) =>
      && v.VObj? && n <= |v.fields| && required <= v.fields.Keys
      && forall k :: k in v.fields ==> k in props && Conforms(props[k], v.fields[k])
  }

  /*** Munging ***/

  ghost function PickProperty(eng: Engines, props: map<string, Schema>, u: string): string
    requires exists k :: k in props && eng.upper(k) == u
  {
    var k :| k in props && eng.upper(k) == u; k
  }

  /** NewValueSchema: upper-case the properties (keeping one of several that clash), drop the
      size constraints, and make every primitive null. */
  ghost function Munge(eng: Engines, s: Schema): Schema {
    match s
    case Primitive(_) => Primitive(NullK)
    case ArrayOf(items, _) => ArrayOf(Munge(eng, items), 0)
    case ObjectOf(props, _, _) =>
      ObjectOf(map u | u in (set k | k in props :: eng.upper(k)) :: Munge(eng, props[PickProperty(eng, props, u)]), {},
               0)
  }

  /*** Satisfying value schemas ***/

  datatype SVS =
    | Building(generate: Value -> Value)
    | Complete(representatives: seq<Value>)

  function NewSVS(): SVS {
    Building(v => v)
  }

  function AddObject(eng: Engines, svs: SVS, key: string): SVS
    requires svs.Building?
  {
    Building(v => svs.generate(VObj(map[eng.upper(key) := v])))
  }

  function AddArray(svs: SVS): SVS
    requires svs.Building?
  {
    Building(v => svs.generate(VArr([v])))
  }

  function EndsWith(svs: SVS, ends: seq<Value>): SVS
    requires svs.Building?
  {
    Complete(seq(|ends|, i requires 0 <= i < |ends| => svs.generate(ends[i])))
  }

  const PRIMITIVE_END: seq<Value> := [VNull]
  const OBJECT_END: seq<Value> := [VObj(map[])]
  const ARRAY_END: seq<Value> := [VArr([])]
  const ANY_END: seq<Value> := [VObj(map[]), VArr([]), VNull]

  predicate Supports(s: Schema, svs: SVS)
    requires svs.Complete?
  {
    exists v :: v in svs.representatives && Conforms(s, v)
  }

  /*** Schema predicates ***/

  function Max(a: nat, b: nat): nat {
    if a < b then b else a
  }

  // How deep the element predicates nest.
  function Depth(n: Node): nat {
    match n
    case Expression(m) => Depth(m)
    case And(p1, p2) => Max(Depth(p1), Depth(p2))
    case Or(p1, p2) => Max(Depth(p1), Depth(p2))
    case Not(p) => Depth(p)
    case Object(c) => Depth(c)
    case Array(c) => Depth(c)
    case ObjectElement(_, e) => 1 + Depth(e)
    case ArrayElement(_, e) => 1 + Depth(e)
    case _ => 0
  }

  lemma {:induction false} ReduceDepth(n: Node)
    requires Reducible(n)
    ensures Depth(Reduce(n)) == Depth(n)
    decreases Weight(n)
  {
    if n.And? || n.Or? {
      ReduceDepth(n.p1);
      ReduceDepth(n.p2);
    } else if n.Not? {
      var p := n.p;
      NotFacts(p);
      if p.Not? {
        ReduceDepth(p.p);
        assert Depth(p) == Depth(p.p);
      } else if p.And? || p.Or? {
        PushedFacts(p.p1, p.p2);
        assert Depth(Not(p.p1)) == Depth(p.p1) && Depth(Not(p.p2)) == Depth(p.p2);
        ReduceDepth(if p.And? then Or(Not(p.p1), Not(p.p2)) else And(Not(p.p1), Not(p.p2)));
      }
    }
  }

  // The reduced form of a matched tree is again matched, at the same depth.
  function Reduced(n: Node): (r: Node)
    requires IsNPE(ValueP, n)
    ensures IsMatched(ValueP, r) && IsReduced(r) && Depth(r) == Depth(n)
  {
    MatchedIsReducible(ValueP, n.matched);
    ReduceShape(ValueP, n.matched);
    ReduceDepth(n.matched);
    Reduce(n.matched)
  }

  /** The schema predicate an expression compiles to, applied to `s`. */
  predicate SchemaExpr(eng: Engines, n: Node, svs: SVS, s: Schema)
    requires IsNPE(ValueP, n) && svs.Building?
    decreases Depth(n), 1, n
  {
    SchemaPredicate(eng, Reduced(n), svs, s)
  }

  predicate SchemaPredicate(eng: Engines, m: Node, svs: SVS, s: Schema)
    requires IsMatched(ValueP, m) && svs.Building?
    decreases Depth(m), 0, m
  {
    if m.And? then SchemaPredicate(eng, m.p1, svs, s) && SchemaPredicate(eng, m.p2, svs, s)
    else if m.Or? then SchemaPredicate(eng, m.p1, svs, s) || SchemaPredicate(eng, m.p2, svs, s)
    else if m.Not? then Supports(s, EndsWith(svs, ANY_END))
    else if m.Object? || m.Array? then
      var c := m.c;
      if c.Size? then Supports(s, EndsWith(svs, if c.isArray then ARRAY_END else OBJECT_END))
      else
        assert Depth(c) == 1 + Depth(c.e);
        SchemaExpr(eng, c.e, if m.Object? then AddObject(eng, svs, c.key) else AddArray(svs), s)
    else Supports(s, EndsWith(svs, PRIMITIVE_END))
  }

  /*** The schema, walked directly ***/

  /** What the schema predicate is meant to say: follow the predicate down the schema. */
  ghost predicate AcceptsExpr(eng: Engines, n: Node, s: Schema)
    requires IsNPE(ValueP, n)
    decreases Depth(n), 1, n
  {
    Accepts(eng, Reduced(n), s)
  }

  ghost predicate Accepts(eng: Engines, m: Node, s: Schema)
    requires IsMatched(ValueP, m)
    decreases Depth(m), 0, m
  {
    if m.And? then Accepts(eng, m.p1, s) && Accepts(eng, m.p2, s)
    else if m.Or? then Accepts(eng, m.p1, s) || Accepts(eng, m.p2, s)
    else if m.Not? then true
    else if m.Object? || m.Array? then
      var c := m.c;
      if c.Size? then if c.isArray then s.ArrayOf? else s.ObjectOf?
      else
        assert Depth(c) == 1 + Depth(c.e);
        var below := Descend(eng, s, if m.Object? then Key(c.key) else Elem);
        below.Some? && AcceptsExpr(eng, c.e, below.value)
    else s.Primitive?
  }

  // A context: the keys and array steps above a leaf.
  datatype Step = Key(name: string) | Elem

  function Wrap(eng: Engines, path: seq<Step>, v: Value): Value
    decreases |path|
  {
    if path == [] then v
    else
      var last := path[|path| - 1];
      Wrap(eng, path[..|path| - 1], if last.Key? then VObj(map[eng.upper(last.name) := v]) else VArr([v]))
  }

  ghost function Navigate(eng: Engines, s: Schema, path: seq<Step>): Option<Schema>
    decreases |path|
  {
    if path == [] then Some(s)
    else
      var up := Navigate(eng, s, path[..|path| - 1]);
      if up.None? then None else Descend(eng, up.value, path[|path| - 1])
  }

  ghost function Descend(eng: Engines, s: Schema, step: Step): Option<Schema> {
    match step
    case Elem => if s.ArrayOf? then Some(s.items) else None
    case Key(name) =>
      if s.ObjectOf? && exists k :: k in s.props && eng.upper(k) == eng.upper(name)
      then Some(s.props[PickProperty(eng, s.props, eng.upper(name))]) else None
  }

  // One step: a wrapped value conforms to the munged schema just when the inner value
  // conforms to the munged schema one step down.
  lemma StepConforms(eng: Engines, s: Schema, step: Step, v: Value)
    ensures Conforms(Munge(eng, s), if step.Key? then VObj(map[eng.upper(step.name) := v]) else VArr([v]))
       <==> Descend(eng, s, step).Some? && Conforms(Munge(eng, Descend(eng, s, step).value), v)
  {
    match step
    case Elem =>
      var w := VArr([v]);
      if s.ArrayOf? { assert w.elems[0] == v; }
    case Key(name) =>
      var u := eng.upper(name);
      var w := VObj(map[u := v]);
      if s.ObjectOf? {
        assert w.fields[u] == v;
        assert u in Munge(eng, s).props <==> exists k :: k in s.props && eng.upper(k) == u;
      }
  }

  /** A wrapped value conforms to the munged schema exactly when its context leads somewhere
      in the schema and the inner value conforms there. */
  lemma {:induction false} WrapConforms(eng: Engines, s: Schema, path: seq<Step>, v: Value)
    ensures Conforms(Munge(eng, s), Wrap(eng, path, v))
       <==> Navigate(eng, s, path).Some? && Conforms(Munge(eng, Navigate(eng, s, path).value), v)
    decreases |path|
  {
    if path != [] {
      var init, last := path[..|path| - 1], path[|path| - 1];
      WrapConforms(eng, s, init, if last.Key? then VObj(map[eng.upper(last.name) := v]) else VArr([v]));
      if Navigate(eng, s, init).Some? { StepConforms(eng, Navigate(eng, s, init).value, last, v); }
    }
  }

  /*** The representative values decide exactly what the walk decides ***/

  // `svs` is the context `path`.
  ghost predicate IsContext(eng: Engines, svs: SVS, path: seq<Step>) {
    svs.Building? && forall v :: svs.generate(v) == Wrap(eng, path, v)
  }

  lemma ContextGrows(eng: Engines, svs: SVS, path: seq<Step>, key: string)
    requires IsContext(eng, svs, path)
    ensures IsContext(eng, AddObject(eng, svs, key), path + [Key(key)])
    ensures IsContext(eng, AddArray(svs), path + [Elem])
  {
    assert (path + [Key(key)])[..|path|] == path && (path + [Elem])[..|path|] == path;
  }

  lemma NavigateGrows(eng: Engines, s: Schema, path: seq<Step>, step: Step)
    ensures Navigate(eng, s, path + [step])
         == if Navigate(eng, s, path).None? then None else Descend(eng, Navigate(eng, s, path).value, step)
  {
    assert (path + [step])[..|path|] == path;
  }

  lemma SupportsExact(eng: Engines, s: Schema, svs: SVS, path: seq<Step>, ends: seq<Value>)
    requires IsContext(eng, svs, path)
    ensures Supports(Munge(eng, s), EndsWith(svs, ends))
       <==> Navigate(eng, s, path).Some? &&
            exists i :: 0 <= i < |ends| && Conforms(Munge(eng, Navigate(eng, s, path).value), ends[i])
  {
    var reps := EndsWith(svs, ends).representatives;
    forall i | 0 <= i < |ends|
      ensures Conforms(Munge(eng, s), reps[i])
         <==> Navigate(eng, s, path).Some? && Conforms(Munge(eng, Navigate(eng, s, path).value), ends[i])
    {
      WrapConforms(eng, s, path, ends[i]);
    }
    if v :| v in reps && Conforms(Munge(eng, s), v) {
      var i :| 0 <= i < |reps| && reps[i] == v;
    }
    if i :| 0 <= i < |ends| && Conforms(Munge(eng, s), reps[i]) {
      assert reps[i] in reps;
    }
  }

  lemma EndsExact(eng: Engines, s: Schema)
    ensures Conforms(Munge(eng, s), VNull) <==> s.Primitive?
    ensures Conforms(Munge(eng, s), VObj(map[])) <==> s.ObjectOf?
    ensures Conforms(Munge(eng, s), VArr([])) <==> s.ArrayOf?
  {
  }

  /** In any context, the compiled predicate holds of the munged schema exactly when the
      context leads somewhere and the direct walk accepts what is there. */
  lemma {:induction false} SchemaPredicateExact(eng: Engines, m: Node, svs: SVS, path: seq<Step>, s: Schema)
    requires IsMatched(ValueP, m) && IsContext(eng, svs, path)
    ensures SchemaPredicate(eng, m, svs, Munge(eng, s))
       <==> Navigate(eng, s, path).Some? && Accepts(eng, m, Navigate(eng, s, path).value)
    decreases Depth(m), 1, m
  {
    if m.And? || m.Or? {
      SchemaPredicateExact(eng, m.p1, svs, path, s);
      SchemaPredicateExact(eng, m.p2, svs, path, s);
    } else if (m.Object? || m.Array?) && !m.c.Size? {
      ElementExact(eng, m, svs, path, s);
    } else {
      var ends := if m.Not? then ANY_END
                  else if m.Object? || m.Array? then (if m.c.isArray then ARRAY_END else OBJECT_END)
                  else PRIMITIVE_END;
      SupportsExact(eng, s, svs, path, ends);
      LeafExact(eng, m, Navigate(eng, s, path), ends);
    }
  }

  lemma LeafExact(eng: Engines, m: Node, at: Option<Schema>, ends: seq<Value>)
    requires IsMatched(ValueP, m) && !m.And? && !m.Or? && ((m.Object? || m.Array?) ==> m.c.Size?)
    requires ends == if m.Not? then ANY_END
                     else if m.Object? || m.Array? then (if m.c.isArray then ARRAY_END else OBJECT_END)
                     else PRIMITIVE_END
    ensures at.Some? ==>
      ((exists i :: 0 <= i < |ends| && Conforms(Munge(eng, at.value), ends[i])) <==> Accepts(eng, m, at.value))
  {
    if at.Some? {
      EndsExact(eng, at.value);
      assert ANY_END[0] == OBJECT_END[0] == VObj(map[]);
      assert ANY_END[1] == ARRAY_END[0] == VArr([]);
      assert ANY_END[2] == PRIMITIVE_END[0] == VNull;
      var i := if at.value.ObjectOf? then 0 else if at.value.ArrayOf? then 1 else 2;
      if m.Not? { assert Conforms(Munge(eng, at.value), ends[i]); } else { assert |ends| == 1; }
    }
  }

  lemma {:induction false} ElementExact(eng: Engines, m: Node, svs: SVS, path: seq<Step>, s: Schema)
    requires IsMatched(ValueP, m) && IsContext(eng, svs, path) && (m.Object? || m.Array?) && !m.c.Size?
    ensures SchemaPredicate(eng, m, svs, Munge(eng, s))
       <==> Navigate(eng, s, path).Some? && Accepts(eng, m, Navigate(eng, s, path).value)
    decreases Depth(m), 0, m
  {
    var c := m.c;
    assert Depth(c) == 1 + Depth(c.e);
    var step := if m.Object? then Key(c.key) else Elem;
    var svs1 := if m.Object? then AddObject(eng, svs, c.key) else AddArray(svs);
    ContextGrows(eng, svs, path, if m.Object? then c.key else "");
    NavigateGrows(eng, s, path, step);
    SchemaPredicateExact(eng, Reduced(c.e), svs1, path + [step], s);
    assert SchemaPredicate(eng, m, svs, Munge(eng, s)) == SchemaExpr(eng, c.e, svs1, Munge(eng, s));
  }

  /** EvalValueSchema, without the panic on an empty key, is the direct walk of the schema. */
  lemma EvalValueSchemaExact(eng: Engines, n: Node, s: Schema)
    requires IsNPE(ValueP, n)
    ensures SchemaExpr(eng, n, NewSVS(), Munge(eng, s)) <==> AcceptsExpr(eng, n, s)
  {
    SchemaPredicateExact(eng, Reduced(n), NewSVS(), [], s);
  }

  /*** Soundness ***/

  // svs.AddObject panics on an empty key, wherever the reduced predicate reaches one.
  predicate EmptyKeyPanics(m: Node)
    requires IsMatched(ValueP, m)
    decreases Depth(m), m
  {
    if m.And? || m.Or? then EmptyKeyPanics(m.p1) || EmptyKeyPanics(m.p2)
    else if (m.Object? || m.Array?) && !m.c.Size? then
      assert Depth(m.c) == 1 + Depth(m.c.e);
      (m.Object? && m.c.key == "") || EmptyKeyPanics(Reduced(m.c.e))
    else false
  }

  ghost function EvalValueSchema(eng: Engines, n: Node, s: Schema): Verdict
    requires IsNPE(ValueP, n)
  {
    if EmptyKeyPanics(Reduced(n)) then Panics else Of(SchemaExpr(eng, n, NewSVS(), Munge(eng, s)))
  }

  // Property names differ by more than case.
  ghost predicate DistinctKeys(eng: Engines, s: Schema) {
    match s
    case Primitive(_) => true
    case ArrayOf(items, _) => DistinctKeys(eng, items)
    case ObjectOf(props, _, _) =>
      && (forall j, k :: j in props && k in props && eng.upper(j) == eng.upper(k) ==> j == k)
      && forall k :: k in props ==> DistinctKeys(eng, props[k])
  }

  /*** The schemas that matter to an operand ***/

  // k arrays around a schema.
  function Nested(k: nat, inner: Schema): Schema {
    if k == 0 then inner else ArrayOf(Nested(k - 1, inner), 0)
  }

  const SOME_PRIMITIVE := Primitive(NullK)
  const EMPTY_OBJECT := ObjectOf(map[], {}, 0)

  /** The operand holds on its 2 * (Depth(e) + 2) skeletons: arrays around a primitive or
      around an object without properties. This much can be computed. */
  predicate AcceptsSkeletons(eng: Engines, e: Node)
    requires IsNPE(ValueP, e)
  {
    forall k :: 0 <= k <= Depth(e) + 1 ==>
      && SchemaExpr(eng, e, NewSVS(), Nested(k, SOME_PRIMITIVE))
      && SchemaExpr(eng, e, NewSVS(), Nested(k, EMPTY_OBJECT))
  }

  ghost predicate AcceptsEverySchema(eng: Engines, e: Node)
    requires IsNPE(ValueP, e)
  {
    forall t :: AcceptsExpr(eng, e, t)
  }

  // What the outermost d + 1 levels of a schema say when no object has a property.
  function Shell(s: Schema, d: nat): Schema
    decreases d
  {
    if s.Primitive? then SOME_PRIMITIVE
    else if s.ObjectOf? then EMPTY_OBJECT
    else if d == 0 then ArrayOf(SOME_PRIMITIVE, 0)
    else ArrayOf(Shell(s.items, d - 1), 0)
  }

  lemma {:induction false} ShellIsSkeleton(s: Schema, d: nat) returns (k: nat, inner: Schema)
    ensures k <= d + 1 && (inner == SOME_PRIMITIVE || inner == EMPTY_OBJECT)
    ensures Shell(s, d) == Nested(k, inner)
  {
    if s.Primitive? {
      k, inner := 0, SOME_PRIMITIVE;
    } else if s.ObjectOf? {
      k, inner := 0, EMPTY_OBJECT;
    } else if d == 0 {
      k, inner := 1, SOME_PRIMITIVE;
      assert Nested(1, inner) == ArrayOf(Nested(0, inner), 0);
    } else {
      k, inner := ShellIsSkeleton(s.items, d - 1);
      k := k + 1;
    }
  }

  // A predicate sees no deeper than its depth, and properties can only help it.
  lemma {:induction false} ShellSuffices(eng: Engines, m: Node, s: Schema, d: nat)
    requires IsMatched(ValueP, m) && Depth(m) <= d && Accepts(eng, m, Shell(s, d))
    ensures Accepts(eng, m, s)
    decreases Depth(m), m
  {
    if m.And? {
      ShellSuffices(eng, m.p1, s, d);
      ShellSuffices(eng, m.p2, s, d);
    } else if m.Or? {
      if Accepts(eng, m.p1, Shell(s, d)) { ShellSuffices(eng, m.p1, s, d); } else { ShellSuffices(eng, m.p2, s, d); }
    } else if (m.Object? || m.Array?) && !m.c.Size? {
      assert Depth(m.c) == 1 + Depth(m.c.e);
      assert m.Array? && Descend(eng, Shell(s, d), Elem).Some?;
      ShellSuffices(eng, Reduced(m.c.e), s.items, d - 1);
    }
  }

  lemma {:induction false} NestedIsMunged(eng: Engines, k: nat, inner: Schema)
    requires inner == SOME_PRIMITIVE || inner == EMPTY_OBJECT
    ensures Munge(eng, Nested(k, inner)) == Nested(k, inner) && DistinctKeys(eng, Nested(k, inner))
  {
    if k > 0 {
      NestedIsMunged(eng, k - 1, inner);
    } else if inner == EMPTY_OBJECT {
      assert Munge(eng, EMPTY_OBJECT).props == map[];
    }
  }

  // What the code says of a skeleton is what the walk says.
  lemma SkeletonExact(eng: Engines, e: Node, k: nat, inner: Schema)
    requires IsNPE(ValueP, e) && (inner == SOME_PRIMITIVE || inner == EMPTY_OBJECT)
    ensures SchemaExpr(eng, e, NewSVS(), Nested(k, inner)) <==> AcceptsExpr(eng, e, Nested(k, inner))
  {
    NestedIsMunged(eng, k, inner);
    EvalValueSchemaExact(eng, e, Nested(k, inner));
  }

  /** An operand accepts every schema exactly when it accepts its skeletons. */
  lemma SkeletonsDecide(eng: Engines, e: Node)
    requires IsNPE(ValueP, e)
    ensures AcceptsEverySchema(eng, e) <==> AcceptsSkeletons(eng, e)
  {
    if AcceptsSkeletons(eng, e) {
      forall t ensures AcceptsExpr(eng, e, t) {
        var k, inner := ShellIsSkeleton(t, Depth(e));
        SkeletonExact(eng, e, k, inner);
        ShellSuffices(eng, Reduced(e), t, Depth(e));
      }
    }
    if AcceptsEverySchema(eng, e) {
      forall k: nat ensures SchemaExpr(eng, e, NewSVS(), Nested(k, SOME_PRIMITIVE))
          && SchemaExpr(eng, e, NewSVS(), Nested(k, EMPTY_OBJECT)) {
        SkeletonExact(eng, e, k, SOME_PRIMITIVE);
        SkeletonExact(eng, e, k, EMPTY_OBJECT);
      }
    }
  }

  // The evaluation never asks `all` of an empty array, unless the operand accepts every schema.
  ghost predicate NoHarmfulAll(eng: Engines, n: Node, v: Value) {
    match n
    case Expression(m) => NoHarmfulAll(eng, m, v)
    case And(p1, p2) => NoHarmfulAll(eng, p1, v) && NoHarmfulAll(eng, p2, v)
    case Or(p1, p2) => NoHarmfulAll(eng, p1, v) && NoHarmfulAll(eng, p2, v)
    case Not(p) => NoHarmfulAll(eng, p, v)
    case Object(c) => NoHarmfulAll(eng, c, v)
    case Array(c) => NoHarmfulAll(eng, c, v)
    case ObjectElement(key, e) =>
      v.VObj? && MatchingKey(eng, v.fields, key).Some? ==>
        NoHarmfulAll(eng, e, v.fields[MatchingKey(eng, v.fields, key).value])
    case ArrayElement(sel, e) =>
      || (IsNPE(ValueP, e) && AcceptsSkeletons(eng, e))
      || (v.VArr? ==>
            (sel.AllOf? ==> v.elems != []) && forall i :: 0 <= i < |v.elems| ==> NoHarmfulAll(eng, e, v.elems[i]))
    case _ => true
  }

  // Times are read from primitives only (munge.ToTime).
  ghost predicate TimesArePrimitive(eng: Engines) {
    forall v :: eng.toTime(v).Some? ==> !v.VArr? && !v.VObj?
  }

  lemma {:induction false} ReduceNoHarmfulAll(eng: Engines, n: Node, v: Value)
    requires Reducible(n) && NoHarmfulAll(eng, n, v)
    ensures NoHarmfulAll(eng, Reduce(n), v)
    decreases Weight(n)
  {
    if n.And? || n.Or? {
      ReduceNoHarmfulAll(eng, n.p1, v);
      ReduceNoHarmfulAll(eng, n.p2, v);
    } else if n.Not? {
      var p := n.p;
      NotFacts(p);
      if p.Not? {
        assert NoHarmfulAll(eng, p.p, v) by { assert NoHarmfulAll(eng, p, v); }
        ReduceNoHarmfulAll(eng, p.p, v);
      } else if p.And? || p.Or? {
        PushedFacts(p.p1, p.p2);
        assert NoHarmfulAll(eng, p, v);
        assert NoHarmfulAll(eng, Not(p.p1), v) && NoHarmfulAll(eng, Not(p.p2), v);
        ReduceNoHarmfulAll(eng, if p.And? then Or(Not(p.p1), Not(p.p2)) else And(Not(p.p1), Not(p.p2)), v);
      }
    }
  }

  lemma {:induction false} SomeHolds(eng: Engines, e: Node, vs: seq<Value>) returns (i: nat)
    requires EvalSome(eng, e, vs).True?
    ensures i < |vs| && Eval(eng, e, vs[i]).True?
    decreases |vs|
  {
    if Eval(eng, e, vs[0]).True? {
      i := 0;
    } else {
      i := SomeHolds(eng, e, vs[1..]);
      i := i + 1;
    }
  }

  // A satisfied array element predicate holds of some element.
  lemma ElementHolds(eng: Engines, c: Node, v: Value) returns (i: nat)
    requires c.ArrayElement? && Eval(eng, c, v).True? && (c.sel.AllOf? && v.VArr? ==> v.elems != [])
    ensures v.VArr? && i < |v.elems| && Eval(eng, c.e, v.elems[i]).True?
  {
    match c.sel
    case Index(k) => i := k;
    case SomeOf => i := SomeHolds(eng, c.e, v.elems);
    case AllOf => i := 0;
  }

  lemma ReducedHolds(eng: Engines, n: Node, v: Value)
    requires IsNPE(ValueP, n) && Eval(eng, n, v).True? && NoHarmfulAll(eng, n, v)
    ensures Eval(eng, Reduced(n), v).True? && NoHarmfulAll(eng, Reduced(n), v)
  {
    MatchedIsReducible(ValueP, n.matched);
    ReduceMeaning(eng, n.matched, v);
    ReduceNoHarmfulAll(eng, n.matched, v);
  }

  // A value that satisfies the predicate is found by the direct walk of its schema.
  lemma {:induction false} AcceptsSound(eng: Engines, m: Node, v: Value, s: Schema)
    requires TimesArePrimitive(eng) && IsMatched(ValueP, m) && DistinctKeys(eng, s) && Conforms(s, v)
    requires Eval(eng, m, v).True? && NoHarmfulAll(eng, m, v)
    ensures Accepts(eng, m, s)
    decreases Depth(m), m
  {
    if m.And? {
      AcceptsSound(eng, m.p1, v, s);
      AcceptsSound(eng, m.p2, v, s);
    } else if m.Or? {
      if Eval(eng, m.p1, v).True? { AcceptsSound(eng, m.p1, v, s); } else { AcceptsSound(eng, m.p2, v, s); }
    } else if (m.Object? || m.Array?) && !m.c.Size? {
      var c := m.c;
      assert Depth(c) == 1 + Depth(c.e);
      assert Eval(eng, c, v).True? && NoHarmfulAll(eng, c, v);
      if m.Object? {
        var k := MatchingKey(eng, v.fields, c.key).value;
        assert s.ObjectOf? && k in s.props;
        assert PickProperty(eng, s.props, eng.upper(c.key)) == k;
        ReducedHolds(eng, c.e, v.fields[k]);
        AcceptsSound(eng, Reduced(c.e), v.fields[k], s.props[k]);
      } else if AcceptsSkeletons(eng, c.e) {
        SkeletonsDecide(eng, c.e);
        assert Descend(eng, s, Elem) == Some(s.items);
      } else {
        var i := ElementHolds(eng, c, v);
        ReducedHolds(eng, c.e, v.elems[i]);
        AcceptsSound(eng, Reduced(c.e), v.elems[i], s.items);
      }
    } else if m.Object? || m.Array? {
      assert Eval(eng, m.c, v).True?;
    }
  }

  /** Soundness: when a value conforms to a schema and satisfies the predicate, evaluating
      the predicate on the schema says yes (or hits the empty-key panic). */
  lemma EvalValueSchemaSound(eng: Engines, n: Node, v: Value, s: Schema)
    requires TimesArePrimitive(eng) && IsNPE(ValueP, n) && DistinctKeys(eng, s) && Conforms(s, v)
    requires Eval(eng, n, v).True? && NoHarmfulAll(eng, n, v)
    ensures EvalValueSchema(eng, n, s) == if EmptyKeyPanics(Reduced(n)) then Panics else True
  {
    ReducedHolds(eng, n, v);
    AcceptsSound(eng, Reduced(n), v, s);
    EvalValueSchemaExact(eng, n, s);
  }

  /** Without that condition soundness fails: "all elements are null" holds of [], which
      conforms to a schema of arrays of objects, and the schema predicate says no. */
  lemma AllOfNothingRejected(eng: Engines)
    ensures var n, s := Expression(Array(ArrayElement(AllOf, Expression(Null)))), ArrayOf(ObjectOf(map[], {}, 0), 0);
      && Conforms(s, VArr([])) && Eval(eng, n, VArr([])).True? && DistinctKeys(eng, s)
      && EvalValueSchema(eng, n, s) == False
  {
    var c := ArrayElement(AllOf, Expression(Null));
    var n, s := Expression(Array(c)), ArrayOf(ObjectOf(map[], {}, 0), 0);
    assert Eval(eng, c, VArr([])).True?;
    assert Eval(eng, Array(c), VArr([])).True?;
    EvalValueSchemaExact(eng, n, s);
    assert Reduced(n) == Array(c) && Reduced(c.e) == Null;
    assert !Accepts(eng, Null, s.items);
    assert !AcceptsExpr(eng, c.e, s.items);
    assert !Accepts(eng, Array(c), s);
  }

  ghost predicate SoundOn(eng: Engines, m: Node, v: Value, s: Schema)
    requires IsMatched(ValueP, m)
  {
    DistinctKeys(eng, s) && Conforms(s, v) && Eval(eng, m, v).True? ==> Accepts(eng, m, s)
  }

  ghost predicate SoundEverywhere(eng: Engines, m: Node)
    requires IsMatched(ValueP, m)
  {
    forall v, s :: SoundOn(eng, m, v, s)
  }

  // A predicate asked of some element or of the value of a key, step after step.
  function Below(path: seq<Step>, m: Node): (r: Node)
    requires IsMatched(ValueP, m)
    ensures IsMatched(ValueP, r)
  {
    if path == [] then m
    else if path[0].Key? then Object(ObjectElement(path[0].name, Expression(Below(path[1..], m))))
    else Array(ArrayElement(SomeOf, Expression(Below(path[1..], m))))
  }

  function AllBelow(path: seq<Step>, e: Node): (r: Node)
    requires IsNPE(ValueP, e)
    ensures IsMatched(ValueP, r) && (r.Object? || r.Array?)
  {
    Below(path, Array(ArrayElement(AllOf, e)))
  }

  // The empty array at the end of a path, and a schema of it.
  function EmptyArrayAt(path: seq<Step>): Value {
    if path == [] then VArr([])
    else if path[0].Key? then VObj(map[path[0].name := EmptyArrayAt(path[1..])])
    else VArr([EmptyArrayAt(path[1..])])
  }

  function ArrayAt(path: seq<Step>, t: Schema): Schema {
    if path == [] then ArrayOf(t, 0)
    else if path[0].Key? then ObjectOf(map[path[0].name := ArrayAt(path[1..], t)], {}, 0)
    else ArrayOf(ArrayAt(path[1..], t), 0)
  }

  lemma {:induction false} EmptyArrayConforms(eng: Engines, path: seq<Step>, t: Schema)
    requires DistinctKeys(eng, t)
    ensures Conforms(ArrayAt(path, t), EmptyArrayAt(path)) && DistinctKeys(eng, ArrayAt(path, t))
  {
    if path != [] { EmptyArrayConforms(eng, path[1..], t); }
  }

  lemma {:induction false} EmptyArrayHolds(eng: Engines, path: seq<Step>, e: Node)
    requires IsNPE(ValueP, e)
    ensures Eval(eng, AllBelow(path, e), EmptyArrayAt(path)).True?
  {
    var m, v := AllBelow(path, e), EmptyArrayAt(path);
    if path == [] {
      assert Eval(eng, m.c, v).True?;
    } else {
      EmptyArrayHolds(eng, path[1..], e);
      assert Eval(eng, m.c.e, EmptyArrayAt(path[1..])).True?;
      if path[0].Key? {
        assert path[0].name in v.fields;
        assert Eval(eng, m.c, v).True?;
      } else {
        assert EvalSome(eng, m.c.e, v.elems).True?;
        assert Eval(eng, m.c, v).True?;
      }
    }
  }

  lemma {:induction false} AcceptedAtEnd(eng: Engines, path: seq<Step>, e: Node, t: Schema)
    requires IsNPE(ValueP, e) && Accepts(eng, AllBelow(path, e), ArrayAt(path, t))
    ensures AcceptsExpr(eng, e, t)
  {
    var s := ArrayAt(path, t);
    if path == [] {
      assert Descend(eng, s, Elem) == Some(t);
    } else {
      assert Descend(eng, s, path[0]) == Some(ArrayAt(path[1..], t)) by {
        if path[0].Key? { assert path[0].name in s.props; }
      }
      AcceptedAtEnd(eng, path[1..], e, t);
    }
  }

  // Down one step of the path, in the predicate, the value and the schema.
  lemma SoundBelowKey(eng: Engines, key: string, m: Node, v: Value, s: Schema)
    requires IsMatched(ValueP, m) && (m.Object? || m.Array?) && forall w, t :: SoundOn(eng, m, w, t)
    ensures SoundOn(eng, Object(ObjectElement(key, Expression(m))), v, s)
  {
    var c := ObjectElement(key, Expression(m));
    if DistinctKeys(eng, s) && Conforms(s, v) && Eval(eng, Object(c), v).True? {
      assert Eval(eng, c, v).True?;
      var k := MatchingKey(eng, v.fields, key).value;
      assert Eval(eng, c.e, v.fields[k]).True?;
      assert SoundOn(eng, m, v.fields[k], s.props[k]);
      assert PickProperty(eng, s.props, eng.upper(key)) == k;
      assert Descend(eng, s, Key(key)) == Some(s.props[k]);
      assert AcceptsExpr(eng, c.e, s.props[k]);
    }
  }

  lemma SoundBelowElem(eng: Engines, m: Node, v: Value, s: Schema)
    requires IsMatched(ValueP, m) && (m.Object? || m.Array?) && forall w, t :: SoundOn(eng, m, w, t)
    ensures SoundOn(eng, Array(ArrayElement(SomeOf, Expression(m))), v, s)
  {
    var c := ArrayElement(SomeOf, Expression(m));
    if DistinctKeys(eng, s) && Conforms(s, v) && Eval(eng, Array(c), v).True? {
      assert Eval(eng, c, v).True?;
      var i := SomeHolds(eng, c.e, v.elems);
      assert SoundOn(eng, m, v.elems[i], s.items);
      assert Descend(eng, s, Elem) == Some(s.items);
      assert AcceptsExpr(eng, c.e, s.items);
    }
  }

  lemma {:induction false} OperandCoversAll(eng: Engines, path: seq<Step>, e: Node, v: Value, s: Schema)
    requires IsNPE(ValueP, e) && AcceptsEverySchema(eng, e)
    ensures SoundOn(eng, AllBelow(path, e), v, s)
  {
    hide Eval, Conforms, Accepts;
    if path == [] {
      OperandCoversOne(eng, e, v, s);
    } else {
      var m := AllBelow(path[1..], e);
      forall w, t ensures SoundOn(eng, m, w, t) { OperandCoversAll(eng, path[1..], e, w, t); }
      if path[0].Key? { SoundBelowKey(eng, path[0].name, m, v, s); } else { SoundBelowElem(eng, m, v, s); }
    }
  }

  lemma OperandCoversOne(eng: Engines, e: Node, v: Value, s: Schema)
    requires IsNPE(ValueP, e) && AcceptsEverySchema(eng, e)
    ensures SoundOn(eng, AllBelow([], e), v, s)
  {
    var c := ArrayElement(AllOf, e);
    if Conforms(s, v) && Eval(eng, Array(c), v).True? {
      assert Eval(eng, c, v).True?;
      assert Descend(eng, s, Elem) == Some(s.items);
    }
  }

  /** An `all` predicate, alone or at the end of a path of keys and elements, is sound on every
      value and schema exactly when its operand accepts its skeletons. */
  lemma AllSoundIff(eng: Engines, path: seq<Step>, e: Node)
    requires IsNPE(ValueP, e)
    ensures SoundEverywhere(eng, AllBelow(path, e)) <==> AcceptsSkeletons(eng, e)
  {
    SkeletonsDecide(eng, e);
    if SoundEverywhere(eng, AllBelow(path, e)) {
      forall k: nat, inner | inner == SOME_PRIMITIVE || inner == EMPTY_OBJECT
        ensures SchemaExpr(eng, e, NewSVS(), Nested(k, inner))
      {
        SoundAtSkeleton(eng, path, e, k, inner);
      }
    }
    if AcceptsSkeletons(eng, e) {
      forall v, s ensures SoundOn(eng, AllBelow(path, e), v, s) { OperandCoversAll(eng, path, e, v, s); }
    }
  }

  lemma SoundAtSkeleton(eng: Engines, path: seq<Step>, e: Node, k: nat, inner: Schema)
    requires IsNPE(ValueP, e) && (inner == SOME_PRIMITIVE || inner == EMPTY_OBJECT)
    requires SoundEverywhere(eng, AllBelow(path, e))
    ensures SchemaExpr(eng, e, NewSVS(), Nested(k, inner))
  {
    var t := Nested(k, inner);
    NestedIsMunged(eng, k, inner);
    EmptyArrayConforms(eng, path, t);
    EmptyArrayHolds(eng, path, e);
    assert SoundOn(eng, AllBelow(path, e), EmptyArrayAt(path), ArrayAt(path, t));
    AcceptedAtEnd(eng, path, e, t);
    SkeletonExact(eng, e, k, inner);
  }

  /*** The parts of a predicate ***/

  lemma ReduceParts(p: Node, q: Node)
    requires Reducible(p) && Reducible(q)
    ensures Reducible(And(p, q)) && Reduce(And(p, q)) == And(Reduce(p), Reduce(q))
    ensures Reducible(Or(p, q)) && Reduce(Or(p, q)) == Or(Reduce(p), Reduce(q))
  {
  }

  lemma ReducePushed(p: Node, q: Node)
    requires Reducible(p) && Reducible(q)
    ensures Reducible(Not(p)) && Reducible(Not(q))
    ensures Reducible(Not(And(p, q))) && Reduce(Not(And(p, q))) == Or(Reduce(Not(p)), Reduce(Not(q)))
    ensures Reducible(Not(Or(p, q))) && Reduce(Not(Or(p, q))) == And(Reduce(Not(p)), Reduce(Not(q)))
  {
    NotFacts(p);
    NotFacts(q);
    PushedFacts(p, q);
    ReduceParts(Not(p), Not(q));
    assert Reducible(And(p, q)) && Reducible(Or(p, q));
  }

  lemma ReduceTwice(p: Node)
    requires Reducible(p)
    ensures Reducible(Not(Not(p))) && Reduce(Not(Not(p))) == Reduce(p)
  {
    NotFacts(p);
    NotFacts(Not(p));
  }

  lemma ReducedIs(n: Node)
    requires IsMatched(ValueP, n)
    ensures Reducible(n) && Reduced(Expression(n)) == Reduce(n)
  {
    MatchedIsReducible(ValueP, n);
  }

  /** On a schema AND asks both of its operands, and OR one of them, ... */
  lemma SchemaConnectives(eng: Engines, p: Node, q: Node, svs: SVS, s: Schema)
    requires IsMatched(ValueP, p) && IsMatched(ValueP, q) && svs.Building?
    ensures var a, b := SchemaExpr(eng, Expression(p), svs, s), SchemaExpr(eng, Expression(q), svs, s);
      && (SchemaExpr(eng, Expression(And(p, q)), svs, s) <==> a && b)
      && (SchemaExpr(eng, Expression(Or(p, q)), svs, s) <==> a || b)
  {
    assert IsMatched(ValueP, And(p, q)) && IsMatched(ValueP, Or(p, q));
    ReducedIs(p);
    ReducedIs(q);
    ReducedIs(And(p, q));
    ReducedIs(Or(p, q));
    ReduceParts(p, q);
    hide IsMatched, Reduced, Reduce, Reducible;
  }

  /** ... and NOT moves inwards. */
  lemma SchemaNegations(eng: Engines, p: Node, q: Node, svs: SVS, s: Schema)
    requires IsMatched(ValueP, p) && IsMatched(ValueP, q) && svs.Building?
    ensures IsMatched(ValueP, Not(p)) && IsMatched(ValueP, Not(q)) && IsMatched(ValueP, Not(Not(p)))
    ensures IsMatched(ValueP, Not(And(p, q))) && IsMatched(ValueP, Not(Or(p, q)))
    ensures var a, b := SchemaExpr(eng, Expression(Not(p)), svs, s), SchemaExpr(eng, Expression(Not(q)), svs, s);
      && (SchemaExpr(eng, Expression(Not(And(p, q))), svs, s) <==> a || b)
      && (SchemaExpr(eng, Expression(Not(Or(p, q))), svs, s) <==> a && b)
    ensures SchemaExpr(eng, Expression(Not(Not(p))), svs, s) <==> SchemaExpr(eng, Expression(p), svs, s)
  {
    assert IsMatched(ValueP, And(p, q)) && IsMatched(ValueP, Or(p, q)) && IsMatched(ValueP, Not(p));
    ReducedIs(p);
    ReducedIs(q);
    ReducedIs(Not(p));
    ReducedIs(Not(q));
    ReducedIs(Not(Not(p)));
    ReducedIs(Not(And(p, q)));
    ReducedIs(Not(Or(p, q)));
    ReducePushed(p, q);
    ReduceTwice(p);
    hide Reduced, Reduce, Reducible;
  }

  lemma {:induction false} NavigateFirst(eng: Engines, s: Schema, path: seq<Step>)
    requires path != []
    ensures var next := Descend(eng, s, path[0]);
      Navigate(eng, s, path) == if next.None? then None else Navigate(eng, next.value, path[1..])
    decreases |path|
  {
    var init, last := path[..|path| - 1], path[|path| - 1];
    if init != [] {
      NavigateFirst(eng, s, init);
      assert init[1..] == path[1..][..|path| - 2] && init[0] == path[0];
    }
  }

  /** A predicate below a path of keys and elements accepts a schema exactly when the path leads
      somewhere in it and the predicate accepts what is there. */
  lemma {:induction false} PathAccepts(eng: Engines, path: seq<Step>, m: Node, s: Schema)
    requires IsMatched(ValueP, m) && IsAtom(m)
    ensures var at := Navigate(eng, s, path);
      Accepts(eng, Below(path, m), s) <==> at.Some? && Accepts(eng, m, at.value)
    decreases |path|
  {
    if path != [] {
      NavigateFirst(eng, s, path);
      var inner, next := Below(path[1..], m), Descend(eng, s, path[0]);
      BelowIsReduced(path[1..], m);
      if next.Some? {
        PathAccepts(eng, path[1..], m, next.value);
        assert AcceptsExpr(eng, Expression(inner), next.value) == Accepts(eng, inner, next.value);
      }
    }
  }

  lemma BelowIsReduced(path: seq<Step>, m: Node)
    requires IsMatched(ValueP, m) && IsAtom(m)
    ensures Reduced(Expression(Below(path, m))) == Below(path, m)
  {
  }

  /** A leaf, or its negation, accepts a schema by its kind alone. */
  lemma LeafAccepts(eng: Engines, m: Node, s: Schema)
    requires IsMatched(ValueP, m) && IsAtom(m)
    ensures Accepts(eng, Not(m), s)
    ensures !m.Object? && !m.Array? ==> (Accepts(eng, m, s) <==> s.Primitive?)
    ensures m.Object? && m.c.Size? ==> (Accepts(eng, m, s) <==> s.ObjectOf?)
    ensures m.Array? && m.c.Size? ==> (Accepts(eng, m, s) <==> s.ArrayOf?)
  {
  }

  /** NewValueSchema rewrites its argument in place; doing it again changes nothing. */
  lemma {:induction false} MungeTwice(eng: Engines, s: Schema)
    requires forall k :: eng.upper(eng.upper(k)) == eng.upper(k)
    ensures Munge(eng, Munge(eng, s)) == Munge(eng, s)
  {
    match s
    case Primitive(_) =>
    case ArrayOf(items, _) => MungeTwice(eng, items);
    case ObjectOf(props, _, _) =>
      var once := Munge(eng, s);
      var twice := Munge(eng, once);
      forall u | u in once.props ensures u in twice.props && twice.props[u] == once.props[u] {
        var k :| k in props && eng.upper(k) == u;
        assert eng.upper(u) == u;
        var j := PickProperty(eng, once.props, u);
        assert j in once.props && eng.upper(j) == u && j == u;
        MungeTwice(eng, props[PickProperty(eng, props, u)]);
      }
      assert twice.props.Keys == once.props.Keys;
  }
}
