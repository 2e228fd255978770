/** Finite directed graphs with ordered child lists, their walks and reachability. */
module Graph {

  type Graph<T> = map<T, seq<T>>

  ghost predicate Closed<T>(g: Graph<T>) {
    forall n, c :: n in g && c in g[n] ==> c in g
  }

  ghost predicate IsWalk<T>(g: Graph<T>, w: seq<T>) {
    && |w| > 0
    && w[0] in g
    && forall i :: 0 <= i < |w| - 1 ==> w[i] in g && w[i + 1] in g[w[i]]
  }

  ghost predicate Reaches<T(!new)>(g: Graph<T>, a: T, b: T) {
    exists w :: IsWalk(g, w) && w[0] == a && w[|w| - 1] == b
  }

  /** Some member of `goal` lies zero or more steps from `a`. */
  ghost predicate Leads<T(!new)>(g: Graph<T>, goal: set<T>, a: T) {
    exists b :: b in goal && Reaches(g, a, b)
  }

  lemma ReachesSelf<T(!new)>(g: Graph<T>, a: T)
    requires a in g
    ensures Reaches(g, a, a)
  {
    assert IsWalk(g, [a]);
  }

  lemma ReachesFromParent<T(!new)>(g: Graph<T>, a: T, c: T, b: T)
    requires a in g && c in g[a] && Reaches(g, c, b)
    ensures Reaches(g, a, b)
  {
    var w :| IsWalk(g, w) && w[0] == c && w[|w| - 1] == b;
    var u := [a] + w;
    forall i | 0 <= i < |u| - 1 ensures u[i] in g && u[i + 1] in g[u[i]] {
      if i > 0 { assert u[i] == w[i - 1] && u[i + 1] == w[i]; }
    }
    assert IsWalk(g, u);
  }

  lemma ReachesChild<T(!new)>(g: Graph<T>, a: T, b: T, c: T)
    requires Closed(g) && Reaches(g, a, b) && b in g && c in g[b]
    ensures Reaches(g, a, c)
  {
    var w :| IsWalk(g, w) && w[0] == a && w[|w| - 1] == b;
    var u := w + [c];
    forall i | 0 <= i < |u| - 1 ensures u[i] in g && u[i + 1] in g[u[i]] {
      if i < |w| - 1 { assert u[i] == w[i] && u[i + 1] == w[i + 1]; }
    }
    assert IsWalk(g, u);
  }

  lemma ReachesTransitive<T(!new)>(g: Graph<T>, a: T, b: T, c: T)
    requires Reaches(g, a, b) && Reaches(g, b, c)
    ensures Reaches(g, a, c)
  {
    var w :| IsWalk(g, w) && w[0] == a && w[|w| - 1] == b;
    WalkThen(g, w, c);
  }

  lemma {:induction false} WalkThen<T(!new)>(g: Graph<T>, w: seq<T>, c: T)
    requires IsWalk(g, w) && Reaches(g, w[|w| - 1], c)
    ensures Reaches(g, w[0], c)
  {
    if |w| > 1 {
      WalkTail(g, w);
      WalkThen(g, w[1..], c);
      ReachesFromParent(g, w[0], w[1], c);
    }
  }

  lemma WalkTail<T>(g: Graph<T>, w: seq<T>)
    requires IsWalk(g, w) && |w| > 1 && (|w| == 2 ==> w[1] in g || Closed(g))
    ensures IsWalk(g, w[1..])
  {
    assert w[0] in g && w[1] in g[w[0]];
    forall i | 0 <= i < |w[1..]| - 1 ensures w[1..][i] in g && w[1..][i + 1] in g[w[1..][i]] {
      assert w[i + 1] in g && w[i + 2] in g[w[i + 1]];
    }
  }

  /** What is closed under children and holds `a` holds everything `a` reaches. */
  lemma ClosedHoldsReachable<T(!new)>(g: Graph<T>, s: set<T>, a: T, b: T)
    requires a in s && forall n, c :: n in s && n in g && c in g[n] ==> c in s
    requires Reaches(g, a, b)
    ensures b in s
  {
    var w :| IsWalk(g, w) && w[0] == a && w[|w| - 1] == b;
    WalkStays(g, s, w, |w| - 1);
  }

  lemma {:induction false} WalkStays<T(!new)>(g: Graph<T>, s: set<T>, w: seq<T>, i: nat)
    requires IsWalk(g, w) && w[0] in s && i < |w|
    requires forall n, c :: n in s && n in g && c in g[n] ==> c in s
    ensures w[i] in s
  {
    if i > 0 { WalkStays(g, s, w, i - 1); }
  }

  /** A set that takes in every parent of its members takes in everything that leads to it. */
  lemma ParentsHoldLeading<T(!new)>(g: Graph<T>, s: set<T>, within: set<T>, a: T, b: T)
    requires a in within && forall n, c :: n in within && n in g && c in g[n] ==> c in within
    requires forall n, c :: n in within && n in g && c in g[n] && c in s ==> n in s
    requires Reaches(g, a, b) && b in s
    ensures a in s
  {
    var w :| IsWalk(g, w) && w[0] == a && w[|w| - 1] == b;
    WalkBack(g, s, within, w, 0);
  }

  lemma {:induction false} WalkBack<T(!new)>(g: Graph<T>, s: set<T>, within: set<T>, w: seq<T>, i: nat)
    requires IsWalk(g, w) && i < |w| && w[0] in within && w[|w| - 1] in s
    requires forall n, c :: n in within && n in g && c in g[n] ==> c in within
    requires forall n, c :: n in within && n in g && c in g[n] && c in s ==> n in s
    ensures w[i] in s
    decreases |w| - i
  {
    WalkStays(g, within, w, i);
    if i < |w| - 1 {
      WalkBack(g, s, within, w, i + 1);
    }
  }
}
