/** Runs of calls of the in-memory cache that get stuck or panic, and when there are any. */
module CacheRuns {
  import opened Options
  import opened MemCache
  import opened CacheDeadlocks

  /*** Runs of two calls ***/

  // Calls 1 and 2 at the given places, k's lock with call 1 if `locked`.
  function Two(c: Config, k: Key, p1: Pc, p2: Pc, readers: set<nat>, locked: bool, items: map<Key, Item>,
               expired: set<Key>, clock: nat): State {
    State(map[1 := p1, 2 := p2], items, expired, readers, if IsWriter(p1) then Some(1) else None,
          if locked then map[c.lockOf(k) := 1] else map[], map[], clock, [], false)
  }

  // Nobody is at work.
  function Quiet(c: Config, items: map<Key, Item>, expired: set<Key>, clock: nat): State {
    Two(c, "", Idle, Idle, {}, false, items, expired, clock)
  }

  ghost predicate StepsTo(c: Config, s: State, a: Action, s': State) {
    Enabled(c, s, a) && Apply(c, s, a) == s'
  }

  lemma Calls(c: Config, k: Key, items: map<Key, Item>, expired: set<Key>, n: nat)
    ensures StepsTo(c, Quiet(c, items, expired, n), Call(1, Get(k, false), None),
                    Two(c, k, Entering(Get(k, false)), Idle, {}, false, items, expired, n + 1))
  {
  }

  lemma Enters(c: Config, k: Key, items: map<Key, Item>, expired: set<Key>, n: nat)
    ensures StepsTo(c, Two(c, k, Entering(Get(k, false)), Idle, {}, false, items, expired, n), ReadLock(1),
                    Two(c, k, WantKey(k, false), Idle, {1}, false, items, expired, n + 1))
  {
  }

  lemma TakesKeyLock(c: Config, k: Key, items: map<Key, Item>, expired: set<Key>, n: nat)
    ensures StepsTo(c, Two(c, k, WantKey(k, false), Idle, {1}, false, items, expired, n), LockKey(1),
                    Two(c, k, Looking(k, false), Idle, {1}, true, items, expired, n + 1))
  {
  }

  lemma Misses(c: Config, k: Key, items: map<Key, Item>, expired: set<Key>, n: nat)
    requires k !in items
    ensures StepsTo(c, Two(c, k, Looking(k, false), Idle, {1}, true, items, expired, n), Lookup(1),
                    Two(c, k, Missed(k), Idle, {1}, true, items, expired, n + 1))
  {
  }

  lemma FindsRoom(c: Config, k: Key, items: map<Key, Item>, expired: set<Key>, n: nat)
    requires |items| + |expired| < c.limit
    ensures StepsTo(c, Two(c, k, Missed(k), Idle, {1}, true, items, expired, n), CheckLimit(1),
                    Two(c, k, Ready(k), Idle, {1}, true, items, expired, n + 1))
  {
  }

  lemma Begins(c: Config, k: Key, items: map<Key, Item>, expired: set<Key>, n: nat)
    ensures StepsTo(c, Two(c, k, Ready(k), Idle, {1}, true, items, expired, n), BeginGenerate(1),
                    Two(c, k, Generating(k, n), Idle, {1}, true, items, expired, n + 1))
  {
    assert map[1 := Ready(k), 2 := Idle][1 := Generating(k, n)] == map[1 := Generating(k, n), 2 := Idle];
  }

  lemma Ends(c: Config, k: Key, items: map<Key, Item>, expired: set<Key>, n: nat, start: nat)
    ensures StepsTo(c, Two(c, k, Generating(k, start), Idle, {1}, true, items, expired, n), EndGenerate(1, 0),
                    Two(c, k, Generated(k, Item(0, start)), Idle, {1}, true, items, expired, n + 1))
  {
    var s := Two(c, k, Generating(k, start), Idle, {1}, true, items, expired, n);
    assert Enabled(c, s, EndGenerate(1, 0));
    assert s.calls[1 := Generated(k, Item(0, start))] == map[1 := Generated(k, Item(0, start)), 2 := Idle];
  }

  lemma Stores(c: Config, k: Key, items: map<Key, Item>, n: nat, it: Item)
    ensures StepsTo(c, Two(c, k, Generated(k, it), Idle, {1}, true, items, {}, n), Store(1),
                    Two(c, k, Leaving(k), Idle, {1}, true, items[k := it], {}, n + 1))
  {
  }

  lemma ReleasesKey(c: Config, k: Key, items: map<Key, Item>, expired: set<Key>, n: nat)
    ensures StepsTo(c, Two(c, k, Leaving(k), Idle, {1}, true, items, expired, n), UnlockKey(1),
                    Two(c, k, KeyReleased, Idle, {1}, false, items, expired, n + 1))
  {
  }

  lemma Leaves(c: Config, k: Key, items: map<Key, Item>, expired: set<Key>, n: nat)
    ensures StepsTo(c, Two(c, k, KeyReleased, Idle, {1}, false, items, expired, n), ReadUnlock(1),
                    Quiet(c, items, expired, n + 1))
  {
    assert {1 as nat} - {1} == {};
  }

  // A second call, for the same key or another.
  lemma SecondCalls(c: Config, k: Key, l: Key, items: map<Key, Item>, n: nat)
    ensures StepsTo(c, Two(c, k, Missed(k), Idle, {1}, true, items, {}, n), Call(2, Get(l, false), None),
                    Two(c, k, Missed(k), Entering(Get(l, false)), {1}, true, items, {}, n + 1))
  {
  }

  lemma SecondEnters(c: Config, k: Key, l: Key, items: map<Key, Item>, n: nat)
    ensures StepsTo(c, Two(c, k, Missed(k), Entering(Get(l, false)), {1}, true, items, {}, n), ReadLock(2),
                    Two(c, k, Missed(k), WantKey(l, false), {1, 2}, true, items, {}, n + 1))
  {
    assert {1 as nat} + {2} == {1, 2};
  }

  lemma GivesUpReadLock(c: Config, k: Key, p2: Pc, readers: set<nat>, items: map<Key, Item>, expired: set<Key>, n: nat)
    requires c.limit > 0 && |items| + |expired| >= c.limit
    ensures StepsTo(c, Two(c, k, Missed(k), p2, readers, true, items, expired, n), CheckLimit(1),
                    Two(c, k, Dropped(k), p2, readers - {1}, true, items, expired, n + 1))
  {
  }

  lemma Announces(c: Config, k: Key, p2: Pc, readers: set<nat>, items: map<Key, Item>, expired: set<Key>, n: nat)
    ensures StepsTo(c, Two(c, k, Dropped(k), p2, readers, true, items, expired, n), Announce(1),
                    Two(c, k, Waiting(k), p2, readers, true, items, expired, n + 1))
  {
  }

  predicate Unaided(acts: seq<Action>) {
    forall i :: 0 <= i < |acts| ==> !Ambient(acts[i])
  }

  // A run and one more step.
  lemma Then(c: Config, calls: set<nat>, ss: seq<State>, acts: seq<Action>, a: Action, s': State)
    returns (ss': seq<State>, acts': seq<Action>)
    requires IsRun(c, calls, ss, acts) && StepsTo(c, ss[|ss| - 1], a, s')
    ensures IsRun(c, calls, ss', acts') && ss'[|ss'| - 1] == s'
    ensures Unaided(acts) && !Ambient(a) ==> Unaided(acts')
  {
    ss', acts' := ss + [s'], acts + [a];
    forall i | 0 <= i < |acts'| ensures StepsTo(c, ss'[i], acts'[i], ss'[i + 1]) {
      if i < |acts| { assert ss[i + 1] == Apply(c, ss[i], acts[i]); }
    }
  }

  function Nth(n: nat): Key { seq(n, _ => 'x') }

  ghost predicate EndsAt(c: Config, ss: seq<State>, acts: seq<Action>, s: State) {
    IsRun(c, {1, 2}, ss, acts) && ss[|ss| - 1] == s
  }

  lemma MissesFrom(c: Config, ss0: seq<State>, acts0: seq<Action>, k: Key, items: map<Key, Item>, expired: set<Key>,
                   n: nat)
    returns (ss: seq<State>, acts: seq<Action>)
    requires EndsAt(c, ss0, acts0, Quiet(c, items, expired, n)) && k !in items
    ensures EndsAt(c, ss, acts, Two(c, k, Missed(k), Idle, {1}, true, items, expired, n + 4))
    ensures Unaided(acts0) ==> Unaided(acts)
  {
    hide Two, Quiet, StepsTo, IsRun;
    Calls(c, k, items, expired, n);
    Enters(c, k, items, expired, n + 1);
    TakesKeyLock(c, k, items, expired, n + 2);
    Misses(c, k, items, expired, n + 3);
    ss, acts := Then(c, {1, 2}, ss0, acts0, Call(1, Get(k, false), None),
                     Two(c, k, Entering(Get(k, false)), Idle, {}, false, items, expired, n + 1));
    ss, acts := Then(c, {1, 2}, ss, acts, ReadLock(1),
                     Two(c, k, WantKey(k, false), Idle, {1}, false, items, expired, n + 2));
    ss, acts := Then(c, {1, 2}, ss, acts, LockKey(1),
                     Two(c, k, Looking(k, false), Idle, {1}, true, items, expired, n + 3));
    ss, acts := Then(c, {1, 2}, ss, acts, Lookup(1), Two(c, k, Missed(k), Idle, {1}, true, items, expired, n + 4));
  }

  lemma StoresOne(c: Config, ss0: seq<State>, acts0: seq<Action>, k: Key, items: map<Key, Item>, n: nat)
    returns (ss: seq<State>, acts: seq<Action>)
    requires EndsAt(c, ss0, acts0, Quiet(c, items, {}, n)) && k !in items && |items| < c.limit
    ensures EndsAt(c, ss, acts, Quiet(c, items[k := Item(0, n + 5)], {}, n + 10))
    ensures Unaided(acts0) ==> Unaided(acts)
  {
    hide Two, Quiet, StepsTo, IsRun;
    ss, acts := MissesFrom(c, ss0, acts0, k, items, {}, n);
    var it := Item(0, n + 5);
    var more := items[k := it];
    FindsRoom(c, k, items, {}, n + 4);
    Begins(c, k, items, {}, n + 5);
    Ends(c, k, items, {}, n + 6, n + 5);
    Stores(c, k, items, n + 7, it);
    ReleasesKey(c, k, more, {}, n + 8);
    Leaves(c, k, more, {}, n + 9);
    ss, acts := Then(c, {1, 2}, ss, acts, CheckLimit(1), Two(c, k, Ready(k), Idle, {1}, true, items, {}, n + 5));
    ss, acts := Then(c, {1, 2}, ss, acts, BeginGenerate(1),
                     Two(c, k, Generating(k, n + 5), Idle, {1}, true, items, {}, n + 6));
    ss, acts := Then(c, {1, 2}, ss, acts, EndGenerate(1, 0),
                     Two(c, k, Generated(k, it), Idle, {1}, true, items, {}, n + 7));
    ss, acts := Then(c, {1, 2}, ss, acts, Store(1), Two(c, k, Leaving(k), Idle, {1}, true, more, {}, n + 8));
    ss, acts := Then(c, {1, 2}, ss, acts, UnlockKey(1), Two(c, k, KeyReleased, Idle, {1}, false, more, {}, n + 9));
    ss, acts := Then(c, {1, 2}, ss, acts, ReadUnlock(1), Quiet(c, more, {}, n + 10));
  }

  // A run that stores n items under keys of lengths below n.
  lemma {:induction false} Fills(c: Config, n: nat)
    returns (ss: seq<State>, acts: seq<Action>, items: map<Key, Item>, clock: nat)
    requires n <= c.limit
    ensures EndsAt(c, ss, acts, Quiet(c, items, {}, clock)) && |items| == n && forall k :: k in items ==> |k| < n
  {
    if n == 0 {
      ss, acts, items, clock := [Init({1, 2})], [], map[], 0;
      assert Init({1, 2}) == Quiet(c, map[], {}, 0);
    } else {
      ss, acts, items, clock := Fills(c, n - 1);
      var k := Nth(n - 1);
      assert |k| == n - 1;
      ss, acts := StoresOne(c, ss, acts, k, items, clock);
      items, clock := items[k := Item(0, clock + 5)], clock + 10;
    }
  }

  lemma FullDeadlocks(c: Config, ss0: seq<State>, acts0: seq<Action>, k: Key, items: map<Key, Item>, n: nat)
    returns (ss: seq<State>, acts: seq<Action>)
    requires EndsAt(c, ss0, acts0, Quiet(c, items, {}, n)) && k !in items && |items| >= c.limit > 0
    ensures EndsAt(c, ss, acts, Two(c, k, Waiting(k), WantKey(k, false), {2}, true, items, {}, n + 8))
  {
    hide Two, Quiet, StepsTo, IsRun;
    ss, acts := MissesFrom(c, ss0, acts0, k, items, {}, n);
    SecondCalls(c, k, k, items, n + 4);
    ss, acts := Then(c, {1, 2}, ss, acts, Call(2, Get(k, false), None),
                     Two(c, k, Missed(k), Entering(Get(k, false)), {1}, true, items, {}, n + 5));
    SecondEnters(c, k, k, items, n + 5);
    ss, acts := Then(c, {1, 2}, ss, acts, ReadLock(2),
                     Two(c, k, Missed(k), WantKey(k, false), {1, 2}, true, items, {}, n + 6));
    GivesUpReadLock(c, k, WantKey(k, false), {1, 2}, items, {}, n + 6);
    assert {1 as nat, 2} - {1} == {2};
    ss, acts := Then(c, {1, 2}, ss, acts, CheckLimit(1),
                     Two(c, k, Dropped(k), WantKey(k, false), {2}, true, items, {}, n + 7));
    Announces(c, k, WantKey(k, false), {2}, items, {}, n + 7);
    ss, acts := Then(c, {1, 2}, ss, acts, Announce(1),
                     Two(c, k, Waiting(k), WantKey(k, false), {2}, true, items, {}, n + 8));
  }

  lemma TwoAreStuck(c: Config, k: Key, items: map<Key, Item>, n: nat)
    ensures var s := Two(c, k, Waiting(k), WantKey(k, false), {2}, true, items, {}, n);
      Stuck(c, s) && Roles(c, s, 1, 2, 1)
  {
    var s := Two(c, k, Waiting(k), WantKey(k, false), {2}, true, items, {}, n);
    assert 1 in UnderWay(s);
  }

  /** For every limit: once it is reached, two requests for one new key end up waiting for each
      other. */
  lemma UpgradeDeadlocks(c: Config) returns (ss: seq<State>, acts: seq<Action>)
    requires c.limit > 0
    ensures IsRun(c, {1, 2}, ss, acts) && Stuck(c, ss[|ss| - 1]) && Roles(c, ss[|ss| - 1], 1, 2, 1)
  {
    hide Two, Quiet, StepsTo, Stuck, Roles;
    var items, n;
    ss, acts, items, n := Fills(c, c.limit);
    var k := Nth(c.limit);
    assert |k| == c.limit;
    ss, acts := FullDeadlocks(c, ss, acts, k, items, n);
    TwoAreStuck(c, k, items, n + 8);
  }

  lemma TakesWriteLock(c: Config, k: Key, expired: set<Key>, n: nat)
    ensures StepsTo(c, Two(c, k, Waiting(k), Idle, {}, true, map[], expired, n), Acquire(1),
                    Two(c, k, Evicting(k), Idle, {}, true, map[], expired, n + 1))
  {
  }

  lemma FindsNoCandidate(c: Config, k: Key, expired: set<Key>, n: nat)
    ensures Enabled(c, Two(c, k, Evicting(k), Idle, {}, true, map[], expired, n), Panic(1))
  {
  }

  lemma Expires(c: Config, items: map<Key, Item>, expired: set<Key>, k: Key, n: nat)
    requires k in items
    ensures StepsTo(c, Quiet(c, items, expired, n), Expire(k), Quiet(c, items - {k}, expired + {k}, n + 1))
  {
  }

  lemma {:induction false} ExpireAll(c: Config, ss0: seq<State>, acts0: seq<Action>, items: map<Key, Item>,
                                     expired: set<Key>, n: nat)
    returns (ss: seq<State>, acts: seq<Action>)
    requires EndsAt(c, ss0, acts0, Quiet(c, items, expired, n))
    ensures EndsAt(c, ss, acts, Quiet(c, map[], expired + items.Keys, n + |items|))
    decreases |items|
  {
    hide Two, Quiet, StepsTo, IsRun;
    if items == map[] {
      ss, acts := ss0, acts0;
      assert expired + items.Keys == expired;
    } else {
      var k :| k in items;
      Expires(c, items, expired, k, n);
      ss, acts := Then(c, {1, 2}, ss0, acts0, Expire(k), Quiet(c, items - {k}, expired + {k}, n + 1));
      ss, acts := ExpireAll(c, ss, acts, items - {k}, expired + {k}, n + 1);
      assert (items - {k}).Keys == items.Keys - {k} && |items - {k}| == |items| - 1 by { KeysSize(items, k); }
      assert expired + {k} + (items - {k}).Keys == expired + items.Keys;
    }
  }

  lemma KeysSize(items: map<Key, Item>, k: Key)
    requires k in items
    ensures (items - {k}).Keys == items.Keys - {k} && |items - {k}| == |items| - 1
  {
    assert |items| == |items.Keys| && |items - {k}| == |(items - {k}).Keys|;
  }

  lemma PanicsFrom(c: Config, ss0: seq<State>, acts0: seq<Action>, k: Key, expired: set<Key>, n: nat)
    returns (ss: seq<State>, acts: seq<Action>)
    requires EndsAt(c, ss0, acts0, Quiet(c, map[], expired, n)) && |expired| >= c.limit > 0
    ensures EndsAt(c, ss, acts, Two(c, k, Evicting(k), Idle, {}, true, map[], expired, n + 7))
  {
    hide Two, Quiet, StepsTo, IsRun;
    ss, acts := MissesFrom(c, ss0, acts0, k, map[], expired, n);
    GivesUpReadLock(c, k, Idle, {1}, map[], expired, n + 4);
    assert {1 as nat} - {1} == {};
    Announces(c, k, Idle, {}, map[], expired, n + 5);
    TakesWriteLock(c, k, expired, n + 6);
    ss, acts := Then(c, {1, 2}, ss, acts, CheckLimit(1), Two(c, k, Dropped(k), Idle, {}, true, map[], expired, n + 5));
    ss, acts := Then(c, {1, 2}, ss, acts, Announce(1), Two(c, k, Waiting(k), Idle, {}, true, map[], expired, n + 6));
    ss, acts := Then(c, {1, 2}, ss, acts, Acquire(1), Two(c, k, Evicting(k), Idle, {}, true, map[], expired, n + 7));
  }

  ghost predicate CanPanic(c: Config, s: State) {
    exists t :: Enabled(c, s, Panic(t))
  }

  /** Eviction finds no candidate, and panics, when all that fills the cache has expired: for every
      limit, fill the cache, let everything expire, and ask for another key. */
  lemma EvictionPanicIsReachable(c: Config) returns (ss: seq<State>, acts: seq<Action>)
    requires c.limit > 0
    ensures IsRun(c, {1, 2}, ss, acts) && Enabled(c, ss[|ss| - 1], Panic(1))
  {
    hide Two, Quiet, StepsTo, Enabled, Apply;
    var items, n;
    ss, acts, items, n := Fills(c, c.limit);
    ss, acts := ExpireAll(c, ss, acts, items, {}, n);
    assert {} + items.Keys == items.Keys && |items.Keys| == |items|;
    ss, acts := PanicsFrom(c, ss, acts, Nth(0), items.Keys, n + |items|);
    FindsNoCandidate(c, Nth(0), items.Keys, n + |items| + 7);
  }

  /** The panic can be reached, with whatever calls, exactly when the cache has a limit. */
  lemma EvictionPanicIff(c: Config)
    ensures (exists calls, ss, acts :: IsRun(c, calls, ss, acts) && CanPanic(c, ss[|ss| - 1])) <==> c.limit > 0
  {
    if c.limit > 0 {
      var ss, acts := EvictionPanicIsReachable(c);
      assert CanPanic(c, ss[|ss| - 1]);
    } else {
      forall calls, ss, acts | IsRun(c, calls, ss, acts) ensures !CanPanic(c, ss[|ss| - 1]) {
        NeverUpgrades(c, calls, ss, acts, |ss| - 1);
      }
    }
  }

  /*** Two evictions at once ***/

  // Calls 1 and 2 at work on keys with different locks.
  function Pair(c: Config, a: Key, b: Key, p1: Pc, p2: Pc, readers: set<nat>, writer: Option<nat>,
                items: map<Key, Item>, clock: nat): State {
    State(map[1 := p1, 2 := p2], items, {}, readers, writer, map[c.lockOf(a) := 1, c.lockOf(b) := 2], map[], clock,
          [], false)
  }

  lemma SecondTakesKeyLock(c: Config, a: Key, b: Key, items: map<Key, Item>, n: nat)
    requires c.lockOf(a) != c.lockOf(b)
    ensures StepsTo(c, Two(c, a, Missed(a), WantKey(b, false), {1, 2}, true, items, {}, n), LockKey(2),
                    Pair(c, a, b, Missed(a), Looking(b, false), {1, 2}, None, items, n + 1))
  {
  }

  lemma SecondLooks(c: Config, a: Key, b: Key, items: map<Key, Item>, n: nat)
    requires b !in items
    ensures StepsTo(c, Pair(c, a, b, Missed(a), Looking(b, false), {1, 2}, None, items, n), Lookup(2),
                    Pair(c, a, b, Missed(a), Missed(b), {1, 2}, None, items, n + 1))
  {
  }

  lemma FirstAnnounces(c: Config, a: Key, b: Key, items: map<Key, Item>, n: nat)
    ensures StepsTo(c, Pair(c, a, b, Dropped(a), Dropped(b), {}, None, items, n), Announce(1),
                    Pair(c, a, b, Waiting(a), Dropped(b), {}, Some(1), items, n + 1))
  {
  }

  lemma FirstAcquires(c: Config, a: Key, b: Key, items: map<Key, Item>, n: nat)
    ensures StepsTo(c, Pair(c, a, b, Waiting(a), Dropped(b), {}, Some(1), items, n), Acquire(1),
                    Pair(c, a, b, Evicting(a), Dropped(b), {}, Some(1), items, n + 1))
  {
  }

  lemma SecondMisses(c: Config, ss0: seq<State>, acts0: seq<Action>, a: Key, b: Key, items: map<Key, Item>, n: nat)
    returns (ss: seq<State>, acts: seq<Action>)
    requires EndsAt(c, ss0, acts0, Two(c, a, Missed(a), Idle, {1}, true, items, {}, n))
    requires c.lockOf(a) != c.lockOf(b) && b !in items
    ensures EndsAt(c, ss, acts, Pair(c, a, b, Missed(a), Missed(b), {1, 2}, None, items, n + 4))
    ensures Unaided(acts0) ==> Unaided(acts)
  {
    hide IsRun, StepsTo, Two, Pair;
    SecondCalls(c, a, b, items, n);
    SecondEnters(c, a, b, items, n + 1);
    SecondTakesKeyLock(c, a, b, items, n + 2);
    SecondLooks(c, a, b, items, n + 3);
    ss, acts := Then(c, {1, 2}, ss0, acts0, Call(2, Get(b, false), None),
                     Two(c, a, Missed(a), Entering(Get(b, false)), {1}, true, items, {}, n + 1));
    ss, acts := Then(c, {1, 2}, ss, acts, ReadLock(2),
                     Two(c, a, Missed(a), WantKey(b, false), {1, 2}, true, items, {}, n + 2));
    ss, acts := Then(c, {1, 2}, ss, acts, LockKey(2),
                     Pair(c, a, b, Missed(a), Looking(b, false), {1, 2}, None, items, n + 3));
    ss, acts := Then(c, {1, 2}, ss, acts, Lookup(2), Pair(c, a, b, Missed(a), Missed(b), {1, 2}, None, items, n + 4));
  }

  lemma BothDrop(c: Config, ss0: seq<State>, acts0: seq<Action>, a: Key, b: Key, items: map<Key, Item>, n: nat)
    returns (ss: seq<State>, acts: seq<Action>)
    requires EndsAt(c, ss0, acts0, Pair(c, a, b, Missed(a), Missed(b), {1, 2}, None, items, n))
    requires |items| == c.limit == 1
    ensures EndsAt(c, ss, acts, Pair(c, a, b, Dropped(a), Dropped(b), {}, None, items, n + 2))
    ensures Unaided(acts0) ==> Unaided(acts)
  {
    hide IsRun;
    assert {1 as nat, 2} - {1} == {2} && {2 as nat} - {2} == {};
    ss, acts := Then(c, {1, 2}, ss0, acts0, CheckLimit(1),
                     Pair(c, a, b, Dropped(a), Missed(b), {2}, None, items, n + 1));
    ss, acts := Then(c, {1, 2}, ss, acts, CheckLimit(2), Pair(c, a, b, Dropped(a), Dropped(b), {}, None, items, n + 2));
  }

  lemma FirstEnters(c: Config, ss0: seq<State>, acts0: seq<Action>, a: Key, b: Key, items: map<Key, Item>, n: nat)
    returns (ss: seq<State>, acts: seq<Action>)
    requires EndsAt(c, ss0, acts0, Pair(c, a, b, Dropped(a), Dropped(b), {}, None, items, n))
    ensures EndsAt(c, ss, acts, Pair(c, a, b, Evicting(a), Dropped(b), {}, Some(1), items, n + 2))
    ensures Unaided(acts0) ==> Unaided(acts)
  {
    hide IsRun, StepsTo, Pair;
    FirstAnnounces(c, a, b, items, n);
    FirstAcquires(c, a, b, items, n + 1);
    ss, acts := Then(c, {1, 2}, ss0, acts0, Announce(1),
                     Pair(c, a, b, Waiting(a), Dropped(b), {}, Some(1), items, n + 1));
    ss, acts := Then(c, {1, 2}, ss, acts, Acquire(1),
                     Pair(c, a, b, Evicting(a), Dropped(b), {}, Some(1), items, n + 2));
  }

  lemma FirstEvicts(c: Config, ss0: seq<State>, acts0: seq<Action>, a: Key, b: Key, items: map<Key, Item>, k: Key,
                    n: nat)
    returns (ss: seq<State>, acts: seq<Action>)
    requires EndsAt(c, ss0, acts0, Pair(c, a, b, Evicting(a), Dropped(b), {}, Some(1), items, n)) && items.Keys == {k}
    ensures EndsAt(c, ss, acts, Pair(c, a, b, Evicted(a), Dropped(b), {}, None, map[], n + 1))
    ensures Unaided(acts0) ==> Unaided(acts)
  {
    hide IsRun;
    assert items - {k} == map[];
    ss, acts := Then(c, {1, 2}, ss0, acts0, Evict(1, k), Pair(c, a, b, Evicted(a), Dropped(b), {}, None, map[], n + 1));
  }

  lemma SecondAnnounces(c: Config, a: Key, b: Key, n: nat)
    ensures StepsTo(c, Pair(c, a, b, Evicted(a), Dropped(b), {}, None, map[], n), Announce(2),
                    Pair(c, a, b, Evicted(a), Waiting(b), {}, Some(2), map[], n + 1))
  {
  }

  lemma SecondAcquires(c: Config, a: Key, b: Key, n: nat)
    ensures StepsTo(c, Pair(c, a, b, Evicted(a), Waiting(b), {}, Some(2), map[], n), Acquire(2),
                    Pair(c, a, b, Evicted(a), Evicting(b), {}, Some(2), map[], n + 1))
    ensures Enabled(c, Pair(c, a, b, Evicted(a), Evicting(b), {}, Some(2), map[], n + 1), Panic(2))
  {
  }

  lemma SecondFindsNone(c: Config, ss0: seq<State>, acts0: seq<Action>, a: Key, b: Key, n: nat)
    returns (ss: seq<State>, acts: seq<Action>)
    requires EndsAt(c, ss0, acts0, Pair(c, a, b, Evicted(a), Dropped(b), {}, None, map[], n))
    ensures IsRun(c, {1, 2}, ss, acts) && Enabled(c, ss[|ss| - 1], Panic(2))
    ensures Unaided(acts0) ==> Unaided(acts)
  {
    hide IsRun, StepsTo, Pair;
    SecondAnnounces(c, a, b, n);
    SecondAcquires(c, a, b, n + 1);
    ss, acts := Then(c, {1, 2}, ss0, acts0, Announce(2),
                     Pair(c, a, b, Evicted(a), Waiting(b), {}, Some(2), map[], n + 1));
    ss, acts := Then(c, {1, 2}, ss, acts, Acquire(2),
                     Pair(c, a, b, Evicted(a), Evicting(b), {}, Some(2), map[], n + 2));
  }

  /** No expiry is needed: two misses on a full cache of one item both go to evict it. */
  lemma TwoEvictionsPanic(c: Config, a: Key, b: Key) returns (ss: seq<State>, acts: seq<Action>)
    requires c.limit == 1 && c.lockOf(a) != c.lockOf(b)
    ensures IsRun(c, {1, 2}, ss, acts) && Unaided(acts) && Enabled(c, ss[|ss| - 1], Panic(2))
  {
    hide Two, Pair, StepsTo, Enabled, Apply;
    ss, acts := [Init({1, 2})], [];
    assert EndsAt(c, ss, acts, Quiet(c, map[], {}, 0)) by { StartsQuiet(c); }
    var k := Nth(|a| + |b| + 1);
    assert |k| == |a| + |b| + 1;
    ss, acts := StoresOne(c, ss, acts, k, map[], 0);
    var items: map<Key, Item> := map[][k := Item(0, 5)];
    assert a !in items && b !in items && items.Keys == {k} && |items| == 1;
    ss, acts := MissesFrom(c, ss, acts, a, items, {}, 10);
    ss, acts := SecondMisses(c, ss, acts, a, b, items, 14);
    ss, acts := BothDrop(c, ss, acts, a, b, items, 18);
    ss, acts := FirstEnters(c, ss, acts, a, b, items, 20);
    ss, acts := FirstEvicts(c, ss, acts, a, b, items, k, 22);
    ss, acts := SecondFindsNone(c, ss, acts, a, b, 23);
  }

  lemma StartsQuiet(c: Config)
    ensures Init({1, 2}) == Quiet(c, map[], {}, 0)
  {
  }

  /*** Calls inside a call ***/

  // Call 1 for k, call 2 inside it, call 3 on its own.
  function Trio(c: Config, k: Key, p1: Pc, p2: Pc, p3: Pc, readers: set<nat>, writer: Option<nat>, locked: bool,
                clock: nat): State {
    State(map[1 := p1, 2 := p2, 3 := p3], map[], {}, readers, writer, if locked then map[c.lockOf(k) := 1] else map[],
          if p2.Idle? then map[] else map[2 := 1], clock, [], false)
  }

  lemma TrioStarts(c: Config, k: Key)
    ensures Init({1, 2, 3}) == Trio(c, k, Idle, Idle, Idle, {}, None, false, 0)
  {
  }

  lemma TrioEnters(c: Config, k: Key)
    ensures StepsTo(c, Trio(c, k, Idle, Idle, Idle, {}, None, false, 0), Call(1, Get(k, false), None),
                    Trio(c, k, Entering(Get(k, false)), Idle, Idle, {}, None, false, 1))
    ensures StepsTo(c, Trio(c, k, Entering(Get(k, false)), Idle, Idle, {}, None, false, 1), ReadLock(1),
                    Trio(c, k, WantKey(k, false), Idle, Idle, {1}, None, false, 2))
  {
  }

  lemma TrioLooks(c: Config, k: Key)
    ensures StepsTo(c, Trio(c, k, WantKey(k, false), Idle, Idle, {1}, None, false, 2), LockKey(1),
                    Trio(c, k, Looking(k, false), Idle, Idle, {1}, None, true, 3))
    ensures StepsTo(c, Trio(c, k, Looking(k, false), Idle, Idle, {1}, None, true, 3), Lookup(1),
                    Trio(c, k, Missed(k), Idle, Idle, {1}, None, true, 4))
  {
  }

  lemma TrioGenerates(c: Config, k: Key)
    ensures StepsTo(c, Trio(c, k, Missed(k), Idle, Idle, {1}, None, true, 4), CheckLimit(1),
                    Trio(c, k, Ready(k), Idle, Idle, {1}, None, true, 5))
    ensures StepsTo(c, Trio(c, k, Ready(k), Idle, Idle, {1}, None, true, 5), BeginGenerate(1),
                    Trio(c, k, Generating(k, 5), Idle, Idle, {1}, None, true, 6))
  {
  }

  lemma TrioNests(c: Config, k: Key, l: Key)
    requires c.nests
    ensures StepsTo(c, Trio(c, k, Generating(k, 5), Idle, Idle, {1}, None, true, 6), Call(2, Get(l, false), Some(1)),
                    Trio(c, k, Generating(k, 5), Entering(Get(l, false)), Idle, {1}, None, true, 7))
  {
  }

  lemma TrioInnerEnters(c: Config, k: Key, l: Key)
    ensures StepsTo(c, Trio(c, k, Generating(k, 5), Entering(Get(l, false)), Idle, {1}, None, true, 7), ReadLock(2),
                    Trio(c, k, Generating(k, 5), WantKey(l, false), Idle, {1, 2}, None, true, 8))
  {
    assert {1 as nat} + {2} == {1, 2};
  }

  lemma TrioDeletes(c: Config, k: Key, l: Key, m: Key -> bool)
    ensures var p2 := Entering(Get(l, false));
      && StepsTo(c, Trio(c, k, Generating(k, 5), p2, Idle, {1}, None, true, 7), Call(3, Delete(m), None),
                 Trio(c, k, Generating(k, 5), p2, Entering(Delete(m)), {1}, None, true, 8))
      && StepsTo(c, Trio(c, k, Generating(k, 5), p2, Entering(Delete(m)), {1}, None, true, 8), Announce(3),
                 Trio(c, k, Generating(k, 5), p2, DelWaiting(m), {1}, Some(3), true, 9))
  {
  }

  // Call 1 generates, and call 2 is about to enter inside it.
  lemma InnerCallBegins(c: Config, k: Key, l: Key) returns (ss: seq<State>, acts: seq<Action>)
    requires c.nests
    ensures IsRun(c, {1, 2, 3}, ss, acts)
    ensures ss[|ss| - 1] == Trio(c, k, Generating(k, 5), Entering(Get(l, false)), Idle, {1}, None, true, 7)
  {
    ss, acts := [Init({1, 2, 3})], [];
    hide Trio, StepsTo, IsRun;
    assert IsRun(c, {1, 2, 3}, ss, acts) by { RunBegins(c, {1, 2, 3}); }
    TrioStarts(c, k);
    TrioEnters(c, k);
    TrioLooks(c, k);
    TrioGenerates(c, k);
    TrioNests(c, k, l);
    ss, acts := Then(c, {1, 2, 3}, ss, acts, Call(1, Get(k, false), None),
                     Trio(c, k, Entering(Get(k, false)), Idle, Idle, {}, None, false, 1));
    ss, acts := Then(c, {1, 2, 3}, ss, acts, ReadLock(1),
                     Trio(c, k, WantKey(k, false), Idle, Idle, {1}, None, false, 2));
    ss, acts := Then(c, {1, 2, 3}, ss, acts, LockKey(1), Trio(c, k, Looking(k, false), Idle, Idle, {1}, None, true, 3));
    ss, acts := Then(c, {1, 2, 3}, ss, acts, Lookup(1), Trio(c, k, Missed(k), Idle, Idle, {1}, None, true, 4));
    ss, acts := Then(c, {1, 2, 3}, ss, acts, CheckLimit(1), Trio(c, k, Ready(k), Idle, Idle, {1}, None, true, 5));
    ss, acts := Then(c, {1, 2, 3}, ss, acts, BeginGenerate(1),
                     Trio(c, k, Generating(k, 5), Idle, Idle, {1}, None, true, 6));
    ss, acts := Then(c, {1, 2, 3}, ss, acts, Call(2, Get(l, false), Some(1)),
                     Trio(c, k, Generating(k, 5), Entering(Get(l, false)), Idle, {1}, None, true, 7));
  }

  lemma RunBegins(c: Config, calls: set<nat>)
    ensures IsRun(c, calls, [Init(calls)], [])
  {
  }

  lemma DeleteIsStuck(c: Config, k: Key, l: Key, m: Key -> bool)
    ensures Stuck(c, Trio(c, k, Generating(k, 5), Entering(Get(l, false)), DelWaiting(m), {1}, Some(3), true, 9))
  {
    var s := Trio(c, k, Generating(k, 5), Entering(Get(l, false)), DelWaiting(m), {1}, Some(3), true, 9);
    assert 1 in UnderWay(s) && s.callers[2] == 1;
  }

  /** Whatever the limit: a Delete announces itself while a generateValue is about to call the cache.
      The inner call waits for the Delete, that for the outer call, and that for the inner one. */
  lemma InnerCallMeetsDelete(c: Config, k: Key, l: Key, m: Key -> bool) returns (ss: seq<State>, acts: seq<Action>)
    requires c.nests
    ensures IsRun(c, {1, 2, 3}, ss, acts) && Stuck(c, ss[|ss| - 1])
  {
    hide Trio, StepsTo, IsRun, Stuck;
    ss, acts := InnerCallBegins(c, k, l);
    TrioDeletes(c, k, l, m);
    ss, acts := Then(c, {1, 2, 3}, ss, acts, Call(3, Delete(m), None),
                     Trio(c, k, Generating(k, 5), Entering(Get(l, false)), Entering(Delete(m)), {1}, None, true, 8));
    ss, acts := Then(c, {1, 2, 3}, ss, acts, Announce(3),
                     Trio(c, k, Generating(k, 5), Entering(Get(l, false)), DelWaiting(m), {1}, Some(3), true, 9));
    DeleteIsStuck(c, k, l, m);
  }

  lemma InnerIsStuck(c: Config, k: Key, l: Key)
    requires c.lockOf(k) == c.lockOf(l)
    ensures Stuck(c, Trio(c, k, Generating(k, 5), WantKey(l, false), Idle, {1, 2}, None, true, 8))
  {
    var s := Trio(c, k, Generating(k, 5), WantKey(l, false), Idle, {1, 2}, None, true, 8);
    assert 1 in UnderWay(s) && s.callers[2] == 1;
  }

  /** Nobody else is needed when the key of the inner call has the lock of the outer one's: the inner
      call waits for that lock, and the outer one for the inner call. */
  lemma InnerCallSharesLock(c: Config, k: Key, l: Key) returns (ss: seq<State>, acts: seq<Action>)
    requires c.nests && c.lockOf(k) == c.lockOf(l)
    ensures IsRun(c, {1, 2, 3}, ss, acts) && Stuck(c, ss[|ss| - 1])
    ensures UnderWay(ss[|ss| - 1]) == {1, 2}
  {
    hide StepsTo, IsRun, Stuck;
    ss, acts := InnerCallBegins(c, k, l);
    TrioInnerEnters(c, k, l);
    ss, acts := Then(c, {1, 2, 3}, ss, acts, ReadLock(2),
                     Trio(c, k, Generating(k, 5), WantKey(l, false), Idle, {1, 2}, None, true, 8));
    InnerIsStuck(c, k, l);
  }

  /*** When ***/

  ghost predicate GetsStuck(c: Config) {
    exists calls, ss, acts :: IsRun(c, calls, ss, acts) && Stuck(c, ss[|ss| - 1])
  }

  ghost predicate Deadlocks(c: Config) {
    exists calls, ss, acts :: IsRun(c, calls, ss, acts) && HasDeadlock(c, ss[|ss| - 1])
  }

  lemma CausesDeadlock(c: Config)
    requires c.limit > 0 || c.nests
    ensures GetsStuck(c)
  {
    hide IsRun, Stuck;
    if c.limit > 0 {
      var ss, acts := UpgradeDeadlocks(c);
    } else {
      var ss, acts := InnerCallMeetsDelete(c, "", "", k => true);
    }
  }

  lemma StuckDeadlocks(c: Config)
    requires GetsStuck(c)
    ensures Deadlocks(c)
  {
    hide Stuck, Deadlocked;
    var calls, ss, acts :| IsRun(c, calls, ss, acts) && Stuck(c, ss[|ss| - 1]);
    RunInv(c, calls, ss, acts, |ss| - 1);
    StuckIsDeadlocked(c, ss[|ss| - 1]);
  }

  /** Calls of a cache can deadlock, and can all get stuck, exactly when it has a limit or a
      generateValue calls it. */
  lemma DeadlockIff(c: Config)
    ensures Deadlocks(c) <==> c.limit > 0 || c.nests
    ensures GetsStuck(c) <==> c.limit > 0 || c.nests
  {
    if GetsStuck(c) { StuckDeadlocks(c); }
    if c.limit > 0 || c.nests {
      CausesDeadlock(c);
      StuckDeadlocks(c);
    } else {
      forall calls, ss, acts | IsRun(c, calls, ss, acts) ensures !HasDeadlock(c, ss[|ss| - 1]) {
        NeverDeadlocked(c, calls, ss, acts, |ss| - 1);
      }
    }
  }
}
