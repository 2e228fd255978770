/** What calls of the in-memory cache wait for, and when they wait for each other for ever. */
module CacheDeadlocks {
  import opened Options
  import opened MemCache

  /*** Calls that wait for each other ***/

  // t cannot go on before u has moved: u holds the lock of t's key, or reads while t has announced
  // itself, or writes while t wants to come in, or is made inside t's generateValue.
  predicate WaitsFor(c: Config, s: State, t: nat, u: nat)
    requires t in s.calls
  {
    var pc := s.calls[t];
    || (pc.WantKey? && c.lockOf(pc.key) in s.keyLocks && s.keyLocks[c.lockOf(pc.key)] == u)
    || (IsWaiting(pc) && u in s.readers)
    || ((pc.Entering? || pc.Dropped? || pc.Evicted?) && s.writer == Some(u))
    || (pc.Generating? && u in s.callers && s.callers[u] == t)
  }

  /** A deadlock: each of these calls waits for one of them. */
  ghost predicate Deadlocked(c: Config, s: State, d: set<nat>) {
    d != {} && forall t :: t in d ==> WaitsAmong(c, s, d, t)
  }

  ghost predicate WaitsAmong(c: Config, s: State, d: set<nat>, t: nat) {
    t in s.calls && exists u :: u in d && WaitsFor(c, s, t, u)
  }

  ghost predicate HasDeadlock(c: Config, s: State) {
    exists d :: Deadlocked(c, s, d)
  }

  // A call that waits cannot act.
  lemma WaitingDoesNotAct(c: Config, s: State, a: Action, t: nat, u: nat)
    requires Inv(c, s) && t in s.calls && WaitsFor(c, s, t, u) && Enabled(c, s, a)
    ensures !Acts(a, t)
  {
    hide AllFresh;
    assert HoldsItsLocks(c, s, t);
  }

  // What a call holds, no other call's step takes away.
  lemma HoldsOn(c: Config, s: State, a: Action, u: nat)
    requires Inv(c, s) && Enabled(c, s, a) && !Acts(a, u)
    ensures u in s.readers ==> u in Apply(c, s, a).readers
    ensures s.writer == Some(u) ==> Apply(c, s, a).writer == Some(u)
  {
    hide AllFresh, PcAfter, ItemsAfter, ExpiredAfter, KeyLocksAfter, DeletionsAfter, CallersAfter, HoldsKeyLock;
    if !Ambient(a) { assert HoldsItsLocks(c, s, a.t); }
  }

  lemma InnerCallOn(c: Config, s: State, a: Action, u: nat)
    requires Inv(c, s) && Enabled(c, s, a) && !Acts(a, u) && u in s.callers
    ensures u in Apply(c, s, a).callers && Apply(c, s, a).callers[u] == s.callers[u]
  {
    hide Inv, PcAfter, ItemsAfter, ExpiredAfter, KeyLocksAfter, DeletionsAfter, ReadersAfter, WriterAfter;
  }

  lemma KeyHeldOn(c: Config, s: State, a: Action, u: nat, l: nat)
    requires Inv(c, s) && Enabled(c, s, a) && !Acts(a, u) && l in s.keyLocks && s.keyLocks[l] == u
    ensures l in Apply(c, s, a).keyLocks && Apply(c, s, a).keyLocks[l] == u
  {
    hide AllFresh, PcAfter, ItemsAfter, ExpiredAfter, DeletionsAfter, HoldsCacheLock;
    if !Ambient(a) { assert HoldsItsLocks(c, s, a.t); }
  }

  // What a call waits for stays as long as the other does not act.
  lemma StillWaits(c: Config, s: State, a: Action, t: nat, u: nat)
    requires Inv(c, s) && t in s.calls && WaitsFor(c, s, t, u) && Enabled(c, s, a) && !Acts(a, t) && !Acts(a, u)
    ensures t in Apply(c, s, a).calls && WaitsFor(c, Apply(c, s, a), t, u)
  {
    SamePlace(c, s, a, t);
    HoldsOn(c, s, a, u);
    var pc := s.calls[t];
    if pc.WantKey? { KeyHeldOn(c, s, a, u, c.lockOf(pc.key)); }
    if pc.Generating? { InnerCallOn(c, s, a, u); }
    hide Inv, Enabled, Apply, Acts;
  }

  lemma SamePlace(c: Config, s: State, a: Action, t: nat)
    requires Enabled(c, s, a) && t in s.calls && !Acts(a, t)
    ensures t in Apply(c, s, a).calls && Apply(c, s, a).calls[t] == s.calls[t]
  {
  }

  lemma AmongDoesNotAct(c: Config, s: State, a: Action, d: set<nat>, t: nat)
    requires Inv(c, s) && WaitsAmong(c, s, d, t) && Enabled(c, s, a)
    ensures !Acts(a, t)
  {
    hide Inv, Enabled, WaitsFor, Acts;
    var u :| u in d && WaitsFor(c, s, t, u);
    WaitingDoesNotAct(c, s, a, t, u);
  }

  lemma StillAmong(c: Config, s: State, a: Action, d: set<nat>, t: nat)
    requires Inv(c, s) && WaitsAmong(c, s, d, t) && Enabled(c, s, a) && t in d && forall u :: u in d ==> !Acts(a, u)
    ensures WaitsAmong(c, Apply(c, s, a), d, t)
  {
    hide Inv, Enabled, Apply, WaitsFor, Acts;
    var u :| u in d && WaitsFor(c, s, t, u);
    StillWaits(c, s, a, t, u);
  }

  /** It is for ever: none of them acts, and no step of any other call, nor time, frees them. */
  lemma DeadlockIsPermanent(c: Config, s: State, a: Action, d: set<nat>)
    requires Inv(c, s) && Deadlocked(c, s, d) && Enabled(c, s, a)
    ensures Deadlocked(c, Apply(c, s, a), d)
    ensures forall t :: t in d ==> !Acts(a, t)
  {
    hide Inv, Enabled, Apply, WaitsAmong, Acts;
    forall t | t in d ensures !Acts(a, t) { AmongDoesNotAct(c, s, a, d, t); }
    forall t | t in d ensures WaitsAmong(c, Apply(c, s, a), d, t) { StillAmong(c, s, a, d, t); }
  }

  // Call t has a step of its own to take.
  ghost predicate Runnable(c: Config, s: State, t: nat) {
    exists a: Action :: Acts(a, t) && Enabled(c, s, a)
  }

  // Some call is under way and none can go on.
  ghost predicate Stuck(c: Config, s: State) {
    && !s.crashed
    && UnderWay(s) != {}
    && forall t :: t in UnderWay(s) ==> !Runnable(c, s, t)
  }

  function UnderWay(s: State): set<nat> {
    set t | t in s.calls && !s.calls[t].Idle?
  }

  // The step of a call that waits for nothing.
  ghost function OwnStep(s: State, t: nat): Action
    requires t in s.calls && !s.calls[t].Idle?
  {
    var pc := s.calls[t];
    match pc
    case Entering(op) => if op.Get? then ReadLock(t) else Announce(t)
    case WantKey(_, _) => LockKey(t)
    case Looking(_, _) => Lookup(t)
    case Hit(_, _, _) => ReSet(t)
    case Missed(_) => CheckLimit(t)
    case Dropped(_) => Announce(t)
    case Waiting(_) => Acquire(t)
    case Evicting(_) => if s.items == map[] then Panic(t) else (var k :| k in s.items; Evict(t, k))
    case Evicted(_) => Downgrade(t)
    case Ready(_) => BeginGenerate(t)
    case Generating(_, _) => EndGenerate(t, 0)
    case Generated(_, _) => Store(t)
    case Leaving(_) => UnlockKey(t)
    case KeyReleased => ReadUnlock(t)
    case DelWaiting(_) => Acquire(t)
    case Deleting(_, todo) => if todo == {} then EndDelete(t) else (var k :| k in todo; DeleteOne(t, k))
    case FlushWaiting => Acquire(t)
    case Flushing => EndFlush(t)
  }

  // A call that cannot go on waits for another that is under way.
  lemma BlockedWaits(c: Config, s: State, t: nat) returns (u: nat)
    requires Inv(c, s) && !s.crashed && t in UnderWay(s) && !Runnable(c, s, t)
    ensures u in UnderWay(s) && WaitsFor(c, s, t, u)
  {
    hide AllFresh;
    assert Acts(OwnStep(s, t), t);
    assert !Enabled(c, s, OwnStep(s, t));
    var pc := s.calls[t];
    if pc.WantKey? {
      assert KeyHeld(c, s, c.lockOf(pc.key));
      u := s.keyLocks[c.lockOf(pc.key)];
    } else if IsWaiting(pc) {
      u :| u in s.readers;
      assert HoldsItsLocks(c, s, u);
    } else if pc.Generating? {
      u :| u in s.callers && s.callers[u] == t;
      assert CalledFrom(s, u);
    } else {
      u := s.writer.value;
      assert HoldsItsLocks(c, s, u);
    }
  }

  /** When no call can go on, all of them are deadlocked. */
  lemma StuckIsDeadlocked(c: Config, s: State)
    requires Inv(c, s) && Stuck(c, s)
    ensures Deadlocked(c, s, UnderWay(s))
  {
    hide Inv, WaitsFor, Runnable;
    forall t | t in UnderWay(s) ensures WaitsAmong(c, s, UnderWay(s), t) { var u := BlockedWaits(c, s, t); }
  }

  /*** What a deadlock needs ***/

  predicate Upgrading(pc: Pc) {
    pc.Dropped? || pc.Waiting? || pc.Evicting? || pc.Evicted?
  }

  // Holds its key's lock and wants the cache's again, or is inside generateValue.
  predicate IsCause(pc: Pc) {
    Upgrading(pc) || pc.Generating?
  }

  ghost predicate HasCause(s: State, d: set<nat>) {
    exists t :: t in d && t in s.calls && IsCause(s.calls[t])
  }

  // Otherwise a call that enters waits for a writer, a writer for a reader, that for a key's lock,
  // and there it ends.
  function Height(pc: Pc): nat {
    if pc.Entering? then 3 else if IsWaiting(pc) then 2 else if pc.WantKey? then 1 else 0
  }

  lemma WaitingGoesDown(c: Config, s: State, t: nat, u: nat)
    requires Inv(c, s) && t in s.calls && WaitsFor(c, s, t, u) && !IsCause(s.calls[t])
    ensures u in s.calls && (IsCause(s.calls[u]) || Height(s.calls[u]) < Height(s.calls[t]))
  {
    hide AllFresh;
    if s.calls[t].WantKey? { assert KeyHeld(c, s, c.lockOf(s.calls[t].key)); }
    assert HoldsItsLocks(c, s, u);
  }

  lemma {:induction false} CauseFrom(c: Config, s: State, d: set<nat>, t: nat)
    requires Inv(c, s) && Deadlocked(c, s, d) && t in d && t in s.calls
    ensures HasCause(s, d)
    decreases Height(s.calls[t])
  {
    hide Inv, WaitsFor, Height, IsCause;
    assert WaitsAmong(c, s, d, t);
    if !IsCause(s.calls[t]) {
      var u :| u in d && WaitsFor(c, s, t, u);
      WaitingGoesDown(c, s, t, u);
      if !IsCause(s.calls[u]) { CauseFrom(c, s, d, u); }
    }
  }

  /** Every deadlock has a call that upgrades its lock or is inside generateValue. */
  lemma DeadlockHasCause(c: Config, s: State, d: set<nat>)
    requires Inv(c, s) && Deadlocked(c, s, d)
    ensures HasCause(s, d)
  {
    hide Inv, WaitsFor, HasCause;
    var t :| t in d;
    assert WaitsAmong(c, s, d, t);
    CauseFrom(c, s, d, t);
  }

  /*** Without inner calls ***/

  // w has announced itself and waits for u to leave; u waits for a key's lock; t holds that lock
  // and waits for the cache's lock, if it is not w itself.
  predicate Roles(c: Config, s: State, w: nat, u: nat, t: nat) {
    && w in s.calls && u in s.calls && t in s.calls
    && IsWaiting(s.calls[w]) && s.calls[u].WantKey?
    && (s.calls[t].Dropped? || s.calls[t].Evicted? || (t == w && s.calls[t].Waiting?))
    && c.lockOf(s.calls[t].key) == c.lockOf(s.calls[u].key)
  }

  // Two steps along the waiting, when no call is made inside another.
  lemma FlatWaits(c: Config, s: State, t: nat, u: nat, v: nat)
    requires Inv(c, s) && s.callers == map[] && t in s.calls && u in s.calls
    requires WaitsFor(c, s, t, u) && WaitsFor(c, s, u, v)
    ensures FlatPair(c, s.calls[t], s.calls[u])
  {
    hide AllFresh;
    assert HoldsItsLocks(c, s, u);
    if s.calls[t].WantKey? { assert KeyHeld(c, s, c.lockOf(s.calls[t].key)); }
  }

  // A waiting place, and that of a waiting call it waits for.
  predicate FlatPair(c: Config, pc: Pc, next: Pc) {
    if pc.WantKey? then (next.Dropped? || next.Evicted? || next.Waiting?) && c.lockOf(next.key) == c.lockOf(pc.key)
    else if IsWaiting(pc) then next.WantKey?
    else IsWaiting(next)
  }

  lemma FlatNext(c: Config, s: State, d: set<nat>, t: nat) returns (u: nat)
    requires Inv(c, s) && Deadlocked(c, s, d) && s.callers == map[] && t in d
    ensures u in d && t in s.calls && u in s.calls && FlatPair(c, s.calls[t], s.calls[u])
  {
    hide Inv, WaitsFor, FlatPair;
    assert WaitsAmong(c, s, d, t);
    u :| u in d && WaitsFor(c, s, t, u);
    assert WaitsAmong(c, s, d, u);
    var v :| v in d && WaitsFor(c, s, u, v);
    FlatWaits(c, s, t, u, v);
  }

  /** As long as no call is made inside another, every deadlock has these three (or two) in it. */
  lemma FlatDeadlockHasRoles(c: Config, s: State, d: set<nat>) returns (w: nat, u: nat, t: nat)
    requires Inv(c, s) && Deadlocked(c, s, d) && s.callers == map[]
    ensures w in d && u in d && t in d && Roles(c, s, w, u, t)
  {
    hide Inv, WaitsFor, WaitsAmong;
    var x :| x in d;
    if x in s.calls && s.calls[x].WantKey? { x := FlatNext(c, s, d, x); }
    w := FlatNext(c, s, d, x);
    if IsWaiting(s.calls[x]) { w := x; }
    u := FlatNext(c, s, d, w);
    t := FlatNext(c, s, d, u);
    if s.calls[t].Waiting? { w := t; }
  }

  /*** When there is no deadlock ***/

  ghost predicate NoUpgrade(s: State) {
    forall t :: t in s.calls ==> !Upgrading(s.calls[t])
  }

  lemma NoUpgradeStep(c: Config, s: State, a: Action)
    requires c.limit == 0 && NoUpgrade(s) && Enabled(c, s, a)
    ensures NoUpgrade(Apply(c, s, a))
  {
  }

  lemma {:induction false} NeverUpgrades(c: Config, calls: set<nat>, ss: seq<State>, acts: seq<Action>, j: nat)
    requires IsRun(c, calls, ss, acts) && j < |ss| && c.limit == 0
    ensures NoUpgrade(ss[j])
  {
    if j > 0 {
      NeverUpgrades(c, calls, ss, acts, j - 1);
      assert Enabled(c, ss[j - 1], acts[j - 1]) && ss[j - 1 + 1] == Apply(c, ss[j - 1], acts[j - 1]);
      NoUpgradeStep(c, ss[j - 1], acts[j - 1]);
    }
  }

  lemma NestsNotStep(c: Config, s: State, a: Action)
    requires !c.nests && s.callers == map[] && Enabled(c, s, a)
    ensures Apply(c, s, a).callers == map[]
  {
  }

  lemma {:induction false} NeverNests(c: Config, calls: set<nat>, ss: seq<State>, acts: seq<Action>, j: nat)
    requires IsRun(c, calls, ss, acts) && j < |ss| && !c.nests
    ensures ss[j].callers == map[]
  {
    if j > 0 {
      NeverNests(c, calls, ss, acts, j - 1);
      assert Enabled(c, ss[j - 1], acts[j - 1]) && ss[j - 1 + 1] == Apply(c, ss[j - 1], acts[j - 1]);
      NestsNotStep(c, ss[j - 1], acts[j - 1]);
    }
  }

  lemma CauseDoesNotWait(c: Config, s: State, d: set<nat>, t: nat)
    requires NoUpgrade(s) && s.callers == map[] && t in s.calls && IsCause(s.calls[t])
    ensures !WaitsAmong(c, s, d, t)
  {
  }

  lemma NoCauseNoDeadlock(c: Config, s: State, d: set<nat>)
    requires Inv(c, s) && NoUpgrade(s) && s.callers == map[]
    ensures !Deadlocked(c, s, d)
  {
    hide Inv, WaitsAmong, NoUpgrade, IsCause;
    if Deadlocked(c, s, d) {
      DeadlockHasCause(c, s, d);
      var t :| t in d && t in s.calls && IsCause(s.calls[t]);
      CauseDoesNotWait(c, s, d, t);
    }
  }

  /** Without a limit, and if no generateValue calls the cache, no run of any calls has a deadlock. */
  lemma NeverDeadlocked(c: Config, calls: set<nat>, ss: seq<State>, acts: seq<Action>, j: nat)
    requires IsRun(c, calls, ss, acts) && j < |ss| && c.limit == 0 && !c.nests
    ensures !HasDeadlock(c, ss[j])
  {
    RunInv(c, calls, ss, acts, j);
    NeverUpgrades(c, calls, ss, acts, j);
    NeverNests(c, calls, ss, acts, j);
    hide IsRun, Inv, NoUpgrade, Deadlocked;
    forall d ensures !Deadlocked(c, ss[j], d) { NoCauseNoDeadlock(c, ss[j], d); }
  }

  /** If no generateValue calls the cache, every deadlock of every run has the three (or two) roles. */
  lemma FlatRunHasRoles(c: Config, calls: set<nat>, ss: seq<State>, acts: seq<Action>, j: nat, d: set<nat>)
    returns (w: nat, u: nat, t: nat)
    requires IsRun(c, calls, ss, acts) && j < |ss| && !c.nests && Deadlocked(c, ss[j], d)
    ensures w in d && u in d && t in d && Roles(c, ss[j], w, u, t)
  {
    hide Roles, Deadlocked;
    RunInv(c, calls, ss, acts, j);
    NeverNests(c, calls, ss, acts, j);
    w, u, t := FlatDeadlockHasRoles(c, ss[j], d);
  }
}
