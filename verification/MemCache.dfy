/** The locking protocol of the in-memory cache (datastore/cache.go) as a state machine over
    the steps of any number of calls: an RW lock on the cache, a lock per key (keys may
    share one), and the gap in which a call that misses on a full cache trades its read
    lock for the write lock.  A call that wants the write lock first announces itself, which
    keeps new readers out, and then waits for the readers inside to leave.  A call is made on its
    own or inside the generateValue of another, which does not return before it. */
module MemCache {
  import opened Options

  type Key = string

  // `born` is when the generateValue call behind the value began.  Errors are values too.
  datatype Item = Item(value: int, born: nat)

  // GetOrUpdate, Delete and Flush.
  datatype Op = Get(key: Key, reset: bool) | Delete(matcher: Key -> bool) | FlushAll

  /** Where a call is.  Get* is GetOrUpdate, Del* is Delete, Flushing is Flush. */
  datatype Pc =
    | Idle
    | Entering(op: Op)                        // waiting for writers to leave
    | WantKey(key: Key, reset: bool)          // read lock held, waiting for the key's lock
    | Looking(key: Key, reset: bool)
    | Hit(key: Key, reset: bool, item: Item)  // found, not yet re-Set
    | Missed(key: Key)
    | Dropped(key: Key)                       // read lock given up
    | Waiting(key: Key)                       // announced, waiting for the readers to leave
    | Evicting(key: Key)                      // write lock held
    | Evicted(key: Key)                       // write lock given up, waiting for the read lock
    | Ready(key: Key)
    | Generating(key: Key, start: nat)
    | Generated(key: Key, item: Item)         // not yet Set
    | Leaving(key: Key)
    | KeyReleased
    | DelWaiting(matcher: Key -> bool)
    | Deleting(matcher: Key -> bool, todo: set<Key>)
    | FlushWaiting
    | Flushing

  datatype Deletion = Deletion(matcher: Key -> bool, released: nat)

  datatype State = State(
    calls: map<nat, Pc>,
    items: map<Key, Item>,      // the unexpired items
    expired: set<Key>,          // items that have expired and are still stored
    readers: set<nat>, writer: Option<nat>, keyLocks: map<nat, nat>,
    callers: map<nat, nat>,     // calls made inside the generateValue of another call
    clock: nat, deletions: seq<Deletion>, crashed: bool)

  // Which lock guards a key, how many items are too many (0 is no limit), and whether
  // generateValue may call the cache itself.
  datatype Config = Config(lockOf: Key -> nat, limit: nat, nests: bool)

  datatype Action =
    | Call(t: nat, op: Op, inside: Option<nat>)
    | ReadLock(t: nat)
    | LockKey(t: nat)
    | Lookup(t: nat)
    | ReSet(t: nat)
    | CheckLimit(t: nat)
    | Announce(t: nat)
    | Acquire(t: nat)
    | Evict(t: nat, candidate: Key)
    | Panic(t: nat)
    | Downgrade(t: nat)
    | BeginGenerate(t: nat)
    | EndGenerate(t: nat, value: int)
    | Store(t: nat)
    | UnlockKey(t: nat)
    | ReadUnlock(t: nat)
    | DeleteOne(t: nat, key: Key)
    | EndDelete(t: nat)
    | EndFlush(t: nat)
    | Expire(key: Key)
    | Purge(key: Key)

  // Time and the janitor act without a call.
  predicate Ambient(a: Action) {
    a.Expire? || a.Purge?
  }

  // ItemCount counts what has expired as well.
  predicate Full(c: Config, s: State) {
    c.limit > 0 && |s.items| + |s.expired| >= c.limit
  }

  predicate Enabled(c: Config, s: State, a: Action) {
    if s.crashed then false
    else if a.Expire? then a.key in s.items
    else if a.Purge? then a.key in s.expired
    else
      a.t in s.calls &&
      var pc := s.calls[a.t];
      match a
      case Call(_, _, inside) =>
        pc.Idle? && (inside.Some? ==> c.nests && inside.value in s.calls && s.calls[inside.value].Generating?)
      case ReadLock(_) => pc.Entering? && pc.op.Get? && s.writer.None?
      case LockKey(_) => pc.WantKey? && c.lockOf(pc.key) !in s.keyLocks
      case Lookup(_) => pc.Looking?
      case ReSet(_) => pc.Hit?
      case CheckLimit(_) => pc.Missed?
      case Announce(_) => (pc.Dropped? || (pc.Entering? && !pc.op.Get?)) && s.writer.None?
      case Acquire(_) => (pc.Waiting? || pc.DelWaiting? || pc.FlushWaiting?) && s.readers == {}
      case Evict(_, candidate) => pc.Evicting? && candidate in s.items
      case Panic(_) => pc.Evicting? && s.items == map[]
      case Downgrade(_) => pc.Evicted? && s.writer.None?
      case BeginGenerate(_) => pc.Ready?
      case EndGenerate(_, _) => pc.Generating? && a.t !in s.callers.Values
      case Store(_) => pc.Generated?
      case UnlockKey(_) => pc.Leaving?
      case ReadUnlock(_) => pc.KeyReleased?
      case DeleteOne(_, key) => pc.Deleting? && key in pc.todo
      case EndDelete(_) => pc.Deleting? && pc.todo == {}
      case EndFlush(_) => pc.Flushing?
      case Expire(_) => true
      case Purge(_) => true
  }

  // Where the acting call goes.
  function PcAfter(c: Config, s: State, a: Action): Pc
    requires Enabled(c, s, a) && !Ambient(a)
  {
    var pc := s.calls[a.t];
    match a
    case Call(_, op, _) => Entering(op)
    case ReadLock(_) => WantKey(pc.op.key, pc.op.reset)
    case LockKey(_) => Looking(pc.key, pc.reset)
    case Lookup(_) => if pc.key in s.items then Hit(pc.key, pc.reset, s.items[pc.key]) else Missed(pc.key)
    case ReSet(_) => Leaving(pc.key)
    case CheckLimit(_) => if Full(c, s) then Dropped(pc.key) else Ready(pc.key)
    case Announce(_) =>
      if pc.Dropped? then Waiting(pc.key) else if pc.op.Delete? then DelWaiting(pc.op.matcher) else FlushWaiting
    case Acquire(_) => if pc.Waiting? then Evicting(pc.key) else if pc.DelWaiting?
        then Deleting(pc.matcher, s.items.Keys) else Flushing
    case Evict(_, _) => Evicted(pc.key)
    case Panic(_) => pc
    case Downgrade(_) => Ready(pc.key)
    case BeginGenerate(_) => Generating(pc.key, s.clock)
    case EndGenerate(_, value) => Generated(pc.key, Item(value, pc.start))
    case Store(_) => Leaving(pc.key)
    case UnlockKey(_) => KeyReleased
    case ReadUnlock(_) => Idle
    case DeleteOne(_, key) => Deleting(pc.matcher, pc.todo - {key})
    case EndDelete(_) => Idle
    case EndFlush(_) => Idle
  }

  function ItemsAfter(c: Config, s: State, a: Action): map<Key, Item>
    requires Enabled(c, s, a)
  {
    if a.Expire? then s.items - {a.key}
    else if a.Purge? then s.items
    else if a.Store? || (a.ReSet? && s.calls[a.t].reset) then s.items[s.calls[a.t].key := s.calls[a.t].item]
    else if a.Evict? then s.items - {a.candidate}
    else if a.DeleteOne? && s.calls[a.t].matcher(a.key) then s.items - {a.key}
    else if a.EndFlush? then map[]
    else s.items
  }

  // A Set, a Delete of a key and a Flush also remove what has expired there.
  function ExpiredAfter(c: Config, s: State, a: Action): set<Key>
    requires Enabled(c, s, a)
  {
    if a.Expire? then s.expired + {a.key}
    else if a.Purge? then s.expired - {a.key}
    else if a.Store? || (a.ReSet? && s.calls[a.t].reset) then s.expired - {s.calls[a.t].key}
    else if a.DeleteOne? && s.calls[a.t].matcher(a.key) then s.expired - {a.key}
    else if a.EndFlush? then {}
    else s.expired
  }

  function ReadersAfter(c: Config, s: State, a: Action): set<nat> {
    if a.ReadLock? || a.Downgrade? then s.readers + {a.t}
    else if a.ReadUnlock? || (a.CheckLimit? && Full(c, s)) then s.readers - {a.t}
    else s.readers
  }

  function WriterAfter(s: State, a: Action): Option<nat> {
    if a.Announce? then Some(a.t)
    else if a.Evict? || a.EndDelete? || a.EndFlush? then None
    else s.writer
  }

  function KeyLocksAfter(c: Config, s: State, a: Action): map<nat, nat>
    requires Enabled(c, s, a)
  {
    if a.LockKey? then s.keyLocks[c.lockOf(s.calls[a.t].key) := a.t]
    else if a.UnlockKey? then s.keyLocks - {c.lockOf(s.calls[a.t].key)}
    else s.keyLocks
  }

  function CallersAfter(s: State, a: Action): map<nat, nat> {
    if a.Call? && a.inside.Some? then s.callers[a.t := a.inside.value]
    else if a.ReadUnlock? || a.EndDelete? || a.EndFlush? then s.callers - {a.t}
    else s.callers
  }

  function DeletionsAfter(c: Config, s: State, a: Action): seq<Deletion>
    requires Enabled(c, s, a)
  {
    if a.EndDelete? then s.deletions + [Deletion(s.calls[a.t].matcher, s.clock)]
    else if a.EndFlush? then s.deletions + [Deletion(k => true, s.clock)]
    else s.deletions
  }

  function Apply(c: Config, s: State, a: Action): State
    requires Enabled(c, s, a)
  {
    State(if Ambient(a) then s.calls else s.calls[a.t := PcAfter(c, s, a)],
          ItemsAfter(c, s, a), ExpiredAfter(c, s, a), ReadersAfter(c, s, a), WriterAfter(s, a), KeyLocksAfter(c, s, a),
          CallersAfter(s, a), s.clock + 1, DeletionsAfter(c, s, a), a.Panic?)
  }

  /*** The invariant ***/

  // Has announced itself or holds the write lock.
  predicate IsWriter(pc: Pc) {
    IsWaiting(pc) || HoldsWrite(pc)
  }

  predicate IsWaiting(pc: Pc) {
    pc.Waiting? || pc.DelWaiting? || pc.FlushWaiting?
  }

  predicate HoldsWrite(pc: Pc) {
    pc.Evicting? || pc.Deleting? || pc.Flushing?
  }

  predicate HoldsRead(pc: Pc) {
    !pc.Idle? && !pc.Entering? && !pc.Dropped? && !pc.Evicted? && !IsWriter(pc)
  }

  predicate HoldsKey(pc: Pc) {
    !pc.Idle? && !pc.Entering? && !pc.WantKey? && !pc.KeyReleased? && !pc.Deleting? && !pc.Flushing? && !pc.DelWaiting?
        && !pc.FlushWaiting?
  }

  // What call t holds is what its place says it holds.
  predicate HoldsItsLocks(c: Config, s: State, t: nat)
    requires t in s.calls
  {
    HoldsCacheLock(s, t) && HoldsKeyLock(c, s, t)
  }

  predicate HoldsCacheLock(s: State, t: nat)
    requires t in s.calls
  {
    var pc := s.calls[t];
    && (t in s.readers <==> HoldsRead(pc))
    && (s.writer == Some(t) <==> IsWriter(pc))
    && (HoldsWrite(pc) ==> s.readers == {})
  }

  predicate HoldsKeyLock(c: Config, s: State, t: nat)
    requires t in s.calls
  {
    var pc := s.calls[t];
    HoldsKey(pc) ==> c.lockOf(pc.key) in s.keyLocks && s.keyLocks[c.lockOf(pc.key)] == t
  }

  // A key's lock is held by a call whose place says so.
  predicate KeyHeld(c: Config, s: State, l: nat)
    requires l in s.keyLocks
  {
    s.keyLocks[l] in s.calls && HoldsKey(s.calls[s.keyLocks[l]]) && c.lockOf(s.calls[s.keyLocks[l]].key) == l
  }

  // An inner call is under way, inside a generateValue that has not returned.
  predicate CalledFrom(s: State, u: nat)
    requires u in s.callers
  {
    && u in s.calls && !s.calls[u].Idle?
    && s.callers[u] in s.calls && s.calls[s.callers[u]].Generating?
  }

  ghost predicate Nested(s: State) {
    forall u :: u in s.callers ==> CalledFrom(s, u)
  }

  ghost predicate Locked(c: Config, s: State) {
    && s.readers <= s.calls.Keys
    && (s.writer.Some? ==> s.writer.value in s.calls)
    && (forall l :: l in s.keyLocks ==> KeyHeld(c, s, l))
    && (forall t :: t in s.calls ==> HoldsItsLocks(c, s, t))
  }

  // Born after every finished deletion that matches the key.
  ghost predicate Fresh(s: State, key: Key, born: nat) {
    born < s.clock && forall d :: d in s.deletions && d.matcher(key) ==> d.released < born
  }

  // The value a call is about to store, as its birth.
  predicate InFlight(pc: Pc) {
    pc.Hit? || pc.Generating? || pc.Generated?
  }

  function Birth(pc: Pc): nat
    requires InFlight(pc)
  {
    if pc.Generating? then pc.start else pc.item.born
  }

  ghost predicate FreshCall(s: State, t: nat)
    requires t in s.calls
  {
    var pc := s.calls[t];
    && (InFlight(pc) ==> Fresh(s, pc.key, Birth(pc)))
    && (pc.Deleting? ==> forall k :: k in s.items && pc.matcher(k) ==> k in pc.todo)
  }

  ghost predicate AllFresh(s: State) {
    && (forall d :: d in s.deletions ==> d.released < s.clock)
    && (forall k :: k in s.items ==> Fresh(s, k, s.items[k].born))
    && (forall t :: t in s.calls ==> FreshCall(s, t))
  }

  ghost predicate Inv(c: Config, s: State) {
    Locked(c, s) && Nested(s) && AllFresh(s) && s.expired !! s.items.Keys
  }

  function Init(calls: set<nat>): State {
    State(map t | t in calls :: Idle, map[], {}, {}, None, map[], map[], 0, [], false)
  }

  predicate Acts(a: Action, t: nat) {
    !Ambient(a) && a.t == t
  }

  // The acting call ends up holding what its new place says.
  lemma ActorHolds(c: Config, s: State, a: Action)
    requires Locked(c, s) && Enabled(c, s, a) && !Ambient(a)
    ensures HoldsItsLocks(c, Apply(c, s, a), a.t)
  {
    assert HoldsItsLocks(c, s, a.t);
    ActorHoldsCacheLock(c, s, a);
    ActorHoldsKeyLock(c, s, a);
  }

  lemma ActorHoldsCacheLock(c: Config, s: State, a: Action)
    requires Enabled(c, s, a) && !Ambient(a) && HoldsCacheLock(s, a.t)
    ensures HoldsCacheLock(Apply(c, s, a), a.t)
  {
    hide PcAfter, ReadersAfter, WriterAfter, IsWriter, HoldsRead, HoldsWrite;
    ActorReads(c, s, a);
    ActorWrites(c, s, a);
    ActorExcludes(c, s, a);
  }

  lemma ActorReads(c: Config, s: State, a: Action)
    requires Enabled(c, s, a) && !Ambient(a) && HoldsCacheLock(s, a.t)
    ensures a.t in ReadersAfter(c, s, a) <==> HoldsRead(PcAfter(c, s, a))
  {
  }

  lemma ActorWrites(c: Config, s: State, a: Action)
    requires Enabled(c, s, a) && !Ambient(a) && HoldsCacheLock(s, a.t)
    ensures WriterAfter(s, a) == Some(a.t) <==> IsWriter(PcAfter(c, s, a))
  {
  }

  lemma ActorExcludes(c: Config, s: State, a: Action)
    requires Enabled(c, s, a) && !Ambient(a) && HoldsCacheLock(s, a.t)
    ensures HoldsWrite(PcAfter(c, s, a)) ==> ReadersAfter(c, s, a) == {}
  {
  }

  lemma ActorHoldsKeyLock(c: Config, s: State, a: Action)
    requires Enabled(c, s, a) && !Ambient(a) && HoldsKeyLock(c, s, a.t)
    ensures HoldsKeyLock(c, Apply(c, s, a), a.t)
  {
  }

  // The others keep what they hold.
  lemma OtherHolds(c: Config, s: State, a: Action, u: nat)
    requires Locked(c, s) && Enabled(c, s, a) && u in s.calls && !Acts(a, u)
    ensures HoldsItsLocks(c, Apply(c, s, a), u)
  {
    assert HoldsItsLocks(c, s, u);
    if !Ambient(a) { assert HoldsItsLocks(c, s, a.t); }
    OtherHoldsCacheLock(c, s, a, u);
    OtherHoldsKeyLock(c, s, a, u);
  }

  lemma OtherHoldsCacheLock(c: Config, s: State, a: Action, u: nat)
    requires Enabled(c, s, a) && u in s.calls && !Acts(a, u) && HoldsCacheLock(s, u)
    requires !Ambient(a) ==> HoldsCacheLock(s, a.t)
    ensures HoldsCacheLock(Apply(c, s, a), u)
  {
  }

  lemma OtherHoldsKeyLock(c: Config, s: State, a: Action, u: nat)
    requires Enabled(c, s, a) && u in s.calls && !Acts(a, u) && HoldsKeyLock(c, s, u)
    requires !Ambient(a) ==> HoldsKeyLock(c, s, a.t)
    ensures HoldsKeyLock(c, Apply(c, s, a), u)
  {
  }

  lemma KeysHeldStep(c: Config, s: State, a: Action, l: nat)
    requires Locked(c, s) && Enabled(c, s, a) && l in Apply(c, s, a).keyLocks
    ensures KeyHeld(c, Apply(c, s, a), l)
  {
    if !Ambient(a) { assert HoldsItsLocks(c, s, a.t); }
    KeyHeldAfter(c, s, a, l);
  }

  lemma KeyHeldAfter(c: Config, s: State, a: Action, l: nat)
    requires Enabled(c, s, a) && l in Apply(c, s, a).keyLocks && (l in s.keyLocks ==> KeyHeld(c, s, l))
    requires !Ambient(a) ==> HoldsKeyLock(c, s, a.t)
    ensures KeyHeld(c, Apply(c, s, a), l)
  {
  }

  lemma LockedStep(c: Config, s: State, a: Action)
    requires Locked(c, s) && Enabled(c, s, a)
    ensures Locked(c, Apply(c, s, a))
  {
    hide HoldsItsLocks, KeyHeld;
    forall l | l in Apply(c, s, a).keyLocks ensures KeyHeld(c, Apply(c, s, a), l) { KeysHeldStep(c, s, a, l); }
    forall u | u in Apply(c, s, a).calls ensures HoldsItsLocks(c, Apply(c, s, a), u) {
      if Acts(a, u) { ActorHolds(c, s, a); } else { OtherHolds(c, s, a, u); }
    }
  }

  // Nobody carries a value while another call holds the write lock.
  lemma WriterSeesNoneInFlight(c: Config, s: State, t: nat, u: nat)
    requires Locked(c, s) && t in s.calls && HoldsWrite(s.calls[t]) && u in s.calls
    ensures !HoldsRead(s.calls[u])
  {
    assert HoldsItsLocks(c, s, t) && HoldsItsLocks(c, s, u);
  }

  // Only the end of a Delete or Flush adds a deletion.
  predicate Finishes(a: Action) {
    a.EndDelete? || a.EndFlush?
  }

  lemma DeletionsKept(c: Config, s: State, a: Action)
    requires Enabled(c, s, a) && !Finishes(a)
    ensures Apply(c, s, a).deletions == s.deletions && Apply(c, s, a).clock == s.clock + 1
  {
  }

  // Every item after a step was there before, or was carried by the acting call.
  lemma ItemsFrom(c: Config, s: State, a: Action, k: Key)
    requires Enabled(c, s, a) && k in Apply(c, s, a).items
    ensures var it := Apply(c, s, a).items[k];
      || (k in s.items && s.items[k] == it)
      || ((a.ReSet? || a.Store?) && s.calls[a.t].key == k && s.calls[a.t].item == it)
  {
  }

  // The value a call carries after a step: carried before, just found, or just begun.
  lemma CarriedFrom(c: Config, s: State, a: Action, u: nat)
    requires Enabled(c, s, a) && u in s.calls && InFlight(Apply(c, s, a).calls[u])
    ensures var pc, was := Apply(c, s, a).calls[u], s.calls[u];
      || (InFlight(was) && was.key == pc.key && Birth(was) == Birth(pc))
      || (a.Lookup? && pc.key in s.items && s.items[pc.key].born == Birth(pc))
      || (a.BeginGenerate? && a.t == u && Birth(pc) == s.clock)
  {
  }

  lemma FreshNext(s: State, s': State, k: Key, born: nat)
    requires Fresh(s, k, born) && s'.deletions == s.deletions && s'.clock == s.clock + 1
    ensures Fresh(s', k, born)
  {
  }

  lemma ItemFreshStep(c: Config, s: State, a: Action, k: Key)
    requires Inv(c, s) && Enabled(c, s, a) && !Finishes(a) && k in Apply(c, s, a).items
    ensures Fresh(Apply(c, s, a), k, Apply(c, s, a).items[k].born)
  {
    ItemsFrom(c, s, a, k);
    DeletionsKept(c, s, a);
    if !Ambient(a) { assert FreshCall(s, a.t); }
    FreshNext(s, Apply(c, s, a), k, Apply(c, s, a).items[k].born);
  }

  lemma CallFreshStep(c: Config, s: State, a: Action, u: nat)
    requires Inv(c, s) && Enabled(c, s, a) && !Finishes(a) && u in s.calls
    ensures var pc := Apply(c, s, a).calls[u];
      InFlight(pc) ==> Fresh(Apply(c, s, a), pc.key, Birth(pc))
  {
    var pc := Apply(c, s, a).calls[u];
    if InFlight(pc) {
      CarriedFrom(c, s, a, u);
      DeletionsKept(c, s, a);
      assert FreshCall(s, u);
      if a.BeginGenerate? && a.t == u && Birth(pc) == s.clock {
      } else {
        FreshNext(s, Apply(c, s, a), pc.key, Birth(pc));
      }
    }
  }

  // Only a call inside the read lock puts an item in.
  lemma PutsNeedReadLock(c: Config, s: State, a: Action, k: Key)
    requires Enabled(c, s, a) && k in Apply(c, s, a).items && k !in s.items
    ensures !Ambient(a) && HoldsRead(s.calls[a.t])
  {
    ItemsFrom(c, s, a, k);
  }

  // What a Delete has still to look at covers every matching item.
  lemma TodoStep(c: Config, s: State, a: Action, u: nat)
    requires Inv(c, s) && Enabled(c, s, a) && u in s.calls
    ensures var s', pc := Apply(c, s, a), Apply(c, s, a).calls[u];
      pc.Deleting? ==> forall k :: k in s'.items && pc.matcher(k) ==> k in pc.todo
  {
    var s', pc := Apply(c, s, a), Apply(c, s, a).calls[u];
    if pc.Deleting? {
      forall k | k in s'.items && pc.matcher(k) ensures k in pc.todo {
        if k !in s.items { PutsNeedReadLock(c, s, a, k); }
        TodoOne(c, s, a, u, k);
      }
    }
  }

  // A Delete under way was under way, perhaps with one more key to look at, or has just begun.
  lemma DeletingFrom(c: Config, s: State, a: Action, u: nat)
    requires Enabled(c, s, a) && u in s.calls && Apply(c, s, a).calls[u].Deleting?
    ensures var pc, was := Apply(c, s, a).calls[u], s.calls[u];
      || (was.Deleting? && pc == was)
      || (was.Deleting? && a == DeleteOne(u, a.key) && pc == Deleting(was.matcher, was.todo - {a.key}))
      || (a.Acquire? && a.t == u && pc.todo == s.items.Keys)
  {
  }

  lemma TodoOne(c: Config, s: State, a: Action, u: nat, k: Key)
    requires Inv(c, s) && Enabled(c, s, a) && u in s.calls
    requires var pc := Apply(c, s, a).calls[u]; pc.Deleting? && pc.matcher(k) && k in Apply(c, s, a).items
    requires k in s.items || (!Ambient(a) && HoldsRead(s.calls[a.t]))
    ensures k in Apply(c, s, a).calls[u].todo
  {
    hide Locked, Fresh, PcAfter;
    assert FreshCall(s, u);
    DeletingFrom(c, s, a, u);
    if s.calls[u].Deleting? && !Ambient(a) { WriterSeesNoneInFlight(c, s, u, a.t); }
  }

  // At the end of a Delete no matching item is left, and no call carries a value.
  lemma FinishFresh(c: Config, s: State, a: Action)
    requires Inv(c, s) && Enabled(c, s, a) && Finishes(a)
    ensures AllFresh(Apply(c, s, a))
  {
    var s' := Apply(c, s, a);
    assert FreshCall(s, a.t);
    forall k | k in s'.items ensures Fresh(s', k, s'.items[k].born) {
      assert Fresh(s, k, s.items[k].born);
    }
    forall u | u in s'.calls ensures FreshCall(s', u) {
      WriterSeesNoneInFlight(c, s, a.t, u);
      TodoStep(c, s, a, u);
    }
  }

  lemma FreshStep(c: Config, s: State, a: Action)
    requires Inv(c, s) && Enabled(c, s, a)
    ensures AllFresh(Apply(c, s, a))
  {
    if Finishes(a) {
      FinishFresh(c, s, a);
    } else {
      var s' := Apply(c, s, a);
      DeletionsKept(c, s, a);
      forall k | k in s'.items ensures Fresh(s', k, s'.items[k].born) { ItemFreshStep(c, s, a, k); }
      forall u | u in s'.calls ensures FreshCall(s', u) {
        CallsKept(c, s, a);
        CallFreshStep(c, s, a, u);
        TodoStep(c, s, a, u);
      }
    }
  }

  lemma CallsKept(c: Config, s: State, a: Action)
    requires Enabled(c, s, a)
    ensures Apply(c, s, a).calls.Keys == s.calls.Keys
  {
  }

  /** Every step of every call keeps the invariant. */
  lemma StepInv(c: Config, s: State, a: Action)
    requires Inv(c, s) && Enabled(c, s, a)
    ensures Inv(c, Apply(c, s, a))
  {
    LockedStep(c, s, a);
    NestedStep(c, s, a);
    FreshStep(c, s, a);
    ExpiredApart(c, s, a);
  }

  lemma NestedStep(c: Config, s: State, a: Action)
    requires Nested(s) && Enabled(c, s, a)
    ensures Nested(Apply(c, s, a))
  {
    forall u | u in Apply(c, s, a).callers ensures CalledFrom(Apply(c, s, a), u) {
      if u in s.callers { assert CalledFrom(s, u); }
    }
  }

  lemma ExpiredApart(c: Config, s: State, a: Action)
    requires s.expired !! s.items.Keys && Enabled(c, s, a)
    ensures Apply(c, s, a).expired !! Apply(c, s, a).items.Keys
  {
  }

  /*** Whole runs ***/

  // ss[i] is the state before action acts[i]; the clock counts actions.
  ghost predicate IsRun(c: Config, calls: set<nat>, ss: seq<State>, acts: seq<Action>) {
    && |ss| == |acts| + 1
    && ss[0] == Init(calls)
    && forall i :: 0 <= i < |acts| ==> Enabled(c, ss[i], acts[i]) && ss[i + 1] == Apply(c, ss[i], acts[i])
  }

  lemma InitInv(c: Config, calls: set<nat>)
    ensures Inv(c, Init(calls))
  {
  }

  lemma {:induction false} RunInv(c: Config, calls: set<nat>, ss: seq<State>, acts: seq<Action>, j: nat)
    requires IsRun(c, calls, ss, acts) && j < |ss|
    ensures Inv(c, ss[j]) && ss[j].clock == j
  {
    if j == 0 {
      InitInv(c, calls);
    } else {
      RunInv(c, calls, ss, acts, j - 1);
      assert ss[j - 1 + 1] == Apply(c, ss[j - 1], acts[j - 1]);
      StepInv(c, ss[j - 1], acts[j - 1]);
    }
  }

  // Action b is the beginning of a generateValue call for the key.
  predicate BeginsFor(ss: seq<State>, acts: seq<Action>, b: nat, key: Key) {
    b < |acts| && b < |ss| && acts[b].BeginGenerate? && acts[b].t in ss[b].calls
        && ss[b].calls[acts[b].t] == Ready(key)
  }

  // The value with this birth is cached under the key, or about to be.
  predicate Present(s: State, key: Key, born: nat) {
    || (key in s.items && s.items[key].born == born)
    || exists t :: t in s.calls && InFlight(s.calls[t]) && s.calls[t].key == key && Birth(s.calls[t]) == born
  }

  // A present value was present one step earlier, or its generation begins with this step.
  lemma PresentFrom(c: Config, s: State, a: Action, key: Key, born: nat)
    requires Enabled(c, s, a) && Present(Apply(c, s, a), key, born)
    ensures Present(s, key, born) || (a.BeginGenerate? && s.calls[a.t] == Ready(key) && born == s.clock)
  {
    var s' := Apply(c, s, a);
    CallsKept(c, s, a);
    if key in s'.items && s'.items[key].born == born {
      ItemsFrom(c, s, a, key);
    } else {
      var t :| t in s'.calls && InFlight(s'.calls[t]) && s'.calls[t].key == key && Birth(s'.calls[t]) == born;
      CarriedFrom(c, s, a, t);
    }
  }

  lemma {:induction false} PresentWasBegun(c: Config, calls: set<nat>, ss: seq<State>, acts: seq<Action>, j: nat,
                                           key: Key, born: nat)
    requires IsRun(c, calls, ss, acts) && j < |ss| && Present(ss[j], key, born)
    ensures born < j && BeginsFor(ss, acts, born, key)
  {
    hide Inv, Enabled, Apply;
    if j == 0 {
      NothingPresent(calls, key, born);
    } else {
      assert Enabled(c, ss[j - 1], acts[j - 1]) && ss[j - 1 + 1] == Apply(c, ss[j - 1], acts[j - 1]);
      PresentFrom(c, ss[j - 1], acts[j - 1], key, born);
      if Present(ss[j - 1], key, born) {
        PresentWasBegun(c, calls, ss, acts, j - 1, key, born);
      } else {
        RunInv(c, calls, ss, acts, j - 1);
        ActingCalls(c, ss[j - 1], acts[j - 1]);
      }
    }
  }

  lemma NothingPresent(calls: set<nat>, key: Key, born: nat)
    ensures !Present(Init(calls), key, born)
  {
  }

  lemma ActingCalls(c: Config, s: State, a: Action)
    requires Enabled(c, s, a) && !Ambient(a)
    ensures a.t in s.calls
  {
  }

  // Action i releases the write lock of a Delete (or Flush) that matches the key.
  predicate DeletedAt(ss: seq<State>, acts: seq<Action>, i: nat, key: Key) {
    && i < |acts| && i < |ss| && Finishes(acts[i])
    && (acts[i].EndDelete? ==>
          acts[i].t in ss[i].calls && ss[i].calls[acts[i].t].Deleting? && ss[i].calls[acts[i].t].matcher(key))
  }

  ghost predicate Recorded(s: State, i: nat, key: Key) {
    exists n :: 0 <= n < |s.deletions| && s.deletions[n].released == i && s.deletions[n].matcher(key)
  }

  lemma RecordedStep(c: Config, s: State, a: Action, i: nat, key: Key)
    requires Enabled(c, s, a) && Recorded(s, i, key)
    ensures Recorded(Apply(c, s, a), i, key)
  {
    var n :| 0 <= n < |s.deletions| && s.deletions[n].released == i && s.deletions[n].matcher(key);
    if Finishes(a) {
      assert Apply(c, s, a).deletions[n] == s.deletions[n];
    } else {
      DeletionsKept(c, s, a);
    }
  }

  lemma {:induction false} DeletionRecorded(c: Config, calls: set<nat>, ss: seq<State>, acts: seq<Action>, i: nat,
                                            j: nat, key: Key)
    requires IsRun(c, calls, ss, acts) && i < j < |ss| && DeletedAt(ss, acts, i, key)
    ensures Recorded(ss[j], i, key)
    decreases j
  {
    assert Enabled(c, ss[j - 1], acts[j - 1]) && ss[j - 1 + 1] == Apply(c, ss[j - 1], acts[j - 1]);
    if i == j - 1 {
      RunInv(c, calls, ss, acts, i);
      var n := |ss[i].deletions|;
      assert ss[j].deletions[n].released == i && ss[j].deletions[n].matcher(key);
    } else {
      DeletionRecorded(c, calls, ss, acts, i, j - 1, key);
      RecordedStep(c, ss[j - 1], acts[j - 1], i, key);
    }
  }

  /** In every interleaving: whatever is cached under a matching key after a Delete or Flush
      has released its lock, or is held by a call that will return or store it, comes from
      a generateValue call for that key that began after the release. */
  lemma NoStaleValue(c: Config, calls: set<nat>, ss: seq<State>, acts: seq<Action>, i: nat, j: nat, key: Key,
                     born: nat)
    requires IsRun(c, calls, ss, acts) && i < j < |ss|
    requires DeletedAt(ss, acts, i, key) && Present(ss[j], key, born)
    ensures i < born < j && BeginsFor(ss, acts, born, key)
  {
    PresentWasBegun(c, calls, ss, acts, j, key, born);
    DeletionRecorded(c, calls, ss, acts, i, j, key);
    RunInv(c, calls, ss, acts, j);
    if !(key in ss[j].items && ss[j].items[key].born == born) {
      var t :| t in ss[j].calls && InFlight(ss[j].calls[t]) && ss[j].calls[t].key == key
          && Birth(ss[j].calls[t]) == born;
      assert FreshCall(ss[j], t);
    }
  }

  // Between a miss and the Set that answers it.
  predicate FromMissToSet(pc: Pc) {
    pc.Missed? || pc.Dropped? || pc.Waiting? || pc.Evicting? || pc.Evicted? || pc.Ready? || pc.Generating?
        || pc.Generated?
  }

  /** In every interleaving at most one call is between a miss on a key and the Set for it,
      the eviction gap included. */
  lemma SingleFlight(c: Config, calls: set<nat>, ss: seq<State>, acts: seq<Action>, j: nat, t: nat, u: nat)
    requires IsRun(c, calls, ss, acts) && j < |ss| && t in ss[j].calls && u in ss[j].calls
    requires FromMissToSet(ss[j].calls[t]) && FromMissToSet(ss[j].calls[u])
    requires ss[j].calls[t].key == ss[j].calls[u].key
    ensures t == u
  {
    RunInv(c, calls, ss, acts, j);
    assert HoldsItsLocks(c, ss[j], t) && HoldsItsLocks(c, ss[j], u);
  }

  /** Readers and a writer never overlap: nothing touches the items while a Delete, a Flush
      or an eviction holds the write lock. */
  lemma WriterAlone(c: Config, calls: set<nat>, ss: seq<State>, acts: seq<Action>, j: nat, t: nat, u: nat)
    requires IsRun(c, calls, ss, acts) && j < |ss| && t in ss[j].calls && u in ss[j].calls && t != u
    requires HoldsWrite(ss[j].calls[t])
    ensures !HoldsRead(ss[j].calls[u]) && !HoldsWrite(ss[j].calls[u])
  {
    RunInv(c, calls, ss, acts, j);
    WriterSeesNoneInFlight(c, ss[j], t, u);
    assert HoldsItsLocks(c, ss[j], t) && HoldsItsLocks(c, ss[j], u);
  }
}
