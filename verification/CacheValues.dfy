/** What calls of the in-memory cache find, store and delete (datastore/cache.go), over whole runs. */
module CacheValues {
  import opened Options
  import opened MemCache

  /*** Hits ***/

  /** A lookup of a stored key is a hit, with the item that is stored; of any other a miss. */
  lemma LookupAnswers(c: Config, s: State, t: nat)
    requires Enabled(c, s, Lookup(t))
    ensures var pc, next := s.calls[t], Apply(c, s, Lookup(t)).calls[t];
      next == if pc.key in s.items then Hit(pc.key, pc.reset, s.items[pc.key]) else Missed(pc.key)
  {
  }

  // Done with the lookup, or still holding what it found.
  predicate Answered(pc: Pc, key: Key, item: Item) {
    pc == Leaving(key) || pc == KeyReleased || (pc.Hit? && pc.key == key && pc.item == item)
  }

  lemma AnsweredStep(c: Config, s: State, a: Action, t: nat, key: Key, item: Item)
    requires Enabled(c, s, a) && t in s.calls && Answered(s.calls[t], key, item) && a != ReadUnlock(t)
    ensures t in Apply(c, s, a).calls && Answered(Apply(c, s, a).calls[t], key, item)
  {
  }

  /** Until it returns, a call that found its key holds what was stored or is on its way out; in
      particular it does not generate. */
  lemma {:induction false} HitAnswers(c: Config, calls: set<nat>, ss: seq<State>, acts: seq<Action>, t: nat, i: nat,
                                      j: nat)
    requires IsRun(c, calls, ss, acts) && i < j < |ss| && acts[i] == Lookup(t) && t in ss[i].calls
    requires ss[i].calls[t].Looking? && ss[i].calls[t].key in ss[i].items
    requires forall k :: i < k < j ==> acts[k] != ReadUnlock(t)
    ensures var key := ss[i].calls[t].key;
      t in ss[j].calls && Answered(ss[j].calls[t], key, ss[i].items[key])
    ensures j < |acts| ==> acts[j] != BeginGenerate(t)
    decreases j
  {
    assert Enabled(c, ss[j - 1], acts[j - 1]) && ss[j - 1 + 1] == Apply(c, ss[j - 1], acts[j - 1]);
    assert j < |acts| ==> Enabled(c, ss[j], acts[j]);
    var key := ss[i].calls[t].key;
    if j - 1 == i {
      LookupAnswers(c, ss[i], t);
    } else {
      HitAnswers(c, calls, ss, acts, t, i, j - 1);
      AnsweredStep(c, ss[j - 1], acts[j - 1], t, key, ss[i].items[key]);
    }
  }

  /*** What is stored ***/

  /** Set puts what the call generated under its key, and touches nothing else. */
  lemma StorePuts(c: Config, s: State, t: nat)
    requires Enabled(c, s, Store(t))
    ensures s.calls[t].Generated? && Apply(c, s, Store(t)).items == s.items[s.calls[t].key := s.calls[t].item]
  {
  }

  // Action e ends the generation of this item for the key.
  predicate MadeAt(ss: seq<State>, acts: seq<Action>, e: nat, key: Key, item: Item) {
    && e < |acts| && e < |ss| && acts[e].EndGenerate? && acts[e].value == item.value
    && acts[e].t in ss[e].calls && ss[e].calls[acts[e].t] == Generating(key, item.born)
  }

  predicate Carries(pc: Pc, key: Key, item: Item) {
    (pc.Hit? || pc.Generated?) && pc.key == key && pc.item == item
  }

  // The item is stored under the key, or a call has it in hand.
  predicate HasItem(s: State, key: Key, item: Item) {
    || (key in s.items && s.items[key] == item)
    || exists t :: t in s.calls && Carries(s.calls[t], key, item)
  }

  lemma CarriedItem(c: Config, s: State, a: Action, t: nat, key: Key, item: Item)
    requires Enabled(c, s, a) && t in s.calls && Carries(Apply(c, s, a).calls[t], key, item)
    ensures || Carries(s.calls[t], key, item) || (key in s.items && s.items[key] == item)
            || (a.EndGenerate? && a.t == t && a.value == item.value && s.calls[t] == Generating(key, item.born))
  {
  }

  lemma StoredItem(c: Config, s: State, a: Action, key: Key)
    requires Enabled(c, s, a) && key in Apply(c, s, a).items
    ensures HasItem(s, key, Apply(c, s, a).items[key])
  {
    var item := Apply(c, s, a).items[key];
    ItemsFrom(c, s, a, key);
    if !(key in s.items && s.items[key] == item) { assert a.t in s.calls && Carries(s.calls[a.t], key, item); }
  }

  lemma ItemStep(c: Config, s: State, a: Action, key: Key, item: Item)
    requires Enabled(c, s, a) && HasItem(Apply(c, s, a), key, item)
    ensures HasItem(s, key, item)
         || (a.EndGenerate? && a.value == item.value && a.t in s.calls && s.calls[a.t] == Generating(key, item.born))
  {
    hide Enabled, Apply, Carries;
    if key in Apply(c, s, a).items && Apply(c, s, a).items[key] == item {
      StoredItem(c, s, a, key);
    } else {
      var t :| t in Apply(c, s, a).calls && Carries(Apply(c, s, a).calls[t], key, item);
      CallsKept(c, s, a);
      CarriedItem(c, s, a, t, key, item);
    }
  }

  /** In every interleaving what is stored under a key, or found under it, is the value that a
      generateValue for that very key has returned. */
  lemma {:induction false} StoredWasGenerated(c: Config, calls: set<nat>, ss: seq<State>, acts: seq<Action>, j: nat,
                                              key: Key, item: Item) returns (e: nat)
    requires IsRun(c, calls, ss, acts) && j < |ss| && HasItem(ss[j], key, item)
    ensures e < j && MadeAt(ss, acts, e, key, item)
  {
    hide Enabled, Apply, HasItem;
    e := 0;
    if j == 0 {
      NoItems(calls, key, item);
    } else {
      assert Enabled(c, ss[j - 1], acts[j - 1]) && ss[j - 1 + 1] == Apply(c, ss[j - 1], acts[j - 1]);
      ItemStep(c, ss[j - 1], acts[j - 1], key, item);
      if HasItem(ss[j - 1], key, item) {
        e := StoredWasGenerated(c, calls, ss, acts, j - 1, key, item);
      } else {
        e := j - 1;
      }
    }
  }

  lemma NoItems(calls: set<nat>, key: Key, item: Item)
    ensures !HasItem(Init(calls), key, item)
  {
  }

  /*** What a Delete leaves ***/

  // t is in a Delete with this matcher, and k is stored as it was.
  ghost predicate Spares(s: State, t: nat, matcher: Key -> bool, k: Key, item: Item) {
    && t in s.calls && s.calls[t].Deleting? && s.calls[t].matcher == matcher
    && k in s.items && s.items[k] == item
  }

  // Nobody else changes the items while t deletes.
  lemma OthersLeaveItems(c: Config, s: State, a: Action, t: nat)
    requires Inv(c, s) && Enabled(c, s, a) && t in s.calls && s.calls[t].Deleting? && !Acts(a, t) && !a.Expire?
    ensures Apply(c, s, a).items == s.items && Apply(c, s, a).calls[t] == s.calls[t]
  {
    hide AllFresh;
    assert HoldsItsLocks(c, s, t);
    if !Ambient(a) { assert HoldsItsLocks(c, s, a.t); }
  }

  lemma SparesStep(c: Config, s: State, a: Action, t: nat, matcher: Key -> bool, k: Key, item: Item)
    requires Inv(c, s) && Enabled(c, s, a) && Spares(s, t, matcher, k, item) && !matcher(k)
    requires a != Expire(k) && a != EndDelete(t)
    ensures Spares(Apply(c, s, a), t, matcher, k, item)
  {
    hide Inv;
    if !Acts(a, t) && !a.Expire? { OthersLeaveItems(c, s, a, t); }
  }

  lemma SparesAtStart(c: Config, s: State, t: nat, k: Key)
    requires Enabled(c, s, Acquire(t)) && s.calls[t].DelWaiting? && k in s.items
    ensures Spares(Apply(c, s, Acquire(t)), t, s.calls[t].matcher, k, s.items[k])
  {
  }

  lemma EndDeleteKeeps(c: Config, s: State, t: nat)
    requires Enabled(c, s, EndDelete(t))
    ensures Apply(c, s, EndDelete(t)).items == s.items
  {
  }

  // From i up to j the Delete does not end, and k does not expire.
  predicate GoesOn(acts: seq<Action>, t: nat, k: Key, i: nat, j: nat) {
    j <= |acts| && forall m :: i <= m < j ==> acts[m] != EndDelete(t) && acts[m] != Expire(k)
  }

  lemma {:induction false} SparesOn(c: Config, calls: set<nat>, ss: seq<State>, acts: seq<Action>, t: nat, k: Key,
                                    matcher: Key -> bool, item: Item, i: nat, j: nat)
    requires IsRun(c, calls, ss, acts) && i <= j < |ss| && GoesOn(acts, t, k, i, j)
    requires Spares(ss[i], t, matcher, k, item) && !matcher(k)
    ensures Spares(ss[j], t, matcher, k, item)
    decreases j
  {
    hide Enabled, Apply, Inv, Spares;
    if i < j {
      assert Enabled(c, ss[j - 1], acts[j - 1]) && ss[j - 1 + 1] == Apply(c, ss[j - 1], acts[j - 1]);
      SparesOn(c, calls, ss, acts, t, k, matcher, item, i, j - 1);
      RunInv(c, calls, ss, acts, j - 1);
      hide IsRun;
      SparesStep(c, ss[j - 1], acts[j - 1], t, matcher, k, item);
    }
  }

  /** From the moment a Delete gets the lock until it has given it back, what does not match and does
      not expire stays as it was. */
  lemma DeleteSpares(c: Config, calls: set<nat>, ss: seq<State>, acts: seq<Action>, t: nat, k: Key, i: nat, j: nat)
    requires IsRun(c, calls, ss, acts) && i < j < |acts| && acts[i] == Acquire(t) && acts[j] == EndDelete(t)
    requires t in ss[i].calls && ss[i].calls[t].DelWaiting? && k in ss[i].items && !ss[i].calls[t].matcher(k)
    requires GoesOn(acts, t, k, i + 1, j)
    ensures k in ss[j + 1].items && ss[j + 1].items[k] == ss[i].items[k]
  {
    assert Enabled(c, ss[i], acts[i]) && ss[i + 1] == Apply(c, ss[i], acts[i]);
    assert Enabled(c, ss[j], acts[j]) && ss[j + 1] == Apply(c, ss[j], acts[j]);
    hide Enabled, Apply;
    SparesAtStart(c, ss[i], t, k);
    SparesOn(c, calls, ss, acts, t, k, ss[i].calls[t].matcher, ss[i].items[k], i + 1, j);
    EndDeleteKeeps(c, ss[j], t);
  }
}
