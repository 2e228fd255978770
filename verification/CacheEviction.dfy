/** Which item a full cache drops (deleteClosestToExpiration in datastore/cache.go). */
module CacheEviction {
  import opened Options

  const MAX_INT64 := 0x7FFF_FFFF_FFFF_FFFF

  // Expiry as a Unix time in nanoseconds; 0 for never.
  datatype Stored = Stored(value: int, expiration: int) {
    predicate Alive(now: int) { expiration == 0 || expiration > now }
    predicate Never() { expiration == 0 }
  }

  // The unexpired items, as the cache's Items() lists them.
  function Items(items: map<string, Stored>, now: int): map<string, Stored> {
    map k | k in items && items[k].Alive(now) :: items[k]
  }

  // The choice the loop makes: the least raw expiration among the unexpired.
  predicate IsCandidate(items: map<string, Stored>, now: int, k: string) {
    && k in Items(items, now)
    && forall j :: j in Items(items, now) ==> items[k].expiration <= items[j].expiration
  }

  /** Deletes a candidate; None stands for the panic "should have found a candidate", which
      strikes exactly when every item has expired. */
  method DeleteClosestToExpiration(items: map<string, Stored>, now: int) returns (r: Option<map<string, Stored>>)
    requires 0 < now && "" !in items && forall k :: k in items ==> 0 <= items[k].expiration <= MAX_INT64
    ensures r.None? <==> Items(items, now) == map[]
    ensures r.Some? ==> exists k :: IsCandidate(items, now, k) && r.value == items - {k}
  {
    var candidate, lowest := "", MAX_INT64;
    var listed := Items(items, now);
    var todo := listed.Keys;
    while todo != {}
      invariant todo <= listed.Keys
      invariant candidate == "" ==> todo == listed.Keys && lowest == MAX_INT64
      invariant candidate != "" ==>
        candidate in listed && candidate !in todo && lowest == listed[candidate].expiration - now
      invariant forall j :: j in listed && j !in todo ==> lowest <= listed[j].expiration - now
    {
      var k :| k in todo;
      todo := todo - {k};
      var remaining := listed[k].expiration - now;
      if remaining < lowest {
        lowest, candidate := remaining, k;
      }
    }
    if candidate == "" { return None; }
    assert IsCandidate(items, now, candidate);
    return Some(items - {candidate});
  }

  // What the documentation promises: no other item expires sooner.
  predicate ClosestToExpiration(items: map<string, Stored>, now: int, k: string) {
    && k in Items(items, now)
    && forall j :: j in Items(items, now) && !items[j].Never() ==>
      !items[k].Never() && items[k].expiration <= items[j].expiration
  }

  /** The candidate is the item closest to expiration exactly when no item lives for ever, or
      all do: otherwise one that never expires goes first. */
  lemma CandidateIsClosestIff(items: map<string, Stored>, now: int, k: string)
    requires 0 < now && IsCandidate(items, now, k) && forall j :: j in items ==> 0 <= items[j].expiration
    ensures ClosestToExpiration(items, now, k)
       <==> ((forall j :: j in Items(items, now) ==> !items[j].Never())
             || (forall j :: j in Items(items, now) ==> items[j].Never()))
  {
    if j :| j in Items(items, now) && items[j].Never() {
      assert items[k].expiration <= items[j].expiration;
    }
  }

  /** At time 1, of an item that never expires and one that expires at 2, the former is dropped. */
  lemma NeverExpiringGoesFirst()
    ensures var items := map["a" := Stored(0, 0), "b" := Stored(0, 2)];
      IsCandidate(items, 1, "a") && !ClosestToExpiration(items, 1, "a") && ClosestToExpiration(items, 1, "b")
  {
    var items := map["a" := Stored(0, 0), "b" := Stored(0, 2)];
    assert "a" != "b";
    assert Items(items, 1) == items;
    assert "b" in Items(items, 1) && !items["b"].Never() && items["a"].Never();
  }
}
