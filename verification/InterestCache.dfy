/**
 * `TimedCache` as the block-engine session uses it: a set stamps a key, a lookup answers
 * whether the stamp is young enough and throws an expired key away, a flush throws all
 * expired keys away. The history of sets is the reference the cache is proved against.
 */
module InterestCache {
  import opened Prelude

  /** One `cache_set`. */
  datatype SetEvent = SetEvent(key: Pubkey, time: Time)

  /** `stamp.elapsed().as_secs() < seconds`, with `as_secs` dropping the fraction. */
  predicate Live(stamp: Time, now: Time, ttlSecs: nat) {
    (if stamp <= now then (now - stamp) / NANOS_PER_SEC else 0) < ttlSecs
  }

  /** Dropping the fraction does not matter against a whole number of seconds. */
  lemma LiveIsWithinTtl(stamp: Time, now: Time, ttlSecs: nat)
    requires stamp <= now
    ensures Live(stamp, now, ttlSecs) <==> now - stamp < ttlSecs * NANOS_PER_SEC
  {
    var elapsed := now - stamp;
    var secs := elapsed / NANOS_PER_SEC;
    assert elapsed == secs * NANOS_PER_SEC + elapsed % NANOS_PER_SEC;
    if secs < ttlSecs {
      assert (secs + 1) * NANOS_PER_SEC <= ttlSecs * NANOS_PER_SEC;
    } else {
      assert ttlSecs * NANOS_PER_SEC <= secs * NANOS_PER_SEC;
    }
  }

  lemma LiveMonotone(stamp: Time, younger: Time, now: Time, later: Time, ttlSecs: nat)
    requires stamp <= younger && now <= later && Live(stamp, later, ttlSecs)
    ensures Live(younger, now, ttlSecs)
  {}

  predicate InStore(store: map<Pubkey, Time>, key: Pubkey, now: Time, ttlSecs: nat) {
    key in store && Live(store[key], now, ttlSecs)
  }

  /** The reference: the key was set less than the lifespan ago. */
  ghost predicate SetWithin(sets: seq<SetEvent>, key: Pubkey, now: Time, ttlSecs: nat) {
    exists i :: 0 <= i < |sets| && sets[i].key == key && Live(sets[i].time, now, ttlSecs)
  }

  /** From `now` on, the store answers what the history answers. */
  ghost predicate Agrees(store: map<Pubkey, Time>, sets: seq<SetEvent>, now: Time, ttlSecs: nat) {
    && (forall i :: 0 <= i < |sets| ==> sets[i].time <= now)
    && (forall key, t: Time :: now <= t ==> (InStore(store, key, t, ttlSecs) <==> SetWithin(sets, key, t, ttlSecs)))
  }

  lemma SetWithinFades(sets: seq<SetEvent>, key: Pubkey, now: Time, later: Time, ttlSecs: nat)
    requires now <= later && SetWithin(sets, key, later, ttlSecs)
    ensures SetWithin(sets, key, now, ttlSecs)
  {
    var i :| 0 <= i < |sets| && sets[i].key == key && Live(sets[i].time, later, ttlSecs);
    LiveMonotone(sets[i].time, sets[i].time, now, later, ttlSecs);
  }

  lemma AgreesAfterSet(store: map<Pubkey, Time>, sets: seq<SetEvent>, now: Time, ttlSecs: nat, key: Pubkey, stamp: Time)
    requires Agrees(store, sets, now, ttlSecs) && now <= stamp
    ensures Agrees(store[key := stamp], sets + [SetEvent(key, stamp)], stamp, ttlSecs)
  {
    var after := sets + [SetEvent(key, stamp)];
    forall k, t: Time | stamp <= t
      ensures InStore(store[key := stamp], k, t, ttlSecs) <==> SetWithin(after, k, t, ttlSecs)
    {
      if SetWithin(sets, k, t, ttlSecs) {
        var i :| 0 <= i < |sets| && sets[i].key == k && Live(sets[i].time, t, ttlSecs);
        assert after[i] == sets[i];
        LiveMonotone(sets[i].time, stamp, t, t, ttlSecs);
      }
      if k == key && Live(stamp, t, ttlSecs) {
        assert after[|sets|] == SetEvent(k, stamp);
      }
      if SetWithin(after, k, t, ttlSecs) && !(k == key && Live(stamp, t, ttlSecs)) {
        var i :| 0 <= i < |after| && after[i].key == k && Live(after[i].time, t, ttlSecs);
        assert sets[i] == after[i];
        assert SetWithin(sets, k, t, ttlSecs);
      }
      assert InStore(store, k, t, ttlSecs) <==> SetWithin(sets, k, t, ttlSecs);
    }
  }

  /** Throwing away expired keys, whichever and whenever, is never observable afterwards. */
  lemma AgreesAfterEviction(
      store: map<Pubkey, Time>, sets: seq<SetEvent>, now: Time, later: Time, ttlSecs: nat, kept: map<Pubkey, Time>)
    requires Agrees(store, sets, now, ttlSecs) && now <= later
    requires forall key :: key in kept ==> key in store && kept[key] == store[key]
    requires forall key :: key in store && key !in kept ==> !Live(store[key], later, ttlSecs)
    ensures Agrees(kept, sets, later, ttlSecs)
  {
    forall key, t: Time | later <= t
      ensures InStore(kept, key, t, ttlSecs) <==> SetWithin(sets, key, t, ttlSecs)
    {
      assert InStore(store, key, t, ttlSecs) <==> SetWithin(sets, key, t, ttlSecs);
      if key in store && key !in kept && Live(store[key], t, ttlSecs) {
        LiveMonotone(store[key], store[key], later, t, ttlSecs);
      }
    }
  }

  class TimedCache {
    var store: map<Pubkey, Time>
    const ttlSecs: nat
    ghost var sets: seq<SetEvent>

    ghost predicate Valid(now: Time)
      reads this
    {
      Agrees(store, sets, now, ttlSecs)
    }

    constructor (ttlSecs: nat)
      ensures this.ttlSecs == ttlSecs && sets == [] && store == map[]
      ensures Valid(0)
    {
      this.ttlSecs := ttlSecs;
      store, sets := map[], [];
    }

    method CacheSet(key: Pubkey, clock: Clock)
      requires Valid(clock.now)
      modifies this, clock
      ensures old(clock.now) <= clock.now && Valid(clock.now)
      ensures sets == old(sets) + [SetEvent(key, clock.now)]
    {
      var now := clock.Read();
      AgreesAfterSet(store, sets, old(clock.now), ttlSecs, key, now);
      store := store[key := now];
      sets := sets + [SetEvent(key, now)];
    }

    /** `cache_get(key).is_some()`: the answer depends on the history alone. */
    method CacheGet(key: Pubkey, clock: Clock) returns (found: bool)
      requires Valid(clock.now)
      modifies this`store, clock
      ensures old(clock.now) <= clock.now && Valid(clock.now)
      ensures found <==> SetWithin(sets, key, clock.now, ttlSecs)
    {
      var now := clock.Read();
      found := InStore(store, key, now, ttlSecs);
      AgreesAfterEviction(store, sets, old(clock.now), now, ttlSecs, store);
      if key in store && !found {
        AgreesAfterEviction(store, sets, now, now, ttlSecs, store - {key});
        store := store - {key};
      }
    }

    method Flush(clock: Clock)
      requires Valid(clock.now)
      modifies this`store, clock
      ensures old(clock.now) <= clock.now && Valid(clock.now)
      ensures forall key :: key in store <==> SetWithin(sets, key, clock.now, ttlSecs)
    {
      var now := clock.Read();
      var kept := map key | key in store && Live(store[key], now, ttlSecs) :: store[key];
      AgreesAfterEviction(store, sets, old(clock.now), now, ttlSecs, kept);
      store := kept;
      assert forall key :: key in store <==> InStore(store, key, now, ttlSecs);
    }
  }
}
