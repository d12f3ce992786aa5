/**
 * `filter_packets` of block_engine/src/block_engine.rs. Its lookups evict as they go and
 * short-circuit; time passes between them. The reference is a predicate over the history
 * of interest updates alone.
 */
module BlockEngineFilter {
  import opened Prelude
  import opened Sequences
  import opened Packets
  import opened Ofac
  import opened InterestCache

  /** The interest a session has been told of: every set of either cache, oldest first. */
  datatype Interest = Interest(aoi: seq<SetEvent>, poi: seq<SetEvent>, ttlSecs: nat)
  {
    ghost predicate Account(key: Pubkey, now: Time) { SetWithin(aoi, key, now, ttlSecs) }

    ghost predicate Program(key: Pubkey, now: Time) { SetWithin(poi, key, now, ttlSecs) }
  }

  /**
   * What a call runs under: the states the lookup-table cache goes through during it, each
   * table read finding the cache in one of them; the sanctioned addresses; the sticky "*".
   */
  datatype Rules = Rules(tables: CacheStates, ofac: set<Pubkey>, wildcard: bool)

  /** A static account is of interest: writable and an account of interest, or a program of interest. */
  ghost predicate StaticInterest(tx: Transaction, interest: Interest, now: Time) {
    exists i :: 0 <= i < |tx.staticKeys| && StaticKeyInterest(tx, i, interest, now)
  }

  ghost predicate StaticKeyInterest(tx: Transaction, i: nat, interest: Interest, now: Time)
    requires i < |tx.staticKeys|
  {
    || (i in tx.maybeWritable && interest.Account(tx.staticKeys[i], now))
    || interest.Program(tx.staticKeys[i], now)
  }

  /** Some index resolves to an account of interest (counted only when writable) or a program of interest. */
  ghost predicate IndexInterest(
      indexes: seq<nat>, addresses: seq<Pubkey>, writable: bool, interest: Interest, now: Time)
  {
    exists i :: 0 <= i < |indexes| && ResolvedInterest(indexes[i], addresses, writable, interest, now)
  }

  ghost predicate ResolvedInterest(index: nat, addresses: seq<Pubkey>, writable: bool, interest: Interest, now: Time) {
    && index < |addresses|
    && ((writable && interest.Account(addresses[index], now)) || interest.Program(addresses[index], now))
  }

  ghost predicate TableInterest(lookup: TableLookup, tables: TableCache, interest: Interest, now: Time) {
    && lookup.accountKey in tables
    && (|| IndexInterest(lookup.writableIndexes, tables[lookup.accountKey], true, interest, now)
        || IndexInterest(lookup.readonlyIndexes, tables[lookup.accountKey], false, interest, now))
  }

  ghost predicate LookupInterest(tx: Transaction, tables: TableCache, interest: Interest, now: Time) {
    && tx.lookups.Some?
    && exists lookup :: lookup in tx.lookups.value && TableInterest(lookup, tables, interest, now)
  }

  /** Some read, from one of these caches, finds an account of interest. */
  ghost predicate MayInterest(tx: Transaction, caches: CacheStates, interest: Interest, now: Time) {
    exists cache :: cache in caches && LookupInterest(tx, cache, interest, now)
  }

  /** Whichever of these caches each table is read from, one of them shows an account of interest. */
  ghost predicate MustInterest(tx: Transaction, caches: CacheStates, interest: Interest, now: Time) {
    && tx.lookups.Some?
    && exists lookup :: lookup in tx.lookups.value && AllInterest(lookup, caches, interest, now)
  }

  ghost predicate AllInterest(lookup: TableLookup, caches: CacheStates, interest: Interest, now: Time) {
    forall cache :: cache in caches ==> TableInterest(lookup, cache, interest, now)
  }

  /** The accounts a transaction may write, as far as the cache can tell. */
  ghost predicate Writes(tx: Transaction, tables: TableCache, account: Pubkey) {
    || (exists i :: i in tx.maybeWritable && i < |tx.staticKeys| && tx.staticKeys[i] == account)
    || (tx.lookups.Some? && exists lookup ::
          lookup in tx.lookups.value && lookup.accountKey in tables
          && ResolvesWritable(lookup, tables[lookup.accountKey], account))
  }

  ghost predicate ResolvesWritable(lookup: TableLookup, addresses: seq<Pubkey>, account: Pubkey) {
    exists i :: i in lookup.writableIndexes && i < |addresses| && addresses[i] == account
  }

  /**
   * What is to be forwarded at an instant, with the lookup tables at rest: a packet not
   * discarded, with a transaction that mentions no sanctioned account and, unless everything
   * is of interest, writes an account of interest or mentions a program of interest.
   */
  ghost predicate Forwardable(
      p: Packet, tables: TableCache, ofac: set<Pubkey>, wildcard: bool, interest: Interest, now: Time)
  {
    && !p.discard && p.tx.Some?
    && (forall account :: Mentions(p.tx.value, tables, account) ==> account !in ofac)
    && (|| wildcard
        || (exists account :: Writes(p.tx.value, tables, account) && interest.Account(account, now))
        || (exists account :: Mentions(p.tx.value, tables, account) && interest.Program(account, now)))
  }

  /** What the two searches look for is what the transaction writes and mentions. */
  lemma InterestFound(tx: Transaction, tables: TableCache, interest: Interest, now: Time)
    requires StaticInterest(tx, interest, now) || LookupInterest(tx, tables, interest, now)
    ensures || (exists account :: Writes(tx, tables, account) && interest.Account(account, now))
            || (exists account :: Mentions(tx, tables, account) && interest.Program(account, now))
  {
    if StaticInterest(tx, interest, now) {
      var i :| 0 <= i < |tx.staticKeys| && StaticKeyInterest(tx, i, interest, now);
      assert Mentions(tx, tables, tx.staticKeys[i]);
      assert i in tx.maybeWritable ==> Writes(tx, tables, tx.staticKeys[i]);
    } else {
      var lookup :| lookup in tx.lookups.value && TableInterest(lookup, tables, interest, now);
      var addresses := tables[lookup.accountKey];
      if IndexInterest(lookup.writableIndexes, addresses, true, interest, now) {
        var i :| 0 <= i < |lookup.writableIndexes|
                 && ResolvedInterest(lookup.writableIndexes[i], addresses, true, interest, now);
        var account := addresses[lookup.writableIndexes[i]];
        assert lookup.writableIndexes[i] in lookup.writableIndexes + lookup.readonlyIndexes;
        assert ResolvesWritable(lookup, addresses, account) && Resolves(lookup, addresses, account);
        assert Writes(tx, tables, account) && Mentions(tx, tables, account);
      } else {
        var i :| 0 <= i < |lookup.readonlyIndexes|
                 && ResolvedInterest(lookup.readonlyIndexes[i], addresses, false, interest, now);
        var account := addresses[lookup.readonlyIndexes[i]];
        assert lookup.readonlyIndexes[i] in lookup.writableIndexes + lookup.readonlyIndexes;
        assert Resolves(lookup, addresses, account);
        assert Mentions(tx, tables, account);
      }
    }
  }

  lemma WrittenInterestIsFound(tx: Transaction, tables: TableCache, interest: Interest, now: Time, account: Pubkey)
    requires Writes(tx, tables, account) && interest.Account(account, now)
    ensures StaticInterest(tx, interest, now) || LookupInterest(tx, tables, interest, now)
  {
    if i :| i in tx.maybeWritable && i < |tx.staticKeys| && tx.staticKeys[i] == account {
      assert StaticKeyInterest(tx, i, interest, now);
    } else {
      var lookup :| lookup in tx.lookups.value && lookup.accountKey in tables
                    && ResolvesWritable(lookup, tables[lookup.accountKey], account);
      var addresses := tables[lookup.accountKey];
      var i :| i in lookup.writableIndexes && i < |addresses| && addresses[i] == account;
      var k :| 0 <= k < |lookup.writableIndexes| && lookup.writableIndexes[k] == i;
      assert ResolvedInterest(lookup.writableIndexes[k], addresses, true, interest, now);
      assert TableInterest(lookup, tables, interest, now);
    }
  }

  lemma MentionedProgramIsFound(tx: Transaction, tables: TableCache, interest: Interest, now: Time, account: Pubkey)
    requires Mentions(tx, tables, account) && interest.Program(account, now)
    ensures StaticInterest(tx, interest, now) || LookupInterest(tx, tables, interest, now)
  {
    if i :| 0 <= i < |tx.staticKeys| && tx.staticKeys[i] == account {
      assert StaticKeyInterest(tx, i, interest, now);
    } else {
      var lookup :| lookup in tx.lookups.value && lookup.accountKey in tables
                    && Resolves(lookup, tables[lookup.accountKey], account);
      var addresses := tables[lookup.accountKey];
      var i :| i in lookup.writableIndexes + lookup.readonlyIndexes && i < |addresses| && addresses[i] == account;
      if k :| 0 <= k < |lookup.writableIndexes| && lookup.writableIndexes[k] == i {
        assert ResolvedInterest(lookup.writableIndexes[k], addresses, true, interest, now);
      } else {
        var k :| 0 <= k < |lookup.readonlyIndexes| && lookup.readonlyIndexes[k] == i;
        assert ResolvedInterest(lookup.readonlyIndexes[k], addresses, false, interest, now);
      }
      assert TableInterest(lookup, tables, interest, now);
    }
  }

  /** The searches of the static keys and of the tables together answer the declarative question. */
  lemma InterestIff(tx: Transaction, tables: TableCache, interest: Interest, now: Time)
    ensures StaticInterest(tx, interest, now) || LookupInterest(tx, tables, interest, now)
            <==> || (exists account :: Writes(tx, tables, account) && interest.Account(account, now))
                 || (exists account :: Mentions(tx, tables, account) && interest.Program(account, now))
  {
    if StaticInterest(tx, interest, now) || LookupInterest(tx, tables, interest, now) {
      InterestFound(tx, tables, interest, now);
    }
    forall account | Writes(tx, tables, account) && interest.Account(account, now)
      ensures StaticInterest(tx, interest, now) || LookupInterest(tx, tables, interest, now)
    {
      WrittenInterestIsFound(tx, tables, interest, now, account);
    }
    forall account | Mentions(tx, tables, account) && interest.Program(account, now)
      ensures StaticInterest(tx, interest, now) || LookupInterest(tx, tables, interest, now)
    {
      MentionedProgramIsFound(tx, tables, interest, now, account);
    }
  }

  /** To be forwarded whichever cache each read finds. */
  ghost predicate Surely(p: Packet, rules: Rules, interest: Interest, now: Time) {
    && !p.discard && p.tx.Some?
    && !MayRelate(p.tx.value, rules.ofac, rules.tables)
    && (|| rules.wildcard
        || StaticInterest(p.tx.value, interest, now)
        || MustInterest(p.tx.value, rules.tables, interest, now))
  }

  /** To be forwarded for some answers of the reads. */
  ghost predicate Possibly(p: Packet, rules: Rules, interest: Interest, now: Time) {
    && !p.discard && p.tx.Some?
    && !MustRelate(p.tx.value, rules.ofac, rules.tables)
    && (|| rules.wildcard
        || StaticInterest(p.tx.value, interest, now)
        || MayInterest(p.tx.value, rules.tables, interest, now))
  }

  /** With the tables at rest both are the one declarative predicate. */
  lemma AtRest(p: Packet, tables: TableCache, ofac: set<Pubkey>, wildcard: bool, interest: Interest, now: Time)
    ensures var rules := Rules({tables}, ofac, wildcard);
            && (Surely(p, rules, interest, now) <==> Forwardable(p, tables, ofac, wildcard, interest, now))
            && (Possibly(p, rules, interest, now) <==> Forwardable(p, tables, ofac, wildcard, interest, now))
  {
    if p.tx.Some? {
      var tx := p.tx.value;
      RelatedAtRest(tx, ofac, tables);
      RelatedIffMentionsSanctioned(tx, ofac, tables);
      InterestIff(tx, tables, interest, now);
      assert tables in {tables};
      forall lookup | tx.lookups.Some? && lookup in tx.lookups.value
        ensures AllInterest(lookup, {tables}, interest, now) <==> TableInterest(lookup, tables, interest, now)
      {}
    }
  }

  /** The packets that must come out, and those that may, in order. */
  ghost function Due(packets: seq<Packet>, rules: Rules, interest: Interest, now: Time): seq<ProtoPacket> {
    Converted(packets, p => Surely(p, rules, interest, now))
  }

  ghost function Eligible(packets: seq<Packet>, rules: Rules, interest: Interest, now: Time): seq<ProtoPacket> {
    Converted(packets, p => Possibly(p, rules, interest, now))
  }

  // ---------------------------------------------------------------- interest only fades within one call

  lemma IndexInterestFades(
      indexes: seq<nat>, addresses: seq<Pubkey>, writable: bool, interest: Interest, now: Time, later: Time)
    requires now <= later && IndexInterest(indexes, addresses, writable, interest, later)
    ensures IndexInterest(indexes, addresses, writable, interest, now)
  {
    var i :| 0 <= i < |indexes| && ResolvedInterest(indexes[i], addresses, writable, interest, later);
    var key := addresses[indexes[i]];
    if interest.Program(key, later) {
      SetWithinFades(interest.poi, key, now, later, interest.ttlSecs);
    } else {
      SetWithinFades(interest.aoi, key, now, later, interest.ttlSecs);
    }
    assert ResolvedInterest(indexes[i], addresses, writable, interest, now);
  }

  lemma TableInterestFades(lookup: TableLookup, tables: TableCache, interest: Interest, now: Time, later: Time)
    requires now <= later && TableInterest(lookup, tables, interest, later)
    ensures TableInterest(lookup, tables, interest, now)
  {
    var addresses := tables[lookup.accountKey];
    if IndexInterest(lookup.writableIndexes, addresses, true, interest, later) {
      IndexInterestFades(lookup.writableIndexes, addresses, true, interest, now, later);
    } else {
      IndexInterestFades(lookup.readonlyIndexes, addresses, false, interest, now, later);
    }
  }

  lemma StaticInterestFades(tx: Transaction, interest: Interest, now: Time, later: Time)
    requires now <= later && StaticInterest(tx, interest, later)
    ensures StaticInterest(tx, interest, now)
  {
    var i :| 0 <= i < |tx.staticKeys| && StaticKeyInterest(tx, i, interest, later);
    var key := tx.staticKeys[i];
    if interest.Program(key, later) {
      SetWithinFades(interest.poi, key, now, later, interest.ttlSecs);
    } else {
      SetWithinFades(interest.aoi, key, now, later, interest.ttlSecs);
    }
    assert StaticKeyInterest(tx, i, interest, now);
  }

  lemma LookupInterestFades(tx: Transaction, tables: TableCache, interest: Interest, now: Time, later: Time)
    requires now <= later && LookupInterest(tx, tables, interest, later)
    ensures LookupInterest(tx, tables, interest, now)
  {
    var lookup :| lookup in tx.lookups.value && TableInterest(lookup, tables, interest, later);
    TableInterestFades(lookup, tables, interest, now, later);
  }

  lemma AllInterestFades(
      lookup: TableLookup, caches: CacheStates, interest: Interest, now: Time, later: Time)
    requires now <= later && AllInterest(lookup, caches, interest, later)
    ensures AllInterest(lookup, caches, interest, now)
  {
    forall cache | cache in caches ensures TableInterest(lookup, cache, interest, now) {
      TableInterestFades(lookup, cache, interest, now, later);
    }
  }

  lemma MayInterestFades(tx: Transaction, caches: CacheStates, interest: Interest, now: Time, later: Time)
    requires now <= later && MayInterest(tx, caches, interest, later)
    ensures MayInterest(tx, caches, interest, now)
  {
    var cache :| cache in caches && LookupInterest(tx, cache, interest, later);
    LookupInterestFades(tx, cache, interest, now, later);
  }

  lemma SurelyFades(p: Packet, rules: Rules, interest: Interest, now: Time, later: Time)
    requires now <= later && Surely(p, rules, interest, later)
    ensures Surely(p, rules, interest, now)
  {
    var tx := p.tx.value;
    if StaticInterest(tx, interest, later) {
      StaticInterestFades(tx, interest, now, later);
    } else if !rules.wildcard {
      var lookup :| lookup in tx.lookups.value && AllInterest(lookup, rules.tables, interest, later);
      AllInterestFades(lookup, rules.tables, interest, now, later);
    }
  }

  lemma PossiblyFades(p: Packet, rules: Rules, interest: Interest, now: Time, later: Time)
    requires now <= later && Possibly(p, rules, interest, later)
    ensures Possibly(p, rules, interest, now)
  {
    var tx := p.tx.value;
    if StaticInterest(tx, interest, later) {
      StaticInterestFades(tx, interest, now, later);
    } else if !rules.wildcard {
      MayInterestFades(tx, rules.tables, interest, now, later);
    }
  }

  lemma DueFades(packets: seq<Packet>, rules: Rules, interest: Interest, now: Time, later: Time)
    requires now <= later
    ensures Subsequence(Due(packets, rules, interest, later), Due(packets, rules, interest, now))
  {
    forall p | Surely(p, rules, interest, later) ensures Surely(p, rules, interest, now) {
      SurelyFades(p, rules, interest, now, later);
    }
    ConvertedMonotone(packets, p => Surely(p, rules, interest, later), p => Surely(p, rules, interest, now));
  }

  lemma EligibleFades(packets: seq<Packet>, rules: Rules, interest: Interest, now: Time, later: Time)
    requires now <= later
    ensures Subsequence(Eligible(packets, rules, interest, later), Eligible(packets, rules, interest, now))
  {
    forall p | Possibly(p, rules, interest, later) ensures Possibly(p, rules, interest, now) {
      PossiblyFades(p, rules, interest, now, later);
    }
    ConvertedMonotone(packets, p => Possibly(p, rules, interest, later), p => Possibly(p, rules, interest, now));
  }

  // ---------------------------------------------------------------- the filter itself

  /** The two interest caches of a session and the clock they read. */
  class Caches {
    const aoi: TimedCache
    const poi: TimedCache
    const clock: Clock

    constructor (ttlSecs: nat, clock: Clock)
      ensures this.clock == clock && fresh(aoi) && fresh(poi)
      ensures aoi.sets == [] && poi.sets == [] && aoi.ttlSecs == ttlSecs
      ensures Valid()
    {
      this.clock := clock;
      aoi := new TimedCache(ttlSecs);
      poi := new TimedCache(ttlSecs);
      new;
      AgreesAfterEviction(aoi.store, aoi.sets, 0, clock.now, ttlSecs, aoi.store);
      AgreesAfterEviction(poi.store, poi.sets, 0, clock.now, ttlSecs, poi.store);
    }

    ghost predicate Valid()
      reads aoi, poi, clock
    {
      aoi != poi && aoi.ttlSecs == poi.ttlSecs && aoi.Valid(clock.now) && poi.Valid(clock.now)
    }

    ghost function View(): Interest
      reads aoi, poi
    {
      Interest(aoi.sets, poi.sets, aoi.ttlSecs)
    }

    /** `is_aoi_in_static_keys` */
    method IsAoiInStaticKeys(tx: Transaction) returns (hit: bool)
      requires Valid()
      modifies aoi`store, poi`store, clock
      ensures Valid() && old(clock.now) <= clock.now
      ensures StaticInterest(tx, View(), clock.now) ==> hit
      ensures hit ==> StaticInterest(tx, View(), old(clock.now))
    {
      ghost var view := View();
      for i := 0 to |tx.staticKeys|
        invariant Valid() && old(clock.now) <= clock.now && View() == view
        invariant forall k :: 0 <= k < i ==> !StaticKeyInterest(tx, k, view, clock.now)
      {
        ghost var before := clock.now;
        var key := tx.staticKeys[i];
        hit := false;
        if i in tx.maybeWritable {
          hit := aoi.CacheGet(key, clock);
          if hit { SetWithinFades(view.aoi, key, old(clock.now), clock.now, view.ttlSecs); }
        }
        if !hit {
          ghost var between := clock.now;
          hit := poi.CacheGet(key, clock);
          if hit { SetWithinFades(view.poi, key, old(clock.now), clock.now, view.ttlSecs); }
          if view.Account(key, clock.now) { SetWithinFades(view.aoi, key, between, clock.now, view.ttlSecs); }
        }
        if hit {
          assert StaticKeyInterest(tx, i, view, old(clock.now));
          return;
        }
        forall k | 0 <= k < i ensures !StaticKeyInterest(tx, k, view, clock.now) {
          if StaticKeyInterest(tx, k, view, clock.now) { StaticKeyFades(tx, k, view, before, clock.now); }
        }
      }
      hit := false;
    }

    /** The loops over a table's writable (or readonly) indexes. */
    method IsAoiInIndexes(indexes: seq<nat>, addresses: seq<Pubkey>, writable: bool) returns (hit: bool)
      requires Valid()
      modifies aoi`store, poi`store, clock
      ensures Valid() && old(clock.now) <= clock.now
      ensures IndexInterest(indexes, addresses, writable, View(), clock.now) ==> hit
      ensures hit ==> IndexInterest(indexes, addresses, writable, View(), old(clock.now))
    {
      ghost var view := View();
      for i := 0 to |indexes|
        invariant Valid() && old(clock.now) <= clock.now && View() == view
        invariant forall k :: 0 <= k < i ==> !ResolvedInterest(indexes[k], addresses, writable, view, clock.now)
      {
        ghost var before := clock.now;
        if indexes[i] < |addresses| {
          var key := addresses[indexes[i]];
          hit := false;
          if writable {
            hit := aoi.CacheGet(key, clock);
            if hit { SetWithinFades(view.aoi, key, old(clock.now), clock.now, view.ttlSecs); }
          }
          if !hit {
            ghost var between := clock.now;
            hit := poi.CacheGet(key, clock);
            if hit { SetWithinFades(view.poi, key, old(clock.now), clock.now, view.ttlSecs); }
            if view.Account(key, clock.now) { SetWithinFades(view.aoi, key, between, clock.now, view.ttlSecs); }
          }
          if hit {
            assert ResolvedInterest(indexes[i], addresses, writable, view, old(clock.now));
            return;
          }
        }
        forall k | 0 <= k < i ensures !ResolvedInterest(indexes[k], addresses, writable, view, clock.now) {
          if ResolvedInterest(indexes[k], addresses, writable, view, clock.now) {
            ResolvedFades(indexes[k], addresses, writable, view, before, clock.now);
          }
        }
      }
      hit := false;
    }

    /** One table as it is read: its writable indexes, then its readonly ones. */
    method IsAoiInTable(lookup: TableLookup, tables: TableCache) returns (hit: bool)
      requires Valid()
      modifies aoi`store, poi`store, clock
      ensures Valid() && old(clock.now) <= clock.now
      ensures TableInterest(lookup, tables, View(), clock.now) ==> hit
      ensures hit ==> TableInterest(lookup, tables, View(), old(clock.now))
    {
      ghost var view := View();
      hit := false;
      if lookup.accountKey in tables {
        var addresses := tables[lookup.accountKey];
        hit := IsAoiInIndexes(lookup.writableIndexes, addresses, true);
        if !hit {
          ghost var between := clock.now;
          hit := IsAoiInIndexes(lookup.readonlyIndexes, addresses, false);
          if IndexInterest(lookup.writableIndexes, addresses, true, view, clock.now) {
            IndexInterestFades(lookup.writableIndexes, addresses, true, view, between, clock.now);
          }
          if hit {
            IndexInterestFades(lookup.readonlyIndexes, addresses, false, view, old(clock.now), between);
          }
        }
      }
    }

    /** `is_aoi_in_lookup_table`: each table is read from whatever state the cache is in then. */
    method IsAoiInLookupTable(tx: Transaction, caches: CacheStates) returns (hit: bool)
      requires Valid()
      modifies aoi`store, poi`store, clock
      ensures Valid() && old(clock.now) <= clock.now
      ensures MustInterest(tx, caches, View(), clock.now) ==> hit
      ensures hit ==> MayInterest(tx, caches, View(), old(clock.now))
    {
      ghost var view := View();
      var lookups := tx.Lookups();
      for j := 0 to |lookups|
        invariant Valid() && old(clock.now) <= clock.now && View() == view
        invariant forall k :: 0 <= k < j ==> !AllInterest(lookups[k], caches, view, clock.now)
      {
        ghost var before := clock.now;
        var cache :| cache in caches;
        hit := IsAoiInTable(lookups[j], cache);
        if hit {
          TableInterestFades(lookups[j], cache, view, old(clock.now), before);
          assert LookupInterest(tx, cache, view, old(clock.now));
          return;
        }
        forall k | 0 <= k < j ensures !AllInterest(lookups[k], caches, view, clock.now) {
          if AllInterest(lookups[k], caches, view, clock.now) {
            AllInterestFades(lookups[k], caches, view, before, clock.now);
          }
        }
      }
      hit := false;
    }

    /** The interest part of the decision, with its short-circuits. */
    method IsInteresting(tx: Transaction, rules: Rules) returns (hit: bool)
      requires Valid()
      modifies aoi`store, poi`store, clock
      ensures Valid() && old(clock.now) <= clock.now
      ensures rules.wildcard ==> hit
      ensures StaticInterest(tx, View(), clock.now) ==> hit
      ensures MustInterest(tx, rules.tables, View(), clock.now) ==> hit
      ensures hit ==> (|| rules.wildcard
                       || StaticInterest(tx, View(), old(clock.now))
                       || MayInterest(tx, rules.tables, View(), old(clock.now)))
    {
      ghost var view := View();
      if rules.wildcard { return true; }
      hit := IsAoiInStaticKeys(tx);
      if !hit {
        ghost var between := clock.now;
        hit := IsAoiInLookupTable(tx, rules.tables);
        if StaticInterest(tx, view, clock.now) { StaticInterestFades(tx, view, between, clock.now); }
        if hit { MayInterestFades(tx, rules.tables, view, old(clock.now), between); }
      }
    }

    /** Both branches of `is_forwardable`. */
    method IsForwardable(p: Packet, rules: Rules) returns (ok: bool)
      requires Valid()
      modifies aoi`store, poi`store, clock
      ensures Valid() && old(clock.now) <= clock.now
      ensures Surely(p, rules, View(), clock.now) ==> ok
      ensures ok ==> Possibly(p, rules, View(), old(clock.now))
    {
      if p.discard { return false; }
      if p.tx.None? { return false; }
      var tx := p.tx.value;
      if rules.ofac == {} {
        NeverRelatedToEmpty(tx, rules.tables);
        ok := IsInteresting(tx, rules);
      } else {
        var related := CheckTx(tx, rules.ofac, rules.tables);
        ok := !related;
        if ok { ok := IsInteresting(tx, rules); }
      }
    }

    /** The inner loop of `filter_packets`. */
    method FilterBatch(batch: PacketBatch, rules: Rules) returns (out: seq<ProtoPacket>)
      requires Valid()
      modifies aoi`store, poi`store, clock
      ensures Valid() && old(clock.now) <= clock.now
      ensures Subsequence(Due(batch, rules, View(), clock.now), out)
      ensures Subsequence(out, Eligible(batch, rules, View(), old(clock.now)))
    {
      ghost var view := View();
      out := [];
      for i := 0 to |batch|
        invariant Valid() && old(clock.now) <= clock.now && View() == view
        invariant Subsequence(Due(batch[..i], rules, view, clock.now), out)
        invariant Subsequence(out, Eligible(batch[..i], rules, view, old(clock.now)))
      {
        ghost var before, kept := clock.now, out;
        var ok := IsForwardable(batch[i], rules);
        if ok { PossiblyFades(batch[i], rules, view, old(clock.now), before); }
        if ok && ToProto(batch[i]).Some? {
          out := out + [ToProto(batch[i]).value];
        }
        assert batch[..i + 1] == batch[..i] + [batch[i]];
        FilterStep(batch[..i], batch[i], rules, view, old(clock.now), before, clock.now, kept, ok);
      }
      assert batch[..|batch|] == batch;
    }

    /**
     * `filter_packets`. Every packet that is still surely wanted when the call ends comes out,
     * and nothing comes out that was not possibly wanted when it began; order is kept.
     */
    method FilterPackets(batches: seq<PacketBatch>, rules: Rules) returns (r: Option<seq<ProtoPacket>>)
      requires Valid()
      modifies aoi`store, poi`store, clock
      ensures Valid() && old(clock.now) <= clock.now
      ensures r.Some? ==> r.value != []
      ensures var out := if r.Some? then r.value else [];
              && Subsequence(Due(Flatten(batches), rules, View(), clock.now), out)
              && Subsequence(out, Eligible(Flatten(batches), rules, View(), old(clock.now)))
    {
      ghost var view := View();
      var filtered: seq<ProtoPacket> := [];
      for i := 0 to |batches|
        invariant Valid() && old(clock.now) <= clock.now && View() == view
        invariant Subsequence(Due(Flatten(batches[..i]), rules, view, clock.now), filtered)
        invariant Subsequence(filtered, Eligible(Flatten(batches[..i]), rules, view, old(clock.now)))
      {
        ghost var before := clock.now;
        var more := FilterBatch(batches[i], rules);
        assert batches[..i + 1][..i] == batches[..i];
        FilterJoin(Flatten(batches[..i]), batches[i], rules, view,
                   old(clock.now), before, clock.now, filtered, more);
        filtered := filtered + more;
      }
      assert batches[..|batches|] == batches;
      r := if filtered != [] then Some(filtered) else None;
    }
  }

  // ---------------------------------------------------------------- lemmas of the loops

  lemma StaticKeyFades(tx: Transaction, i: nat, interest: Interest, now: Time, later: Time)
    requires i < |tx.staticKeys| && now <= later && StaticKeyInterest(tx, i, interest, later)
    ensures StaticKeyInterest(tx, i, interest, now)
  {
    var key := tx.staticKeys[i];
    if interest.Program(key, later) {
      SetWithinFades(interest.poi, key, now, later, interest.ttlSecs);
    } else {
      SetWithinFades(interest.aoi, key, now, later, interest.ttlSecs);
    }
  }

  lemma ResolvedFades(index: nat, addresses: seq<Pubkey>, writable: bool, interest: Interest, now: Time, later: Time)
    requires now <= later && ResolvedInterest(index, addresses, writable, interest, later)
    ensures ResolvedInterest(index, addresses, writable, interest, now)
  {
    var key := addresses[index];
    if interest.Program(key, later) {
      SetWithinFades(interest.poi, key, now, later, interest.ttlSecs);
    } else {
      SetWithinFades(interest.aoi, key, now, later, interest.ttlSecs);
    }
  }

  lemma NeverRelatedToEmpty(tx: Transaction, caches: CacheStates)
    ensures !MayRelate(tx, {}, caches)
    ensures !MustRelate(tx, {}, caches)
  {
    forall lookup, cache | tx.lookups.Some? && lookup in tx.lookups.value && cache in caches
      ensures !Flags(cache, lookup, {})
    {
      if lookup.accountKey in cache {
        IndexHitIff(lookup.writableIndexes + lookup.readonlyIndexes, cache[lookup.accountKey], {});
      }
    }
    if MustRelate(tx, {}, caches) { MustIsMay(tx, {}, caches); }
  }

  /** One packet more: the output stays between what is due at the end and eligible at the start. */
  lemma FilterStep(
      done: seq<Packet>, p: Packet, rules: Rules, interest: Interest,
      start: Time, before: Time, after: Time, out: seq<ProtoPacket>, ok: bool)
    requires start <= before <= after
    requires Surely(p, rules, interest, after) ==> ok
    requires ok ==> Possibly(p, rules, interest, start)
    requires Subsequence(Due(done, rules, interest, before), out)
    requires Subsequence(out, Eligible(done, rules, interest, start))
    ensures var out' := if ok && ToProto(p).Some? then out + [ToProto(p).value] else out;
            && Subsequence(Due(done + [p], rules, interest, after), out')
            && Subsequence(out', Eligible(done + [p], rules, interest, start))
  {
    DueFades(done, rules, interest, before, after);
    SubsequenceTrans(Due(done, rules, interest, after), Due(done, rules, interest, before), out);
    ConvertedStep(done, p,
                  q => Surely(q, rules, interest, after),
                  q => Possibly(q, rules, interest, start), out, ok);
  }

  lemma FilterJoin(
      done: seq<Packet>, batch: seq<Packet>, rules: Rules, interest: Interest,
      start: Time, before: Time, after: Time, out: seq<ProtoPacket>, more: seq<ProtoPacket>)
    requires start <= before <= after
    requires Subsequence(Due(done, rules, interest, before), out)
    requires Subsequence(out, Eligible(done, rules, interest, start))
    requires Subsequence(Due(batch, rules, interest, after), more)
    requires Subsequence(more, Eligible(batch, rules, interest, before))
    ensures Subsequence(Due(done + batch, rules, interest, after), out + more)
    ensures Subsequence(out + more, Eligible(done + batch, rules, interest, start))
  {
    DueFades(done, rules, interest, before, after);
    EligibleFades(batch, rules, interest, start, before);
    SubsequenceTrans(Due(done, rules, interest, after), Due(done, rules, interest, before), out);
    SubsequenceTrans(more, Eligible(batch, rules, interest, before), Eligible(batch, rules, interest, start));
    ConvertedAppend(done, batch, p => Surely(p, rules, interest, after));
    ConvertedAppend(done, batch, p => Possibly(p, rules, interest, start));
    SubsequenceConcat(Due(done, rules, interest, after), out, Due(batch, rules, interest, after), more);
    SubsequenceConcat(out, Eligible(done, rules, interest, start), more, Eligible(batch, rules, interest, start));
  }

  // ---------------------------------------------------------------- consequences

  /** If nothing a packet depends on changes during the call, the output is exactly what is wanted. */
  lemma ExactWhenNothingExpires(
      packets: seq<Packet>, tables: TableCache, ofac: set<Pubkey>, wildcard: bool, interest: Interest,
      start: Time, end: Time, out: seq<ProtoPacket>)
    requires Subsequence(Due(packets, Rules({tables}, ofac, wildcard), interest, end), out)
    requires Subsequence(out, Eligible(packets, Rules({tables}, ofac, wildcard), interest, start))
    requires forall p :: p in packets ==> (Forwardable(p, tables, ofac, wildcard, interest, start)
                                           <==> Forwardable(p, tables, ofac, wildcard, interest, end))
    ensures out == Converted(packets, p => Forwardable(p, tables, ofac, wildcard, interest, start))
  {
    var rules := Rules({tables}, ofac, wildcard);
    forall p | p in packets
      ensures Surely(p, rules, interest, end) <==> Forwardable(p, tables, ofac, wildcard, interest, start)
      ensures Possibly(p, rules, interest, start) <==> Forwardable(p, tables, ofac, wildcard, interest, start)
    {
      AtRest(p, tables, ofac, wildcard, interest, start);
      AtRest(p, tables, ofac, wildcard, interest, end);
    }
    var wanted := (p: Packet) => Forwardable(p, tables, ofac, wildcard, interest, start);
    ConvertedSame(packets, p => Surely(p, rules, interest, end), wanted);
    ConvertedSame(packets, p => Possibly(p, rules, interest, start), wanted);
    SubsequenceAntisymmetric(out, Converted(packets, wanted));
  }
}
