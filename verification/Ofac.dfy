/** The sanctioned-address check of core/src/ofac.rs. */
module Ofac {
  import opened Prelude
  import opened Packets

  /** `ofac_addresses.contains` over the static account keys. */
  predicate StaticHit(tx: Transaction, ofac: set<Pubkey>) {
    exists i :: 0 <= i < |tx.staticKeys| && tx.staticKeys[i] in ofac
  }

  /** The inner search loop: the first in-range index that resolves to a sanctioned address. */
  predicate IndexHit(indexes: seq<nat>, addresses: seq<Pubkey>, ofac: set<Pubkey>) {
    && indexes != []
    && (|| (indexes[0] < |addresses| && addresses[indexes[0]] in ofac)
        || IndexHit(indexes[1..], addresses, ofac))
  }

  /** One table's worth of the search, under the read guard of that table's cache entry. */
  predicate TableHit(lookup: TableLookup, addresses: seq<Pubkey>, ofac: set<Pubkey>) {
    IndexHit(lookup.writableIndexes + lookup.readonlyIndexes, addresses, ofac)
  }

  /** The outer search loop, where `seen[i]` is what the cache answered for table `i`. */
  predicate ScanHit(lookups: seq<TableLookup>, seen: seq<Option<seq<Pubkey>>>, ofac: set<Pubkey>)
    requires |seen| == |lookups|
  {
    && lookups != []
    && (|| (seen[0].Some? && TableHit(lookups[0], seen[0].value, ofac))
        || ScanHit(lookups[1..], seen[1..], ofac))
  }

  function SnapshotReads(lookups: seq<TableLookup>, cache: TableCache): seq<Option<seq<Pubkey>>> {
    seq(|lookups|, i requires 0 <= i < |lookups| => Get(cache, lookups[i].accountKey))
  }

  /** `is_tx_ofac_related` when every table is read from the same cache. */
  predicate IsTxOfacRelated(tx: Transaction, ofac: set<Pubkey>, cache: TableCache) {
    StaticHit(tx, ofac) || ScanHit(tx.Lookups(), SnapshotReads(tx.Lookups(), cache), ofac)
  }

  /** The cache flags the lookup through its table. */
  predicate Flags(cache: TableCache, lookup: TableLookup, ofac: set<Pubkey>) {
    lookup.accountKey in cache && TableHit(lookup, cache[lookup.accountKey], ofac)
  }

  /** Some reads, each from one of these caches, relate the transaction to a sanctioned address. */
  ghost predicate MayRelate(tx: Transaction, ofac: set<Pubkey>, caches: CacheStates) {
    || StaticHit(tx, ofac)
    || (tx.lookups.Some? && exists lookup, cache ::
          lookup in tx.lookups.value && cache in caches && Flags(cache, lookup, ofac))
  }

  /** Whatever each read answers, as long as it answers from one of these caches, the transaction is related. */
  ghost predicate MustRelate(tx: Transaction, ofac: set<Pubkey>, caches: CacheStates) {
    || StaticHit(tx, ofac)
    || (tx.lookups.Some? && exists lookup :: lookup in tx.lookups.value && AllFlag(caches, lookup, ofac))
  }

  ghost predicate AllFlag(caches: CacheStates, lookup: TableLookup, ofac: set<Pubkey>) {
    forall cache :: cache in caches ==> Flags(cache, lookup, ofac)
  }

  /**
   * `is_tx_ofac_related` against a cache that is being refreshed: `caches` are the states the
   * cache goes through during the call, and each table is read from whichever it is in then.
   */
  method CheckTx(tx: Transaction, ofac: set<Pubkey>, caches: CacheStates) returns (related: bool)
    ensures MustRelate(tx, ofac, caches) ==> related
    ensures related ==> MayRelate(tx, ofac, caches)
  {
    if StaticHit(tx, ofac) { return true; }
    var lookups := tx.Lookups();
    for j := 0 to |lookups|
      invariant forall k :: 0 <= k < j ==> !AllFlag(caches, lookups[k], ofac)
    {
      var cache :| cache in caches;
      if Flags(cache, lookups[j], ofac) { return true; }
    }
    related := false;
  }

  lemma FlagsSomething(cache: TableCache, lookup: TableLookup, ofac: set<Pubkey>)
    requires Flags(cache, lookup, ofac)
    ensures ofac != {}
  {
    IndexHitIff(lookup.writableIndexes + lookup.readonlyIndexes, cache[lookup.accountKey], ofac);
  }

  /** With the cache at rest both bounds are the answer itself. */
  lemma RelatedAtRest(tx: Transaction, ofac: set<Pubkey>, cache: TableCache)
    ensures MayRelate(tx, ofac, {cache}) <==> IsTxOfacRelated(tx, ofac, cache)
    ensures MustRelate(tx, ofac, {cache}) <==> IsTxOfacRelated(tx, ofac, cache)
  {
    var lookups, seen := tx.Lookups(), SnapshotReads(tx.Lookups(), cache);
    ScanHitIff(lookups, seen, ofac);
    forall j | 0 <= j < |lookups|
      ensures Flags(cache, lookups[j], ofac) <==> seen[j].Some? && TableHit(lookups[j], seen[j].value, ofac)
      ensures AllFlag({cache}, lookups[j], ofac) <==> Flags(cache, lookups[j], ofac)
    {
      assert cache in {cache};
    }
  }

  lemma MustIsMay(tx: Transaction, ofac: set<Pubkey>, caches: CacheStates)
    requires MustRelate(tx, ofac, caches)
    ensures MayRelate(tx, ofac, caches)
  {
    if !StaticHit(tx, ofac) {
      var lookup :| lookup in tx.lookups.value && AllFlag(caches, lookup, ofac);
      var cache :| cache in caches;
      assert Flags(cache, lookup, ofac);
    }
  }

  /** `account` is one of the accounts this lookup resolves to. */
  ghost predicate Resolves(lookup: TableLookup, addresses: seq<Pubkey>, account: Pubkey) {
    exists i :: i in lookup.writableIndexes + lookup.readonlyIndexes && i < |addresses| && addresses[i] == account
  }

  /** The accounts a transaction mentions, as far as the cache can tell. */
  ghost predicate Mentions(tx: Transaction, cache: TableCache, account: Pubkey) {
    || account in tx.staticKeys
    || (tx.lookups.Some? && exists lookup ::
          lookup in tx.lookups.value && lookup.accountKey in cache
          && Resolves(lookup, cache[lookup.accountKey], account))
  }

  lemma {:induction false} IndexHitIff(indexes: seq<nat>, addresses: seq<Pubkey>, ofac: set<Pubkey>)
    ensures IndexHit(indexes, addresses, ofac) <==>
            exists i :: i in indexes && i < |addresses| && addresses[i] in ofac
  {
    if indexes != [] {
      IndexHitIff(indexes[1..], addresses, ofac);
      assert indexes == [indexes[0]] + indexes[1..];
    }
  }

  lemma {:induction false} ScanHitIff(lookups: seq<TableLookup>, seen: seq<Option<seq<Pubkey>>>, ofac: set<Pubkey>)
    requires |seen| == |lookups|
    ensures ScanHit(lookups, seen, ofac) <==>
            exists j :: 0 <= j < |lookups| && seen[j].Some? && TableHit(lookups[j], seen[j].value, ofac)
  {
    if lookups != [] {
      ScanHitIff(lookups[1..], seen[1..], ofac);
      if ScanHit(lookups[1..], seen[1..], ofac) {
        var j :| 0 <= j < |lookups[1..]| && seen[1..][j].Some? && TableHit(lookups[1..][j], seen[1..][j].value, ofac);
        assert seen[j + 1].Some? && TableHit(lookups[j + 1], seen[j + 1].value, ofac);
      }
      forall j | 1 <= j < |lookups| && seen[j].Some? && TableHit(lookups[j], seen[j].value, ofac)
        ensures ScanHit(lookups[1..], seen[1..], ofac)
      {
        assert lookups[1..][j - 1] == lookups[j] && seen[1..][j - 1] == seen[j];
      }
    }
  }

  /** The two short-circuiting searches together answer: is any mentioned account sanctioned? */
  lemma RelatedIffMentionsSanctioned(tx: Transaction, ofac: set<Pubkey>, cache: TableCache)
    ensures IsTxOfacRelated(tx, ofac, cache) <==> exists account :: account in ofac && Mentions(tx, cache, account)
  {
    var lookups, seen := tx.Lookups(), SnapshotReads(tx.Lookups(), cache);
    ScanHitIff(lookups, seen, ofac);
    if StaticHit(tx, ofac) {
      var i :| 0 <= i < |tx.staticKeys| && tx.staticKeys[i] in ofac;
      assert Mentions(tx, cache, tx.staticKeys[i]);
    }
    forall j | 0 <= j < |lookups| && seen[j].Some? && TableHit(lookups[j], seen[j].value, ofac)
      ensures exists account :: account in ofac && Mentions(tx, cache, account)
    {
      IndexHitIff(lookups[j].writableIndexes + lookups[j].readonlyIndexes, seen[j].value, ofac);
      var i :| i in lookups[j].writableIndexes + lookups[j].readonlyIndexes
               && i < |seen[j].value| && seen[j].value[i] in ofac;
      assert Resolves(lookups[j], seen[j].value, seen[j].value[i]);
      assert Mentions(tx, cache, seen[j].value[i]);
    }
    forall account | account in ofac && Mentions(tx, cache, account)
      ensures IsTxOfacRelated(tx, ofac, cache)
    {
      if account !in tx.staticKeys {
        var lookup :| lookup in tx.lookups.value && lookup.accountKey in cache
                      && Resolves(lookup, cache[lookup.accountKey], account);
        var j :| 0 <= j < |lookups| && lookups[j] == lookup;
        IndexHitIff(lookups[j].writableIndexes + lookups[j].readonlyIndexes, cache[lookups[j].accountKey], ofac);
        assert seen[j].Some? && TableHit(lookups[j], seen[j].value, ofac);
      }
    }
  }

  /** One table's search answers: does the lookup resolve to a sanctioned account? */
  lemma TableHitIff(lookup: TableLookup, addresses: seq<Pubkey>, ofac: set<Pubkey>)
    ensures TableHit(lookup, addresses, ofac)
            <==> exists account :: account in ofac && Resolves(lookup, addresses, account)
  {
    var indexes := lookup.writableIndexes + lookup.readonlyIndexes;
    IndexHitIff(indexes, addresses, ofac);
    if TableHit(lookup, addresses, ofac) {
      var i :| i in indexes && i < |addresses| && addresses[i] in ofac;
      assert Resolves(lookup, addresses, addresses[i]);
    }
  }

  /** A call's table reads: `found[j]` is the state in which the cache answered for lookup `j`. */
  ghost predicate ReadIn(tx: Transaction, found: seq<TableCache>, caches: CacheStates) {
    && |found| == (if tx.lookups.Some? then |tx.lookups.value| else 0)
    && (forall j :: 0 <= j < |found| ==> found[j] in caches)
  }

  /** The accounts a transaction mentions, as far as these reads can tell. */
  ghost predicate MentionsAsRead(tx: Transaction, found: seq<TableCache>, account: Pubkey) {
    || account in tx.staticKeys
    || (tx.lookups.Some? && exists j ::
          0 <= j < |tx.lookups.value| && j < |found| && tx.lookups.value[j].accountKey in found[j]
          && Resolves(tx.lookups.value[j], found[j][tx.lookups.value[j].accountKey], account))
  }

  ghost predicate SanctionedAsRead(tx: Transaction, ofac: set<Pubkey>, found: seq<TableCache>) {
    exists account :: account in ofac && MentionsAsRead(tx, found, account)
  }

  lemma FlaggedAsRead(tx: Transaction, ofac: set<Pubkey>, found: seq<TableCache>, j: nat)
    requires tx.lookups.Some? && j < |tx.lookups.value| && j < |found|
    requires Flags(found[j], tx.lookups.value[j], ofac)
    ensures SanctionedAsRead(tx, ofac, found)
  {
    var lookup := tx.lookups.value[j];
    TableHitIff(lookup, found[j][lookup.accountKey], ofac);
    var account :| account in ofac && Resolves(lookup, found[j][lookup.accountKey], account);
    assert MentionsAsRead(tx, found, account);
  }

  /** Reads that flag nothing show no sanctioned account. */
  lemma UnflaggedAsRead(tx: Transaction, ofac: set<Pubkey>, found: seq<TableCache>)
    requires !StaticHit(tx, ofac)
    requires tx.lookups.Some? ==>
               forall j :: 0 <= j < |tx.lookups.value| && j < |found| ==> !Flags(found[j], tx.lookups.value[j], ofac)
    ensures !SanctionedAsRead(tx, ofac, found)
  {
    forall account | account in ofac ensures !MentionsAsRead(tx, found, account) {
      if MentionsAsRead(tx, found, account) {
        var j :| 0 <= j < |tx.lookups.value| && j < |found| && tx.lookups.value[j].accountKey in found[j]
                 && Resolves(tx.lookups.value[j], found[j][tx.lookups.value[j].accountKey], account);
        TableHitIff(tx.lookups.value[j], found[j][tx.lookups.value[j].accountKey], ofac);
        assert false;
      }
    }
  }

  lemma StaticAsRead(tx: Transaction, ofac: set<Pubkey>, found: seq<TableCache>)
    requires StaticHit(tx, ofac)
    ensures SanctionedAsRead(tx, ofac, found)
  {
    var i :| 0 <= i < |tx.staticKeys| && tx.staticKeys[i] in ofac;
    assert MentionsAsRead(tx, found, tx.staticKeys[i]);
  }

  /** What must be related is what mentions a sanctioned account whichever state each read finds the cache in. */
  lemma MustRelateIff(tx: Transaction, ofac: set<Pubkey>, caches: CacheStates)
    ensures MustRelate(tx, ofac, caches)
            <==> forall found :: ReadIn(tx, found, caches) ==> SanctionedAsRead(tx, ofac, found)
  {
    if MustRelate(tx, ofac, caches) {
      forall found | ReadIn(tx, found, caches) ensures SanctionedAsRead(tx, ofac, found) {
        if StaticHit(tx, ofac) {
          StaticAsRead(tx, ofac, found);
        } else {
          var lookup :| lookup in tx.lookups.value && AllFlag(caches, lookup, ofac);
          var j :| 0 <= j < |tx.lookups.value| && tx.lookups.value[j] == lookup;
          FlaggedAsRead(tx, ofac, found, j);
        }
      }
    } else {
      var found := [];
      if tx.lookups.Some? {
        var lookups := tx.lookups.value;
        assert forall j :: 0 <= j < |lookups| ==> !AllFlag(caches, lookups[j], ofac);
        found := seq(|lookups|, j requires 0 <= j < |lookups| && !AllFlag(caches, lookups[j], ofac) =>
                                  var cache :| cache in caches && !Flags(cache, lookups[j], ofac); cache);
      }
      assert ReadIn(tx, found, caches);
      UnflaggedAsRead(tx, ofac, found);
    }
  }

  /** What may be related is what mentions a sanctioned account for some states found by the reads. */
  lemma MayRelateIff(tx: Transaction, ofac: set<Pubkey>, caches: CacheStates)
    ensures MayRelate(tx, ofac, caches)
            <==> exists found :: ReadIn(tx, found, caches) && SanctionedAsRead(tx, ofac, found)
  {
    if MayRelate(tx, ofac, caches) {
      var first :| first in caches;
      var n := if tx.lookups.Some? then |tx.lookups.value| else 0;
      if StaticHit(tx, ofac) {
        var found := seq(n, j => first);
        StaticAsRead(tx, ofac, found);
        assert ReadIn(tx, found, caches);
      } else {
        var lookup, cache :| lookup in tx.lookups.value && cache in caches && Flags(cache, lookup, ofac);
        var j :| 0 <= j < n && tx.lookups.value[j] == lookup;
        var found := seq(n, k => cache);
        FlaggedAsRead(tx, ofac, found, j);
        assert ReadIn(tx, found, caches);
      }
    } else {
      forall found | ReadIn(tx, found, caches) ensures !SanctionedAsRead(tx, ofac, found) {
        UnflaggedAsRead(tx, ofac, found);
      }
    }
  }

  /** With no sanctioned address nothing is related, whatever the cache: the fast branch of both filters. */
  lemma NothingRelatedToEmpty(tx: Transaction, cache: TableCache)
    ensures !IsTxOfacRelated(tx, {}, cache)
  {
    RelatedIffMentionsSanctioned(tx, {}, cache);
  }

  /** A table that only grew still resolves every index it resolved before. */
  lemma {:induction false} ExtensionKeepsHit(
      lookup: TableLookup, before: seq<Pubkey>, after: seq<Pubkey>, ofac: set<Pubkey>)
    requires before <= after
    requires TableHit(lookup, before, ofac)
    ensures TableHit(lookup, after, ofac)
  {
    var indexes := lookup.writableIndexes + lookup.readonlyIndexes;
    IndexHitIff(indexes, before, ofac);
    IndexHitIff(indexes, after, ofac);
  }
}
