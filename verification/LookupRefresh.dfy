/**
 * The lookup-table refresher of transaction-relayer/src/main.rs against the filters that
 * read the same cache. The refresher inserts table by table and then removes stale tables
 * one by one; a filter reads one table at a time. Each single-key access is atomic, and
 * nothing else is.
 */
module LookupRefresh {
  import opened Prelude
  import opened Packets
  import opened Ofac

  /** One account of the RPC answer; `table` is `None` when it does not deserialise. */
  datatype Fetched = Fetched(pubkey: Pubkey, table: Option<seq<Pubkey>>)

  /** The tables of an answer that deserialise; of a repeated key, the last. */
  function Rebuilt(accounts: seq<Fetched>): TableCache {
    if accounts == [] then map[]
    else
      var front := Rebuilt(accounts[..|accounts| - 1]);
      var last := accounts[|accounts| - 1];
      if last.table.Some? then front[last.pubkey := last.table.value] else front
  }

  /** Every fetched version of the lookup's table flags it, and there is one. */
  ghost predicate Kept(accounts: seq<Fetched>, lookup: TableLookup, ofac: set<Pubkey>) {
    && (exists i :: 0 <= i < |accounts| && accounts[i].pubkey == lookup.accountKey && accounts[i].table.Some?)
    && (forall i :: 0 <= i < |accounts| && accounts[i].pubkey == lookup.accountKey && accounts[i].table.Some?
                    ==> TableHit(lookup, accounts[i].table.value, ofac))
  }

  /** The table is fetched, and every fetched version extends `before`. */
  ghost predicate Extended(accounts: seq<Fetched>, key: Pubkey, before: seq<Pubkey>) {
    && (exists i :: 0 <= i < |accounts| && accounts[i].pubkey == key && accounts[i].table.Some?)
    && (forall i :: 0 <= i < |accounts| && accounts[i].pubkey == key && accounts[i].table.Some?
                    ==> before <= accounts[i].table.value)
  }

  lemma ExtendedIsKept(accounts: seq<Fetched>, lookup: TableLookup, before: seq<Pubkey>, ofac: set<Pubkey>)
    requires TableHit(lookup, before, ofac)
    requires Extended(accounts, lookup.accountKey, before)
    ensures Kept(accounts, lookup, ofac)
  {
    forall i | 0 <= i < |accounts| && accounts[i].pubkey == lookup.accountKey && accounts[i].table.Some?
      ensures TableHit(lookup, accounts[i].table.value, ofac)
    {
      ExtensionKeepsHit(lookup, before, accounts[i].table.value, ofac);
    }
  }

  /** No later account of the answer carries a table under this key that deserialises. */
  ghost predicate IsLatest(accounts: seq<Fetched>, key: Pubkey, i: nat) {
    forall k :: i < k < |accounts| && accounts[k].pubkey == key ==> accounts[k].table.None?
  }

  /** A rebuilt table is the last of its fetched versions, and every fetched key is rebuilt. */
  lemma {:induction false} RebuiltVersion(accounts: seq<Fetched>, key: Pubkey)
    ensures key in Rebuilt(accounts)
            <==> exists i :: 0 <= i < |accounts| && accounts[i].pubkey == key && accounts[i].table.Some?
    ensures key in Rebuilt(accounts) ==>
              exists i :: && 0 <= i < |accounts| && accounts[i] == Fetched(key, Some(Rebuilt(accounts)[key]))
                          && IsLatest(accounts, key, i)
  {
    if accounts != [] {
      var front := accounts[..|accounts| - 1];
      var last := accounts[|accounts| - 1];
      RebuiltVersion(front, key);
      if last.table.Some? && last.pubkey == key {
        assert accounts[|accounts| - 1] == Fetched(key, Some(Rebuilt(accounts)[key]));
        assert IsLatest(accounts, key, |accounts| - 1);
      } else if key in Rebuilt(front) {
        var i :| 0 <= i < |front| && front[i] == Fetched(key, Some(Rebuilt(front)[key])) && IsLatest(front, key, i);
        assert accounts[i] == Fetched(key, Some(Rebuilt(accounts)[key]));
        assert forall k :: i < k < |front| ==> accounts[k] == front[k];
        assert IsLatest(accounts, key, i);
      }
      forall i | 0 <= i < |accounts| && accounts[i].pubkey == key && accounts[i].table.Some?
        ensures key in Rebuilt(accounts)
      {
        if i < |front| { assert front[i] == accounts[i]; }
      }
    }
  }

  /** After any number of inserts the table of a kept lookup flags it. */
  lemma KeptPrefixFlags(before: TableCache, accounts: seq<Fetched>, n: nat, lookup: TableLookup, ofac: set<Pubkey>)
    requires n <= |accounts| && Flags(before, lookup, ofac) && Kept(accounts, lookup, ofac)
    ensures Flags(before + Rebuilt(accounts[..n]), lookup, ofac)
    ensures n == |accounts| ==> lookup.accountKey in Rebuilt(accounts)
  {
    var key := lookup.accountKey;
    RebuiltVersion(accounts[..n], key);
    if key in Rebuilt(accounts[..n]) {
      var i :| 0 <= i < n && accounts[..n][i] == Fetched(key, Some(Rebuilt(accounts[..n])[key]));
      assert accounts[i].pubkey == key && accounts[i].table.Some?;
    }
    assert accounts[..|accounts|] == accounts;
    RebuiltVersion(accounts, key);
  }

  // ---------------------------------------------------------------- one refresh, alone

  /** The caches a refresh goes through: one insert at a time, then one removal at a time. */
  ghost predicate RefreshTrace(trace: seq<TableCache>, before: TableCache, accounts: seq<Fetched>) {
    && |accounts| < |trace|
    && (forall k :: 0 <= k <= |accounts| ==> trace[k] == before + Rebuilt(accounts[..k]))
    && (forall k :: |accounts| <= k < |trace| - 1 ==> RemovesStale(trace[k], trace[k + 1], Rebuilt(accounts).Keys))
    && trace[|trace| - 1] == Rebuilt(accounts)
  }

  ghost predicate RemovesStale(c: TableCache, d: TableCache, fetched: set<Pubkey>) {
    exists key :: key in c && key !in fetched && d == c - {key}
  }

  class LookupTables {
    var tables: TableCache

    /** The insert loop. */
    method InsertAll(accounts: seq<Fetched>) returns (newPubkeys: set<Pubkey>, ghost trace: seq<TableCache>)
      modifies this
      ensures newPubkeys == Rebuilt(accounts).Keys
      ensures tables == old(tables) + Rebuilt(accounts)
      ensures |trace| == |accounts| + 1
      ensures forall k :: 0 <= k <= |accounts| ==> trace[k] == old(tables) + Rebuilt(accounts[..k])
    {
      newPubkeys := {};
      trace := [tables];
      assert accounts[..0] == [];
      for n := 0 to |accounts|
        invariant newPubkeys == Rebuilt(accounts[..n]).Keys
        invariant tables == old(tables) + Rebuilt(accounts[..n])
        invariant |trace| == n + 1
        invariant forall k :: 0 <= k <= n ==> trace[k] == old(tables) + Rebuilt(accounts[..k])
      {
        assert accounts[..n + 1][..n] == accounts[..n];
        if accounts[n].table.Some? {
          newPubkeys := newPubkeys + {accounts[n].pubkey};
          tables := tables[accounts[n].pubkey := accounts[n].table.value];
        }
        trace := trace + [tables];
      }
      assert accounts[..|accounts|] == accounts;
    }

    /** `retain`: removes every other table, one at a time in any order. */
    method Retain(newPubkeys: set<Pubkey>) returns (ghost trace: seq<TableCache>)
      modifies this
      ensures tables.Keys == old(tables).Keys * newPubkeys
      ensures forall key :: key in tables ==> tables[key] == old(tables)[key]
      ensures trace != [] && trace[0] == old(tables) && trace[|trace| - 1] == tables
      ensures forall k :: 0 <= k < |trace| - 1 ==> RemovesStale(trace[k], trace[k + 1], newPubkeys)
    {
      trace := [tables];
      var stale := tables.Keys - newPubkeys;
      while stale != {}
        invariant stale == tables.Keys - newPubkeys
        invariant old(tables).Keys * newPubkeys <= tables.Keys <= old(tables).Keys
        invariant forall key :: key in tables ==> tables[key] == old(tables)[key]
        invariant trace != [] && trace[0] == old(tables) && trace[|trace| - 1] == tables
        invariant forall k :: 0 <= k < |trace| - 1 ==> RemovesStale(trace[k], trace[k + 1], newPubkeys)
        decreases stale
      {
        var key :| key in stale;
        assert RemovesStale(tables, tables - {key}, newPubkeys);
        tables := tables - {key};
        stale := stale - {key};
        trace := trace + [tables];
      }
      assert forall key :: key in tables.Keys ==> key in newPubkeys || key in stale;
    }

    /**
     * `refresh_address_lookup_table`: a failed fetch changes nothing; a successful one
     * ends with exactly the fetched tables that deserialised.
     */
    method Refresh(answer: Option<seq<Fetched>>) returns (ok: bool, ghost trace: seq<TableCache>)
      modifies this
      ensures ok == answer.Some?
      ensures !ok ==> tables == old(tables)
      ensures ok ==> tables == Rebuilt(answer.value) && RefreshTrace(trace, old(tables), answer.value)
    {
      if answer.None? { return false, []; }
      var newPubkeys, inserts := InsertAll(answer.value);
      assert answer.value[..|answer.value|] == answer.value;
      var prunes := Retain(newPubkeys);
      ok, trace := true, inserts + prunes[1..];
    }
  }

  /** While pruning, fetched tables stay as fetched. */
  lemma {:induction false} PruneKeepsRebuilt(trace: seq<TableCache>, before: TableCache, accounts: seq<Fetched>, k: nat)
    requires RefreshTrace(trace, before, accounts)
    requires |accounts| <= k < |trace|
    ensures forall key :: key in Rebuilt(accounts) ==> key in trace[k] && trace[k][key] == Rebuilt(accounts)[key]
  {
    assert accounts[..|accounts|] == accounts;
    if k > |accounts| {
      PruneKeepsRebuilt(trace, before, accounts, k - 1);
      assert RemovesStale(trace[k - 1], trace[k - 1 + 1], Rebuilt(accounts).Keys);
    }
  }

  /**
   * When does a lookup flagged before a refresh stay flagged at every moment of it? Exactly
   * when its table is fetched at least once and every fetched version flags it.
   */
  lemma FlaggedThroughoutIff(
      trace: seq<TableCache>, before: TableCache, accounts: seq<Fetched>, lookup: TableLookup, ofac: set<Pubkey>)
    requires RefreshTrace(trace, before, accounts)
    requires Flags(before, lookup, ofac)
    ensures (forall k :: 0 <= k < |trace| ==> Flags(trace[k], lookup, ofac)) <==> Kept(accounts, lookup, ofac)
  {
    var key := lookup.accountKey;
    RebuiltVersion(accounts, key);
    if Kept(accounts, lookup, ofac) {
      forall k | 0 <= k < |trace| ensures Flags(trace[k], lookup, ofac) {
        if k <= |accounts| {
          KeptPrefixFlags(before, accounts, k, lookup, ofac);
        } else {
          PruneKeepsRebuilt(trace, before, accounts, k);
        }
      }
    }
    if forall k :: 0 <= k < |trace| ==> Flags(trace[k], lookup, ofac) {
      assert Flags(trace[|trace| - 1], lookup, ofac);
      forall i | 0 <= i < |accounts| && accounts[i].pubkey == key && accounts[i].table.Some?
        ensures TableHit(lookup, accounts[i].table.value, ofac)
      {
        assert accounts[..i + 1][..i] == accounts[..i];
        assert Flags(trace[i + 1], lookup, ofac);
      }
    }
  }

  // ---------------------------------------------------------------- refresher and filters, interleaved

  datatype Phase = Idle | Inserting(accounts: seq<Fetched>, next: nat) | Pruning(accounts: seq<Fetched>)

  /** A filter thread inside `is_tx_ofac_related`: `next` is the table it reads next. */
  datatype Scan = Scan(tx: Transaction, next: nat, flagged: bool)

  /** `emitted` holds what the filters let through; `before` the cache when the refresh began. */
  datatype State = State(
    cache: TableCache, before: TableCache, phase: Phase, scans: map<nat, Scan>, emitted: seq<Transaction>)

  datatype Op =
    | FetchFailed
    | FetchOk(accounts: seq<Fetched>)
    | Insert
    | StartPrune
    | Prune(key: Pubkey)
    | EndPrune
    | Begin(thread: nat, tx: Transaction)
    | ReadTable(thread: nat)
    | Finish(thread: nat, emit: bool)

  ghost predicate RefresherStep(s: State, op: Op, t: State) {
    && t.scans == s.scans && t.emitted == s.emitted
    && match op
       case FetchFailed => s.phase.Idle? && t == s
       case FetchOk(accounts) =>
         s.phase.Idle? && t == s.(before := s.cache, phase := Inserting(accounts, 0))
       case Insert =>
         && s.phase.Inserting? && s.phase.next < |s.phase.accounts|
         && var f := s.phase.accounts[s.phase.next];
            t == s.(cache := if f.table.Some? then s.cache[f.pubkey := f.table.value] else s.cache,
                    phase := Inserting(s.phase.accounts, s.phase.next + 1))
       case StartPrune =>
         s.phase.Inserting? && s.phase.next == |s.phase.accounts| && t == s.(phase := Pruning(s.phase.accounts))
       case Prune(key) =>
         s.phase.Pruning? && key in s.cache && key !in Rebuilt(s.phase.accounts) && t == s.(cache := s.cache - {key})
       case EndPrune =>
         s.phase.Pruning? && s.cache.Keys <= Rebuilt(s.phase.accounts).Keys && t == s.(phase := Idle)
       case _ => false
  }

  /** Both paths drop a flagged transaction; an unflagged one may still be dropped for other reasons. */
  ghost predicate FilterStep(s: State, op: Op, t: State, ofac: set<Pubkey>) {
    match op
    case Begin(thread, tx) =>
      thread !in s.scans && t == s.(scans := s.scans[thread := Scan(tx, 0, StaticHit(tx, ofac))])
    case ReadTable(thread) =>
      && thread in s.scans
      && var scan := s.scans[thread];
         && !scan.flagged && scan.next < |scan.tx.Lookups()|
         && t == s.(scans := s.scans[thread :=
                      Scan(scan.tx, scan.next + 1, Flags(s.cache, scan.tx.Lookups()[scan.next], ofac))])
    case Finish(thread, emit) =>
      && thread in s.scans
      && var scan := s.scans[thread];
         && (scan.flagged || scan.next == |scan.tx.Lookups()|)
         && (emit ==> !scan.flagged)
         && t == s.(scans := s.scans - {thread}, emitted := if emit then s.emitted + [scan.tx] else s.emitted)
    case _ => false
  }

  ghost predicate Next(s: State, op: Op, t: State, ofac: set<Pubkey>) {
    RefresherStep(s, op, t) || FilterStep(s, op, t, ofac)
  }

  ghost predicate Run(states: seq<State>, ops: seq<Op>, ofac: set<Pubkey>) {
    && |states| == |ops| + 1
    && (forall i :: 0 <= i < |ops| ==> Next(states[i], ops[i], states[i + 1], ofac))
  }

  /** The cache at every moment of a refresh, whatever the filters do. */
  ghost predicate CacheInv(s: State) {
    match s.phase
    case Idle => true
    case Inserting(accounts, n) => n <= |accounts| && s.cache == s.before + Rebuilt(accounts[..n])
    case Pruning(accounts) =>
      forall key :: key in Rebuilt(accounts) ==> key in s.cache && s.cache[key] == Rebuilt(accounts)[key]
  }

  lemma CacheInvStep(s: State, op: Op, t: State, ofac: set<Pubkey>)
    requires CacheInv(s) && Next(s, op, t, ofac)
    ensures CacheInv(t)
    ensures op.EndPrune? ==> t.cache == Rebuilt(s.phase.accounts)
  {
    match op
    case FetchOk(accounts) =>
      assert accounts[..0] == [];
    case Insert =>
      var accounts, n := s.phase.accounts, s.phase.next;
      assert accounts[..n + 1][..n] == accounts[..n];
    case StartPrune =>
      assert s.phase.accounts[..|s.phase.accounts|] == s.phase.accounts;
    case _ =>
  }

  /**
   * Over every interleaving, whenever a refresh ends the cache is exactly the fetched tables
   * that deserialised.
   */
  lemma {:induction false} FinishedCacheIsRebuilt(states: seq<State>, ops: seq<Op>, ofac: set<Pubkey>)
    requires Run(states, ops, ofac) && states[0].phase.Idle?
    ensures forall i :: 0 <= i < |states| ==> CacheInv(states[i])
    ensures forall i :: 0 <= i < |ops| && ops[i].EndPrune? ==>
                          states[i].phase.Pruning? && states[i + 1].cache == Rebuilt(states[i].phase.accounts)
  {
    if ops != [] {
      var n := |ops| - 1;
      FinishedCacheIsRebuilt(states[..|ops|], ops[..n], ofac);
      assert states[..|ops|][n] == states[n];
      assert Next(states[n], ops[n], states[n + 1], ofac);
      CacheInvStep(states[n], ops[n], states[n + 1], ofac);
      forall i | 0 <= i < n && ops[i].EndPrune?
        ensures states[i].phase.Pruning? && states[i + 1].cache == Rebuilt(states[i].phase.accounts)
      {
        assert ops[..n][i] == ops[i] && states[..|ops|][i] == states[i] && states[..|ops|][i + 1] == states[i + 1];
      }
      forall i | 0 <= i < |states| ensures CacheInv(states[i]) {
        if i < |ops| { assert states[..|ops|][i] == states[i]; }
      }
    }
  }

  /** What keeps a flagged lookup flagged, and its transaction unemitted, while a refresh runs. */
  ghost predicate Guarded(s: State, tx: Transaction, j: nat, emittedBefore: nat, ofac: set<Pubkey>)
    requires tx.lookups.Some? && j < |tx.lookups.value|
  {
    var lookup := tx.lookups.value[j];
    && CacheInv(s)
    && Flags(s.cache, lookup, ofac)
    && (!s.phase.Idle? ==> Kept(s.phase.accounts, lookup, ofac))
    && (s.phase.Inserting? ==> Flags(s.before, lookup, ofac))
    && (forall thread :: thread in s.scans && s.scans[thread].tx == tx && !s.scans[thread].flagged
                         ==> s.scans[thread].next <= j)
    && emittedBefore <= |s.emitted|
    && tx !in s.emitted[emittedBefore..]
  }

  lemma GuardedStep(s: State, op: Op, t: State, tx: Transaction, j: nat, emittedBefore: nat, ofac: set<Pubkey>)
    requires tx.lookups.Some? && j < |tx.lookups.value|
    requires Guarded(s, tx, j, emittedBefore, ofac) && Next(s, op, t, ofac)
    requires op.FetchOk? ==> Kept(op.accounts, tx.lookups.value[j], ofac)
    ensures Guarded(t, tx, j, emittedBefore, ofac)
  {
    var lookup := tx.lookups.value[j];
    CacheInvStep(s, op, t, ofac);
    match op
    case Insert =>
      KeptPrefixFlags(t.before, t.phase.accounts, t.phase.next, lookup, ofac);
    case Prune(key) =>
      RebuiltVersion(s.phase.accounts, lookup.accountKey);
    case ReadTable(thread) =>
    case Finish(thread, emit) =>
      if emit {
        assert t.emitted[emittedBefore..] == s.emitted[emittedBefore..] + [s.scans[thread].tx];
      }
    case _ =>
  }

  lemma RelatedIfFlagged(tx: Transaction, j: nat, cache: TableCache, ofac: set<Pubkey>)
    requires tx.lookups.Some? && j < |tx.lookups.value| && Flags(cache, tx.lookups.value[j], ofac)
    ensures IsTxOfacRelated(tx, ofac, cache)
  {
    var seen := SnapshotReads(tx.Lookups(), cache);
    ScanHitIff(tx.Lookups(), seen, ofac);
    assert seen[j].Some? && TableHit(tx.Lookups()[j], seen[j].value, ofac);
  }

  lemma {:induction false} GuardedRun(
      states: seq<State>, ops: seq<Op>, tx: Transaction, j: nat, ofac: set<Pubkey>, i: nat)
    requires Run(states, ops, ofac)
    requires tx.lookups.Some? && j < |tx.lookups.value| && i < |states|
    requires states[0].phase.Idle? && Flags(states[0].cache, tx.lookups.value[j], ofac)
    requires forall thread :: thread in states[0].scans ==> states[0].scans[thread].tx != tx
    requires forall k :: 0 <= k < |ops| && ops[k].FetchOk? ==> Kept(ops[k].accounts, tx.lookups.value[j], ofac)
    ensures Guarded(states[i], tx, j, |states[0].emitted|, ofac)
  {
    if i > 0 {
      GuardedRun(states, ops, tx, j, ofac, i - 1);
      assert Next(states[i - 1], ops[i - 1], states[i - 1 + 1], ofac);
      GuardedStep(states[i - 1], ops[i - 1], states[i], tx, j, |states[0].emitted|, ofac);
    }
  }

  /**
   * Safety over whole runs of refreshes interleaved with any number of filter threads: a
   * transaction flagged through a table before the run is flagged at every intermediate
   * state, and no thread that starts on it during the run emits it, provided every refresh
   * fetches the table with lists that extend the one it had.
   */
  lemma FlaggedTransactionNeverEmitted(
      states: seq<State>, ops: seq<Op>, tx: Transaction, j: nat, ofac: set<Pubkey>)
    requires Run(states, ops, ofac)
    requires tx.lookups.Some? && j < |tx.lookups.value|
    requires states[0].phase.Idle? && Flags(states[0].cache, tx.lookups.value[j], ofac)
    requires forall thread :: thread in states[0].scans ==> states[0].scans[thread].tx != tx
    requires forall k :: 0 <= k < |ops| && ops[k].FetchOk? ==>
                           Extended(ops[k].accounts, tx.lookups.value[j].accountKey,
                                    states[0].cache[tx.lookups.value[j].accountKey])
    ensures forall i :: 0 <= i < |states| ==> IsTxOfacRelated(tx, ofac, states[i].cache)
    ensures forall i :: 0 <= i < |states| ==>
                          |states[0].emitted| <= |states[i].emitted| && tx !in states[i].emitted[|states[0].emitted|..]
  {
    var lookup := tx.lookups.value[j];
    forall k | 0 <= k < |ops| && ops[k].FetchOk? ensures Kept(ops[k].accounts, lookup, ofac) {
      ExtendedIsKept(ops[k].accounts, lookup, states[0].cache[lookup.accountKey], ofac);
    }
    forall i | 0 <= i < |states|
      ensures IsTxOfacRelated(tx, ofac, states[i].cache)
      ensures |states[0].emitted| <= |states[i].emitted| && tx !in states[i].emitted[|states[0].emitted|..]
    {
      GuardedRun(states, ops, tx, j, ofac, i);
      RelatedIfFlagged(tx, j, states[i].cache, ofac);
    }
  }
}
