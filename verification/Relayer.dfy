/**
 * The event loop of relayer/src/relayer.rs: one method per arm of the `select!`, over the
 * locked subscription map, the leader window and the per-tick metrics.
 */
module Relayer {
  import opened Prelude
  import opened Sequences
  import opened Packets
  import opened FanOut
  import opened LeaderSchedule

  datatype HealthState = Unhealthy | Healthy

  ghost predicate AllInOrder(channels: map<SenderId, seq<Msg>>, inputs: seq<Packet>) {
    forall s :: s in channels ==> Subsequence(PacketsOf(channels[s]), Convertible(inputs))
  }

  ghost predicate OneChannelEach(subscriptions: map<Pubkey, SenderId>, channels: set<SenderId>) {
    && (forall p :: p in subscriptions ==> subscriptions[p] in channels)
    && (forall p, q :: p in subscriptions && q in subscriptions && subscriptions[p] == subscriptions[q] ==> p == q)
  }

  /** Subscriptions are vacant inserts less removals; the metric exceeds removals by the repeated entries. */
  predicate Balance(subscriptions: nat, vacantInserts: nat, removals: nat, repeats: nat, reported: nat) {
    subscriptions == vacantInserts - removals && reported == removals + repeats
  }

  /** Every subscriber that has room has been sent this heartbeat once, and nobody else has been sent anything. */
  ghost predicate Beaten(
      before: map<SenderId, seq<Msg>>, after: map<SenderId, seq<Msg>>, subscriptions: map<Pubkey, SenderId>,
      answers: SenderId -> SendOutcome, count: nat)
  {
    && after.Keys == before.Keys
    && (forall s :: s in before ==>
                      after[s] == if s in subscriptions.Values && answers(s) == Sent then before[s] + [Beat(count)]
                                  else before[s])
  }

  /** Unhealthy leaves nobody; healthy leaves exactly the subscribers not found closed, with the senders they had. */
  ghost predicate Remaining(
      before: map<Pubkey, SenderId>, after: map<Pubkey, SenderId>, health: HealthState,
      answers: SenderId -> SendOutcome)
  {
    && (health.Unhealthy? ==> after == map[])
    && (health.Healthy? ==> forall p :: p in after <==> p in before && answers(before[p]) != Closed)
    && (forall p :: p in after ==> p in before && after[p] == before[p])
  }

  /** Who can be sent packets in a round. */
  datatype Audience = Audience(subscriptions: map<Pubkey, SenderId>, leaders: set<Pubkey>, forwardAll: bool)
  {
    ghost predicate IsTarget(pubkey: Pubkey) {
      pubkey in subscriptions && (forwardAll || pubkey in leaders)
    }

    /** The targets, each once, in some order. */
    ghost predicate AreTargets(targets: seq<Target>) {
      && Distinct(targets)
      && (forall i :: 0 <= i < |targets| ==>
                        IsTarget(targets[i].pubkey) && targets[i].sender == subscriptions[targets[i].pubkey])
      && (forall p :: IsTarget(p) ==> HasPubkey(targets, p))
    }

    /** `failed` holds exactly the targets some of whose first `n` sends were answered closed. */
    ghost predicate ClosedNamed(failed: seq<Pubkey>, n: nat, answers: Answers) {
      && (forall p :: p in failed ==> p in subscriptions)
      && (forall p :: p in subscriptions ==>
                        (p in failed <==> IsTarget(p) && ClosedTimes(n, answers, subscriptions[p]) > 0))
    }
  }

  /** What the loop holds between two arms. */
  datatype LoopState = LoopState(
    highestSlot: Slot, leaders: set<Pubkey>, subscriptions: map<Pubkey, SenderId>, channels: map<SenderId, seq<Msg>>,
    stats: map<Pubkey, Stats>, heartbeats: nat)

  /** The packet arm on some filtered packets: every chunk offered to every target, closed channels dropped. */
  ghost predicate IsRound(
      s: LoopState, packets: seq<ProtoPacket>, targets: seq<Target>, answers: Answers, failed: seq<Pubkey>,
      t: LoopState, batchSize: nat, forwardAll: bool)
    requires batchSize > 0
  {
    && Audience(s.subscriptions, s.leaders, forwardAll).AreTargets(targets)
    && Books(t.channels, t.stats, failed)
       == SendAll(Books(s.channels, s.stats, []), targets, ChunksOf(packets, batchSize), answers)
    && t == s.(channels := t.channels, stats := t.stats, subscriptions := s.subscriptions - ToSet(failed))
  }

  class Relayer {
    const ofac: set<Pubkey>
    const batchSize: nat
    const forwardAll: bool
    const lookahead: nat

    var highestSlot: Slot
    var slotLeaders: set<Pubkey>
    var subscriptions: map<Pubkey, SenderId>

    /** What each subscriber channel ever made has accepted. */
    var channels: map<SenderId, seq<Msg>>

    var numAdded: nat
    var numRemoved: nat
    var numHeartbeats: nat
    var stats: map<Pubkey, Stats>

    /** Over the whole run, across metric resets. */
    ghost var vacantInserts: nat
    ghost var removals: nat
    ghost var repeats: nat
    ghost var reportedRemoved: nat
    ghost var inputs: seq<Packet>

    /** The schedule that was read on the last slot. */
    ghost var windowSchedule: map<Slot, Pubkey>

    /**
     * Every subscription has a channel of its own; the books of connections added and removed
     * balance; no channel holds a packet that was not received, or holds packets out of order;
     * the counters are in range; the leaders at hand are those of the window at the highest slot.
     */
    ghost predicate Valid()
      reads this
    {
      && batchSize > 0
      && OneChannelEach(subscriptions, channels.Keys)
      && Balance(|subscriptions|, vacantInserts, removals, repeats, reportedRemoved + numRemoved)
      && AllInOrder(channels, inputs)
      && InRange(stats)
      && AreLeaders(slotLeaders, windowSchedule, highestSlot, lookahead)
    }

    constructor (ofac: set<Pubkey>, batchSize: nat, forwardAll: bool, lookahead: nat)
      requires batchSize > 0
      ensures Valid() && subscriptions == map[] && slotLeaders == {} && highestSlot == 0
      ensures this.ofac == ofac && this.batchSize == batchSize
      ensures this.forwardAll == forwardAll && this.lookahead == lookahead
    {
      this.ofac, this.batchSize, this.forwardAll, this.lookahead := ofac, batchSize, forwardAll, lookahead;
      highestSlot, slotLeaders, subscriptions, channels := 0, {}, map[], map[];
      numAdded, numRemoved, numHeartbeats, stats := 0, 0, 0, map[];
      vacantInserts, removals, repeats, reportedRemoved, inputs, windowSchedule := 0, 0, 0, 0, [], map[];
    }

    ghost function View(): LoopState
      reads this
    {
      LoopState(highestSlot, slotLeaders, subscriptions, channels, stats, numHeartbeats)
    }

    // -------------------------------------------------------------- slots

    /** `update_highest_slot` and the leader window read under it: the slot is assigned, not maxed. */
    method OnSlot(slot: Slot, cache: ScheduleCache)
      requires Valid()
      modifies this`highestSlot, this`slotLeaders, this`windowSchedule
      ensures Valid() && highestSlot == slot && windowSchedule == cache.schedule
    {
      highestSlot, windowSchedule := slot, cache.schedule;
      var slots := seq(lookahead, i requires 0 <= i < lookahead => slot + i);
      slotLeaders := cache.LeadersForSlots(slots);
      WindowSlots(slots, slot, lookahead);
    }

    // -------------------------------------------------------------- packets

    ghost function CurrentAudience(): Audience
      reads `subscriptions, `slotLeaders
    {
      Audience(subscriptions, slotLeaders, forwardAll)
    }

    /** The senders of this round, in whatever order the map or the set yields them. */
    method CollectTargets() returns (targets: seq<Target>)
      requires OneChannelEach(subscriptions, channels.Keys)
      ensures CurrentAudience().AreTargets(targets)
    {
      ghost var audience := CurrentAudience();
      targets := [];
      var left := if forwardAll then subscriptions.Keys else slotLeaders;
      while left != {}
        invariant left <= if forwardAll then subscriptions.Keys else slotLeaders
        invariant Distinct(targets)
        invariant forall i :: 0 <= i < |targets| ==>
                    && audience.IsTarget(targets[i].pubkey) && targets[i].pubkey !in left
                    && targets[i].sender == subscriptions[targets[i].pubkey]
        invariant forall p :: audience.IsTarget(p) && p !in left ==> HasPubkey(targets, p)
        decreases left
      {
        var p :| p in left;
        ghost var before := targets;
        if p in subscriptions { targets := targets + [Target(p, subscriptions[p])]; }
        left := left - {p};
        forall q | audience.IsTarget(q) && q !in left ensures HasPubkey(targets, q) {
          if q == p {
            assert targets[|before|].pubkey == q;
          } else {
            var i :| 0 <= i < |before| && before[i].pubkey == q;
            assert targets[i].pubkey == q;
          }
        }
      }
    }

    /** Every chunk to every target, chunk by chunk. */
    method SendChunks(chunks: seq<seq<ProtoPacket>>, targets: seq<Target>, answers: Answers)
        returns (failed: seq<Pubkey>)
      requires forall j :: 0 <= j < |chunks| ==> chunks[j] != []
      modifies this`channels, this`stats
      ensures Books(channels, stats, failed) == SendAll(old(Books(channels, stats, [])), targets, chunks, answers)
    {
      failed := [];
      ghost var start := Books(channels, stats, []);
      for j := 0 to |chunks|
        invariant Books(channels, stats, failed) == SendAll(start, targets, chunks[..j], answers)
      {
        ghost var before := Books(channels, stats, failed);
        assert chunks[..j + 1][..j] == chunks[..j];
        for k := 0 to |targets|
          invariant Books(channels, stats, failed) == SendRound(before, targets[..k], j, chunks[j], answers)
        {
          assert targets[..k + 1][..k] == targets[..k];
          var t, b := targets[k], Books(channels, stats, failed);
          match answers(j, t.sender) {
            case Sent =>
              channels := channels[t.sender := b.Channel(t.sender) + [Batch(chunks[j])]];
              stats := stats[t.pubkey := Credit(b.Stat(t.pubkey), Sent, |chunks[j]|)];
            case Full =>
              stats := stats[t.pubkey := Credit(b.Stat(t.pubkey), Full, |chunks[j]|)];
            case Closed =>
              failed := failed + [t.pubkey];
          }
        }
        assert targets[..|targets|] == targets;
      }
      assert chunks[..|chunks|] == chunks;
    }

    /**
     * `forward_packets`: filter, chunk, and fan out to this round's targets. `tables` are the
     * states the lookup-table cache goes through meanwhile. The list of failed forwards names,
     * as a set, the targets some send found closed.
     */
    method ForwardPackets(batches: seq<PacketBatch>, tables: CacheStates, answers: Answers)
        returns (failed: seq<Pubkey>, ghost packets: seq<ProtoPacket>, ghost targets: seq<Target>)
      requires Valid()
      modifies this`channels, this`stats, this`inputs
      ensures Valid() && old(CurrentAudience()).AreTargets(targets)
      ensures Subsequence(MustPass(Flatten(batches), ofac, tables), packets)
      ensures Subsequence(packets, MayPass(Flatten(batches), ofac, tables))
      ensures var chunks := ChunksOf(packets, batchSize);
              && Books(channels, stats, failed) == SendAll(old(Books(channels, stats, [])), targets, chunks, answers)
              && old(CurrentAudience()).ClosedNamed(failed, |chunks|, answers)
      ensures inputs == old(inputs) + Flatten(batches)
    {
      var filtered := Filter(Flatten(batches), ofac, tables);
      packets := filtered;
      var chunks := Chunk(filtered, batchSize);
      ChunksOfIsChunking(packets, batchSize);
      var senders := CollectTargets();
      targets := senders;
      failed := SendChunks(chunks, senders, answers);
      inputs := inputs + Flatten(batches);
      ghost var b := old(Books(channels, stats, []));
      MayPassConverts(Flatten(batches), ofac, tables, packets);
      RoundIsSound(CurrentAudience(), b, targets, chunks, answers, old(inputs), Flatten(batches));
    }

    method RemoveAll(disconnected: seq<Pubkey>)
      modifies this`subscriptions
      ensures subscriptions == old(subscriptions) - ToSet(disconnected)
    {
      for i := 0 to |disconnected|
        invariant subscriptions == old(subscriptions) - ToSet(disconnected[..i])
      {
        assert ToSet(disconnected[..i + 1]) == ToSet(disconnected[..i]) + {disconnected[i]};
        if disconnected[i] in subscriptions {
          subscriptions := subscriptions - {disconnected[i]};
        }
      }
      assert disconnected[..|disconnected|] == disconnected;
    }

    /** `drop_connections`: the metric counts list entries, the map loses each listed key once. */
    method DropConnections(disconnected: seq<Pubkey>)
      requires OneChannelEach(subscriptions, channels.Keys)
      requires Balance(|subscriptions|, vacantInserts, removals, repeats, reportedRemoved + numRemoved)
      requires forall p :: p in disconnected ==> p in subscriptions
      modifies this`subscriptions, this`numRemoved, this`removals, this`repeats
      ensures OneChannelEach(subscriptions, channels.Keys)
      ensures Balance(|subscriptions|, vacantInserts, removals, repeats, reportedRemoved + numRemoved)
      ensures subscriptions == old(subscriptions) - ToSet(disconnected)
      ensures removals == old(removals) + |ToSet(disconnected)|
      ensures numRemoved == old(numRemoved) + |disconnected|
      ensures repeats == old(repeats) + Repeats(disconnected)
    {
      ghost var gone := ToSet(disconnected);
      assert gone <= subscriptions.Keys;
      NoRepeats(disconnected);
      DropKeeps(subscriptions, channels.Keys, gone);
      numRemoved := numRemoved + |disconnected|;
      RemoveAll(disconnected);
      removals := removals + |gone|;
      repeats := repeats + Repeats(disconnected);
    }

    /** Forward, then drop the channels seen closed. */
    method ForwardAndDrop(batches: seq<PacketBatch>, tables: CacheStates, answers: Answers)
        returns (failed: seq<Pubkey>, ghost packets: seq<ProtoPacket>, ghost targets: seq<Target>)
      requires Valid()
      modifies this`channels, this`stats, this`inputs, this`subscriptions, this`numRemoved, this`removals, this`repeats
      ensures Valid() && old(CurrentAudience()).AreTargets(targets)
      ensures Subsequence(MustPass(Flatten(batches), ofac, tables), packets)
      ensures Subsequence(packets, MayPass(Flatten(batches), ofac, tables))
      ensures var chunks := ChunksOf(packets, batchSize);
              && Books(channels, stats, failed) == SendAll(old(Books(channels, stats, [])), targets, chunks, answers)
              && old(CurrentAudience()).ClosedNamed(failed, |chunks|, answers)
      ensures subscriptions == old(subscriptions) - ToSet(failed)
      ensures numRemoved - old(numRemoved) == removals - old(removals) + Repeats(failed)
      ensures inputs == old(inputs) + Flatten(batches)
    {
      failed, packets, targets := ForwardPackets(batches, tables, answers);
      assert AllInOrder(channels, inputs) && OneChannelEach(subscriptions, channels.Keys);
      DropConnections(failed);
    }

    /**
     * The packet arm. A subscription is dropped exactly when it was a target and one of its
     * sends found the channel closed; every other subscription keeps the sender it had.
     */
    method OnPackets(batches: seq<PacketBatch>, tables: CacheStates, answers: Answers)
        returns (failed: seq<Pubkey>, ghost packets: seq<ProtoPacket>, ghost targets: seq<Target>)
      requires Valid()
      modifies this`channels, this`stats, this`inputs, this`subscriptions, this`numRemoved, this`removals, this`repeats
      ensures Valid()
      ensures Subsequence(MustPass(Flatten(batches), ofac, tables), packets)
      ensures Subsequence(packets, MayPass(Flatten(batches), ofac, tables))
      ensures IsRound(old(View()), packets, targets, answers, failed, View(), batchSize, forwardAll)
      ensures old(CurrentAudience()).ClosedNamed(failed, |ChunksOf(packets, batchSize)|, answers)
      ensures numRemoved - old(numRemoved) == removals - old(removals) + Repeats(failed)
      ensures inputs == old(inputs) + Flatten(batches)
    {
      failed, packets, targets := ForwardAndDrop(batches, tables, answers);
    }

    // -------------------------------------------------------------- subscriptions

    /** The channel a subscription call makes, empty. */
    method OpenChannel(sender: SenderId)
      requires AllInOrder(channels, inputs)
      modifies this`channels
      ensures AllInOrder(channels, inputs)
      ensures channels == old(channels)[sender := []] && channels.Keys == old(channels).Keys + {sender}
    {
      NewChannelInOrder(channels, inputs, sender);
      channels := channels[sender := []];
    }

    /** The entry in the map, counted when it was vacant. */
    method Enter(pubkey: Pubkey, sender: SenderId)
      modifies this`subscriptions, this`numAdded, this`vacantInserts
      ensures subscriptions == old(subscriptions)[pubkey := sender]
      ensures numAdded - old(numAdded) == vacantInserts - old(vacantInserts)
      ensures vacantInserts - old(vacantInserts) == if pubkey in old(subscriptions) then 0 else 1
    {
      if pubkey !in subscriptions {
        numAdded := numAdded + 1;
        vacantInserts := vacantInserts + 1;
      }
      subscriptions := subscriptions[pubkey := sender];
    }

    /** `handle_subscription`: a later subscription of the same key replaces the sender, adding nothing. */
    method OnSubscription(pubkey: Pubkey, sender: SenderId)
      requires Valid() && sender !in channels
      modifies this`subscriptions, this`channels, this`numAdded, this`vacantInserts
      ensures Valid()
      ensures subscriptions == old(subscriptions)[pubkey := sender]
      ensures channels == old(channels)[sender := []]
      ensures numAdded - old(numAdded) == vacantInserts - old(vacantInserts)
      ensures vacantInserts - old(vacantInserts) == if pubkey in old(subscriptions) then 0 else 1
    {
      assert AllInOrder(channels, inputs) && OneChannelEach(subscriptions, channels.Keys);
      SubscribeKeeps(subscriptions, channels.Keys, pubkey, sender);
      Enter(pubkey, sender);
      OpenChannel(sender);
    }

    // -------------------------------------------------------------- heartbeats

    /** The loop of `handle_heartbeat`, over the subscriptions in the order the map yields them. */
    method SendBeats(order: seq<Pubkey>, answers: SenderId -> SendOutcome) returns (closed: seq<Pubkey>)
      requires forall p :: p in order ==> p in subscriptions && subscriptions[p] in channels
      modifies this`channels
      ensures channels == Beats(old(channels), subscriptions, order, answers, numHeartbeats)
      ensures closed == ClosedAmong(subscriptions, order, answers)
    {
      closed := [];
      for i := 0 to |order|
        invariant channels == Beats(old(channels), subscriptions, order[..i], answers, numHeartbeats)
        invariant closed == ClosedAmong(subscriptions, order[..i], answers)
      {
        assert order[..i + 1][..i] == order[..i];
        var s := subscriptions[order[i]];
        match answers(s) {
          case Sent => channels := channels[s := channels[s] + [Beat(numHeartbeats)]];
          case Full =>
          case Closed => closed := closed + [order[i]];
        }
      }
      assert order[..|order|] == order;
    }

    /** `handle_heartbeat`: the keys whose channel was seen closed, each once. */
    method HandleHeartbeat(answers: SenderId -> SendOutcome) returns (closed: seq<Pubkey>, ghost list: seq<Pubkey>)
      requires Valid()
      modifies this`channels, this`numHeartbeats
      ensures Valid()
      ensures NoDuplicates(list) && forall p :: p in list <==> p in subscriptions
      ensures (forall p :: p in list ==> subscriptions[p] in old(channels))
              && channels == Beats(old(channels), subscriptions, list, answers, old(numHeartbeats))
      ensures closed == ClosedAmong(subscriptions, list, answers)
      ensures numHeartbeats == old(numHeartbeats) + 1
    {
      var order := Listed(subscriptions.Keys);
      list := order;
      closed := SendBeats(order, answers);
      BeatsInOrder(old(channels), subscriptions, list, answers, numHeartbeats, inputs);
      numHeartbeats := numHeartbeats + 1;
    }

    /** While healthy, beat and name the closed channels; while unhealthy, name everyone. */
    method WhomToDrop(health: HealthState, answers: SenderId -> SendOutcome) returns (toDrop: seq<Pubkey>)
      requires Valid()
      modifies this`channels, this`numHeartbeats
      ensures Valid()
      ensures health.Healthy? ==> Beaten(old(channels), channels, subscriptions, answers, old(numHeartbeats))
      ensures health.Healthy? ==> numHeartbeats == old(numHeartbeats) + 1
      ensures health.Unhealthy? ==> channels == old(channels) && numHeartbeats == old(numHeartbeats)
      ensures NoDuplicates(toDrop)
      ensures forall p ::
                p in toDrop <==> p in subscriptions && (health.Healthy? ==> answers(subscriptions[p]) == Closed)
    {
      match health {
        case Healthy =>
          ghost var list;
          toDrop, list := HandleHeartbeat(answers);
          ClosedAmongEffect(subscriptions, list, answers);
          AllBeaten(old(channels), subscriptions, list, answers, old(numHeartbeats));
        case Unhealthy =>
          toDrop := Listed(subscriptions.Keys);
      }
    }

    /** Drops a list in which nobody is named twice. */
    method DropOnce(toDrop: seq<Pubkey>)
      requires Valid() && NoDuplicates(toDrop) && forall p :: p in toDrop ==> p in subscriptions
      modifies this`subscriptions, this`numRemoved, this`removals, this`repeats
      ensures Valid() && subscriptions == old(subscriptions) - ToSet(toDrop)
      ensures repeats == old(repeats) && numRemoved == old(numRemoved) + |toDrop|
    {
      assert AllInOrder(channels, inputs) && OneChannelEach(subscriptions, channels.Keys);
      NoRepeats(toDrop);
      DropConnections(toDrop);
    }

    /**
     * The heartbeat arm: while healthy, beat and drop exactly the closed channels; while
     * unhealthy, drop everyone. Here the removal metric counts exactly the removals.
     */
    method OnHeartbeat(health: HealthState, answers: SenderId -> SendOutcome)
      requires Valid()
      modifies this`channels, this`numHeartbeats, this`subscriptions, this`numRemoved, this`removals, this`repeats
      ensures Valid()
      ensures Remaining(old(subscriptions), subscriptions, health, answers)
      ensures health.Unhealthy? ==> channels == old(channels) && numHeartbeats == old(numHeartbeats)
      ensures health.Healthy? ==> Beaten(old(channels), channels, old(subscriptions), answers, old(numHeartbeats))
      ensures health.Healthy? ==> numHeartbeats == old(numHeartbeats) + 1
      ensures repeats == old(repeats)
      ensures numRemoved - old(numRemoved) == |old(subscriptions)| - |subscriptions|
    {
      var toDrop := WhomToDrop(health, answers);
      DropsExactly(subscriptions, toDrop, health, answers);
      DropOnce(toDrop);
    }

    // -------------------------------------------------------------- metrics

    /** The metrics arm reports and starts new counters; the heartbeat count starts again too. */
    method OnMetrics()
      requires Valid()
      modifies this`numAdded, this`numRemoved, this`numHeartbeats, this`stats, this`reportedRemoved
      ensures Valid()
      ensures numAdded == numRemoved == numHeartbeats == 0 && stats == map[]
      ensures reportedRemoved == old(reportedRemoved) + old(numRemoved)
    {
      assert AllInOrder(channels, inputs) && OneChannelEach(subscriptions, channels.Keys);
      reportedRemoved := reportedRemoved + numRemoved;
      numAdded, numRemoved, numHeartbeats, stats := 0, 0, 0, map[];
    }
  }

  /** The keys of a map, collected in whatever order it yields them. */
  method Listed(keys: set<Pubkey>) returns (list: seq<Pubkey>)
    ensures (forall p :: p in list <==> p in keys) && NoDuplicates(list)
  {
    list := [];
    var left := keys;
    while left != {}
      invariant left <= keys
      invariant forall p :: p in list <==> p in keys && p !in left
      invariant NoDuplicates(list)
      decreases left
    {
      var p :| p in left;
      list, left := list + [p], left - {p};
    }
  }

  /**
   * The leader window, end to end: with a cache rebuilt from disjoint lists, the targets of
   * a round are exactly the subscribed keys to which the fetched schedule gives a slot in
   * [h, h + lookahead), or all subscribed keys when everything is forwarded to everyone.
   */
  lemma TargetsAreWindowLeaders(
      audience: Audience, targets: seq<Target>, schedule: map<Slot, Pubkey>, h: Slot, lookahead: nat,
      fetched: Fetched, parse: Parser, offset: U64, p: Pubkey)
    requires audience.AreTargets(targets) && AreLeaders(audience.leaders, schedule, h, lookahead)
    requires IsInverse(schedule, fetched, parse, offset)
    ensures HasPubkey(targets, p) <==>
            && p in audience.subscriptions
            && (|| audience.forwardAll
                || exists s: Slot :: h <= s < h + lookahead && Assigned(fetched, parse, offset, s, p))
  {
    WindowIsFetchedWindow(audience.leaders, schedule, fetched, parse, offset, h, lookahead);
    assert HasPubkey(targets, p) <==> audience.IsTarget(p);
  }

  // ---------------------------------------------------------------- lemmas of the arms

  lemma SubscribeKeeps(subscriptions: map<Pubkey, SenderId>, channels: set<SenderId>, pubkey: Pubkey, sender: SenderId)
    requires OneChannelEach(subscriptions, channels) && sender !in channels
    ensures OneChannelEach(subscriptions[pubkey := sender], channels + {sender})
    ensures |subscriptions[pubkey := sender]| == |subscriptions| + if pubkey in subscriptions then 0 else 1
  {
    var after := subscriptions[pubkey := sender];
    assert after.Keys == subscriptions.Keys + {pubkey};
    assert |after| == |after.Keys| && |subscriptions| == |subscriptions.Keys|;
  }

  lemma NewChannelInOrder(channels: map<SenderId, seq<Msg>>, inputs: seq<Packet>, sender: SenderId)
    requires AllInOrder(channels, inputs)
    ensures AllInOrder(channels[sender := []], inputs)
  {}

  lemma AllBeaten(
      channels: map<SenderId, seq<Msg>>, subscriptions: map<Pubkey, SenderId>, list: seq<Pubkey>,
      answers: SenderId -> SendOutcome, count: nat)
    requires OneChannelEach(subscriptions, channels.Keys)
    requires NoDuplicates(list) && forall p :: p in list <==> p in subscriptions
    ensures (forall p :: p in list ==> p in subscriptions && subscriptions[p] in channels)
            && Beaten(channels, Beats(channels, subscriptions, list, answers, count), subscriptions, answers, count)
  {
    forall s | s in channels
      ensures Beats(channels, subscriptions, list, answers, count)[s]
              == if s in subscriptions.Values && answers(s) == Sent then channels[s] + [Beat(count)] else channels[s]
    {
      BeatsEffect(channels, subscriptions, list, answers, count, s);
      assert channels[s] + [] == channels[s];
      if s in subscriptions.Values {
        var p :| p in subscriptions && subscriptions[p] == s;
        assert p in list;
      }
    }
  }

  lemma BeatsInOrder(
      channels: map<SenderId, seq<Msg>>, subscriptions: map<Pubkey, SenderId>, list: seq<Pubkey>,
      answers: SenderId -> SendOutcome, count: nat, inputs: seq<Packet>)
    requires OneChannelEach(subscriptions, channels.Keys) && AllInOrder(channels, inputs)
    requires NoDuplicates(list) && forall p :: p in list ==> p in subscriptions && subscriptions[p] in channels
    ensures AllInOrder(Beats(channels, subscriptions, list, answers, count), inputs)
  {
    forall s | s in channels
      ensures Subsequence(PacketsOf(Beats(channels, subscriptions, list, answers, count)[s]), Convertible(inputs))
    {
      BeatsKeepPackets(channels, subscriptions, list, answers, count, s);
    }
  }

  lemma MayPassConverts(packets: seq<Packet>, ofac: set<Pubkey>, caches: CacheStates, out: seq<ProtoPacket>)
    requires Subsequence(out, MayPass(packets, ofac, caches))
    ensures Subsequence(out, Convertible(packets))
  {
    ConvertedIsConvertible(packets, p => PossiblyPasses(p, ofac, caches));
    SubsequenceTrans(out, MayPass(packets, ofac, caches), Convertible(packets));
  }

  lemma InOrderAfter(
      b: Books, targets: seq<Target>, chunks: seq<seq<ProtoPacket>>, answers: Answers, inputs: seq<Packet>,
      more: seq<Packet>)
    requires Distinct(targets) && Subsequence(Flatten(chunks), Convertible(more)) && AllInOrder(b.channels, inputs)
    requires SendAll(b, targets, chunks, answers).channels.Keys == b.channels.Keys
    ensures AllInOrder(SendAll(b, targets, chunks, answers).channels, inputs + more)
  {
    var after := SendAll(b, targets, chunks, answers);
    forall s | s in after.channels ensures Subsequence(PacketsOf(after.channels[s]), Convertible(inputs + more)) {
      ChannelStaysInOrder(b, targets, chunks, answers, s, inputs, more);
    }
  }

  /** What a round keeps, and whom it names. */
  lemma RoundIsSound(
      audience: Audience, b: Books, targets: seq<Target>, chunks: seq<seq<ProtoPacket>>, answers: Answers,
      inputs: seq<Packet>, more: seq<Packet>)
    requires audience.AreTargets(targets) && b.failed == [] && InRange(b.stats) && AllInOrder(b.channels, inputs)
    requires OneChannelEach(audience.subscriptions, b.channels.Keys)
    requires Subsequence(Flatten(chunks), Convertible(more))
    ensures var after := SendAll(b, targets, chunks, answers);
            && after.channels.Keys == b.channels.Keys && InRange(after.stats)
            && AllInOrder(after.channels, inputs + more)
            && audience.ClosedNamed(after.failed, |chunks|, answers)
  {
    FanOutKeeps(b, targets, chunks, answers);
    FailedAreTheClosed(audience, b, targets, chunks, answers, SendAll(b, targets, chunks, answers).failed);
    InOrderAfter(b, targets, chunks, answers, inputs, more);
  }

  lemma WindowSlots(slots: seq<Slot>, slot: Slot, lookahead: nat)
    requires |slots| == lookahead && forall i :: 0 <= i < lookahead ==> slots[i] == slot + i
    ensures forall s :: s in slots <==> slot <= s < slot + lookahead
  {
    forall s | slot <= s < slot + lookahead ensures s in slots {
      assert slots[s - slot] == s;
    }
  }

  lemma DropKeeps(subscriptions: map<Pubkey, SenderId>, channels: set<SenderId>, gone: set<Pubkey>)
    requires OneChannelEach(subscriptions, channels) && gone <= subscriptions.Keys
    ensures OneChannelEach(subscriptions - gone, channels)
    ensures |subscriptions - gone| == |subscriptions| - |gone|
  {
    var left := subscriptions - gone;
    assert left.Keys == subscriptions.Keys - gone;
    assert |subscriptions.Keys - gone| == |subscriptions.Keys| - |gone|;
    assert |left| == |left.Keys| && |subscriptions| == |subscriptions.Keys|;
  }

  lemma DropsExactly(
      subscriptions: map<Pubkey, SenderId>, toDrop: seq<Pubkey>, health: HealthState, answers: SenderId -> SendOutcome)
    requires NoDuplicates(toDrop)
    requires forall p ::
               p in toDrop <==> p in subscriptions && (health.Healthy? ==> answers(subscriptions[p]) == Closed)
    ensures Remaining(subscriptions, subscriptions - ToSet(toDrop), health, answers)
    ensures |subscriptions - ToSet(toDrop)| == |subscriptions| - |toDrop| && Repeats(toDrop) == 0
  {
    NoRepeats(toDrop);
    var gone, left := ToSet(toDrop), subscriptions - ToSet(toDrop);
    assert gone <= subscriptions.Keys && left.Keys == subscriptions.Keys - gone;
    assert |subscriptions.Keys - gone| == |subscriptions.Keys| - |gone|;
    assert |left| == |left.Keys| && |subscriptions| == |subscriptions.Keys|;
    if health.Unhealthy? { assert left.Keys == {}; }
  }

  lemma FailedAreTheClosed(
      audience: Audience, b: Books, targets: seq<Target>, chunks: seq<seq<ProtoPacket>>, answers: Answers,
      failed: seq<Pubkey>)
    requires audience.AreTargets(targets) && b.failed == [] && InRange(b.stats)
    requires forall p :: p in audience.subscriptions ==> audience.subscriptions[p] in b.channels
    requires failed == SendAll(b, targets, chunks, answers).failed
    ensures audience.ClosedNamed(failed, |chunks|, answers)
  {
    FanOutKeeps(b, targets, chunks, answers);
    forall p | p in audience.subscriptions
      ensures p in failed <==> audience.IsTarget(p) && ClosedTimes(|chunks|, answers, audience.subscriptions[p]) > 0
    {
      var t := Target(p, audience.subscriptions[p]);
      if audience.IsTarget(p) {
        var i :| 0 <= i < |targets| && targets[i].pubkey == p;
        assert targets[i] == t;
      }
      FailedIffClosed(b, targets, chunks, answers, t);
    }
  }

  lemma FailedIffClosed(b: Books, targets: seq<Target>, chunks: seq<seq<ProtoPacket>>, answers: Answers, t: Target)
    requires Distinct(targets) && b.failed == []
    requires t in targets || !HasPubkey(targets, t.pubkey)
    ensures t.pubkey in SendAll(b, targets, chunks, answers).failed
            <==> t in targets && ClosedTimes(|chunks|, answers, t.sender) > 0
  {
    FanOutEffect(b, targets, chunks, answers, t);
    assert t.pubkey in SendAll(b, targets, chunks, answers).failed
           <==> multiset(SendAll(b, targets, chunks, answers).failed)[t.pubkey] > 0;
  }

  /**
   * A round as each subscriber sees it. A target is sent, in order, exactly the chunks its channel
   * accepts, and loses its subscription exactly when one of its sends is answered closed; whoever is
   * no target is sent nothing; and nobody's sender changes.
   */
  lemma RoundAsSeen(
      s: LoopState, packets: seq<ProtoPacket>, targets: seq<Target>, answers: Answers, failed: seq<Pubkey>,
      t: LoopState, batchSize: nat, forwardAll: bool, p: Pubkey)
    requires batchSize > 0 && IsRound(s, packets, targets, answers, failed, t, batchSize, forwardAll)
    requires OneChannelEach(s.subscriptions, s.channels.Keys) && InRange(s.stats) && p in s.subscriptions
    ensures var sender, chunks := s.subscriptions[p], ChunksOf(packets, batchSize);
            var target := forwardAll || p in s.leaders;
            && sender in t.channels
            && t.channels[sender]
               == s.channels[sender] + (if target then AsBatches(Delivered(chunks, answers, sender)) else [])
            && (p in t.subscriptions <==>
                  !(target && exists j: nat :: j < |chunks| && answers(j, sender) == Closed))
            && (p in t.subscriptions ==> t.subscriptions[p] == sender)
  {
    var audience, sender := Audience(s.subscriptions, s.leaders, forwardAll), s.subscriptions[p];
    var b, chunks := Books(s.channels, s.stats, []), ChunksOf(packets, batchSize);
    FanOutKeeps(b, targets, chunks, answers);
    FailedAreTheClosed(audience, b, targets, chunks, answers, failed);
    ClosedTimesExactly(|chunks|, answers, sender);
    ClosedOnce(|chunks|, answers, sender);
    FanOutEffect(b, targets, chunks, answers, Target(p, sender));
    if audience.IsTarget(p) {
      var i :| 0 <= i < |targets| && targets[i].pubkey == p;
      assert targets[i] == Target(p, sender);
    } else {
      NoTargetNoSender(audience, targets, p);
      assert s.channels[sender] + [] == s.channels[sender];
    }
  }

  lemma ClosedOnce(n: nat, answers: Answers, sender: SenderId)
    ensures |Having(n, answers, sender, Closed)| > 0 <==> exists j: nat :: j < n && answers(j, sender) == Closed
  {
    var times := Having(n, answers, sender, Closed);
    if |times| > 0 {
      var j :| j in times;
    } else {
      assert times == {};
      forall j: nat | j < n ensures answers(j, sender) != Closed {
        assert j !in times;
      }
    }
  }

  lemma NoTargetNoSender(audience: Audience, targets: seq<Target>, p: Pubkey)
    requires audience.AreTargets(targets) && p in audience.subscriptions && !audience.IsTarget(p)
    requires forall q, r :: && q in audience.subscriptions && r in audience.subscriptions
                            && audience.subscriptions[q] == audience.subscriptions[r]
                            ==> q == r
    ensures !HasSender(targets, audience.subscriptions[p]) && !HasPubkey(targets, p)
  {
    forall i | 0 <= i < |targets|
      ensures targets[i].sender != audience.subscriptions[p] && targets[i].pubkey != p
    {
      assert audience.IsTarget(targets[i].pubkey);
    }
  }

  /** A round keeps every channel an in-order part of the received packets. */
  lemma ChannelStaysInOrder(
      b: Books, targets: seq<Target>, chunks: seq<seq<ProtoPacket>>, answers: Answers, s: SenderId,
      inputs: seq<Packet>, more: seq<Packet>)
    requires Distinct(targets) && Subsequence(Flatten(chunks), Convertible(more))
    requires Subsequence(PacketsOf(b.Channel(s)), Convertible(inputs))
    ensures Subsequence(PacketsOf(SendAll(b, targets, chunks, answers).Channel(s)), Convertible(inputs + more))
  {
    var was, now := Convertible(inputs), Convertible(more);
    ConvertibleAppend(inputs, more);
    if HasSender(targets, s) {
      var i :| 0 <= i < |targets| && targets[i].sender == s;
      FanOutEffect(b, targets, chunks, answers, targets[i]);
      PacketsOfBatches(b.Channel(s), Delivered(chunks, answers, s));
      DeliveredInOrder(chunks, answers, s);
      SubsequenceTrans(Flatten(Delivered(chunks, answers, s)), Flatten(chunks), now);
      SubsequenceConcat(PacketsOf(b.Channel(s)), was, Flatten(Delivered(chunks, answers, s)), now);
    } else {
      FanOutEffect(b, targets, chunks, answers, Target(0, s));
      SubsequenceExtend(PacketsOf(b.Channel(s)), was, now);
    }
  }
}
