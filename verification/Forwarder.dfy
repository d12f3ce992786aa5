/**
 * The forwarding thread of transaction-relayer/src/forwarder.rs: batches go to the block
 * engine at once, if it has room, and to the validators after the packet delay.
 */
module Forwarder {
  import opened Prelude
  import opened Sequences
  import opened Packets

  /** `RelayerPacketBatches` */
  datatype Stamped = Stamped(stamp: Time, batches: seq<PacketBatch>)

  datatype Input = Batch(batches: seq<PacketBatch>) | Timeout | Disconnected

  /** The sum of the batch lengths. */
  function Count(batches: seq<PacketBatch>): nat {
    if batches == [] then 0 else Count(batches[..|batches| - 1]) + |batches[|batches| - 1]|
  }

  function CountAll(s: seq<Stamped>): nat {
    if s == [] then 0 else CountAll(s[..|s| - 1]) + Count(s[|s| - 1].batches)
  }

  /** It is the number of packets. */
  lemma {:induction false} CountIsSize(batches: seq<PacketBatch>)
    ensures Count(batches) == |Flatten(batches)|
  {
    if batches != [] {
      CountIsSize(batches[..|batches| - 1]);
    }
  }

  /** All packets of a run of batches, in order. */
  function PacketsIn(s: seq<Stamped>): seq<Packet> {
    if s == [] then [] else PacketsIn(s[..|s| - 1]) + Flatten(s[|s| - 1].batches)
  }

  lemma CountAllAppend(s: seq<Stamped>, x: Stamped)
    ensures CountAll(s + [x]) == CountAll(s) + Count(x.batches)
  {
    assert (s + [x])[..|s|] == s;
  }

  lemma {:induction false} CountAllIsSize(s: seq<Stamped>)
    ensures CountAll(s) == |PacketsIn(s)|
  {
    if s != [] {
      CountAllIsSize(s[..|s| - 1]);
      CountIsSize(s[|s| - 1].batches);
    }
  }

  /** The counters of one metrics interval. */
  datatype Metrics = Metrics(
    batchesReceived: nat, packetsReceived: nat, beForwarded: nat, beDropped: nat, beFull: nat, relayerForwarded: nat)

  function Zero(): Metrics { Metrics(0, 0, 0, 0, 0, 0) }

  function Plus(a: Metrics, b: Metrics): Metrics {
    Metrics(a.batchesReceived + b.batchesReceived, a.packetsReceived + b.packetsReceived,
            a.beForwarded + b.beForwarded, a.beDropped + b.beDropped, a.beFull + b.beFull,
            a.relayerForwarded + b.relayerForwarded)
  }

  ghost predicate Ordered(s: seq<Stamped>, now: Time) {
    && (forall i, j :: 0 <= i < j < |s| ==> s[i].stamp <= s[j].stamp)
    && (forall i :: 0 <= i < |s| ==> s[i].stamp <= now)
  }

  /** The received batches after an input, which is stamped when it is taken. */
  function WithInput(received: seq<Stamped>, input: Input, at: Time): seq<Stamped> {
    if input.Batch? then received + [Stamped(at, input.batches)] else received
  }

  /** The block engine's queue after an input: it is offered, unless the mempool is off, and perhaps accepted. */
  function WithOffer(blockEngine: seq<Stamped>, input: Input, offer: SendOutcome, at: Time, disableMempool: bool)
    : seq<Stamped>
  {
    if !disableMempool && offer == Sent then WithInput(blockEngine, input, at) else blockEngine
  }

  /** The inputs that make the thread panic. */
  predicate Fatal(input: Input, offer: SendOutcome, disableMempool: bool) {
    input.Disconnected? || (input.Batch? && !disableMempool && offer == Closed)
  }

  /** What the thread has done by some instant; `checkedAt` is when the drain last looked at the clock. */
  datatype Progress = Progress(
    now: Time, received: seq<Stamped>, downstream: seq<Stamped>, sentAt: seq<Time>, blockEngine: seq<Stamped>,
    checkedAt: Time)

  /**
   * One turn of the loop on an input taken at `at`: the batch is received and perhaps accepted
   * by the block engine; then exactly the batches that have reached the delay at the last look
   * go downstream, in order, none before its time.
   */
  ghost predicate Turns(
      s: Progress, input: Input, offer: SendOutcome, at: Time, t: Progress, delay: nat, disableMempool: bool)
  {
    && s.now <= at <= t.checkedAt <= t.now
    && t.received == WithInput(s.received, input, at)
    && t.blockEngine == WithOffer(s.blockEngine, input, offer, at, disableMempool)
    && s.downstream <= t.downstream <= t.received
    && s.sentAt <= t.sentAt && |t.sentAt| == |t.downstream|
    && (forall i :: 0 <= i < |t.downstream| ==> t.downstream[i].stamp + delay <= t.sentAt[i])
    && (forall i :: |t.downstream| <= i < |t.received| ==> t.checkedAt < t.received[i].stamp + delay)
  }

  /** The batches received from some inputs, each taken at its own instant. */
  function ReceivedFrom(inputs: seq<(Input, SendOutcome)>, at: seq<Time>): seq<Stamped>
    requires |at| == |inputs|
  {
    if inputs == [] then []
    else
      var n := |inputs| - 1;
      WithInput(ReceivedFrom(inputs[..n], at[..n]), inputs[n].0, at[n])
  }

  /** Those of them the block engine accepted. */
  function AcceptedFrom(inputs: seq<(Input, SendOutcome)>, at: seq<Time>, disableMempool: bool): seq<Stamped>
    requires |at| == |inputs|
  {
    if inputs == [] then []
    else
      var n := |inputs| - 1;
      WithOffer(AcceptedFrom(inputs[..n], at[..n], disableMempool), inputs[n].0, inputs[n].1, at[n], disableMempool)
  }

  /** Input by input: every batch that came in, as it came in, stamped when it was taken, and nothing else. */
  lemma {:induction false} ReceivedExactly(inputs: seq<(Input, SendOutcome)>, at: seq<Time>)
      returns (from: seq<nat>)
    requires |at| == |inputs|
    ensures InOrder(from, set i: nat | i < |inputs| && inputs[i].0.Batch?)
    ensures |ReceivedFrom(inputs, at)| == |from|
    ensures forall k :: 0 <= k < |from| ==>
                          && from[k] < |inputs| && inputs[from[k]].0.Batch?
                          && ReceivedFrom(inputs, at)[k] == Stamped(at[from[k]], inputs[from[k]].0.batches)
  {
    if inputs == [] {
      from := [];
    } else {
      var n := |inputs| - 1;
      var front := ReceivedExactly(inputs[..n], at[..n]);
      var before := set i: nat | i < |inputs[..n]| && inputs[..n][i].0.Batch?;
      var now := set i: nat | i < |inputs| && inputs[i].0.Batch?;
      if inputs[n].0.Batch? {
        InOrderNext(front, before, n);
        assert now == before + {n};
        from := front + [n];
      } else {
        assert now == before;
        from := front;
      }
    }
  }

  /** Input by input: every batch that was offered and had room, and nothing else. */
  lemma {:induction false} AcceptedExactly(inputs: seq<(Input, SendOutcome)>, at: seq<Time>, disableMempool: bool)
      returns (from: seq<nat>)
    requires |at| == |inputs|
    ensures InOrder(from, set i: nat | i < |inputs| && inputs[i].0.Batch? && inputs[i].1 == Sent && !disableMempool)
    ensures |AcceptedFrom(inputs, at, disableMempool)| == |from|
    ensures forall k :: 0 <= k < |from| ==>
                          && from[k] < |inputs| && inputs[from[k]].0.Batch?
                          && AcceptedFrom(inputs, at, disableMempool)[k]
                             == Stamped(at[from[k]], inputs[from[k]].0.batches)
  {
    if inputs == [] {
      from := [];
    } else {
      var n := |inputs| - 1;
      var front := AcceptedExactly(inputs[..n], at[..n], disableMempool);
      var before := set i: nat | i < |inputs[..n]| && inputs[..n][i].0.Batch? && inputs[..n][i].1 == Sent
                                 && !disableMempool;
      var now := set i: nat | i < |inputs| && inputs[i].0.Batch? && inputs[i].1 == Sent && !disableMempool;
      if inputs[n].0.Batch? && inputs[n].1 == Sent && !disableMempool {
        InOrderNext(front, before, n);
        assert now == before + {n};
        from := front + [n];
      } else {
        assert now == before;
        from := front;
      }
    }
  }

  /** What has been received and accepted is what the inputs say, and the drain has looked after the last of them. */
  ghost predicate Follows(p: Progress, inputs: seq<(Input, SendOutcome)>, at: seq<Time>, disableMempool: bool) {
    && |at| == |inputs|
    && p.received == ReceivedFrom(inputs, at)
    && p.blockEngine == AcceptedFrom(inputs, at, disableMempool)
    && (forall i :: 0 <= i < |at| ==> at[i] <= p.checkedAt)
    && (forall i :: 0 <= i < |inputs| ==> !Fatal(inputs[i].0, inputs[i].1, disableMempool))
  }

  lemma FollowsNext(
      s: Progress, inputs: seq<(Input, SendOutcome)>, at: seq<Time>, input: Input, offer: SendOutcome, now: Time,
      t: Progress, delay: nat, disableMempool: bool)
    requires Follows(s, inputs, at, disableMempool) && s.checkedAt <= s.now
    requires Turns(s, input, offer, now, t, delay, disableMempool) && !Fatal(input, offer, disableMempool)
    ensures Follows(t, inputs + [(input, offer)], at + [now], disableMempool)
  {
    assert (inputs + [(input, offer)])[..|inputs|] == inputs && (at + [now])[..|at|] == at;
  }

  /** First in, first out, and never before its time. */
  ghost predicate InTime(
      received: seq<Stamped>, downstream: seq<Stamped>, buffer: seq<Stamped>, sentAt: seq<Time>, delay: nat, now: Time)
  {
    && received == downstream + buffer
    && Ordered(received, now)
    && |sentAt| == |downstream|
    && (forall i :: 0 <= i < |sentAt| ==> downstream[i].stamp + delay <= sentAt[i] <= now)
  }

  /** Every packet is accounted for on both paths, over the metrics reported so far and the current ones. */
  ghost predicate Balanced(
      reported: Metrics, metrics: Metrics, received: seq<Stamped>, downstream: seq<Stamped>, blockEngine: seq<Stamped>,
      disableMempool: bool)
  {
    && reported.batchesReceived + metrics.batchesReceived == |received|
    && reported.packetsReceived + metrics.packetsReceived == CountAll(received)
    && reported.relayerForwarded + metrics.relayerForwarded == CountAll(downstream)
    && reported.beForwarded + metrics.beForwarded == CountAll(blockEngine)
    && reported.beForwarded + metrics.beForwarded + reported.beDropped + metrics.beDropped
       == (if disableMempool then 0 else CountAll(received))
    && reported.beFull + metrics.beFull == (if disableMempool then 0 else |received| - |blockEngine|)
    && Subsequence(blockEngine, received)
  }

  /** The same in packets: the counters say how many were received, sent on, accepted and dropped. */
  ghost predicate EveryPacketCounted(
      reported: Metrics, metrics: Metrics, received: seq<Stamped>, downstream: seq<Stamped>, blockEngine: seq<Stamped>,
      disableMempool: bool)
  {
    && reported.packetsReceived + metrics.packetsReceived == |PacketsIn(received)|
    && reported.relayerForwarded + metrics.relayerForwarded == |PacketsIn(downstream)|
    && reported.beForwarded + metrics.beForwarded == |PacketsIn(blockEngine)|
    && reported.beDropped + metrics.beDropped
       == (if disableMempool then 0 else |PacketsIn(received)| - |PacketsIn(blockEngine)|)
  }

  lemma BalancedInPackets(
      reported: Metrics, metrics: Metrics, received: seq<Stamped>, downstream: seq<Stamped>, blockEngine: seq<Stamped>,
      disableMempool: bool)
    requires Balanced(reported, metrics, received, downstream, blockEngine, disableMempool)
    ensures EveryPacketCounted(reported, metrics, received, downstream, blockEngine, disableMempool)
  {
    CountAllIsSize(received);
    CountAllIsSize(downstream);
    CountAllIsSize(blockEngine);
  }

  /** The counters after a batch of `n` packets. */
  function AfterReceive(m: Metrics, n: nat, disableMempool: bool, offer: SendOutcome): Metrics {
    var m' := m.(batchesReceived := m.batchesReceived + 1, packetsReceived := m.packetsReceived + n);
    if disableMempool then m'
    else if offer == Sent then m'.(beForwarded := m.beForwarded + n)
    else m'.(beDropped := m.beDropped + n, beFull := m.beFull + 1)
  }

  lemma BalancedReceive(
      reported: Metrics, metrics: Metrics, received: seq<Stamped>, downstream: seq<Stamped>, blockEngine: seq<Stamped>,
      disableMempool: bool, item: Stamped, offer: SendOutcome)
    requires Balanced(reported, metrics, received, downstream, blockEngine, disableMempool)
    ensures Balanced(reported, AfterReceive(metrics, Count(item.batches), disableMempool, offer), received + [item],
                     downstream, if !disableMempool && offer == Sent then blockEngine + [item] else blockEngine,
                     disableMempool)
  {
    CountAllAppend(received, item);
    CountAllAppend(blockEngine, item);
    SubsequenceSkip(blockEngine, received, item);
    SubsequenceKeep(blockEngine, received, item);
  }

  lemma InTimeReceive(
      received: seq<Stamped>, downstream: seq<Stamped>, buffer: seq<Stamped>, sentAt: seq<Time>, delay: nat, now: Time,
      item: Stamped)
    requires InTime(received, downstream, buffer, sentAt, delay, now) && now <= item.stamp
    ensures InTime(received + [item], downstream, buffer + [item], sentAt, delay, item.stamp)
  {
    assert received + [item] == downstream + (buffer + [item]);
  }

  lemma InTimeSend(
      received: seq<Stamped>, downstream: seq<Stamped>, buffer: seq<Stamped>, sentAt: seq<Time>, delay: nat, now: Time)
    requires InTime(received, downstream, buffer, sentAt, delay, now) && buffer != [] && delay <= now - buffer[0].stamp
    ensures InTime(received, downstream + [buffer[0]], buffer[1..], sentAt + [now], delay, now)
  {
    assert buffer == [buffer[0]] + buffer[1..];
    assert downstream + buffer == (downstream + [buffer[0]]) + buffer[1..];
  }

  lemma InTimeLater(
      received: seq<Stamped>, downstream: seq<Stamped>, buffer: seq<Stamped>, sentAt: seq<Time>, delay: nat, now: Time,
      later: Time)
    requires InTime(received, downstream, buffer, sentAt, delay, now) && now <= later
    ensures InTime(received, downstream, buffer, sentAt, delay, later)
  {}

  /** In a buffer ordered by age, if the front is too young everything is. */
  lemma FrontIsOldest(
      received: seq<Stamped>, downstream: seq<Stamped>, buffer: seq<Stamped>, sentAt: seq<Time>, delay: nat, now: Time)
    requires InTime(received, downstream, buffer, sentAt, delay, now) && buffer != []
    ensures forall i :: 0 <= i < |buffer| ==> buffer[0].stamp <= buffer[i].stamp
    ensures buffer[0].stamp <= now
  {
    forall i | 0 <= i < |buffer| ensures buffer[0].stamp <= buffer[i].stamp <= now {
      assert received[|downstream|] == buffer[0] && received[|downstream| + i] == buffer[i];
    }
  }

  lemma BalancedSend(
      reported: Metrics, metrics: Metrics, received: seq<Stamped>, downstream: seq<Stamped>, blockEngine: seq<Stamped>,
      disableMempool: bool, item: Stamped)
    requires Balanced(reported, metrics, received, downstream, blockEngine, disableMempool)
    ensures Balanced(reported, metrics.(relayerForwarded := metrics.relayerForwarded + Count(item.batches)), received,
                     downstream + [item], blockEngine, disableMempool)
  {
    CountAllAppend(downstream, item);
  }

  lemma NothingYet(none: seq<Stamped>, never: seq<Time>, zero: Metrics, delay: nat, now: Time, disableMempool: bool)
    requires none == [] && never == [] && zero == Metrics(0, 0, 0, 0, 0, 0)
    ensures InTime(none, none, none, never, delay, now)
    ensures Balanced(zero, zero, none, none, none, disableMempool)
  {}

  class Forwarder {
    const delay: nat
    const metricsInterval: nat
    const disableMempool: bool
    const clock: Clock

    var buffer: seq<Stamped>
    var metrics: Metrics
    var lastUpload: Time

    /** What has been sent to the relayer loop, and to the block-engine handler. */
    var downstream: seq<Stamped>
    var blockEngine: seq<Stamped>

    ghost var received: seq<Stamped>
    ghost var sentAt: seq<Time>
    ghost var checkedAt: Time

    /** The sum of the metrics reported and reset so far. */
    ghost var reported: Metrics

    /** The inputs so far, what the block engine answered to each, and when each was taken. */
    ghost var inputs: seq<(Input, SendOutcome)>
    ghost var at: seq<Time>

    ghost predicate Sound()
      reads this, clock
    {
      && InTime(received, downstream, buffer, sentAt, delay, clock.now)
      && Balanced(reported, metrics, received, downstream, blockEngine, disableMempool)
      && lastUpload <= clock.now && checkedAt <= clock.now
    }

    /** At a loop head: the drain is done, and everything is as the inputs so far say. */
    ghost predicate Valid()
      reads this, clock
    {
      Sound() && Drained() && Follows(Done(), inputs, at, disableMempool)
    }

    ghost function Done(): Progress
      reads this, clock
    {
      Progress(clock.now, received, downstream, sentAt, blockEngine, checkedAt)
    }

    /** No buffered batch had reached the delay when the drain last looked. */
    ghost predicate Drained()
      reads `buffer, `checkedAt
    {
      forall i :: 0 <= i < |buffer| ==> checkedAt < buffer[i].stamp + delay
    }

    constructor (clock: Clock, delay: nat, metricsInterval: nat, disableMempool: bool)
      ensures Valid() && inputs == []
      ensures this.clock == clock && this.delay == delay && this.disableMempool == disableMempool
    {
      this.clock, this.delay := clock, delay;
      this.metricsInterval, this.disableMempool := metricsInterval, disableMempool;
      buffer, metrics, lastUpload, downstream, blockEngine := [], Zero(), clock.now, [], [];
      received, sentAt, checkedAt, reported, inputs, at := [], [], clock.now, Zero(), [], [];
      new;
      NothingYet(received, sentAt, metrics, delay, clock.now, disableMempool);
    }

    /** Reports and starts new counters when the interval is over. */
    method MaybeReport() returns (ghost at: Time)
      requires Sound()
      modifies this`metrics, this`lastUpload, this`reported, clock
      ensures Sound() && old(clock.now) <= at <= clock.now
      ensures Plus(reported, metrics) == old(Plus(reported, metrics))
      ensures metrics == if at - old(lastUpload) >= metricsInterval then Zero() else old(metrics)
      ensures at - old(lastUpload) >= metricsInterval ==> at <= lastUpload
    {
      var now := clock.Read();
      at := now;
      if now - lastUpload >= metricsInterval {
        reported := Plus(reported, metrics);
        metrics := Zero();
        lastUpload := clock.Read();
      }
      InTimeLater(received, downstream, buffer, sentAt, delay, old(clock.now), clock.now);
    }

    /** Counts a batch and, unless the mempool is off, offers it to the block engine; a closed channel is a panic. */
    method Offer(item: Stamped, offer: SendOutcome) returns (panicked: bool)
      requires Balanced(reported, metrics, received, downstream, blockEngine, disableMempool)
      modifies this`metrics, this`blockEngine, this`received
      ensures panicked <==> !disableMempool && offer == Closed
      ensures blockEngine == if !disableMempool && offer == Sent then old(blockEngine) + [item] else old(blockEngine)
      ensures !panicked ==> metrics == AfterReceive(old(metrics), Count(item.batches), disableMempool, offer)
      ensures !panicked ==> received == old(received) + [item]
      ensures !panicked ==> Balanced(reported, metrics, received, downstream, blockEngine, disableMempool)
    {
      var n := Count(item.batches);
      received := received + [item];
      metrics := metrics.(batchesReceived := metrics.batchesReceived + 1,
                          packetsReceived := metrics.packetsReceived + n);
      if !disableMempool {
        match offer {
          case Sent =>
            blockEngine := blockEngine + [item];
            metrics := metrics.(beForwarded := metrics.beForwarded + n);
          case Closed => return true;
          case Full =>
            metrics := metrics.(beDropped := metrics.beDropped + n, beFull := metrics.beFull + 1);
        }
      }
      assert metrics == AfterReceive(old(metrics), Count(item.batches), disableMempool, offer);
      assert blockEngine == if !disableMempool && offer == Sent then old(blockEngine) + [item] else old(blockEngine);
      BalancedReceive(old(reported), old(metrics), old(received), old(downstream), old(blockEngine), disableMempool,
                      item, offer);
      panicked := false;
    }

    /** A received batch is stamped, offered to the block engine and buffered. */
    method Receive(batches: seq<PacketBatch>, offer: SendOutcome) returns (panicked: bool)
      requires Sound()
      modifies this`buffer, this`metrics, this`blockEngine, this`received, clock
      ensures old(clock.now) <= clock.now
      ensures panicked <==> !disableMempool && offer == Closed
      ensures !panicked ==> Sound() && buffer == old(buffer) + [Stamped(clock.now, batches)]
      ensures !panicked ==> received == old(received) + [Stamped(clock.now, batches)]
      ensures !panicked ==> metrics == AfterReceive(old(metrics), Count(batches), disableMempool, offer)
      ensures !panicked ==> blockEngine == WithOffer(old(blockEngine), Batch(batches), offer, clock.now, disableMempool)
    {
      var now := clock.Read();
      var item := Stamped(now, batches);
      InTimeReceive(received, downstream, buffer, sentAt, delay, old(clock.now), item);
      panicked := Offer(item, offer);
      if panicked { return; }
      buffer := buffer + [item];
    }

    /** Pops the front of the buffer and sends it downstream. */
    method SendFront(now: Time)
      requires Sound() && now == clock.now && buffer != [] && delay <= now - buffer[0].stamp
      modifies this`buffer, this`metrics, this`downstream, this`sentAt
      ensures Sound() && buffer == old(buffer)[1..]
      ensures downstream == old(downstream) + [old(buffer)[0]] && sentAt == old(sentAt) + [now]
    {
      var batch := buffer[0];
      InTimeSend(received, downstream, buffer, sentAt, delay, now);
      BalancedSend(reported, metrics, received, downstream, blockEngine, disableMempool, batch);
      buffer := buffer[1..];
      metrics := metrics.(relayerForwarded := metrics.relayerForwarded + Count(batch.batches));
      downstream := downstream + [batch];
      sentAt := sentAt + [now];
    }

    /** The draining loop: it stops at the first batch that is too young. */
    method Drain()
      requires Sound()
      modifies this`buffer, this`metrics, this`downstream, this`sentAt, this`checkedAt, clock
      ensures Sound() && Drained() && old(clock.now) <= checkedAt
      ensures delay == 0 ==> buffer == []
      ensures old(downstream) <= downstream && old(sentAt) <= sentAt
    {
      checkedAt := clock.now;
      while buffer != []
        invariant Sound() && old(clock.now) <= checkedAt <= clock.now
        invariant old(downstream) <= downstream && old(sentAt) <= sentAt
        decreases |buffer|
      {
        ghost var before := clock.now;
        var now := clock.Read();
        checkedAt := now;
        InTimeLater(received, downstream, buffer, sentAt, delay, before, now);
        FrontIsOldest(received, downstream, buffer, sentAt, delay, now);
        if now - buffer[0].stamp < delay { return; }
        SendFront(now);
      }
    }

    /** The receiving half of a turn. */
    method TakeInput(input: Input, offer: SendOutcome) returns (panicked: bool, ghost at: Time)
      requires Sound()
      modifies this`buffer, this`metrics, this`blockEngine, this`received, clock
      ensures panicked <==> Fatal(input, offer, disableMempool)
      ensures input.Disconnected? ==> panicked
      ensures old(clock.now) <= at == clock.now
      ensures !panicked ==>
                && Sound() && received == WithInput(old(received), input, at)
                && blockEngine == WithOffer(old(blockEngine), input, offer, at, disableMempool)
    {
      match input {
        case Batch(batches) => panicked := Receive(batches, offer);
        case Timeout => panicked := false;
        case Disconnected => panicked := true;
      }
      at := clock.now;
    }

    /** Receive and drain. */
    method Handle(input: Input, offer: SendOutcome) returns (panicked: bool, ghost now: Time)
      requires Sound()
      modifies this`metrics, this`buffer, this`blockEngine, this`received, this`downstream, this`sentAt,
               this`checkedAt, clock
      ensures panicked <==> Fatal(input, offer, disableMempool)
      ensures !panicked ==> Sound() && Drained()
      ensures !panicked ==> Turns(old(Done()), input, offer, now, Done(), delay, disableMempool)
      ensures !panicked && delay == 0 ==> buffer == []
    {
      panicked, now := TakeInput(input, offer);
      if panicked { return; }
      Drain();
      IsTurn(old(Done()), input, offer, now, Done(), buffer, delay, disableMempool);
    }

    /** Report, then receive and drain. */
    method Work(input: Input, offer: SendOutcome) returns (panicked: bool, ghost now: Time)
      requires Sound()
      modifies this`metrics, this`lastUpload, this`reported, this`buffer, this`blockEngine, this`received,
               this`downstream, this`sentAt, this`checkedAt, clock
      ensures panicked <==> Fatal(input, offer, disableMempool)
      ensures !panicked ==> Sound() && Drained()
      ensures !panicked ==> Turns(old(Done()), input, offer, now, Done(), delay, disableMempool)
      ensures !panicked && delay == 0 ==> buffer == []
    {
      now := MaybeReport();
      ghost var start := Done();
      panicked, now := Handle(input, offer);
      if !panicked { TurnsSince(old(Done()), start, input, offer, now, Done(), delay, disableMempool); }
    }

    /** One turn of the loop. */
    method Turn(input: Input, offer: SendOutcome) returns (panicked: bool, ghost now: Time)
      requires Valid()
      modifies this, clock
      ensures panicked <==> Fatal(input, offer, disableMempool)
      ensures !panicked ==>
                && Valid() && inputs == old(inputs) + [(input, offer)] && at == old(at) + [now]
                && Turns(old(Done()), input, offer, now, Done(), delay, disableMempool)
      ensures !panicked && delay == 0 ==> buffer == []
    {
      panicked, now := Work(input, offer);
      if panicked { return; }
      ghost var was, done := old(Done()), Done();
      FollowsNext(was, inputs, at, input, offer, now, done, delay, disableMempool);
      inputs, at := inputs + [(input, offer)], at + [now];
      assert Done() == done && Follows(done, inputs, at, disableMempool);
    }
  }

  /** Time passing before a turn changes nothing about it. */
  lemma TurnsSince(
      s: Progress, later: Progress, input: Input, offer: SendOutcome, at: Time, t: Progress, delay: nat,
      disableMempool: bool)
    requires later == s.(now := later.now) && s.now <= later.now
    requires Turns(later, input, offer, at, t, delay, disableMempool)
    ensures Turns(s, input, offer, at, t, delay, disableMempool)
  {}

  /** What is not downstream is in the buffer. */
  lemma IsTurn(
      s: Progress, input: Input, offer: SendOutcome, at: Time, t: Progress, buffer: seq<Stamped>, delay: nat,
      disableMempool: bool)
    requires s.now <= at <= t.checkedAt <= t.now
    requires t.received == WithInput(s.received, input, at)
    requires t.blockEngine == WithOffer(s.blockEngine, input, offer, at, disableMempool)
    requires s.downstream <= t.downstream && s.sentAt <= t.sentAt
    requires InTime(t.received, t.downstream, buffer, t.sentAt, delay, t.now)
    requires forall i :: 0 <= i < |buffer| ==> t.checkedAt < buffer[i].stamp + delay
    ensures Turns(s, input, offer, at, t, delay, disableMempool)
  {
    forall i | |t.downstream| <= i < |t.received| ensures t.checkedAt < t.received[i].stamp + delay {
      assert t.received[i] == buffer[i - |t.downstream|];
    }
  }

  /**
   * The whole thread, over any inputs, up to the first that makes it panic. At every loop head:
   * the batches received are those of the inputs, in order, stamped as they were taken; in order
   * they are those sent downstream and then the buffer; none was sent younger than the delay,
   * and none left had reached it when the last turn looked, after its input; exactly the batches
   * it accepted went to the block engine, and packets forwarded to it and dropped add up to
   * those received.
   */
  method Run(f: Forwarder, inputs: seq<(Input, SendOutcome)>) returns (turns: nat, panicked: bool)
    requires f.Valid()
    modifies f, f.clock
    ensures turns <= |inputs| && (panicked <==> turns < |inputs|)
    ensures panicked ==> Fatal(inputs[turns].0, inputs[turns].1, f.disableMempool)
    ensures !panicked ==> f.Valid() && f.inputs == old(f.inputs) + inputs
    ensures !panicked ==> f.received == ReceivedFrom(f.inputs, f.at) == f.downstream + f.buffer
    ensures !panicked ==>
              && |f.sentAt| == |f.downstream|
              && (forall i :: 0 <= i < |f.downstream| ==> f.downstream[i].stamp + f.delay <= f.sentAt[i])
              && (forall i :: 0 <= i < |f.buffer| ==> f.checkedAt < f.buffer[i].stamp + f.delay)
              && (forall i :: 0 <= i < |f.at| ==> f.at[i] <= f.checkedAt)
    ensures !panicked ==> f.blockEngine == AcceptedFrom(f.inputs, f.at, f.disableMempool)
    ensures !panicked && !f.disableMempool ==>
              f.reported.beForwarded + f.metrics.beForwarded + f.reported.beDropped + f.metrics.beDropped
              == CountAll(f.received)
  {
    turns, panicked := 0, false;
    ghost var before := f.inputs;
    assert before + inputs[..0] == before;
    while turns < |inputs|
      invariant turns <= |inputs| && f.Valid() && f.inputs == before + inputs[..turns]
    {
      ghost var now;
      panicked, now := f.Turn(inputs[turns].0, inputs[turns].1);
      if panicked { return; }
      OneMore(before, inputs, turns);
      turns := turns + 1;
    }
    assert inputs[..|inputs|] == inputs;
  }

  lemma OneMore<T>(a: seq<T>, b: seq<T>, n: nat)
    requires n < |b|
    ensures a + b[..n + 1] == a + b[..n] + [b[n]]
  {}
}
