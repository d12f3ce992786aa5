/**
 * Chunking and fan-out: the reference definitions for `forward_packets` of
 * relayer/src/relayer.rs and the facts about them that do not depend on the event loop.
 */
module FanOut {
  import opened Prelude
  import opened Sequences
  import opened Packets
  import opened Ofac

  /** Names one subscriber channel; every subscription call makes a new one. */
  type SenderId = nat

  /** A message in a subscriber's channel. */
  datatype Msg = Beat(count: nat) | Batch(packets: seq<ProtoPacket>)

  datatype Target = Target(pubkey: Pubkey, sender: SenderId)

  datatype Stats = Stats(forwarded: nat, dropped: nat)

  /** What `try_send` of chunk `j` to a sender answers. */
  type Answers = (nat, SenderId) -> SendOutcome

  // ---------------------------------------------------------------- the packet filter

  /**
   * What the filter chain is to let through: packets not discarded and, when addresses are
   * sanctioned, with a transaction that parses and mentions none of them.
   */
  ghost predicate Passes(p: Packet, ofac: set<Pubkey>, tables: TableCache) {
    && !p.discard
    && (ofac != {} ==> p.tx.Some? && forall account :: Mentions(p.tx.value, tables, account) ==> account !in ofac)
  }

  ghost function Filtered(batches: seq<PacketBatch>, ofac: set<Pubkey>, tables: TableCache): seq<ProtoPacket> {
    Converted(Flatten(batches), p => Passes(p, ofac, tables))
  }

  /** Passes whichever of these caches each table is read from. */
  ghost predicate SurelyPasses(p: Packet, ofac: set<Pubkey>, caches: CacheStates) {
    && !p.discard
    && (ofac != {} ==> p.tx.Some? && !MayRelate(p.tx.value, ofac, caches))
  }

  /** Passes for some answers of the reads. */
  ghost predicate PossiblyPasses(p: Packet, ofac: set<Pubkey>, caches: CacheStates) {
    && !p.discard
    && (ofac != {} ==> p.tx.Some? && !MustRelate(p.tx.value, ofac, caches))
  }

  /** The packets that must come out of the filter, and those that may, in order. */
  ghost function MustPass(packets: seq<Packet>, ofac: set<Pubkey>, caches: CacheStates): seq<ProtoPacket> {
    Converted(packets, p => SurelyPasses(p, ofac, caches))
  }

  ghost function MayPass(packets: seq<Packet>, ofac: set<Pubkey>, caches: CacheStates): seq<ProtoPacket> {
    Converted(packets, p => PossiblyPasses(p, ofac, caches))
  }

  /**
   * The filter chain against a cache that is being refreshed: `caches` are the states it goes
   * through during the call. What must pass passes, nothing passes that may not, in order.
   */
  method Filter(packets: seq<Packet>, ofac: set<Pubkey>, caches: CacheStates) returns (out: seq<ProtoPacket>)
    ensures Subsequence(MustPass(packets, ofac, caches), out)
    ensures Subsequence(out, MayPass(packets, ofac, caches))
  {
    out := [];
    for i := 0 to |packets|
      invariant Subsequence(MustPass(packets[..i], ofac, caches), out)
      invariant Subsequence(out, MayPass(packets[..i], ofac, caches))
    {
      var p := packets[i];
      var ok := !p.discard;
      if ok && ofac != {} {
        if p.tx.None? {
          ok := false;
        } else {
          var related := CheckTx(p.tx.value, ofac, caches);
          ok := !related;
        }
      }
      assert packets[..i + 1] == packets[..i] + [p];
      ConvertedStep(packets[..i], p,
                    q => SurelyPasses(q, ofac, caches), q => PossiblyPasses(q, ofac, caches), out, ok);
      if ok && ToProto(p).Some? { out := out + [ToProto(p).value]; }
    }
    assert packets[..|packets|] == packets;
  }

  /** With the lookup tables at rest the filter is the one filter chain. */
  lemma FilterAtRest(batches: seq<PacketBatch>, ofac: set<Pubkey>, tables: TableCache, out: seq<ProtoPacket>)
    requires Subsequence(MustPass(Flatten(batches), ofac, {tables}), out)
    requires Subsequence(out, MayPass(Flatten(batches), ofac, {tables}))
    ensures out == Filtered(batches, ofac, tables)
  {
    var packets, passes := Flatten(batches), (p: Packet) => Passes(p, ofac, tables);
    forall p | p in packets
      ensures SurelyPasses(p, ofac, {tables}) <==> Passes(p, ofac, tables)
      ensures PossiblyPasses(p, ofac, {tables}) <==> Passes(p, ofac, tables)
    {
      if p.tx.Some? {
        RelatedAtRest(p.tx.value, ofac, tables);
        RelatedIffMentionsSanctioned(p.tx.value, ofac, tables);
      }
    }
    ConvertedSame(packets, p => SurelyPasses(p, ofac, {tables}), passes);
    ConvertedSame(packets, p => PossiblyPasses(p, ofac, {tables}), passes);
    SubsequenceAntisymmetric(out, Converted(packets, passes));
  }

  /** The branch taken when addresses are sanctioned, run on any set. */
  predicate PassesChecked(p: Packet, ofac: set<Pubkey>, tables: TableCache) {
    !p.discard && p.tx.Some? && !IsTxOfacRelated(p.tx.value, ofac, tables)
  }

  /** With nothing sanctioned, skipping the check makes a difference exactly for packets that do not parse. */
  lemma FastBranchAgreesIffParses(p: Packet, tables: TableCache)
    requires !p.discard
    ensures (Passes(p, {}, tables) <==> PassesChecked(p, {}, tables)) <==> p.tx.Some?
  {
    if p.tx.Some? {
      NothingRelatedToEmpty(p.tx.value, tables);
    }
  }

  // ---------------------------------------------------------------- chunks

  /** Chunks of `size`, all full except perhaps the last, which is not empty. */
  ghost predicate IsChunking(chunks: seq<seq<ProtoPacket>>, packets: seq<ProtoPacket>, size: nat) {
    && Flatten(chunks) == packets
    && (forall i :: 0 <= i < |chunks| ==> 0 < |chunks[i]| <= size)
    && (forall i :: 0 <= i < |chunks| - 1 ==> |chunks[i]| == size)
  }

  /** `packets.chunks(size)` */
  function ChunksOf(packets: seq<ProtoPacket>, size: nat): seq<seq<ProtoPacket>>
    requires size > 0
  {
    if packets == [] then []
    else if |packets| <= size then [packets]
    else [packets[..size]] + ChunksOf(packets[size..], size)
  }

  lemma {:induction false} ChunksOfIsChunking(packets: seq<ProtoPacket>, size: nat)
    requires size > 0
    ensures IsChunking(ChunksOf(packets, size), packets, size)
    decreases |packets|
  {
    var chunks := ChunksOf(packets, size);
    if |packets| > size {
      var rest := ChunksOf(packets[size..], size);
      ChunksOfIsChunking(packets[size..], size);
      FlattenAppend([packets[..size]], rest);
      FlattenOne(packets[..size]);
      assert packets == packets[..size] + packets[size..];
      assert forall i :: 1 <= i < |chunks| ==> chunks[i] == rest[i - 1];
    } else if packets != [] {
      FlattenOne(packets);
    }
  }

  /** The chunks are determined: no other way of cutting meets the description. */
  lemma {:induction false} ChunkingIsUnique(chunks: seq<seq<ProtoPacket>>, packets: seq<ProtoPacket>, size: nat)
    requires size > 0 && IsChunking(chunks, packets, size)
    ensures chunks == ChunksOf(packets, size)
    decreases |chunks|
  {
    if chunks != [] {
      var first, rest := chunks[0], chunks[1..];
      assert chunks == [first] + rest;
      FlattenAppend([first], rest);
      FlattenOne(first);
      assert packets == first + Flatten(rest);
      assert IsChunking(rest, Flatten(rest), size);
      ChunkingIsUnique(rest, Flatten(rest), size);
      if rest == [] {
        assert packets == first;
      } else {
        FlattenAppend([rest[0]], rest[1..]);
        FlattenOne(rest[0]);
        assert rest == [rest[0]] + rest[1..];
        assert packets[..size] == first && packets[size..] == Flatten(rest);
      }
    }
  }

  /** The loop that collects the chunks. */
  method Chunk(packets: seq<ProtoPacket>, size: nat) returns (chunks: seq<seq<ProtoPacket>>)
    requires size > 0
    ensures chunks == ChunksOf(packets, size)
  {
    chunks := [];
    var at := 0;
    assert packets[0..] == packets;
    while at < |packets|
      invariant 0 <= at <= |packets|
      invariant chunks + ChunksOf(packets[at..], size) == ChunksOf(packets, size)
    {
      var end := if at + size <= |packets| then at + size else |packets|;
      ghost var left := packets[at..];
      assert packets[at..end] == left[..end - at] && packets[end..] == left[end - at..];
      assert end == |packets| ==> left[..end - at] == left;
      assert ChunksOf(left, size) == [packets[at..end]] + ChunksOf(packets[end..], size);
      chunks := chunks + [packets[at..end]];
      at := end;
    }
  }

  // ---------------------------------------------------------------- one target's view

  /** The chunks whose sends were accepted, in order. */
  function Delivered(chunks: seq<seq<ProtoPacket>>, answers: Answers, sender: SenderId): seq<seq<ProtoPacket>> {
    if chunks == [] then []
    else
      var front := Delivered(chunks[..|chunks| - 1], answers, sender);
      if answers(|chunks| - 1, sender) == Sent then front + [chunks[|chunks| - 1]] else front
  }

  /** Packets in the chunks whose sends had this outcome. */
  function Weight(chunks: seq<seq<ProtoPacket>>, answers: Answers, sender: SenderId, outcome: SendOutcome): nat {
    if chunks == [] then 0
    else Weight(chunks[..|chunks| - 1], answers, sender, outcome)
         + if answers(|chunks| - 1, sender) == outcome then |chunks[|chunks| - 1]| else 0
  }

  function ClosedTimes(n: nat, answers: Answers, sender: SenderId): nat {
    if n == 0 then 0
    else ClosedTimes(n - 1, answers, sender) + if answers(n - 1, sender) == Closed then 1 else 0
  }

  /** Which of the sends had this outcome. */
  ghost function Having(n: nat, answers: Answers, sender: SenderId, outcome: SendOutcome): set<nat> {
    set j: nat | j < n && answers(j, sender) == outcome
  }

  lemma HavingNext(n: nat, answers: Answers, sender: SenderId, outcome: SendOutcome)
    ensures Having(n + 1, answers, sender, outcome)
            == Having(n, answers, sender, outcome) + if answers(n, sender) == outcome then {n} else {}
  {}

  /** The chunks delivered are exactly those whose send was accepted, in the order they were sent. */
  lemma {:induction false} DeliveredExactly(chunks: seq<seq<ProtoPacket>>, answers: Answers, sender: SenderId)
      returns (at: seq<nat>)
    ensures InOrder(at, Having(|chunks|, answers, sender, Sent))
    ensures |Delivered(chunks, answers, sender)| == |at|
    ensures forall k :: 0 <= k < |at| ==> at[k] < |chunks| && Delivered(chunks, answers, sender)[k] == chunks[at[k]]
  {
    if chunks == [] {
      at := [];
    } else {
      var n := |chunks| - 1;
      var front := DeliveredExactly(chunks[..n], answers, sender);
      HavingNext(n, answers, sender, Sent);
      if answers(n, sender) == Sent {
        InOrderNext(front, Having(n, answers, sender, Sent), n);
        at := front + [n];
      } else {
        at := front;
      }
    }
  }

  /** The packets counted under an outcome are exactly those of the chunks whose send had it. */
  lemma {:induction false} WeightExactly(
      chunks: seq<seq<ProtoPacket>>, answers: Answers, sender: SenderId, outcome: SendOutcome)
      returns (at: seq<nat>, those: seq<seq<ProtoPacket>>)
    ensures InOrder(at, Having(|chunks|, answers, sender, outcome)) && |those| == |at|
    ensures forall k :: 0 <= k < |at| ==> at[k] < |chunks| && those[k] == chunks[at[k]]
    ensures Weight(chunks, answers, sender, outcome) == |Flatten(those)|
  {
    if chunks == [] {
      at, those := [], [];
    } else {
      var n := |chunks| - 1;
      at, those := WeightExactly(chunks[..n], answers, sender, outcome);
      HavingNext(n, answers, sender, outcome);
      if answers(n, sender) == outcome {
        InOrderNext(at, Having(n, answers, sender, outcome), n);
        FlattenAppend(those, [chunks[n]]);
        FlattenOne(chunks[n]);
        at, those := at + [n], those + [chunks[n]];
      }
    }
  }

  lemma {:induction false} ClosedTimesExactly(n: nat, answers: Answers, sender: SenderId)
    ensures ClosedTimes(n, answers, sender) == |Having(n, answers, sender, Closed)|
  {
    if n > 0 {
      ClosedTimesExactly(n - 1, answers, sender);
      HavingNext(n - 1, answers, sender, Closed);
    }
  }

  /** Nothing is lost or counted twice: every packet is forwarded, dropped or met a closed channel. */
  lemma {:induction false} OutcomesPartitionPackets(chunks: seq<seq<ProtoPacket>>, answers: Answers, sender: SenderId)
    ensures Weight(chunks, answers, sender, Sent) + Weight(chunks, answers, sender, Full)
            + Weight(chunks, answers, sender, Closed) == |Flatten(chunks)|
    ensures Weight(chunks, answers, sender, Sent) == |Flatten(Delivered(chunks, answers, sender))|
  {
    if chunks != [] {
      OutcomesPartitionPackets(chunks[..|chunks| - 1], answers, sender);
      var front := Delivered(chunks[..|chunks| - 1], answers, sender);
      assert (front + [chunks[|chunks| - 1]])[..|front|] == front;
    }
  }

  /** What a target gets is the filtered input with whole chunks left out. */
  lemma {:induction false} DeliveredInOrder(chunks: seq<seq<ProtoPacket>>, answers: Answers, sender: SenderId)
    ensures Subsequence(Delivered(chunks, answers, sender), chunks)
    ensures Subsequence(Flatten(Delivered(chunks, answers, sender)), Flatten(chunks))
  {
    if chunks != [] {
      var init, last := chunks[..|chunks| - 1], chunks[|chunks| - 1];
      DeliveredInOrder(init, answers, sender);
      var front := Delivered(init, answers, sender);
      assert chunks == init + [last];
      if answers(|chunks| - 1, sender) == Sent {
        SubsequenceKeep(front, init, last);
        assert (front + [last])[..|front|] == front;
        SubsequenceRefl(last);
        SubsequenceConcat(Flatten(front), Flatten(init), last, last);
      } else {
        SubsequenceSkip(front, init, last);
        SubsequenceExtend(Flatten(front), Flatten(init), last);
      }
    }
  }

  /** The per-validator counters after one send. */
  function Credit(s: Stats, outcome: SendOutcome, packets: nat): Stats {
    match outcome
    case Sent => s.(forwarded := SaturatingAdd(s.forwarded, packets))
    case Full => s.(dropped := SaturatingAdd(s.dropped, packets))
    case Closed => s
  }

  function CreditAll(s: Stats, chunks: seq<seq<ProtoPacket>>, answers: Answers, sender: SenderId): Stats {
    if chunks == [] then s
    else Credit(CreditAll(s, chunks[..|chunks| - 1], answers, sender),
                answers(|chunks| - 1, sender), |chunks[|chunks| - 1]|)
  }

  /** The saturating counters say how many packets were forwarded and dropped, up to the largest `u64`. */
  lemma {:induction false} CreditsAreWeights(
      s: Stats, chunks: seq<seq<ProtoPacket>>, answers: Answers, sender: SenderId)
    requires s.forwarded <= U64_MAX && s.dropped <= U64_MAX
    ensures var sent, full := Weight(chunks, answers, sender, Sent), Weight(chunks, answers, sender, Full);
            && CreditAll(s, chunks, answers, sender).forwarded
               == (if s.forwarded + sent < 0x1_0000_0000_0000_0000 then s.forwarded + sent else 0xFFFF_FFFF_FFFF_FFFF)
            && CreditAll(s, chunks, answers, sender).dropped
               == (if s.dropped + full < 0x1_0000_0000_0000_0000 then s.dropped + full else 0xFFFF_FFFF_FFFF_FFFF)
  {
    if chunks != [] {
      CreditsAreWeights(s, chunks[..|chunks| - 1], answers, sender);
    }
  }

  // ---------------------------------------------------------------- all targets

  ghost predicate Distinct(targets: seq<Target>) {
    forall i, j :: 0 <= i < j < |targets| ==>
                     targets[i].pubkey != targets[j].pubkey && targets[i].sender != targets[j].sender
  }

  predicate HasSender(targets: seq<Target>, sender: SenderId) {
    exists i :: 0 <= i < |targets| && targets[i].sender == sender
  }

  predicate HasPubkey(targets: seq<Target>, pubkey: Pubkey) {
    exists i :: 0 <= i < |targets| && targets[i].pubkey == pubkey
  }

  /** The books of a fan-out: channel contents, counters, and the list of targets seen closed. */
  datatype Books = Books(channels: map<SenderId, seq<Msg>>, stats: map<Pubkey, Stats>, failed: seq<Pubkey>)
  {
    function Channel(sender: SenderId): seq<Msg> {
      if sender in channels then channels[sender] else []
    }

    function Stat(pubkey: Pubkey): Stats {
      if pubkey in stats then stats[pubkey] else Stats(0, 0)
    }
  }

  /** One `try_send` and its bookkeeping. */
  function Send(b: Books, t: Target, outcome: SendOutcome, chunk: seq<ProtoPacket>): Books {
    match outcome
    case Sent => b.(channels := b.channels[t.sender := b.Channel(t.sender) + [Batch(chunk)]],
                    stats := b.stats[t.pubkey := Credit(b.Stat(t.pubkey), Sent, |chunk|)])
    case Full => b.(stats := b.stats[t.pubkey := Credit(b.Stat(t.pubkey), Full, |chunk|)])
    case Closed => b.(failed := b.failed + [t.pubkey])
  }

  function SendRound(b: Books, targets: seq<Target>, j: nat, chunk: seq<ProtoPacket>, answers: Answers): Books {
    if targets == [] then b
    else
      var last := targets[|targets| - 1];
      Send(SendRound(b, targets[..|targets| - 1], j, chunk, answers), last, answers(j, last.sender), chunk)
  }

  function SendAll(b: Books, targets: seq<Target>, chunks: seq<seq<ProtoPacket>>, answers: Answers): Books {
    if chunks == [] then b
    else SendRound(SendAll(b, targets, chunks[..|chunks| - 1], answers), targets,
                   |chunks| - 1, chunks[|chunks| - 1], answers)
  }

  lemma SendEffect(b: Books, u: Target, outcome: SendOutcome, chunk: seq<ProtoPacket>, t: Target)
    ensures var b' := Send(b, u, outcome, chunk);
            && (t == u ==>
                  && b'.Channel(t.sender) == b.Channel(t.sender) + (if outcome == Sent then [Batch(chunk)] else [])
                  && b'.Stat(t.pubkey) == Credit(b.Stat(t.pubkey), outcome, |chunk|)
                  && multiset(b'.failed)[t.pubkey]
                     == multiset(b.failed)[t.pubkey] + (if outcome == Closed then 1 else 0))
            && (t.sender != u.sender ==> b'.Channel(t.sender) == b.Channel(t.sender))
            && (t.pubkey != u.pubkey ==>
                  && b'.Stat(t.pubkey) == b.Stat(t.pubkey)
                  && multiset(b'.failed)[t.pubkey] == multiset(b.failed)[t.pubkey])
  {}

  /** One round touches exactly its targets, each according to its own answer. */
  lemma {:induction false} RoundEffect(
      b: Books, targets: seq<Target>, j: nat, chunk: seq<ProtoPacket>, answers: Answers, t: Target)
    requires Distinct(targets)
    ensures var b' := SendRound(b, targets, j, chunk, answers);
            var outcome := answers(j, t.sender);
            && (t in targets ==>
                  && b'.Channel(t.sender) == b.Channel(t.sender) + (if outcome == Sent then [Batch(chunk)] else [])
                  && b'.Stat(t.pubkey) == Credit(b.Stat(t.pubkey), outcome, |chunk|)
                  && multiset(b'.failed)[t.pubkey]
                     == multiset(b.failed)[t.pubkey] + (if outcome == Closed then 1 else 0))
            && (!HasSender(targets, t.sender) ==> b'.Channel(t.sender) == b.Channel(t.sender))
            && (!HasPubkey(targets, t.pubkey) ==>
                  && b'.Stat(t.pubkey) == b.Stat(t.pubkey)
                  && multiset(b'.failed)[t.pubkey] == multiset(b.failed)[t.pubkey])
  {
    if targets != [] {
      var init, last := targets[..|targets| - 1], targets[|targets| - 1];
      assert HasSender(targets, last.sender) && HasPubkey(targets, last.pubkey);
      HasFront(targets, t);
      RoundEffect(b, init, j, chunk, answers, t);
      SendEffect(SendRound(b, init, j, chunk, answers), last, answers(j, last.sender), chunk, t);
    }
  }

  lemma HasFront(targets: seq<Target>, t: Target)
    requires Distinct(targets) && targets != []
    ensures var init, last := targets[..|targets| - 1], targets[|targets| - 1];
            && (HasSender(init, t.sender) ==> HasSender(targets, t.sender))
            && (HasPubkey(init, t.pubkey) ==> HasPubkey(targets, t.pubkey))
            && (t == last ==> !HasSender(init, t.sender) && !HasPubkey(init, t.pubkey))
            && (t in targets && t != last ==> t in init && t.sender != last.sender && t.pubkey != last.pubkey)
  {
    var init, last := targets[..|targets| - 1], targets[|targets| - 1];
    forall i | 0 <= i < |init|
      ensures init[i].pubkey != last.pubkey && init[i].sender != last.sender
      ensures HasSender(targets, init[i].sender) && HasPubkey(targets, init[i].pubkey)
    {
      assert targets[i] == init[i];
    }
    if t in targets && t != last {
      var i :| 0 <= i < |targets| && targets[i] == t;
      assert init[i] == t;
    }
  }

  /**
   * The fan-out as each party sees it. A target's channel gains exactly its delivered
   * chunks, its counters the packets forwarded and dropped, and it is listed as failed once
   * for each closed answer. Everyone else is untouched.
   */
  lemma {:induction false} FanOutEffect(
      b: Books, targets: seq<Target>, chunks: seq<seq<ProtoPacket>>, answers: Answers, t: Target)
    requires Distinct(targets)
    ensures var b' := SendAll(b, targets, chunks, answers);
            && (t in targets ==>
                  && b'.Channel(t.sender) == b.Channel(t.sender) + AsBatches(Delivered(chunks, answers, t.sender))
                  && b'.Stat(t.pubkey) == CreditAll(b.Stat(t.pubkey), chunks, answers, t.sender)
                  && multiset(b'.failed)[t.pubkey]
                     == multiset(b.failed)[t.pubkey] + ClosedTimes(|chunks|, answers, t.sender))
            && (!HasSender(targets, t.sender) ==> b'.Channel(t.sender) == b.Channel(t.sender))
            && (!HasPubkey(targets, t.pubkey) ==>
                  && b'.Stat(t.pubkey) == b.Stat(t.pubkey)
                  && multiset(b'.failed)[t.pubkey] == multiset(b.failed)[t.pubkey])
  {
    if chunks != [] {
      var init, last := chunks[..|chunks| - 1], chunks[|chunks| - 1];
      FanOutEffect(b, targets, init, answers, t);
      RoundEffect(SendAll(b, targets, init, answers), targets, |init|, last, answers, t);
      assert AsBatches(Delivered(init, answers, t.sender) + [last])
             == AsBatches(Delivered(init, answers, t.sender)) + [Batch(last)];
    }
  }

  /** Sending never makes or loses a channel, keeps the counters in range and lists only targets. */
  lemma {:induction false} RoundKeeps(b: Books, targets: seq<Target>, j: nat, chunk: seq<ProtoPacket>, answers: Answers)
    requires forall i :: 0 <= i < |targets| ==> targets[i].sender in b.channels
    requires InRange(b.stats)
    ensures var b' := SendRound(b, targets, j, chunk, answers);
            b'.channels.Keys == b.channels.Keys && InRange(b'.stats)
            && (forall p :: p in b'.failed ==> p in b.failed || HasPubkey(targets, p))
  {
    if targets != [] {
      var init := targets[..|targets| - 1];
      RoundKeeps(b, init, j, chunk, answers);
      forall p | HasPubkey(init, p) ensures HasPubkey(targets, p) {
        var i :| 0 <= i < |init| && init[i].pubkey == p;
        assert targets[i].pubkey == p;
      }
      assert HasPubkey(targets, targets[|targets| - 1].pubkey);
    }
  }

  lemma {:induction false} FanOutKeeps(b: Books, targets: seq<Target>, chunks: seq<seq<ProtoPacket>>, answers: Answers)
    requires forall i :: 0 <= i < |targets| ==> targets[i].sender in b.channels
    requires InRange(b.stats)
    ensures var b' := SendAll(b, targets, chunks, answers);
            b'.channels.Keys == b.channels.Keys && InRange(b'.stats)
            && (forall p :: p in b'.failed ==> p in b.failed || HasPubkey(targets, p))
  {
    if chunks != [] {
      var init := chunks[..|chunks| - 1];
      FanOutKeeps(b, targets, init, answers);
      RoundKeeps(SendAll(b, targets, init, answers), targets, |init|, chunks[|chunks| - 1], answers);
    }
  }

  predicate InRange(stats: map<Pubkey, Stats>) {
    forall p :: p in stats ==> stats[p].forwarded <= U64_MAX && stats[p].dropped <= U64_MAX
  }

  /** The packets a channel holds, in order. */
  function PacketsOf(messages: seq<Msg>): seq<ProtoPacket> {
    if messages == [] then []
    else
      var front := PacketsOf(messages[..|messages| - 1]);
      var last := messages[|messages| - 1];
      if last.Batch? then front + last.packets else front
  }

  function AsBatches(chunks: seq<seq<ProtoPacket>>): seq<Msg> {
    seq(|chunks|, i requires 0 <= i < |chunks| => Batch(chunks[i]))
  }

  lemma {:induction false} PacketsOfBatches(messages: seq<Msg>, chunks: seq<seq<ProtoPacket>>)
    ensures PacketsOf(messages + AsBatches(chunks)) == PacketsOf(messages) + Flatten(chunks)
  {
    var all := messages + AsBatches(chunks);
    if chunks == [] {
      assert all == messages;
    } else {
      var init := chunks[..|chunks| - 1];
      assert all[..|all| - 1] == messages + AsBatches(init);
      PacketsOfBatches(messages, init);
    }
  }

  function ToSet<T>(s: seq<T>): set<T> { set x | x in s }

  /** Entries of a list beyond the first of each value. */
  function Repeats(s: seq<Pubkey>): int { |s| - |ToSet(s)| }

  ghost predicate NoDuplicates(s: seq<Pubkey>) {
    forall i, j :: 0 <= i < j < |s| ==> s[i] != s[j]
  }

  lemma {:induction false} NoRepeats(s: seq<Pubkey>)
    ensures 0 <= Repeats(s)
    ensures NoDuplicates(s) ==> Repeats(s) == 0
  {
    if s != [] {
      var init, last := s[..|s| - 1], s[|s| - 1];
      NoRepeats(init);
      assert s == init + [last];
      assert ToSet(s) == ToSet(init) + {last};
    }
  }

  // ---------------------------------------------------------------- heartbeats

  /** A heartbeat to each listed subscriber in turn. */
  function Beats(
      channels: map<SenderId, seq<Msg>>, subscriptions: map<Pubkey, SenderId>, list: seq<Pubkey>,
      answers: SenderId -> SendOutcome, count: nat): map<SenderId, seq<Msg>>
    requires forall p :: p in list ==> p in subscriptions && subscriptions[p] in channels
    ensures Beats(channels, subscriptions, list, answers, count).Keys == channels.Keys
  {
    if list == [] then channels
    else
      var front := Beats(channels, subscriptions, list[..|list| - 1], answers, count);
      var s := subscriptions[list[|list| - 1]];
      if answers(s) == Sent then front[s := front[s] + [Beat(count)]] else front
  }

  /** Each listed subscriber that answers gets one heartbeat, and nobody else gets anything. */
  lemma {:induction false} BeatsEffect(
      channels: map<SenderId, seq<Msg>>, subscriptions: map<Pubkey, SenderId>, list: seq<Pubkey>,
      answers: SenderId -> SendOutcome, count: nat, s: SenderId)
    requires forall p :: p in list ==> p in subscriptions && subscriptions[p] in channels
    requires forall p, q :: p in subscriptions && q in subscriptions && subscriptions[p] == subscriptions[q] ==> p == q
    requires NoDuplicates(list) && s in channels
    ensures Beats(channels, subscriptions, list, answers, count)[s]
            == channels[s] + if Reached(subscriptions, list, s) && answers(s) == Sent then [Beat(count)] else []
  {
    if list != [] {
      var init, last := list[..|list| - 1], list[|list| - 1];
      assert forall i :: 0 <= i < |init| ==> init[i] == list[i];
      BeatsEffect(channels, subscriptions, init, answers, count, s);
      if subscriptions[last] == s {
        assert Reached(subscriptions, list, s);
        assert !Reached(subscriptions, init, s);
      } else if Reached(subscriptions, init, s) {
        var i :| 0 <= i < |init| && subscriptions[init[i]] == s;
        assert subscriptions[list[i]] == s;
      }
    }
  }

  ghost predicate Reached(subscriptions: map<Pubkey, SenderId>, list: seq<Pubkey>, s: SenderId)
    requires forall p :: p in list ==> p in subscriptions
  {
    exists i :: 0 <= i < |list| && subscriptions[list[i]] == s
  }

  /** Heartbeats carry no packets. */
  lemma PacketsOfBeat(messages: seq<Msg>, count: nat)
    ensures PacketsOf(messages + [Beat(count)]) == PacketsOf(messages)
  {
    assert (messages + [Beat(count)])[..|messages|] == messages;
  }

  lemma BeatsKeepPackets(
      channels: map<SenderId, seq<Msg>>, subscriptions: map<Pubkey, SenderId>, list: seq<Pubkey>,
      answers: SenderId -> SendOutcome, count: nat, s: SenderId)
    requires forall p :: p in list ==> p in subscriptions && subscriptions[p] in channels
    requires forall p, q :: p in subscriptions && q in subscriptions && subscriptions[p] == subscriptions[q] ==> p == q
    requires NoDuplicates(list) && s in channels
    ensures PacketsOf(Beats(channels, subscriptions, list, answers, count)[s]) == PacketsOf(channels[s])
  {
    BeatsEffect(channels, subscriptions, list, answers, count, s);
    PacketsOfBeat(channels[s], count);
    assert channels[s] + [] == channels[s];
  }

  function ClosedAmong(
      subscriptions: map<Pubkey, SenderId>, list: seq<Pubkey>, answers: SenderId -> SendOutcome): seq<Pubkey>
    requires forall p :: p in list ==> p in subscriptions
  {
    if list == [] then []
    else
      var front := ClosedAmong(subscriptions, list[..|list| - 1], answers);
      var last := list[|list| - 1];
      if answers(subscriptions[last]) == Closed then front + [last] else front
  }

  lemma {:induction false} ClosedAmongEffect(
      subscriptions: map<Pubkey, SenderId>, list: seq<Pubkey>, answers: SenderId -> SendOutcome)
    requires forall p :: p in list ==> p in subscriptions
    requires NoDuplicates(list)
    ensures var closed := ClosedAmong(subscriptions, list, answers);
            && NoDuplicates(closed)
            && (forall p :: p in closed <==> p in list && answers(subscriptions[p]) == Closed)
  {
    if list != [] {
      var init, last := list[..|list| - 1], list[|list| - 1];
      assert list == init + [last];
      ClosedAmongEffect(subscriptions, init, answers);
    }
  }
}
