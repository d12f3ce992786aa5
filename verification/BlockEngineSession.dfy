/**
 * One connection to the block engine (`handle_packet_stream`) and the reconnect loop around
 * it. What the streams, timers and channels deliver is the `Event` list; everything the loop
 * does with it is here. What each event does is said once, on values (`Handles`); the code is
 * proved to take exactly these steps, and the theorems are about all runs of them.
 */
module BlockEngineSession {
  import opened Prelude
  import opened Sequences
  import opened Packets
  import opened InterestCache
  import opened BlockEngineFilter
  import TokenRefresh

  const RESPONSE_TIMEOUT: nat := 30 * NANOS_PER_SEC

  /** Capacity of the queue between the forwarder and the session. */
  const FORWARDER_QUEUE_CAPACITY: nat := 5_000

  /** `BlockEnginePackets`, as the forwarder queues them. */
  datatype Received = Received(batches: seq<PacketBatch>, stamp: Time, expiration: nat)

  /** What the session puts on the packet stream. */
  datatype Update =
    | Heartbeat(count: nat)
    | Batches(packets: seq<ProtoPacket>, stamp: Time, expiryMs: nat)

  datatype Stream<+T> = Message(message: T) | Ended | Broken

  datatype Event =
    | Arrive(packets: Received)
    | Response(reply: Stream<()>)
    | HeartbeatTick(sent: bool)
    | Aoi(accounts: Stream<seq<string>>)
    | Poi(programs: Stream<seq<string>>)
    | Recv(tables: CacheStates, sent: bool)
    | ReceiverClosed
    | AuthTick(answer: TokenRefresh.AuthAnswer, renewal: TokenRefresh.RefreshAnswer)
    | MetricsTick

  datatype Verdict = Continue | Disconnect | Panic

  type Parser = string -> Option<Pubkey>

  /** What a session runs under. */
  datatype Setup = Setup(ttlSecs: nat, ofac: set<Pubkey>, parse: Parser)

  // ---------------------------------------------------------------- what an event does

  /**
   * What a session holds between two events. `received` are the batches taken off the queue,
   * `aoi` and `poi` every set of the two interest caches, `lastMetricsAt` the last liveness check
   * that passed.
   */
  datatype View = View(
    now: Time, queue: seq<Received>, received: seq<Received>, outbound: seq<Update>, heartbeats: nat,
    aoi: seq<SetEvent>, poi: seq<SetEvent>, wildcard: bool, lastResponseAt: Time, lastMetricsAt: Time,
    held: TokenRefresh.Holding)

  /** A session that has just drained the queue. */
  function FreshView(now: Time, held: TokenRefresh.Holding): View {
    View(now, [], [], [], 0, [], [], false, now, now, held)
  }

  /** An event with what it met: how it ended, what the filter let out, and what the clock showed. */
  datatype Handled = Handled(event: Event, verdict: Verdict, out: seq<ProtoPacket>, check: Time, recheck: Time)

  /** The queue after an arrival: a full queue takes nothing. */
  function Admit(queue: seq<Received>, packets: Received): seq<Received> {
    if |queue| < FORWARDER_QUEUE_CAPACITY then queue + [packets] else queue
  }

  /** The keys named by one update, skipping entries that do not parse. */
  function Parsed(entries: seq<string>, parse: Parser): seq<Pubkey> {
    if entries == [] then []
    else
      var front := Parsed(entries[..|entries| - 1], parse);
      var last := parse(entries[|entries| - 1]);
      if last.Some? then front + [last.value] else front
  }

  /** The entries that parse, each once and in order. */
  lemma {:induction false} ParsedExactly(entries: seq<string>, parse: Parser) returns (at: seq<nat>)
    ensures InOrder(at, set i: nat | i < |entries| && parse(entries[i]).Some?)
    ensures |Parsed(entries, parse)| == |at|
    ensures forall k :: 0 <= k < |at| ==>
                          at[k] < |entries| && parse(entries[at[k]]) == Some(Parsed(entries, parse)[k])
  {
    if entries == [] {
      at := [];
    } else {
      var last := |entries| - 1;
      var front := ParsedExactly(entries[..last], parse);
      var before := set i: nat | i < |entries[..last]| && parse(entries[..last][i]).Some?;
      var now := set i: nat | i < |entries| && parse(entries[i]).Some?;
      if parse(entries[last]).Some? {
        InOrderNext(front, before, last);
        assert now == before + {last};
        at := front + [last];
      } else {
        assert now == before;
        at := front;
      }
    }
  }

  lemma ParsedNames(entries: seq<string>, parse: Parser, key: Pubkey)
    ensures key in Parsed(entries, parse) <==> exists entry :: entry in entries && parse(entry) == Some(key)
  {
    var at := ParsedExactly(entries, parse);
    if key in Parsed(entries, parse) {
      var k :| 0 <= k < |at| && Parsed(entries, parse)[k] == key;
      assert entries[at[k]] in entries;
    }
    forall entry | entry in entries && parse(entry) == Some(key) ensures key in Parsed(entries, parse) {
      var i :| 0 <= i < |entries| && entries[i] == entry;
      assert i in at;
      var k :| 0 <= k < |at| && at[k] == i;
      assert Parsed(entries, parse)[k] == key;
    }
  }

  /** These keys have been set, in this order, each at some instant between `start` and `end`. */
  ghost predicate SetBetween(before: seq<SetEvent>, after: seq<SetEvent>, keys: seq<Pubkey>, start: Time, end: Time) {
    && |after| == |before| + |keys| && after[..|before|] == before
    && (forall i :: 0 <= i < |keys| ==> after[|before| + i].key == keys[i])
    && (forall i :: |before| <= i < |after| ==> start <= after[i].time <= end)
  }

  /** An account update: its keys are set now, and "*" sticks. */
  ghost predicate NotesAccounts(s: View, entries: seq<string>, t: View, parse: Parser) {
    && SetBetween(s.aoi, t.aoi, Parsed(entries, parse), s.now, t.now)
    && t == s.(now := t.now, aoi := t.aoi, wildcard := s.wildcard || "*" in entries)
  }

  ghost predicate NotesPrograms(s: View, entries: seq<string>, t: View, parse: Parser) {
    && SetBetween(s.poi, t.poi, Parsed(entries, parse), s.now, t.now)
    && t == s.(now := t.now, poi := t.poi, wildcard := s.wildcard || "*" in entries)
  }

  /** The update a received batch becomes. */
  function AsUpdate(packets: Received, out: seq<ProtoPacket>): Update {
    Batches(out, packets.stamp, packets.expiration)
  }

  /**
   * The receive arm on a non-empty queue. What comes out of the oldest batch is everything that is
   * still due at the end and nothing that was not eligible at the start, under the interest and
   * the wildcard of the updates before; it is enqueued as one update with the batch's own stamp
   * and expiry. A failed send ends the session.
   */
  ghost predicate Forwards(
      s: View, out: seq<ProtoPacket>, v: Verdict, t: View, c: Setup, tables: CacheStates, sent: bool)
    requires s.queue != []
  {
    var packets, rules := s.queue[0], Rules(tables, c.ofac, s.wildcard);
    var interest := Interest(s.aoi, s.poi, c.ttlSecs);
    && Subsequence(Due(Flatten(packets.batches), rules, interest, t.now), out)
    && Subsequence(out, Eligible(Flatten(packets.batches), rules, interest, s.now))
    && v == (if out == [] || sent then Continue else Disconnect)
    && t == s.(now := t.now, queue := s.queue[1..], received := s.received + [packets],
               outbound := if out == [] || !sent then s.outbound else s.outbound + [AsUpdate(packets, out)])
  }

  /** The refresh arm: one tick of the tokens. */
  ghost predicate Refreshes(
      s: View, h: Handled, t: View, answer: TokenRefresh.AuthAnswer, renewal: TokenRefresh.RefreshAnswer)
  {
    && s.held.refresh.expiresAt.Some?
    && s.now <= h.check <= h.recheck <= t.now
    && var (r, held) := TokenRefresh.Tick(s.held, h.check, h.recheck, t.now, answer, renewal);
       && t == s.(now := t.now, held := held)
       && h.verdict == (if r.Panicked? then Panic else if r.Failed? then Disconnect else Continue)
  }

  /** The metrics arm: more than the timeout without a reply ends the session. */
  ghost predicate Watches(s: View, h: Handled, t: View) {
    && s.now <= h.check <= t.now
    && (if h.check - s.lastResponseAt > RESPONSE_TIMEOUT then h.verdict == Disconnect && t == s.(now := t.now)
        else h.verdict == Continue && t == s.(now := t.now, lastMetricsAt := h.check))
  }

  /** A stream that ended or broke ends the session and changes nothing. */
  ghost predicate Stops(s: View, h: Handled, t: View) { h.verdict == Disconnect && t == s }

  /** What each arm of the `select!` does. */
  ghost predicate Handles(s: View, h: Handled, t: View, c: Setup) {
    && s.now <= t.now
    && match h.event
       case Arrive(packets) => h.verdict == Continue && t == s.(queue := Admit(s.queue, packets))
       case Response(reply) =>
         if !reply.Message? then Stops(s, h, t)
         else h.verdict == Continue && t == s.(now := t.now, lastResponseAt := t.now)
       case HeartbeatTick(sent) =>
         if !sent then Stops(s, h, t)
         else
           && h.verdict == Continue
           && t == s.(outbound := s.outbound + [Heartbeat(s.heartbeats)], heartbeats := s.heartbeats + 1)
       case Aoi(accounts) =>
         if !accounts.Message? then Stops(s, h, t)
         else h.verdict == Continue && NotesAccounts(s, accounts.message, t, c.parse)
       case Poi(programs) =>
         if !programs.Message? then Stops(s, h, t)
         else h.verdict == Continue && NotesPrograms(s, programs.message, t, c.parse)
       case Recv(tables, sent) =>
         if s.queue == [] then h.verdict == Continue && t == s
         else Forwards(s, h.out, h.verdict, t, c, tables, sent)
       case ReceiverClosed => Stops(s, h, t)
       case AuthTick(answer, renewal) => Refreshes(s, h, t, answer, renewal)
       case MetricsTick => Watches(s, h, t)
  }

  // ---------------------------------------------------------------- runs

  /** A session: as it starts, or with one more event handled. */
  datatype Trace = Start(view: View) | Then(before: Trace, done: Handled, view: View)
  {
    function First(): View {
      match this
      case Start(s) => s
      case Then(before, _, _) => before.First()
    }

    function Verdict(): Verdict { if Start? then Continue else done.verdict }

    /** Every event is handled in turn; only the last may have ended the session. */
    ghost predicate IsRun(c: Setup) {
      match this
      case Start(_) => true
      case Then(before, h, t) => before.IsRun(c) && before.Verdict() == Continue && Handles(before.view, h, t, c)
    }

    /** The events handled are the first `n` of these, in order. */
    ghost predicate Made(events: seq<Event>, n: nat)
      requires n <= |events|
    {
      match this
      case Start(_) => n == 0
      case Then(before, h, _) => n > 0 && h.event == events[n - 1] && before.Made(events, n - 1)
    }

    /** A session of `handle_packet_stream`: a run from a fresh view. */
    ghost predicate IsSession(c: Setup) {
      IsRun(c) && First() == FreshView(First().now, First().held)
    }

    /** How many heartbeats were sent. */
    function Beats(): nat {
      match this
      case Start(_) => 0
      case Then(before, h, _) => before.Beats() + if Beat(h) then 1 else 0
    }

    /** How many receives found a batch. */
    function Takes(): nat {
      match this
      case Start(_) => 0
      case Then(before, h, _) => before.Takes() + if TakesOne(before.view, h) then 1 else 0
    }

    /** The arrivals that found room, in order. */
    function Admitted(): seq<Received> {
      match this
      case Start(_) => []
      case Then(before, h, _) =>
        if h.event.Arrive? && |before.view.queue| < 5_000 then before.Admitted() + [h.event.packets]
        else before.Admitted()
    }

    /** Some update had "*" among its entries. */
    predicate SawWildcard() {
      match this
      case Start(_) => false
      case Then(before, h, _) =>
        before.SawWildcard() || NamesAll(h.event)
    }

    /** An account update naming the key was handled, and its handling ended less than the lifespan before `now`. */
    ghost predicate AccountNamedSince(key: Pubkey, now: Time, c: Setup) {
      match this
      case Start(_) => false
      case Then(before, h, t) =>
        before.AccountNamedSince(key, now, c) || (NamesAccount(h.event, key, c.parse) && Live(t.now, now, c.ttlSecs))
    }

    /** The same, with its handling begun less than the lifespan before `now`. */
    ghost predicate AccountNamedWithin(key: Pubkey, now: Time, c: Setup) {
      match this
      case Start(_) => false
      case Then(before, h, t) =>
        || before.AccountNamedWithin(key, now, c)
        || (NamesAccount(h.event, key, c.parse) && Live(before.view.now, now, c.ttlSecs))
    }

    ghost predicate ProgramNamedSince(key: Pubkey, now: Time, c: Setup) {
      match this
      case Start(_) => false
      case Then(before, h, t) =>
        before.ProgramNamedSince(key, now, c) || (NamesProgram(h.event, key, c.parse) && Live(t.now, now, c.ttlSecs))
    }

    ghost predicate ProgramNamedWithin(key: Pubkey, now: Time, c: Setup) {
      match this
      case Start(_) => false
      case Then(before, h, t) =>
        || before.ProgramNamedWithin(key, now, c)
        || (NamesProgram(h.event, key, c.parse) && Live(before.view.now, now, c.ttlSecs))
    }

    /** Metrics ticks are handled at most `gap` apart. */
    ghost predicate MetricsOnTime(gap: nat) {
      match this
      case Start(_) => true
      case Then(before, _, t) => before.MetricsOnTime(gap) && t.now <= before.view.lastMetricsAt + gap
    }

    /** Refresh ticks are handled at most `gap` apart, and every access token granted lives at least `life`. */
    ghost predicate TokensOnTime(gap: nat, life: nat) {
      match this
      case Start(_) => true
      case Then(before, h, t) =>
        && before.TokensOnTime(gap, life)
        && TokenRefresh.OnTime(before.view.held, t.now, gap) && TokenRefresh.OnTime(t.held, t.now, gap)
        && (h.event.AuthTick? ==> TokenRefresh.GrantsAtLeast(h.event.answer, h.event.renewal, t.now, life))
    }

    predicate Ticked() {
      match this
      case Start(_) => false
      case Then(before, h, _) => h.event.AuthTick? || before.Ticked()
    }
  }

  /** An account update with an entry that parses to the key. */
  ghost predicate NamesAccount(e: Event, key: Pubkey, parse: Parser) {
    e.Aoi? && e.accounts.Message? && exists entry :: entry in e.accounts.message && parse(entry) == Some(key)
  }

  predicate NamesAll(e: Event) {
    || (e.Aoi? && e.accounts.Message? && "*" in e.accounts.message)
    || (e.Poi? && e.programs.Message? && "*" in e.programs.message)
  }

  ghost predicate NamesProgram(e: Event, key: Pubkey, parse: Parser) {
    e.Poi? && e.programs.Message? && exists entry :: entry in e.programs.message && parse(entry) == Some(key)
  }

  // ---------------------------------------------------------------- what every session guarantees

  function Counts(updates: seq<Update>): seq<nat> {
    if updates == [] then []
    else
      var front := Counts(updates[..|updates| - 1]);
      var last := updates[|updates| - 1];
      if last.Heartbeat? then front + [last.count] else front
  }

  function UpTo(n: nat): seq<nat> {
    if n == 0 then [] else UpTo(n - 1) + [n - 1]
  }

  lemma CountsNext(updates: seq<Update>, u: Update)
    ensures Counts(updates + [u]) == if u.Heartbeat? then Counts(updates) + [u.count] else Counts(updates)
  {
    assert (updates + [u])[..|updates|] == updates;
  }

  /** What an event adds to the packet stream, if anything. */
  function Adds(s: View, h: Handled): Option<Update> {
    match h.event
    case HeartbeatTick(sent) => if sent then Some(Heartbeat(s.heartbeats)) else None
    case Recv(_, sent) => if s.queue != [] && h.out != [] && sent then Some(AsUpdate(s.queue[0], h.out)) else None
    case _ => None
  }

  predicate Beat(h: Handled) { h.event.HeartbeatTick? && h.event.sent }

  predicate TakesOne(s: View, h: Handled) { h.event.Recv? && s.queue != [] }

  /** Only heartbeats and receives touch the stream. */
  lemma StreamStep(s: View, h: Handled, t: View, c: Setup)
    requires Handles(s, h, t, c)
    ensures t.heartbeats == s.heartbeats + if Beat(h) then 1 else 0
    ensures t.outbound == match Adds(s, h) case Some(u) => s.outbound + [u] case None => s.outbound
  {}

  lemma CountsStep(s: View, h: Handled, outbound: seq<Update>)
    requires outbound == match Adds(s, h) case Some(u) => s.outbound + [u] case None => s.outbound
    ensures Counts(outbound) == if Beat(h) then Counts(s.outbound) + [s.heartbeats] else Counts(s.outbound)
  {
    if Adds(s, h).Some? { CountsNext(s.outbound, Adds(s, h).value); }
  }

  lemma BeatStep(s: View, h: Handled, t: View, c: Setup)
    requires Handles(s, h, t, c)
    ensures t.heartbeats == s.heartbeats + if Beat(h) then 1 else 0
    ensures Counts(t.outbound) == if Beat(h) then Counts(s.outbound) + [s.heartbeats] else Counts(s.outbound)
  {
    StreamStep(s, h, t, c);
    CountsStep(s, h, t.outbound);
  }

  /** The heartbeats of a session are exactly 0, 1, 2, ..., one for each tick whose send succeeded. */
  lemma {:induction false} HeartbeatsCountUp(tr: Trace, c: Setup)
    requires tr.IsSession(c)
    ensures tr.view.heartbeats == tr.Beats() && Counts(tr.view.outbound) == UpTo(tr.Beats())
  {
    match tr
    case Start(_) =>
    case Then(before, h, t) =>
      HeartbeatsCountUp(before, c);
      BeatStep(before.view, h, t, c);
  }

  // ---------------------------------------------------------------- the queue

  lemma QueueStep(s: View, h: Handled, t: View, c: Setup)
    requires Handles(s, h, t, c)
    ensures |t.received| == |s.received| + if TakesOne(s, h) then 1 else 0
    ensures t.received + t.queue
            == if h.event.Arrive? && |s.queue| < FORWARDER_QUEUE_CAPACITY then s.received + s.queue + [h.event.packets]
               else s.received + s.queue
  {
    if h.event.Arrive? && |s.queue| < FORWARDER_QUEUE_CAPACITY {
      assert s.received + (s.queue + [h.event.packets]) == s.received + s.queue + [h.event.packets];
    } else if TakesOne(s, h) {
      assert s.queue == [s.queue[0]] + s.queue[1..];
      assert (s.received + [s.queue[0]]) + s.queue[1..] == s.received + ([s.queue[0]] + s.queue[1..]);
    }
  }

  /** What has been received, and then what is queued, are the arrivals that found room since the drain, in order. */
  lemma {:induction false} ReceivedInOrder(tr: Trace, c: Setup)
    requires tr.IsSession(c)
    ensures tr.view.received + tr.view.queue == tr.Admitted() && |tr.view.received| == tr.Takes()
  {
    match tr
    case Start(_) =>
    case Then(before, h, t) =>
      ReceivedInOrder(before, c);
      QueueStep(before.view, h, t, c);
  }

  // ---------------------------------------------------------------- the batches on the stream

  function BatchesOf(updates: seq<Update>): seq<Update> {
    if updates == [] then []
    else
      var front := BatchesOf(updates[..|updates| - 1]);
      var last := updates[|updates| - 1];
      if last.Batches? then front + [last] else front
  }

  /** The update is a non-empty in-order part of this batch, with its stamp and expiry. */
  ghost predicate Fits(u: Update, r: Received) {
    && u.Batches? && u.packets != [] && u.stamp == r.stamp && u.expiryMs == r.expiration
    && Subsequence(u.packets, Convertible(Flatten(r.batches)))
  }

  /** Each update fits a received batch of its own, in the same order. */
  ghost predicate Paired(updates: seq<Update>, received: seq<Received>)
    decreases |received|
  {
    || updates == []
    || (&& received != []
        && var front, last := received[..|received| - 1], received[|received| - 1];
           || Paired(updates, front)
           || (Fits(updates[|updates| - 1], last) && Paired(updates[..|updates| - 1], front)))
  }

  lemma PairedNext(updates: seq<Update>, received: seq<Received>, r: Received, u: Update)
    requires Paired(updates, received)
    ensures Paired(updates, received + [r])
    ensures Fits(u, r) ==> Paired(updates + [u], received + [r])
  {
    assert (received + [r])[..|received|] == received && (updates + [u])[..|updates|] == updates;
  }

  lemma BatchesOfNext(updates: seq<Update>, u: Update)
    ensures BatchesOf(updates + [u]) == if u.Batches? then BatchesOf(updates) + [u] else BatchesOf(updates)
  {
    assert (updates + [u])[..|updates|] == updates;
  }

  lemma OutFits(s: View, h: Handled, t: View, c: Setup)
    requires Handles(s, h, t, c) && TakesOne(s, h)
    ensures t.received == s.received + [s.queue[0]]
    ensures h.out != [] ==> Fits(AsUpdate(s.queue[0], h.out), s.queue[0])
  {
    var packets, rules := Flatten(s.queue[0].batches), Rules(h.event.tables, c.ofac, s.wildcard);
    var interest := Interest(s.aoi, s.poi, c.ttlSecs);
    ConvertedIsConvertible(packets, p => Possibly(p, rules, interest, s.now));
    SubsequenceTrans(h.out, Eligible(packets, rules, interest, s.now), Convertible(packets));
  }

  lemma OnlyReceiveReceives(s: View, h: Handled, t: View, c: Setup)
    requires Handles(s, h, t, c) && !TakesOne(s, h)
    ensures t.received == s.received && BatchesOf(t.outbound) == BatchesOf(s.outbound)
  {
    StreamStep(s, h, t, c);
    if Adds(s, h).Some? { BatchesOfNext(s.outbound, Adds(s, h).value); }
  }

  /**
   * The batches enqueued in a session are in-order parts of the batches received since the
   * drain, one for one: packets, stamp and expiry of each come from the same received batch.
   */
  lemma {:induction false} BatchesArePaired(tr: Trace, c: Setup)
    requires tr.IsSession(c)
    ensures Paired(BatchesOf(tr.view.outbound), tr.view.received)
  {
    match tr
    case Start(_) =>
    case Then(before, h, t) =>
      BatchesArePaired(before, c);
      var s := before.view;
      if TakesOne(s, h) {
        var u := AsUpdate(s.queue[0], h.out);
        OutFits(s, h, t, c);
        StreamStep(s, h, t, c);
        BatchesOfNext(s.outbound, u);
        PairedNext(BatchesOf(s.outbound), s.received, s.queue[0], u);
      } else {
        OnlyReceiveReceives(s, h, t, c);
      }
  }

  // ---------------------------------------------------------------- the interest

  lemma SetBetweenAdds(
      before: seq<SetEvent>, after: seq<SetEvent>, keys: seq<Pubkey>, start: Time, end: Time, key: Pubkey, now: Time,
      ttlSecs: nat)
    requires SetBetween(before, after, keys, start, end)
    ensures SetWithin(after, key, now, ttlSecs) ==>
              SetWithin(before, key, now, ttlSecs) || (key in keys && Live(end, now, ttlSecs))
    ensures SetWithin(before, key, now, ttlSecs) || (key in keys && Live(start, now, ttlSecs)) ==>
              SetWithin(after, key, now, ttlSecs)
  {
    var n := |before|;
    forall i | 0 <= i < n ensures after[i] == before[i] {
      assert after[..n][i] == after[i];
    }
    if SetWithin(after, key, now, ttlSecs) {
      var i :| 0 <= i < |after| && after[i].key == key && Live(after[i].time, now, ttlSecs);
      if i < n {
        assert before[i].key == key;
      } else {
        assert keys[i - n] == after[n + (i - n)].key;
        LiveMonotone(after[i].time, end, now, now, ttlSecs);
      }
    }
    if SetWithin(before, key, now, ttlSecs) {
      var i :| 0 <= i < n && before[i].key == key && Live(before[i].time, now, ttlSecs);
      assert after[i].key == key;
    } else if key in keys && Live(start, now, ttlSecs) {
      var i :| 0 <= i < |keys| && keys[i] == key;
      assert after[n + i].key == key;
      LiveMonotone(start, after[n + i].time, now, now, ttlSecs);
    }
  }

  lemma AccountStep(s: View, h: Handled, t: View, c: Setup, key: Pubkey, now: Time)
    requires Handles(s, h, t, c)
    ensures SetWithin(t.aoi, key, now, c.ttlSecs) ==>
              || SetWithin(s.aoi, key, now, c.ttlSecs)
              || (NamesAccount(h.event, key, c.parse) && Live(t.now, now, c.ttlSecs))
    ensures SetWithin(s.aoi, key, now, c.ttlSecs) ==> SetWithin(t.aoi, key, now, c.ttlSecs)
    ensures NamesAccount(h.event, key, c.parse) && Live(s.now, now, c.ttlSecs) ==> SetWithin(t.aoi, key, now, c.ttlSecs)
  {
    if h.event.Aoi? && h.event.accounts.Message? {
      ParsedNames(h.event.accounts.message, c.parse, key);
      SetBetweenAdds(s.aoi, t.aoi, Parsed(h.event.accounts.message, c.parse), s.now, t.now, key, now, c.ttlSecs);
    } else {
      assert t.aoi == s.aoi;
    }
  }

  lemma ProgramStep(s: View, h: Handled, t: View, c: Setup, key: Pubkey, now: Time)
    requires Handles(s, h, t, c)
    ensures SetWithin(t.poi, key, now, c.ttlSecs) ==>
              || SetWithin(s.poi, key, now, c.ttlSecs)
              || (NamesProgram(h.event, key, c.parse) && Live(t.now, now, c.ttlSecs))
    ensures SetWithin(s.poi, key, now, c.ttlSecs) ==> SetWithin(t.poi, key, now, c.ttlSecs)
    ensures NamesProgram(h.event, key, c.parse) && Live(s.now, now, c.ttlSecs) ==> SetWithin(t.poi, key, now, c.ttlSecs)
  {
    if h.event.Poi? && h.event.programs.Message? {
      ParsedNames(h.event.programs.message, c.parse, key);
      SetBetweenAdds(s.poi, t.poi, Parsed(h.event.programs.message, c.parse), s.now, t.now, key, now, c.ttlSecs);
    } else {
      assert t.poi == s.poi;
    }
  }

  lemma WildcardStep(s: View, h: Handled, t: View, c: Setup)
    requires Handles(s, h, t, c)
    ensures t.wildcard <==> s.wildcard || NamesAll(h.event)
  {}

  /**
   * The interest of a session, in terms of its updates alone: the filter treats a key as an
   * account (a program) of interest only if an update naming it was handled less than the
   * lifespan ago, and certainly if the handling of one began less than the lifespan ago; and
   * everything is of interest exactly when some update had "*" among its entries.
   */
  lemma {:induction false} InterestIsWhatUpdatesSaid(tr: Trace, c: Setup, key: Pubkey, now: Time)
    requires tr.IsSession(c)
    ensures SetWithin(tr.view.aoi, key, now, c.ttlSecs) ==> tr.AccountNamedSince(key, now, c)
    ensures tr.AccountNamedWithin(key, now, c) ==> SetWithin(tr.view.aoi, key, now, c.ttlSecs)
    ensures SetWithin(tr.view.poi, key, now, c.ttlSecs) ==> tr.ProgramNamedSince(key, now, c)
    ensures tr.ProgramNamedWithin(key, now, c) ==> SetWithin(tr.view.poi, key, now, c.ttlSecs)
    ensures tr.view.wildcard <==> tr.SawWildcard()
  {
    match tr
    case Start(_) =>
    case Then(before, h, t) =>
      InterestIsWhatUpdatesSaid(before, c, key, now);
      AccountStep(before.view, h, t, c, key, now);
      ProgramStep(before.view, h, t, c, key, now);
      WildcardStep(before.view, h, t, c);
  }

  // ---------------------------------------------------------------- liveness and tokens

  ghost predicate Watched(v: View) {
    && v.lastResponseAt <= v.now && v.lastMetricsAt <= v.now
    && v.lastMetricsAt <= v.lastResponseAt + RESPONSE_TIMEOUT
  }

  lemma WatchStep(s: View, h: Handled, t: View, c: Setup)
    requires Handles(s, h, t, c) && Watched(s)
    ensures Watched(t) && s.lastResponseAt <= t.lastResponseAt
  {}

  /** With metrics ticks at most `gap` apart, no live session is silent for longer than the timeout and `gap`. */
  lemma {:induction false} SilenceIsBounded(tr: Trace, c: Setup, gap: nat)
    requires tr.IsSession(c)
    ensures Watched(tr.view)
    ensures tr.MetricsOnTime(gap) ==> tr.view.now <= tr.view.lastResponseAt + RESPONSE_TIMEOUT + gap
  {
    match tr
    case Start(_) =>
    case Then(before, h, t) =>
      SilenceIsBounded(before, c, gap);
      WatchStep(before.view, h, t, c);
  }

  /** An event of the session as the tokens see it. */
  function TokenEvent(h: Handled, end: Time): TokenRefresh.Event {
    if h.event.AuthTick? then TokenRefresh.Event.AuthTick(h.check, h.recheck, end, h.event.answer, h.event.renewal)
    else TokenRefresh.Wait
  }

  lemma TokenStep(s: View, h: Handled, t: View, c: Setup, gap: nat)
    requires Handles(s, h, t, c) && h.verdict == Continue && s.held.refresh.expiresAt.Some?
    requires TokenRefresh.OnTime(s.held, t.now, gap) && TokenRefresh.OnTime(t.held, t.now, gap)
    ensures TokenRefresh.Next(
              TokenRefresh.State(s.now, s.held), TokenEvent(h, t.now), TokenRefresh.State(t.now, t.held), gap)
    ensures t.held.refresh.expiresAt.Some?
  {
    if !h.event.AuthTick? { assert t.held == s.held; }
  }

  /**
   * Token freshness for sessions: with refresh ticks handled at most `gap` apart and access tokens
   * granted for at least `life`, at every moment after the first tick of a live session the access
   * token has at least min(five minutes, `life`) - `gap` left, and every refresh token presented
   * had five minutes left when it was checked.
   */
  lemma {:induction false} SessionTokensStayFresh(tr: Trace, c: Setup, gap: nat, life: nat)
    requires tr.IsSession(c) && tr.Verdict() == Continue && tr.TokensOnTime(gap, life)
    requires tr.First().held.checkedAt.None? && tr.First().held.presented == []
    requires tr.First().held.refresh.expiresAt.Some?
    ensures TokenRefresh.Fresh(TokenRefresh.State(tr.view.now, tr.view.held), life)
    ensures tr.view.held.refresh.expiresAt.Some?
    ensures tr.Ticked() ==>
              && tr.view.held.checkedAt.Some? && tr.view.held.access.expiresAt.Some?
              && TokenRefresh.Min(TokenRefresh.EXPIRING_SOON, life) - gap
                 <= TokenRefresh.Left(tr.view.held.access, tr.view.now)
  {
    match tr
    case Start(_) =>
    case Then(before, h, t) =>
      SessionTokensStayFresh(before, c, gap, life);
      var s := before.view;
      TokenStep(s, h, t, c, gap);
      TokenRefresh.FreshStep(
        TokenRefresh.State(s.now, s.held), TokenEvent(h, t.now), TokenRefresh.State(t.now, t.held), gap, life);
      if t.held.checkedAt.Some? { TokenRefresh.FreshLeft(TokenRefresh.State(t.now, t.held), gap, life); }
  }

  // ---------------------------------------------------------------- the code takes these steps

  /** What happens to the queue and the flag over the life of the thread. */
  datatype Mark = Drained(left: nat) | Flag(up: bool) | Ran(session: Trace)

  /** The last write to the flag decides; it starts down. */
  function FlagUp(marks: seq<Mark>): bool {
    if marks == [] then false
    else if marks[|marks| - 1].Flag? then marks[|marks| - 1].up
    else FlagUp(marks[..|marks| - 1])
  }

  /** What outlives a session: the queue the forwarder fills and the flag the web server reads. */
  class Link {
    var queue: seq<Received>
    var connected: bool
    ghost var log: seq<Mark>

    ghost predicate Valid()
      reads `connected, `log
    {
      connected == FlagUp(log)
    }

    constructor ()
      ensures Valid() && !connected && queue == [] && log == []
    {
      queue, connected, log := [], false, [];
    }

    /** The forwarder's `try_send`. */
    method Offer(packets: Received)
      modifies this`queue
      ensures queue == Admit(old(queue), packets)
    {
      if |queue| < FORWARDER_QUEUE_CAPACITY { queue := queue + [packets]; }
    }

    /** `try_recv` until there is nothing left. */
    method Drain()
      requires Valid()
      modifies this`queue, this`log
      ensures Valid() && queue == [] && log == old(log) + [Drained(0)]
    {
      while queue != []
        modifies `queue
        decreases |queue|
      {
        queue := queue[1..];
      }
      log := log + [Drained(|queue|)];
      assert log[..|old(log)|] == old(log);
    }

    method SetConnected(up: bool)
      modifies this`connected, this`log
      ensures Valid() && connected == up && log == old(log) + [Flag(up)]
    {
      connected := up;
      log := log + [Flag(up)];
    }

    /** A session's run is noted when it returns. */
    ghost method Note(session: Trace)
      requires Valid()
      modifies this`log
      ensures Valid() && log == old(log) + [Ran(session)]
    {
      log := log + [Ran(session)];
      assert log[..|old(log)|] == old(log);
    }
  }

  class Session {
    const clock: Clock
    const caches: Caches
    const tokens: TokenRefresh.Tokens
    const link: Link
    const ofac: set<Pubkey>
    const parse: Parser

    var forwardAll: bool
    var heartbeatCount: nat
    var lastResponseAt: Time
    var outbound: seq<Update>

    ghost var received: seq<Received>
    ghost var lastMetricsAt: Time

    ghost predicate Valid()
      reads caches.aoi, caches.poi, clock, tokens
    {
      caches.clock == clock && caches.Valid() && tokens.refresh.expiresAt.Some?
    }

    ghost function Value(): View
      reads this, link, caches.aoi, caches.poi, clock, tokens
    {
      View(
        clock.now, link.queue, received, outbound, heartbeatCount, caches.aoi.sets, caches.poi.sets, forwardAll,
        lastResponseAt, lastMetricsAt, tokens.Value())
    }

    function Config(): Setup { Setup(caches.aoi.ttlSecs, ofac, parse) }

    constructor (clock: Clock, tokens: TokenRefresh.Tokens, link: Link, ttlSecs: nat, ofac: set<Pubkey>, parse: Parser)
      requires tokens.refresh.expiresAt.Some? && link.queue == []
      ensures Valid() && fresh(caches.aoi) && fresh(caches.poi)
      ensures this.clock == clock && this.tokens == tokens && this.link == link
      ensures Config() == Setup(ttlSecs, ofac, parse) && Value() == FreshView(clock.now, tokens.Value())
    {
      this.clock, this.tokens, this.link, this.ofac, this.parse := clock, tokens, link, ofac, parse;
      var c := new Caches(ttlSecs, clock);
      caches := c;
      forwardAll, heartbeatCount, lastResponseAt, outbound := false, 0, clock.now, [];
      received, lastMetricsAt := [], clock.now;
    }

    method OnArrive(packets: Received) returns (ghost h: Handled)
      requires Valid()
      modifies link`queue
      ensures Valid() && h.event == Arrive(packets) && h.verdict == Continue
      ensures Handles(old(Value()), h, Value(), Config())
    {
      link.Offer(packets);
      h := Handled(Arrive(packets), Continue, [], 0, 0);
    }

    method OnResponse(reply: Stream<()>) returns (v: Verdict, ghost h: Handled)
      requires Valid()
      modifies this`lastResponseAt, clock
      ensures Valid() && h.event == Response(reply) && h.verdict == v
      ensures Handles(old(Value()), h, Value(), Config())
    {
      if reply.Message? {
        lastResponseAt := clock.Read();
        LaterCaches(old(clock.now));
        v := Continue;
      } else {
        v := Disconnect;
      }
      h := Handled(Response(reply), v, [], 0, 0);
    }

    /** `check_and_send_heartbeat`; the count moves only when the heartbeat is enqueued. */
    method OnHeartbeat(sent: bool) returns (v: Verdict, ghost h: Handled)
      requires Valid()
      modifies this`outbound, this`heartbeatCount
      ensures Valid() && h.event == HeartbeatTick(sent) && h.verdict == v
      ensures Handles(old(Value()), h, Value(), Config())
    {
      if sent {
        outbound := outbound + [Heartbeat(heartbeatCount)];
        heartbeatCount := heartbeatCount + 1;
        v := Continue;
      } else {
        v := Disconnect;
      }
      h := Handled(HeartbeatTick(sent), v, [], 0, 0);
    }

    /** The `cache_set` loop of `handle_aoi` and `handle_poi`. */
    method SetAll(cache: TimedCache, entries: seq<string>) returns (numPubkeys: nat)
      requires cache.Valid(clock.now)
      modifies cache, clock
      ensures old(clock.now) <= clock.now && cache.Valid(clock.now)
      ensures SetBetween(old(cache.sets), cache.sets, Parsed(entries, parse), old(clock.now), clock.now)
      ensures numPubkeys == |set i: nat | i < |entries| && parse(entries[i]).Some?|
    {
      numPubkeys := 0;
      ghost var start := cache.sets;
      for i := 0 to |entries|
        invariant old(clock.now) <= clock.now && cache.Valid(clock.now)
        invariant SetBetween(start, cache.sets, Parsed(entries[..i], parse), old(clock.now), clock.now)
        invariant numPubkeys == |Parsed(entries[..i], parse)|
      {
        assert entries[..i + 1][..i] == entries[..i];
        var key := parse(entries[i]);
        if key.Some? {
          ghost var before, at := cache.sets, clock.now;
          cache.CacheSet(key.value, clock);
          SetOneMore(start, before, Parsed(entries[..i], parse), old(clock.now), at, key.value, clock.now);
          numPubkeys := numPubkeys + 1;
        }
      }
      assert entries[..|entries|] == entries;
      ghost var at := ParsedExactly(entries, parse);
      InOrderSize(at, set i: nat | i < |entries| && parse(entries[i]).Some?);
    }

    /** `handle_aoi` */
    method OnAoi(accounts: Stream<seq<string>>) returns (v: Verdict, ghost h: Handled)
      requires Valid()
      modifies this`forwardAll, caches.aoi, clock
      ensures Valid() && h.event == Aoi(accounts) && h.verdict == v
      ensures Handles(old(Value()), h, Value(), Config())
    {
      if accounts.Message? {
        if "*" in accounts.message { forwardAll := true; }
        var _ := SetAll(caches.aoi, accounts.message);
        LaterCaches(old(clock.now));
        v := Continue;
      } else {
        v := Disconnect;
      }
      h := Handled(Aoi(accounts), v, [], 0, 0);
    }

    /** `handle_poi` */
    method OnPoi(programs: Stream<seq<string>>) returns (v: Verdict, ghost h: Handled)
      requires Valid()
      modifies this`forwardAll, caches.poi, clock
      ensures Valid() && h.event == Poi(programs) && h.verdict == v
      ensures Handles(old(Value()), h, Value(), Config())
    {
      if programs.Message? {
        if "*" in programs.message { forwardAll := true; }
        var _ := SetAll(caches.poi, programs.message);
        LaterCaches(old(clock.now));
        v := Continue;
      } else {
        v := Disconnect;
      }
      h := Handled(Poi(programs), v, [], 0, 0);
    }

    /** The receive arm: filter the oldest queued batch and enqueue what is left of it. */
    method OnRecv(tables: CacheStates, sent: bool) returns (v: Verdict, ghost h: Handled)
      requires Valid()
      modifies this`outbound, this`received, link`queue, caches.aoi`store, caches.poi`store, clock
      ensures Valid() && h.event == Recv(tables, sent) && h.verdict == v
      ensures Handles(old(Value()), h, Value(), Config())
    {
      if link.queue == [] { return Continue, Handled(Recv(tables, sent), Continue, [], 0, 0); }
      var packets := link.queue[0];
      link.queue := link.queue[1..];
      received := received + [packets];
      var filtered := caches.FilterPackets(packets.batches, Rules(tables, ofac, forwardAll));
      ghost var out := if filtered.Some? then filtered.value else [];
      v := Continue;
      if filtered.Some? {
        if sent { outbound := outbound + [AsUpdate(packets, filtered.value)]; } else { v := Disconnect; }
      }
      h := Handled(Recv(tables, sent), v, out, 0, 0);
    }

    /** The refresh arm: a failed refresh ends the session, a missing expiry panics. */
    method OnAuthTick(answer: TokenRefresh.AuthAnswer, renewal: TokenRefresh.RefreshAnswer)
        returns (v: Verdict, ghost h: Handled)
      requires Valid()
      modifies tokens, clock
      ensures Valid() && h.event == AuthTick(answer, renewal) && h.verdict == v
      ensures Handles(old(Value()), h, Value(), Config())
    {
      var r;
      ghost var t1, t2, t3;
      r, t1, t2, t3 := tokens.MaybeRefreshAuth(clock, answer, renewal);
      LaterCaches(old(clock.now));
      v := if r.Panicked? then Panic else if r.Failed? then Disconnect else Continue;
      h := Handled(AuthTick(answer, renewal), v, [], t1, t2);
    }

    /** Neither cache holds a key that had expired by then. */
    ghost predicate FlushedAt(t: Time)
      reads caches.aoi, caches.poi
    {
      && (forall key :: key in caches.aoi.store ==> SetWithin(caches.aoi.sets, key, t, caches.aoi.ttlSecs))
      && (forall key :: key in caches.poi.store ==> SetWithin(caches.poi.sets, key, t, caches.poi.ttlSecs))
    }

    /** The metrics arm: the liveness check, then the flush of both caches. */
    method OnMetrics() returns (v: Verdict, ghost h: Handled)
      requires Valid()
      modifies this`lastMetricsAt, caches.aoi`store, caches.poi`store, clock
      ensures Valid() && h.event == MetricsTick && h.verdict == v
      ensures Handles(old(Value()), h, Value(), Config())
      ensures v == Continue ==> FlushedAt(lastMetricsAt)
    {
      var now := clock.Read();
      LaterCaches(old(clock.now));
      if now - lastResponseAt > RESPONSE_TIMEOUT {
        v := Disconnect;
      } else {
        lastMetricsAt := now;
        caches.aoi.Flush(clock);
        FlushedSince(caches.aoi, now, clock.now);
        caches.poi.Flush(clock);
        FlushedSince(caches.poi, now, clock.now);
        LaterCaches(now);
        v := Continue;
      }
      h := Handled(MetricsTick, v, [], now, 0);
    }

    /** Time passing changes nothing the caches promise. */
    twostate lemma LaterCaches(before: Time)
      requires before <= clock.now
      requires caches.aoi.Valid(before) || caches.aoi.Valid(clock.now)
      requires caches.poi.Valid(before) || caches.poi.Valid(clock.now)
      ensures caches.aoi.Valid(clock.now) && caches.poi.Valid(clock.now)
    {}

    /** One arm of the `select!`. */
    method Dispatch(e: Event) returns (v: Verdict, ghost h: Handled)
      requires Valid()
      modifies this, link`queue, tokens, caches.aoi, caches.poi, clock
      ensures Valid() && h.event == e && h.verdict == v
      ensures Handles(old(Value()), h, Value(), Config())
    {
      match e {
        case Arrive(packets) => h := OnArrive(packets); v := Continue;
        case Response(reply) => v, h := OnResponse(reply);
        case HeartbeatTick(sent) => v, h := OnHeartbeat(sent);
        case Aoi(accounts) => v, h := OnAoi(accounts);
        case Poi(programs) => v, h := OnPoi(programs);
        case Recv(tables, sent) => v, h := OnRecv(tables, sent);
        case ReceiverClosed => v, h := Disconnect, Handled(ReceiverClosed, Disconnect, [], 0, 0);
        case AuthTick(answer, renewal) => v, h := OnAuthTick(answer, renewal);
        case MetricsTick => v, h := OnMetrics();
      }
    }

    /** The loop around the `select!`: events one by one, until one ends the session. */
    method Serve(events: seq<Event>) returns (v: Verdict, handled: nat, ghost tr: Trace)
      requires Valid()
      modifies this, link`queue, tokens, caches.aoi, caches.poi, clock
      ensures Valid() && handled <= |events| && (v == Continue ==> handled == |events|)
      ensures tr.IsRun(Config()) && tr.First() == old(Value()) && tr.view == Value()
      ensures tr.Made(events, handled) && tr.Verdict() == v
    {
      v, handled, tr := Continue, 0, Start(Value());
      while handled < |events| && v == Continue
        invariant Valid() && handled <= |events|
        invariant tr.IsRun(Config()) && tr.First() == old(Value()) && tr.view == Value()
        invariant tr.Made(events, handled) && tr.Verdict() == v
        decreases |events| - handled
      {
        ghost var h;
        v, h := Dispatch(events[handled]);
        tr, handled := Then(tr, h, Value()), handled + 1;
      }
    }
  }

  lemma SetOneMore(
      start: seq<SetEvent>, before: seq<SetEvent>, keys: seq<Pubkey>, from: Time, at: Time, key: Pubkey, now: Time)
    requires SetBetween(start, before, keys, from, at) && from <= at <= now
    ensures SetBetween(start, before + [SetEvent(key, now)], keys + [key], from, now)
  {}

  lemma FlushedSince(cache: TimedCache, start: Time, now: Time)
    requires start <= now && forall key :: key in cache.store ==> SetWithin(cache.sets, key, now, cache.ttlSecs)
    ensures forall key :: key in cache.store ==> SetWithin(cache.sets, key, start, cache.ttlSecs)
  {
    forall key | key in cache.store ensures SetWithin(cache.sets, key, start, cache.ttlSecs) {
      SetWithinFades(cache.sets, key, start, now, cache.ttlSecs);
    }
  }

  /**
   * `handle_packet_stream`: drain, raise the flag, and serve events until one ends the session.
   * What it did is a session of exactly the events handled, in the sense of `IsSession`, so all
   * that holds of every session holds of it.
   */
  method HandlePacketStream(
      clock: Clock, tokens: TokenRefresh.Tokens, link: Link, ttlSecs: nat, ofac: set<Pubkey>, parse: Parser,
      events: seq<Event>)
      returns (v: Verdict, handled: nat, s: Session, ghost tr: Trace)
    requires tokens.refresh.expiresAt.Some? && link.Valid()
    modifies link, tokens, clock
    ensures handled <= |events| && (v == Continue ==> handled == |events|)
    ensures tr.IsSession(Setup(ttlSecs, ofac, parse)) && tr.Made(events, handled) && tr.Verdict() == v
    ensures tr.First() == FreshView(old(clock.now), old(tokens.Value())) && tr.view == s.Value()
    ensures link.Valid() && link.log == old(link.log) + [Drained(0), Flag(true), Ran(tr)]
  {
    link.Drain();
    link.SetConnected(true);
    s := new Session(clock, tokens, link, ttlSecs, ofac, parse);
    v, handled, tr := s.Serve(events);
    link.Note(tr);
    assert old(link.log) + [Drained(0)] + [Flag(true)] + [Ran(tr)] == old(link.log) + [Drained(0), Flag(true), Ran(tr)];
  }

  // ---------------------------------------------------------------- the reconnect loop

  /**
   * One turn of the reconnect loop: what the forwarder offers while no session runs, the answer of
   * the authentication handshake, whether the streams can be opened, and the events on them.
   */
  datatype Attempt = Attempt(backlog: seq<Received>, answer: TokenRefresh.AuthAnswer, opens: bool, events: seq<Event>)
  {
    /** The handshake granted both tokens, each with an expiry, and the streams opened. */
    predicate Streams() { TokenRefresh.Complete(answer) && opens }
  }

  datatype Outcome = NoSession | Served(session: Trace, handled: nat)
  {
    predicate Panicked() { Served? && session.Verdict() == Panic }

    /** The writes of one turn: a session lies between a drain and a raise and, unless it panics, a lowering. */
    function Marks(): seq<Mark> {
      if NoSession? then [Flag(false)]
      else [Drained(0), Flag(true), Ran(session)] + if Panicked() then [] else [Flag(false)]
    }
  }

  /** A turn runs a session of its own events, with the tokens granted, exactly when it is let in. */
  ghost predicate Answers(o: Outcome, a: Attempt, c: Setup) {
    && (o.Served? <==>
          && a.opens && a.answer.Granted? && a.answer.access.Some? && a.answer.refresh.Some?
          && a.answer.access.value.expiresAt.Some? && a.answer.refresh.value.expiresAt.Some?)
    && (o.Served? ==>
          && o.session.IsSession(c) && o.handled <= |a.events| && o.session.Made(a.events, o.handled)
          && (o.session.Verdict() == Continue ==> o.handled == |a.events|)
          && o.session.First().held == TokenRefresh.Holding(a.answer.access.value, a.answer.refresh.value, None, []))
  }

  function LogOf(outcomes: seq<Outcome>): seq<Mark> {
    if outcomes == [] then [] else LogOf(outcomes[..|outcomes| - 1]) + outcomes[|outcomes| - 1].Marks()
  }

  lemma LogOfNext(outcomes: seq<Outcome>, o: Outcome)
    ensures LogOf(outcomes + [o]) == LogOf(outcomes) + o.Marks()
  {
    assert (outcomes + [o])[..|outcomes|] == outcomes;
  }

  lemma {:induction false} FlagAfter(marks: seq<Mark>, more: seq<Mark>)
    ensures FlagUp(marks + more) == if exists i :: 0 <= i < |more| && more[i].Flag? then FlagUp(more) else FlagUp(marks)
    decreases |more|
  {
    if more == [] {
      assert marks + more == marks;
    } else {
      var init, last := more[..|more| - 1], more[|more| - 1];
      assert (marks + more)[..|marks + more| - 1] == marks + init;
      FlagAfter(marks, init);
      if i :| 0 <= i < |init| && init[i].Flag? { assert more[i].Flag?; }
    }
  }

  /** Turns that do not panic leave the flag down. */
  lemma DownBetweenTurns(outcomes: seq<Outcome>)
    requires outcomes == [] || !outcomes[|outcomes| - 1].Panicked()
    ensures !FlagUp(LogOf(outcomes))
  {
    if outcomes != [] {
      var log := LogOf(outcomes);
      assert log[|log| - 1] == Flag(false);
    }
  }

  /** The flag is up after the first `n` marks of a turn that starts with it down: only around a session. */
  lemma UpWithinTurn(before: seq<Mark>, o: Outcome, n: nat)
    requires !FlagUp(before) && n <= |o.Marks()| && FlagUp(before + o.Marks()[..n])
    ensures o.Served? && (n == 2 || n == 3)
  {
    FlagAfter(before, o.Marks()[..n]);
  }

  /** The last marks are a drain that left nothing and the raise, with at most the session's own run after them. */
  ghost predicate JustRaised(marks: seq<Mark>) {
    var n := |marks|;
    || (n >= 2 && marks[n - 2] == Drained(0) && marks[n - 1] == Flag(true))
    || (n >= 3 && marks[n - 3] == Drained(0) && marks[n - 2] == Flag(true) && marks[n - 1].Ran?)
  }

  /**
   * Over every life of the thread, at every moment: if the flag is up, it was raised directly
   * after a drain that left the queue empty, and nothing but that session has happened since.
   */
  lemma {:induction false} UpOnlyFromDrainToReturn(outcomes: seq<Outcome>, n: nat)
    requires forall i :: 0 <= i < |outcomes| - 1 ==> !outcomes[i].Panicked()
    requires n <= |LogOf(outcomes)| && FlagUp(LogOf(outcomes)[..n])
    ensures JustRaised(LogOf(outcomes)[..n])
  {
    if outcomes != [] {
      var front, o := outcomes[..|outcomes| - 1], outcomes[|outcomes| - 1];
      var before := LogOf(front);
      if n <= |before| {
        assert LogOf(outcomes)[..n] == before[..n];
        UpOnlyFromDrainToReturn(front, n);
      } else {
        var k := n - |before|;
        assert LogOf(outcomes)[..n] == before + o.Marks()[..k];
        DownBetweenTurns(front);
        UpWithinTurn(before, o, k);
      }
    }
  }

  /** The forwarder goes on offering packets while no session runs. */
  method WhileAway(link: Link, backlog: seq<Received>)
    modifies link`queue
    ensures link.queue == AdmitAll(old(link.queue), backlog)
  {
    for i := 0 to |backlog|
      invariant link.queue == AdmitAll(old(link.queue), backlog[..i])
    {
      assert backlog[..i + 1][..i] == backlog[..i];
      link.Offer(backlog[i]);
    }
    assert backlog[..|backlog|] == backlog;
  }

  function AdmitAll(queue: seq<Received>, backlog: seq<Received>): seq<Received> {
    if backlog == [] then queue else Admit(AdmitAll(queue, backlog[..|backlog| - 1]), backlog[|backlog| - 1])
  }

  /** One turn of the loop. */
  method TryOnce(clock: Clock, link: Link, c: Setup, a: Attempt) returns (panicked: bool, ghost o: Outcome)
    requires link.Valid()
    modifies link, clock
    ensures link.Valid() && link.log == old(link.log) + o.Marks()
    ensures Answers(o, a, c) && panicked == o.Panicked()
  {
    panicked, o := false, NoSession;
    WhileAway(link, a.backlog);
    ghost var before := link.log;
    if a.Streams() {
      var tokens := new TokenRefresh.Tokens(a.answer.access.value, a.answer.refresh.value);
      var v, handled, s;
      ghost var tr;
      v, handled, s, tr := HandlePacketStream(clock, tokens, link, c.ttlSecs, c.ofac, c.parse, a.events);
      o := Served(tr, handled);
      if v == Panic {
        assert [Drained(0), Flag(true), Ran(tr)] + [] == [Drained(0), Flag(true), Ran(tr)];
        return true, o;
      }
    }
    ghost var ran := link.log;
    link.SetConnected(false);
    assert o.Served? ==> before + [Drained(0), Flag(true), Ran(o.session)] + [Flag(false)]
                         == before + ([Drained(0), Flag(true), Ran(o.session)] + [Flag(false)]);
  }

  /** One outcome for each turn made, in order; only the last may be a panic. */
  ghost predicate Lived(outcomes: seq<Outcome>, attempts: seq<Attempt>, panicked: bool, c: Setup) {
    && |outcomes| <= |attempts| && (panicked ==> outcomes != [])
    && (forall i :: 0 <= i < |outcomes| ==> Answers(outcomes[i], attempts[i], c))
    && (forall i :: 0 <= i < |outcomes| ==> (outcomes[i].Panicked() <==> panicked && i == |outcomes| - 1))
  }

  lemma LivedNext(outcomes: seq<Outcome>, attempts: seq<Attempt>, c: Setup, o: Outcome)
    requires Lived(outcomes, attempts, false, c) && |outcomes| < |attempts| && Answers(o, attempts[|outcomes|], c)
    ensures Lived(outcomes + [o], attempts, o.Panicked(), c)
  {}

  /**
   * The reconnect loop, up to a panic. Every turn that is let in runs one session, over its own
   * events and on a queue drained before; the flag is raised directly after the drain and lowered
   * before the next turn, and `connected` is always its last write.
   */
  method Reconnect(clock: Clock, link: Link, c: Setup, attempts: seq<Attempt>)
      returns (panicked: bool, ghost outcomes: seq<Outcome>)
    requires link.Valid() && link.log == []
    modifies link, clock
    ensures Lived(outcomes, attempts, panicked, c) && (!panicked ==> |outcomes| == |attempts|)
    ensures link.log == LogOf(outcomes) && link.connected == FlagUp(LogOf(outcomes)) == panicked
  {
    panicked, outcomes := false, [];
    var made := 0;
    while made < |attempts| && !panicked
      invariant made <= |attempts| && |outcomes| == made && link.Valid() && link.log == LogOf(outcomes)
      invariant Lived(outcomes, attempts, panicked, c)
      decreases |attempts| - made
    {
      ghost var o;
      panicked, o := TryOnce(clock, link, c, attempts[made]);
      LogOfNext(outcomes, o);
      LivedNext(outcomes, attempts, c, o);
      outcomes, made := outcomes + [o], made + 1;
    }
    if panicked {
      UpAfterPanic(outcomes);
    } else {
      DownBetweenTurns(outcomes);
    }
  }

  lemma UpAfterPanic(outcomes: seq<Outcome>)
    requires outcomes != [] && outcomes[|outcomes| - 1].Panicked()
    ensures FlagUp(LogOf(outcomes))
  {
    var o := outcomes[|outcomes| - 1];
    FlagAfter(LogOf(outcomes[..|outcomes| - 1]), o.Marks());
    assert o.Marks()[1].Flag? && o.Marks()[..2] == [Drained(0), Flag(true)];
  }
}
