/** The two packet paths side by side, and the validator path from end to end. */
module PacketPath {
  import opened Prelude
  import opened Sequences
  import opened Packets
  import opened FanOut
  import opened Ofac
  import B = BlockEngineFilter
  import F = Forwarder
  import R = Relayer
  import L = LeaderSchedule
  import T = LookupRefresh

  // ---------------------------------------------------------------- the two filters

  /**
   * For the same batches and the same lookup tables, whatever the interest caches, the
   * wildcard and the sanctioned addresses: the block engine is sent a part of what the
   * validators are sent, in the same order.
   */
  lemma BlockEngineSeesNoMore(
      batches: seq<PacketBatch>, tables: TableCache, ofac: set<Pubkey>, wildcard: bool, interest: B.Interest,
      start: Time, out: seq<ProtoPacket>)
    requires Subsequence(out, B.Eligible(Flatten(batches), B.Rules({tables}, ofac, wildcard), interest, start))
    ensures Subsequence(out, Filtered(batches, ofac, tables))
  {
    var packets, rules := Flatten(batches), B.Rules({tables}, ofac, wildcard);
    forall p | p in packets && B.Possibly(p, rules, interest, start) ensures Passes(p, ofac, tables) {
      B.AtRest(p, tables, ofac, wildcard, interest, start);
    }
    ConvertedMonotone(packets, p => B.Possibly(p, rules, interest, start), p => Passes(p, ofac, tables));
    SubsequenceTrans(out, B.Eligible(packets, rules, interest, start), Filtered(batches, ofac, tables));
  }

  /** The packets that do not carry this transaction. */
  function Others(packets: seq<Packet>, tx: Transaction): seq<Packet> {
    if packets == [] then []
    else
      var front, last := Others(packets[..|packets| - 1], tx), packets[|packets| - 1];
      if last.tx == Some(tx) then front else front + [last]
  }

  /** Packets no selection keeps can as well be absent. */
  lemma {:induction false} ConvertedOthers(packets: seq<Packet>, tx: Transaction, keep: Packet -> bool)
    requires forall p :: p in packets && p.tx == Some(tx) ==> !keep(p)
    ensures Converted(packets, keep) == Converted(Others(packets, tx), keep)
  {
    if packets != [] {
      var front, last := packets[..|packets| - 1], packets[|packets| - 1];
      ConvertedOthers(front, tx, keep);
      assert (Others(front, tx) + [last])[..|Others(front, tx)|] == Others(front, tx);
    }
  }

  /**
   * The refresh theorem for both filters as they are: let refreshes and filter threads
   * interleave in any way, and let every refresh fetch the table of a flagged lookup with lists
   * that extend the one it had. Whatever states of the cache a filter call reads its tables
   * from, its output owes nothing to the packets that carry the flagged transaction.
   */
  lemma RefreshNeverLetsThrough(
      states: seq<T.State>, ops: seq<T.Op>, tx: Transaction, j: nat, ofac: set<Pubkey>, packets: seq<Packet>,
      caches: CacheStates, wildcard: bool, interest: B.Interest, now: Time)
    requires T.Run(states, ops, ofac) && tx.lookups.Some? && j < |tx.lookups.value|
    requires states[0].phase.Idle? && Flags(states[0].cache, tx.lookups.value[j], ofac)
    requires forall thread :: thread in states[0].scans ==> states[0].scans[thread].tx != tx
    requires forall k :: 0 <= k < |ops| && ops[k].FetchOk? ==>
                           T.Extended(ops[k].accounts, tx.lookups.value[j].accountKey,
                                      states[0].cache[tx.lookups.value[j].accountKey])
    requires caches <= set s | s in states :: s.cache
    ensures B.Eligible(packets, B.Rules(caches, ofac, wildcard), interest, now)
            == B.Eligible(Others(packets, tx), B.Rules(caches, ofac, wildcard), interest, now)
    ensures MayPass(packets, ofac, caches) == MayPass(Others(packets, tx), ofac, caches)
  {
    var lookup := tx.lookups.value[j];
    forall k | 0 <= k < |ops| && ops[k].FetchOk? ensures T.Kept(ops[k].accounts, lookup, ofac) {
      T.ExtendedIsKept(ops[k].accounts, lookup, states[0].cache[lookup.accountKey], ofac);
    }
    forall cache | cache in caches ensures Flags(cache, lookup, ofac) {
      var i :| 0 <= i < |states| && states[i].cache == cache;
      T.GuardedRun(states, ops, tx, j, ofac, i);
    }
    assert AllFlag(caches, lookup, ofac) && MustRelate(tx, ofac, caches);
    FlagsSomething(states[0].cache, lookup, ofac);
    var rules := B.Rules(caches, ofac, wildcard);
    ConvertedOthers(packets, tx, p => B.Possibly(p, rules, interest, now));
    ConvertedOthers(packets, tx, p => PossiblyPasses(p, ofac, caches));
  }

  // ---------------------------------------------------------------- forwarder and relayer loop together

  /** Steps of the forwarding thread and of the relayer loop, in any interleaving. */
  datatype Move =
    | ForwarderTurn(input: F.Input, offer: SendOutcome)
    | TakeBatch(tables: CacheStates, answers: Answers)
    | Subscribe(pubkey: Pubkey, sender: SenderId)
    | Slot(slot: Slot, schedule: map<Slot, Pubkey>)
    | Heartbeat(health: R.HealthState, beatAnswers: SenderId -> SendOutcome)
    | Metrics

  /** A move with what it met: when its input was taken, what passed the filter, to whom it went, who was closed. */
  datatype Done = Done(move: Move, at: Time, packets: seq<ProtoPacket>, targets: seq<Target>, failed: seq<Pubkey>)

  /** The forwarder's progress, how many of its batches the loop has taken, and what the loop holds. */
  datatype PathState = PathState(line: F.Progress, taken: nat, loop: R.LoopState)
  {
    function Channel(s: SenderId): seq<Msg> {
      if s in loop.channels then loop.channels[s] else []
    }

    /** The loop has a batch to take. */
    predicate HasBatch() { taken < |line.downstream| }
  }

  datatype Setup = Setup(
    delay: nat, disableMempool: bool, ofac: set<Pubkey>, batchSize: nat, forwardAll: bool, lookahead: nat)

  /** The arms of the loop that take no packets. */
  ghost predicate OtherMoved(s: R.LoopState, move: Move, t: R.LoopState, lookahead: nat) {
    match move
    case Subscribe(pubkey, sender) =>
      if sender in s.channels then t == s
      else t == s.(subscriptions := s.subscriptions[pubkey := sender], channels := s.channels[sender := []])
    case Slot(slot, schedule) =>
      t == s.(highestSlot := slot, leaders := t.leaders) && L.AreLeaders(t.leaders, schedule, slot, lookahead)
    case Heartbeat(health, answers) =>
      && R.Remaining(s.subscriptions, t.subscriptions, health, answers)
      && (if health.Unhealthy? then t == s.(subscriptions := t.subscriptions)
          else
            && R.Beaten(s.channels, t.channels, s.subscriptions, answers, s.heartbeats)
            && t == s.(subscriptions := t.subscriptions, channels := t.channels, heartbeats := s.heartbeats + 1))
    case Metrics => t == s.(stats := map[], heartbeats := 0)
    case _ => false
  }

  /** The loop takes a batch: what passes the filter is fanned out. */
  ghost predicate BatchMoved(s: R.LoopState, batches: seq<PacketBatch>, d: Done, t: R.LoopState, c: Setup)
    requires c.batchSize > 0 && d.move.TakeBatch?
  {
    && Subsequence(MustPass(Flatten(batches), c.ofac, d.move.tables), d.packets)
    && Subsequence(d.packets, MayPass(Flatten(batches), c.ofac, d.move.tables))
    && R.IsRound(s, d.packets, d.targets, d.move.answers, d.failed, t, c.batchSize, c.forwardAll)
  }

  /** What each move does, said on values. */
  ghost predicate Moved(s: PathState, d: Done, t: PathState, c: Setup)
    requires c.batchSize > 0
  {
    match d.move
    case ForwarderTurn(input, offer) =>
      t == s.(line := t.line) && F.Turns(s.line, input, offer, d.at, t.line, c.delay, c.disableMempool)
    case TakeBatch(_, _) =>
      if !s.HasBatch() then t == s
      else
        && t == s.(taken := s.taken + 1, loop := t.loop)
        && BatchMoved(s.loop, s.line.downstream[s.taken].batches, d, t.loop, c)
    case _ =>
      t == s.(loop := t.loop) && OtherMoved(s.loop, d.move, t.loop, c.lookahead)
  }

  /** A run: the state it starts in, or a run with one more move. */
  datatype Trace = Start(state: PathState) | Then(before: Trace, done: Done, state: PathState)
  {
    function First(): PathState {
      match this
      case Start(s) => s
      case Then(before, _, _) => before.First()
    }

    ghost predicate IsRun(c: Setup)
      requires c.batchSize > 0
    {
      match this
      case Start(_) => true
      case Then(before, d, t) => before.IsRun(c) && Moved(before.state, d, t, c)
    }

    /** The moves made are the first `n` of these, in order. */
    ghost predicate Made(moves: seq<Move>, n: nat)
      requires n <= |moves|
    {
      match this
      case Start(_) => n == 0
      case Then(before, d, _) => n > 0 && d.move == moves[n - 1] && before.Made(moves, n - 1)
    }

    /** The forwarder's inputs, in order, after those it had. */
    function Inputs(had: seq<(F.Input, SendOutcome)>): seq<(F.Input, SendOutcome)> {
      match this
      case Start(_) => had
      case Then(before, d, _) => WithMove(before.Inputs(had), d.move)
    }

    /** How many moves of the loop found a batch to take. */
    function Takes(): nat {
      match this
      case Start(_) => 0
      case Then(before, d, _) => before.Takes() + if TakesOne(before.state, d) then 1 else 0
    }

    /** What has passed the filter, in order. */
    function Passed(): seq<ProtoPacket> {
      match this
      case Start(_) => []
      case Then(before, d, _) => if TakesOne(before.state, d) then before.Passed() + d.packets else before.Passed()
    }

    /** All along, the key has this sender and is a target of every round, and its channel has room. */
    ghost predicate Attended(c: Setup, p: Pubkey, sender: SenderId) {
      match this
      case Start(_) => true
      case Then(before, d, _) =>
        && before.Attended(c, p, sender)
        && (TakesOne(before.state, d) ==> Attends(before.state.loop, c, p, sender, d.move.answers))
    }
  }

  /** The forwarder's inputs after a move. */
  function WithMove(inputs: seq<(F.Input, SendOutcome)>, move: Move): seq<(F.Input, SendOutcome)> {
    if move.ForwarderTurn? then inputs + [(move.input, move.offer)] else inputs
  }

  /** This move takes a batch. */
  predicate TakesOne(s: PathState, d: Done) { d.move.TakeBatch? && s.HasBatch() }

  // ---------------------------------------------------------------- what runs of it guarantee

  lemma TakenStep(s: PathState, d: Done, t: PathState, c: Setup)
    requires c.batchSize > 0 && Moved(s, d, t, c)
    ensures t.taken == s.taken + if TakesOne(s, d) then 1 else 0
  {}

  /** The loop has taken exactly as many batches as its moves found, and always the oldest. */
  lemma {:induction false} TakenCount(tr: Trace, c: Setup)
    requires c.batchSize > 0 && tr.IsRun(c)
    ensures tr.state.taken == tr.First().taken + tr.Takes()
  {
    if tr.Then? {
      TakenCount(tr.before, c);
      TakenStep(tr.before.state, tr.done, tr.state, c);
    }
  }

  ghost predicate Attends(loop: R.LoopState, c: Setup, p: Pubkey, sender: SenderId, answers: Answers) {
    && R.Audience(loop.subscriptions, loop.leaders, c.forwardAll).IsTarget(p) && loop.subscriptions[p] == sender
    && forall chunk: nat :: answers(chunk, sender) == Sent
  }

  /** If every send is accepted, everything is delivered. */
  lemma {:induction false} AllDelivered(chunks: seq<seq<ProtoPacket>>, answers: Answers, sender: SenderId)
    requires forall chunk: nat :: answers(chunk, sender) == Sent
    ensures Delivered(chunks, answers, sender) == chunks
  {
    if chunks != [] { AllDelivered(chunks[..|chunks| - 1], answers, sender); }
  }

  /** One round, from a target's side: exactly the delivered chunks arrive, all of them if it has room. */
  lemma RoundDelivers(
      s: R.LoopState, packets: seq<ProtoPacket>, targets: seq<Target>, answers: Answers, failed: seq<Pubkey>,
      t: R.LoopState, c: Setup, p: Pubkey)
    requires c.batchSize > 0 && R.IsRound(s, packets, targets, answers, failed, t, c.batchSize, c.forwardAll)
    requires R.Audience(s.subscriptions, s.leaders, c.forwardAll).IsTarget(p)
    ensures var sender := s.subscriptions[p];
            var b, b' := Books(s.channels, s.stats, []), Books(t.channels, t.stats, failed);
            && PacketsOf(b'.Channel(sender)) == PacketsOf(b.Channel(sender))
                 + Flatten(Delivered(ChunksOf(packets, c.batchSize), answers, sender))
            && ((forall chunk: nat :: answers(chunk, sender) == Sent) ==>
                  PacketsOf(b'.Channel(sender)) == PacketsOf(b.Channel(sender)) + packets)
  {
    var sender, chunks := s.subscriptions[p], ChunksOf(packets, c.batchSize);
    var b := Books(s.channels, s.stats, []);
    var i :| 0 <= i < |targets| && targets[i].pubkey == p;
    FanOutEffect(b, targets, chunks, answers, targets[i]);
    PacketsOfBatches(b.Channel(sender), Delivered(chunks, answers, sender));
    ChunksOfIsChunking(packets, c.batchSize);
    if forall chunk: nat :: answers(chunk, sender) == Sent { AllDelivered(chunks, answers, sender); }
  }

  lemma OtherMovesDeliverNothing(s: R.LoopState, move: Move, t: R.LoopState, lookahead: nat, sender: SenderId)
    requires OtherMoved(s, move, t, lookahead)
    ensures PacketsOf(Books(t.channels, map[], []).Channel(sender))
            == PacketsOf(Books(s.channels, map[], []).Channel(sender))
  {
    if move.Heartbeat? && sender in s.channels { PacketsOfBeat(s.channels[sender], s.heartbeats); }
  }

  /** A move adds to an attended channel exactly what it lets through the filter. */
  lemma MoveDelivers(s: PathState, d: Done, t: PathState, c: Setup, p: Pubkey, sender: SenderId)
    requires c.batchSize > 0 && Moved(s, d, t, c)
    requires TakesOne(s, d) ==> Attends(s.loop, c, p, sender, d.move.answers)
    ensures PacketsOf(t.Channel(sender))
            == if TakesOne(s, d) then PacketsOf(s.Channel(sender)) + d.packets else PacketsOf(s.Channel(sender))
  {
    if TakesOne(s, d) {
      RoundDelivers(s.loop, d.packets, d.targets, d.move.answers, d.failed, t.loop, c, p);
    } else if !d.move.ForwarderTurn? && !d.move.TakeBatch? {
      OtherMovesDeliverNothing(s.loop, d.move, t.loop, c.lookahead, sender);
    }
  }

  lemma Regroup(a: seq<ProtoPacket>, b: seq<ProtoPacket>, c: seq<ProtoPacket>)
    ensures a + b + c == a + (b + c)
  {}

  /**
   * Delivery from below, over every run: a validator that is a target whenever a batch is taken,
   * and whose channel has room, receives exactly what passes the filter, all of it and in order.
   */
  lemma {:induction false} NothingIsWithheld(tr: Trace, c: Setup, p: Pubkey, sender: SenderId)
    requires c.batchSize > 0 && tr.IsRun(c) && tr.Attended(c, p, sender)
    ensures PacketsOf(tr.state.Channel(sender)) == PacketsOf(tr.First().Channel(sender)) + tr.Passed()
  {
    var start := PacketsOf(tr.First().Channel(sender));
    match tr
    case Start(_) => assert start + [] == start;
    case Then(before, d, t) =>
      NothingIsWithheld(before, c, p, sender);
      MoveDelivers(before.state, d, t, c, p, sender);
      Regroup(start, before.Passed(), d.packets);
  }

  // ---------------------------------------------------------------- the code takes these moves

  lemma {:induction false} PacketsInPrefix(s: seq<F.Stamped>, n: nat)
    requires n <= |s|
    ensures Subsequence(Convertible(F.PacketsIn(s[..n])), Convertible(F.PacketsIn(s)))
    decreases |s|
  {
    if n == |s| {
      assert s[..n] == s;
      SubsequenceRefl(Convertible(F.PacketsIn(s)));
    } else {
      var init, last := s[..|s| - 1], Flatten(s[|s| - 1].batches);
      assert init[..n] == s[..n];
      PacketsInPrefix(init, n);
      ConvertibleAppend(F.PacketsIn(init), last);
      SubsequenceExtend(Convertible(F.PacketsIn(s[..n])), Convertible(F.PacketsIn(init)), Convertible(last));
    }
  }

  lemma TakenOne(s: seq<F.Stamped>, n: nat)
    requires n < |s|
    ensures F.PacketsIn(s[..n + 1]) == F.PacketsIn(s[..n]) + Flatten(s[n].batches)
  {
    assert s[..n + 1][..n] == s[..n];
  }

  /** The relayer loop has consumed the first `taken` batches the forwarder sent. */
  ghost predicate Joined(f: F.Forwarder, r: R.Relayer, taken: nat)
    reads f, f.clock, r
  {
    && f.Valid() && r.Valid()
    && taken <= |f.downstream|
    && r.inputs == F.PacketsIn(f.downstream[..taken])
  }

  ghost function StateOf(f: F.Forwarder, r: R.Relayer, taken: nat): PathState
    reads f, f.clock, r
  {
    PathState(f.Done(), taken, r.View())
  }

  function SetupOf(f: F.Forwarder, r: R.Relayer): Setup {
    Setup(f.delay, f.disableMempool, r.ofac, r.batchSize, r.forwardAll, r.lookahead)
  }

  predicate Fatal(move: Move, disableMempool: bool) {
    move.ForwarderTurn? && F.Fatal(move.input, move.offer, disableMempool)
  }

  /** The arms of the relayer loop that take no packets. */
  method OtherArm(r: R.Relayer, cache: L.ScheduleCache, move: Move)
    requires r.Valid() && !move.ForwarderTurn? && !move.TakeBatch?
    modifies r, cache
    ensures r.Valid() && r.inputs == old(r.inputs)
    ensures OtherMoved(old(r.View()), move, r.View(), r.lookahead)
  {
    match move {
      case Subscribe(pubkey, sender) =>
        if sender !in r.channels { r.OnSubscription(pubkey, sender); }
      case Slot(slot, schedule) =>
        cache.schedule := schedule;
        r.OnSlot(slot, cache);
      case Heartbeat(health, answers) => r.OnHeartbeat(health, answers);
      case Metrics => r.OnMetrics();
    }
  }

  method OtherOnce(f: F.Forwarder, r: R.Relayer, cache: L.ScheduleCache, taken: nat, move: Move) returns (ghost d: Done)
    requires Joined(f, r, taken) && !move.ForwarderTurn? && !move.TakeBatch?
    modifies r, cache
    ensures Joined(f, r, taken) && d.move == move
    ensures Moved(old(StateOf(f, r, taken)), d, StateOf(f, r, taken), SetupOf(f, r))
  {
    d := Done(move, 0, [], [], []);
    OtherArm(r, cache, move);
  }

  /** The relayer loop takes the next batch the forwarder sent. */
  method TakeNext(f: F.Forwarder, r: R.Relayer, taken: nat, move: Move) returns (ghost d: Done)
    requires Joined(f, r, taken) && taken < |f.downstream| && move.TakeBatch?
    modifies r
    ensures Joined(f, r, taken + 1) && d.move == move
    ensures BatchMoved(old(r.View()), f.downstream[taken].batches, d, r.View(), SetupOf(f, r))
  {
    TakenOne(f.downstream, taken);
    var failed;
    ghost var packets, targets;
    failed, packets, targets := r.OnPackets(f.downstream[taken].batches, move.tables, move.answers);
    d := Done(move, 0, packets, targets, failed);
  }

  method TakeOnce(f: F.Forwarder, r: R.Relayer, taken: nat, move: Move) returns (taken': nat, ghost d: Done)
    requires Joined(f, r, taken) && move.TakeBatch?
    modifies r
    ensures Joined(f, r, taken') && d.move == move
    ensures Moved(old(StateOf(f, r, taken)), d, StateOf(f, r, taken'), SetupOf(f, r))
  {
    taken', d := taken, Done(move, 0, [], [], []);
    if taken < |f.downstream| {
      d := TakeNext(f, r, taken, move);
      taken' := taken + 1;
    }
  }

  /** The forwarding thread takes a turn. */
  method ForwardOnce(f: F.Forwarder, r: R.Relayer, taken: nat, move: Move) returns (panicked: bool, ghost d: Done)
    requires Joined(f, r, taken) && move.ForwarderTurn?
    modifies f, f.clock
    ensures panicked <==> Fatal(move, f.disableMempool)
    ensures !panicked ==>
              && Joined(f, r, taken) && f.inputs == WithMove(old(f.inputs), move) && d.move == move
              && Moved(old(StateOf(f, r, taken)), d, StateOf(f, r, taken), SetupOf(f, r))
  {
    ghost var before, now := f.downstream, f.clock.now;
    panicked, now := f.Turn(move.input, move.offer);
    d := Done(move, now, [], [], []);
    assert !panicked ==> f.downstream[..taken] == before[..taken];
  }

  /** The step of either thread that a move asks for; the forwarder's panics end the run. */
  method Step(f: F.Forwarder, r: R.Relayer, cache: L.ScheduleCache, taken: nat, move: Move)
      returns (taken': nat, panicked: bool, ghost d: Done)
    requires Joined(f, r, taken)
    modifies f, f.clock, r, cache
    ensures panicked <==> Fatal(move, f.disableMempool)
    ensures !panicked ==>
              && Joined(f, r, taken') && f.inputs == WithMove(old(f.inputs), move) && d.move == move
              && Moved(old(StateOf(f, r, taken)), d, StateOf(f, r, taken'), SetupOf(f, r))
  {
    taken', panicked := taken, false;
    if move.ForwarderTurn? {
      panicked, d := ForwardOnce(f, r, taken, move);
    } else if move.TakeBatch? {
      taken', d := TakeOnce(f, r, taken, move);
    } else {
      d := OtherOnce(f, r, cache, taken, move);
    }
  }

  /** The two threads have made the first `n` moves of a run. */
  ghost predicate Underway(
      f: F.Forwarder, r: R.Relayer, taken: nat, tr: Trace, moves: seq<Move>, n: nat, had: seq<(F.Input, SendOutcome)>)
    reads f, f.clock, r
  {
    match tr
    case Start(s) => n == 0 && Joined(f, r, taken) && s == StateOf(f, r, taken) && f.inputs == had
    case Then(_, _, s) =>
      && n <= |moves| && Joined(f, r, taken) && s == StateOf(f, r, taken) && f.inputs == tr.Inputs(had)
      && tr.IsRun(SetupOf(f, r)) && tr.Made(moves, n)
  }

  /** One more move of a run. */
  method Advance(
      f: F.Forwarder, r: R.Relayer, cache: L.ScheduleCache, taken: nat, moves: seq<Move>, n: nat, ghost tr: Trace,
      ghost had: seq<(F.Input, SendOutcome)>)
      returns (taken': nat, panicked: bool, ghost tr': Trace)
    requires n < |moves| && Underway(f, r, taken, tr, moves, n, had)
    modifies f, f.clock, r, cache
    ensures panicked <==> Fatal(moves[n], f.disableMempool)
    ensures !panicked ==> Underway(f, r, taken', tr', moves, n + 1, had) && tr'.First() == tr.First()
  {
    ghost var d;
    taken', panicked, d := Step(f, r, cache, taken, moves[n]);
    tr' := Then(tr, d, StateOf(f, r, taken'));
  }

  lemma Begins(f: F.Forwarder, r: R.Relayer, moves: seq<Move>)
    requires Joined(f, r, 0)
    ensures Underway(f, r, 0, Start(StateOf(f, r, 0)), moves, 0, f.inputs)
  {}

  /** The moves one by one, up to the first fatal one. */
  method MakeMoves(f: F.Forwarder, r: R.Relayer, cache: L.ScheduleCache, moves: seq<Move>)
      returns (taken: nat, made: nat, panicked: bool, ghost tr: Trace)
    requires Joined(f, r, 0)
    modifies f, f.clock, r, cache
    ensures made <= |moves| && (panicked <==> made < |moves|)
    ensures panicked ==> Fatal(moves[made], f.disableMempool)
    ensures tr.IsRun(SetupOf(f, r)) && tr.First() == old(StateOf(f, r, 0)) && tr.Made(moves, made)
    ensures !panicked ==>
              Joined(f, r, taken) && tr.state == StateOf(f, r, taken) && f.inputs == tr.Inputs(old(f.inputs))
  {
    taken, made, panicked, tr := 0, 0, false, Start(StateOf(f, r, 0));
    ghost var had := f.inputs;
    Begins(f, r, moves);
    while made < |moves|
      invariant made <= |moves| && Underway(f, r, taken, tr, moves, made, had)
      invariant tr.First() == old(StateOf(f, r, 0))
    {
      ghost var tr';
      taken, panicked, tr' := Advance(f, r, cache, taken, moves, made, tr, had);
      if panicked { return; }
      tr, made := tr', made + 1;
    }
  }

  /**
   * End to end, over every interleaving up to the first fatal move: the two threads take the
   * moves' steps one by one, from the state they start in. So the forwarder's inputs are those of
   * the moves, the loop has taken as many batches as its moves found, what any validator channel
   * has accepted is an in-order part of what the forwarder received, and each batch taken had
   * stayed in the forwarder for at least the packet delay.
   */
  method RunPath(f: F.Forwarder, r: R.Relayer, cache: L.ScheduleCache, moves: seq<Move>)
      returns (taken: nat, made: nat, panicked: bool, ghost tr: Trace)
    requires Joined(f, r, 0)
    modifies f, f.clock, r, cache
    ensures made <= |moves| && (panicked <==> made < |moves|)
    ensures panicked ==> Fatal(moves[made], f.disableMempool)
    ensures tr.IsRun(SetupOf(f, r)) && tr.First() == old(StateOf(f, r, 0)) && tr.Made(moves, made)
    ensures !panicked ==> Joined(f, r, taken) && tr.state == StateOf(f, r, taken)
    ensures !panicked ==> f.inputs == tr.Inputs(old(f.inputs)) && taken == tr.Takes()
    ensures !panicked ==>
              forall s :: s in r.channels ==>
                            Subsequence(PacketsOf(r.channels[s]), Convertible(F.PacketsIn(f.received)))
    ensures !panicked ==> forall i :: 0 <= i < taken ==> f.downstream[i].stamp + f.delay <= f.sentAt[i]
  {
    taken, made, panicked, tr := MakeMoves(f, r, cache, moves);
    if !panicked {
      TakenCount(tr, SetupOf(f, r));
      AllReceived(f, r, taken);
    }
  }

  lemma AllReceived(f: F.Forwarder, r: R.Relayer, taken: nat)
    requires Joined(f, r, taken)
    ensures forall s :: s in r.channels ==> Subsequence(PacketsOf(r.channels[s]), Convertible(F.PacketsIn(f.received)))
    ensures forall i :: 0 <= i < taken ==> f.downstream[i].stamp + f.delay <= f.sentAt[i]
  {
    forall s | s in r.channels ensures Subsequence(PacketsOf(r.channels[s]), Convertible(F.PacketsIn(f.received))) {
      DeliveredWasReceived(f.received, f.downstream, taken, PacketsOf(r.channels[s]));
    }
  }

  lemma DeliveredWasReceived(
      received: seq<F.Stamped>, downstream: seq<F.Stamped>, taken: nat, delivered: seq<ProtoPacket>)
    requires downstream <= received && taken <= |downstream|
    requires Subsequence(delivered, Convertible(F.PacketsIn(downstream[..taken])))
    ensures Subsequence(delivered, Convertible(F.PacketsIn(received)))
  {
    assert downstream[..taken] == received[..taken];
    PacketsInPrefix(received, taken);
    SubsequenceTrans(delivered, Convertible(F.PacketsIn(received[..taken])), Convertible(F.PacketsIn(received)));
  }
}
