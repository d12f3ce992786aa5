/**
 * Slots on their way to the relayer loop: the subscription threads of
 * rpc/src/load_balancer.rs race on one atomic maximum and one channel, the health manager
 * relays the channel, and the relayer loop assigns what it receives to `highest_slot`.
 */
module SlotPipeline {
  import opened Prelude

  const SLOT_QUEUE_CAPACITY: nat := 100

  type Server = nat

  /** Where a subscription thread is with the slot its server reported. */
  datatype Pc = Waiting | Recorded(slot: Slot) | Won(slot: Slot)

  datatype Entry = Entry(server: Server, slot: Slot)

  /**
   * `max` is the shared atomic, `queue` the channel to the health manager, `hand` the slot
   * that manager is relaying, `downstream` the channel to the relayer loop. `sent` and
   * `seen` record all sends into `queue` and all receives of the relayer loop.
   */
  datatype State = State(
    max: Slot, threads: map<Server, Pc>, serverToSlot: map<Server, Slot>,
    queue: seq<Slot>, hand: Option<Slot>, downstream: seq<Slot>, highestSlot: Slot,
    managerAlive: bool, sent: seq<Entry>, seen: seq<Slot>)

  datatype Op =
    | Report(server: Server, slot: Slot)
    | FetchMax(server: Server)
    | Send(server: Server)
    | SendFails(server: Server)
    | ManagerTakes
    | ManagerRelays
    | ManagerExits
    | RelayerTakes

  function Initial(servers: set<Server>): State {
    State(0, map t | t in servers :: Waiting, map t | t in servers :: 0, [], None, [], 0, true, [], [])
  }

  function Handed(hand: Option<Slot>): seq<Slot> {
    if hand.Some? then [hand.value] else []
  }

  function Slots(sent: seq<Entry>): seq<Slot> {
    seq(|sent|, i requires 0 <= i < |sent| => sent[i].slot)
  }

  ghost predicate Next(s: State, op: Op, t: State) {
    match op
    case Report(server, slot) =>
      && server in s.threads && s.threads[server].Waiting?
      && t == s.(threads := s.threads[server := Recorded(slot)], serverToSlot := s.serverToSlot[server := slot])
    case FetchMax(server) =>
      && server in s.threads && s.threads[server].Recorded?
      && var slot := s.threads[server].slot;
         if slot > s.max then t == s.(max := slot, threads := s.threads[server := Won(slot)])
         else t == s.(threads := s.threads[server := Waiting])
    case Send(server) =>
      && server in s.threads && s.threads[server].Won? && s.managerAlive && |s.queue| < SLOT_QUEUE_CAPACITY
      && var slot := s.threads[server].slot;
         t == s.(queue := s.queue + [slot], sent := s.sent + [Entry(server, slot)],
                 threads := s.threads[server := Waiting])
    case SendFails(server) =>
      && server in s.threads && s.threads[server].Won? && !s.managerAlive
      && t == s.(threads := s.threads[server := Waiting])
    case ManagerTakes =>
      && s.managerAlive && s.hand.None? && s.queue != []
      && t == s.(hand := Some(s.queue[0]), queue := s.queue[1..])
    case ManagerRelays =>
      && s.managerAlive && s.hand.Some? && |s.downstream| < SLOT_QUEUE_CAPACITY
      && t == s.(downstream := s.downstream + [s.hand.value], hand := None)
    case ManagerExits => t == s.(managerAlive := false)
    case RelayerTakes =>
      && s.downstream != []
      && t == s.(highestSlot := s.downstream[0], downstream := s.downstream[1..], seen := s.seen + [s.downstream[0]])
  }

  ghost predicate Run(states: seq<State>, ops: seq<Op>, servers: set<Server>) {
    && |states| == |ops| + 1
    && states[0] == Initial(servers)
    && (forall i :: 0 <= i < |ops| ==> Next(states[i], ops[i], states[i + 1]))
  }

  // ---------------------------------------------------------------- the invariant

  /** The channels are first in, first out, end to end. */
  ghost predicate Fifo(s: State) {
    Slots(s.sent) == s.seen + s.downstream + Handed(s.hand) + s.queue
  }

  /** Whoever won the race holds a slot nobody else has won, now or before. */
  ghost predicate Race(s: State) {
    && (forall i :: 0 <= i < |s.sent| ==> s.sent[i].slot <= s.max)
    && (forall t :: t in s.threads && s.threads[t].Won? ==> s.threads[t].slot <= s.max)
    && (forall i, j :: 0 <= i < j < |s.sent| ==> s.sent[i].slot != s.sent[j].slot)
    && (forall t, i :: t in s.threads && s.threads[t].Won? && 0 <= i < |s.sent| ==> s.sent[i].slot != s.threads[t].slot)
    && (forall t, u :: t in s.threads && u in s.threads && t != u && s.threads[t].Won? && s.threads[u].Won?
                       ==> s.threads[t].slot != s.threads[u].slot)
  }

  /** Nobody wins with slot 0, which the maximum starts at. */
  ghost predicate Positive(s: State) {
    && (forall i :: 0 <= i < |s.sent| ==> s.sent[i].slot > 0)
    && (forall t :: t in s.threads && s.threads[t].Won? ==> s.threads[t].slot > 0)
  }

  /** Each server's own contributions go up. */
  ghost predicate PerServer(s: State) {
    && (forall i :: 0 <= i < |s.sent| ==> s.sent[i].server in s.threads)
    && (forall i, j :: 0 <= i < j < |s.sent| && s.sent[i].server == s.sent[j].server ==>
                         s.sent[i].slot < s.sent[j].slot)
    && (forall t, i :: t in s.threads && s.threads[t].Won? && 0 <= i < |s.sent| && s.sent[i].server == t
                       ==> s.sent[i].slot < s.threads[t].slot)
  }

  /** The maximum has been sent or is about to be. */
  ghost predicate MaxAccounted(s: State) {
    s.managerAlive ==>
      (s.max == 0 && s.sent == []) || WasSent(s) || InHand(s)
  }

  /** Only a thread between its two writes can be ahead of the maximum. */
  ghost predicate Recording(s: State) {
    && s.serverToSlot.Keys == s.threads.Keys
    && (forall t :: t in s.threads && !s.threads[t].Recorded? ==> s.serverToSlot[t] <= s.max)
    && (forall t :: t in s.threads && s.threads[t].Recorded? ==> s.serverToSlot[t] == s.threads[t].slot)
  }

  ghost predicate Inv(s: State) {
    Fifo(s) && Race(s) && Positive(s) && PerServer(s) && MaxAccounted(s) && Recording(s)
  }

  lemma FifoStep(s: State, op: Op, t: State)
    requires Fifo(s) && Next(s, op, t)
    ensures Fifo(t)
  {
    var hand := Handed(s.hand);
    match op
    case Send(server) =>
      var x := s.threads[server].slot;
      assert Slots(t.sent) == Slots(s.sent) + [x];
      Regroup(s.seen + s.downstream + hand, s.queue, [x]);
    case ManagerTakes =>
      var x := s.queue[0];
      assert s.queue == [x] + t.queue && hand == [];
      assert s.seen + s.downstream + [] == s.seen + s.downstream;
      Regroup(s.seen + s.downstream, [x], t.queue);
    case ManagerRelays =>
      Regroup(s.seen, s.downstream, hand);
      assert s.seen + t.downstream + [] == s.seen + t.downstream;
    case RelayerTakes =>
      var x := s.downstream[0];
      assert s.downstream == [x] + t.downstream;
      Regroup(s.seen, [x], t.downstream);
    case _ =>
  }

  lemma Regroup(a: seq<Slot>, b: seq<Slot>, c: seq<Slot>)
    ensures a + b + c == a + (b + c)
  {}

  lemma RaceStep(s: State, op: Op, t: State)
    requires Race(s) && Next(s, op, t)
    ensures Race(t)
  {
    match op
    case Send(server) =>
      assert forall i :: 0 <= i < |s.sent| ==> t.sent[i] == s.sent[i];
    case _ =>
  }

  lemma PositiveStep(s: State, op: Op, t: State)
    requires Positive(s) && Next(s, op, t)
    ensures Positive(t)
  {}

  lemma PerServerStep(s: State, op: Op, t: State)
    requires PerServer(s) && Race(s) && Next(s, op, t)
    ensures PerServer(t)
  {
    match op
    case Send(server) =>
      assert forall i :: 0 <= i < |s.sent| ==> t.sent[i] == s.sent[i];
    case _ =>
  }

  /** Some winner has the maximum in hand. */
  ghost predicate InHand(s: State) { exists t :: t in s.threads && s.threads[t] == Won(s.max) }

  ghost predicate WasSent(s: State) { exists i :: 0 <= i < |s.sent| && s.sent[i].slot == s.max }

  lemma InHandStep(s: State, op: Op, t: State)
    requires InHand(s) && Race(s) && Next(s, op, t) && t.managerAlive
    ensures InHand(t) || WasSent(t)
  {
    var u :| u in s.threads && s.threads[u] == Won(s.max);
    if t.max > s.max {
      assert t.threads[op.server] == Won(t.max);
    } else if op.Send? && op.server == u {
      assert t.sent[|s.sent|].slot == t.max;
    } else {
      assert t.threads[u] == Won(t.max);
    }
  }

  lemma WasSentStep(s: State, op: Op, t: State)
    requires WasSent(s) && Next(s, op, t)
    ensures InHand(t) || WasSent(t)
  {
    var i :| 0 <= i < |s.sent| && s.sent[i].slot == s.max;
    if t.max > s.max {
      assert t.threads[op.server] == Won(t.max);
    } else {
      assert t.sent[i].slot == t.max;
    }
  }

  lemma MaxStep(s: State, op: Op, t: State)
    requires MaxAccounted(s) && Race(s) && Positive(s) && Next(s, op, t)
    ensures MaxAccounted(t)
  {
    if t.managerAlive {
      if InHand(s) {
        InHandStep(s, op, t);
      } else if WasSent(s) {
        WasSentStep(s, op, t);
      } else if t.max > 0 {
        assert t.threads[op.server] == Won(t.max);
      }
    }
  }

  lemma RecordingStep(s: State, op: Op, t: State)
    requires Recording(s) && Next(s, op, t)
    ensures Recording(t) && t.threads.Keys == s.threads.Keys
  {}

  lemma InvStep(s: State, op: Op, t: State)
    requires Inv(s) && Next(s, op, t)
    ensures Inv(t) && t.threads.Keys == s.threads.Keys
  {
    FifoStep(s, op, t);
    RaceStep(s, op, t);
    PositiveStep(s, op, t);
    PerServerStep(s, op, t);
    MaxStep(s, op, t);
    RecordingStep(s, op, t);
  }

  lemma {:induction false} InvAlways(states: seq<State>, ops: seq<Op>, servers: set<Server>, n: nat)
    requires Run(states, ops, servers) && n < |states|
    ensures Inv(states[n])
    ensures states[n].threads.Keys == servers
  {
    if n > 0 {
      InvAlways(states, ops, servers, n - 1);
      assert Next(states[n - 1], ops[n - 1], states[n - 1 + 1]);
      InvStep(states[n - 1], ops[n - 1], states[n]);
    }
  }

  // ---------------------------------------------------------------- what reaches the relayer loop

  /**
   * In every interleaving of any number of threads: the slots reaching the relayer loop are
   * a prefix of the slots sent, pairwise distinct, and each server's own go up.
   */
  lemma SlotsReachingTheRelayer(states: seq<State>, ops: seq<Op>, servers: set<Server>, n: nat)
    requires Run(states, ops, servers) && n < |states|
    ensures states[n].seen <= Slots(states[n].sent)
    ensures forall i, j :: 0 <= i < j < |states[n].seen| ==> states[n].seen[i] != states[n].seen[j]
    ensures forall i, j :: 0 <= i < j < |states[n].seen| && states[n].sent[i].server == states[n].sent[j].server
                           ==> states[n].seen[i] < states[n].seen[j]
  {
    InvAlways(states, ops, servers, n);
    var s := states[n];
    forall i | 0 <= i < |s.seen| ensures s.seen[i] == s.sent[i].slot {
      assert Slots(s.sent)[i] == s.seen[i];
    }
  }

  /** When no send is pending, the shared maximum is the largest slot sent. */
  lemma QuiescentMaximum(states: seq<State>, ops: seq<Op>, servers: set<Server>, n: nat)
    requires Run(states, ops, servers) && n < |states|
    requires states[n].managerAlive
    requires forall t :: t in states[n].threads ==> !states[n].threads[t].Won?
    ensures forall i :: 0 <= i < |states[n].sent| ==> states[n].sent[i].slot <= states[n].max
    ensures states[n].sent != [] ==> states[n].max in Slots(states[n].sent)
    ensures states[n].sent == [] ==> states[n].max == 0
  {
    InvAlways(states, ops, servers, n);
    var s := states[n];
    if s.sent != [] {
      var i :| 0 <= i < |s.sent| && s.sent[i].slot == s.max;
      assert Slots(s.sent)[i] == s.max;
    }
  }

  /** With at most one server every slot taken raises the relayer's highest slot, although it is merely assigned. */
  lemma OneServerGoesUp(states: seq<State>, ops: seq<Op>, servers: set<Server>, n: nat)
    requires Run(states, ops, servers) && n < |ops|
    requires forall a, b :: a in servers && b in servers ==> a == b
    ensures ops[n].RelayerTakes? ==> states[n].highestSlot < states[n + 1].highestSlot
    ensures !ops[n].RelayerTakes? ==> states[n].highestSlot == states[n + 1].highestSlot
  {
    assert Next(states[n], ops[n], states[n + 1]);
    HighestIsLastSeen(states, ops, servers, n);
    if ops[n].RelayerTakes? {
      InvAlways(states, ops, servers, n + 1);
      SlotsReachingTheRelayer(states, ops, servers, n + 1);
      var k := |states[n].seen|;
      assert Slots(states[n + 1].sent)[k] == states[n + 1].seen[k];
      if k > 0 {
        assert states[n + 1].seen[k - 1] == states[n].highestSlot;
        assert states[n + 1].sent[k - 1].server == states[n + 1].sent[k].server;
      }
    }
  }

  lemma {:induction false} HighestIsLastSeen(states: seq<State>, ops: seq<Op>, servers: set<Server>, n: nat)
    requires Run(states, ops, servers) && n < |states|
    ensures states[n].highestSlot == if states[n].seen == [] then 0 else states[n].seen[|states[n].seen| - 1]
  {
    if n > 0 {
      assert Next(states[n - 1], ops[n - 1], states[n - 1 + 1]);
      HighestIsLastSeen(states, ops, servers, n - 1);
    }
  }

  /** Some run lets the relayer's highest slot go down. */
  ghost predicate CanGoDown(servers: set<Server>) {
    exists states: seq<State>, ops: seq<Op>, n: nat ::
      Run(states, ops, servers) && n < |ops| && states[n + 1].highestSlot < states[n].highestSlot
  }

  /** Exactly when there are two servers or more: the slower winner may be sent last. */
  lemma GoesDownIffTwoServers(servers: set<Server>)
    ensures CanGoDown(servers) <==> exists a, b :: a in servers && b in servers && a != b
  {
    if a, b :| a in servers && b in servers && a != b {
      TwoServersCanGoDown(servers, a, b);
    } else if CanGoDown(servers) {
      var states: seq<State>, ops: seq<Op>, n: nat :|
        Run(states, ops, servers) && n < |ops| && states[n + 1].highestSlot < states[n].highestSlot;
      OneServerGoesUp(states, ops, servers, n);
    }
  }

  lemma TwoServersCanGoDown(servers: set<Server>, a: Server, b: Server)
    requires a in servers && b in servers && a != b
    ensures CanGoDown(servers)
  {
    var s0 := Initial(servers);
    var s1 := s0.(threads := s0.threads[a := Recorded(5)], serverToSlot := s0.serverToSlot[a := 5]);
    var s2 := s1.(max := 5, threads := s1.threads[a := Won(5)]);
    var s3 := s2.(threads := s2.threads[b := Recorded(7)], serverToSlot := s2.serverToSlot[b := 7]);
    var s4 := s3.(max := 7, threads := s3.threads[b := Won(7)]);
    var s5 := s4.(queue := s4.queue + [7], sent := s4.sent + [Entry(b, 7)], threads := s4.threads[b := Waiting]);
    var s6 := s5.(queue := s5.queue + [5], sent := s5.sent + [Entry(a, 5)], threads := s5.threads[a := Waiting]);
    var r1, o1 := RunExtend([s0], [], servers, Report(a, 5), s1);
    var r2, o2 := RunExtend(r1, o1, servers, FetchMax(a), s2);
    var r3, o3 := RunExtend(r2, o2, servers, Report(b, 7), s3);
    var r4, o4 := RunExtend(r3, o3, servers, FetchMax(b), s4);
    var r5, o5 := RunExtend(r4, o4, servers, Send(b), s5);
    var r6, o6 := RunExtend(r5, o5, servers, Send(a), s6);
    assert s6.queue == [7, 5] && s6.downstream == [] && s6.hand == None;
    DrainTwo(r6, o6, servers, 7, 5);
  }

  lemma RunExtend(states: seq<State>, ops: seq<Op>, servers: set<Server>, op: Op, t: State)
      returns (states': seq<State>, ops': seq<Op>)
    requires Run(states, ops, servers) && Next(states[|ops|], op, t)
    ensures Run(states', ops', servers) && states' == states + [t] && ops' == ops + [op]
  {
    states', ops' := states + [t], ops + [op];
    forall i | 0 <= i < |ops'| ensures Next(states'[i], ops'[i], states'[i + 1]) {
      if i < |ops| { assert Next(states[i], ops[i], states[i + 1]); }
    }
  }

  /** Two queued slots reach the relayer loop in their order. */
  lemma DrainTwo(states: seq<State>, ops: seq<Op>, servers: set<Server>, a: Slot, b: Slot)
    requires Run(states, ops, servers) && b < a
    requires var s := states[|ops|]; s.queue == [a, b] && s.downstream == [] && s.hand == None && s.managerAlive
    ensures CanGoDown(servers)
  {
    var s0 := states[|ops|];
    var s1 := s0.(hand := Some(a), queue := s0.queue[1..]);
    var s2 := s1.(downstream := s1.downstream + [a], hand := None);
    var s3 := s2.(hand := Some(b), queue := s2.queue[1..]);
    var s4 := s3.(downstream := s3.downstream + [b], hand := None);
    var r1, o1 := RunExtend(states, ops, servers, ManagerTakes, s1);
    var r2, o2 := RunExtend(r1, o1, servers, ManagerRelays, s2);
    var r3, o3 := RunExtend(r2, o2, servers, ManagerTakes, s3);
    var r4, o4 := RunExtend(r3, o3, servers, ManagerRelays, s4);
    assert s4.downstream == [a, b];
    TakeTwo(r4, o4, servers, a, b);
  }

  lemma TakeTwo(states: seq<State>, ops: seq<Op>, servers: set<Server>, a: Slot, b: Slot)
    requires Run(states, ops, servers) && b < a && states[|ops|].downstream == [a, b]
    ensures CanGoDown(servers)
  {
    var s0 := states[|ops|];
    var s1 := s0.(highestSlot := a, downstream := s0.downstream[1..], seen := s0.seen + [a]);
    var s2 := s1.(highestSlot := b, downstream := s1.downstream[1..], seen := s1.seen + [b]);
    var r1, o1 := RunExtend(states, ops, servers, RelayerTakes, s1);
    var r2, o2 := RunExtend(r1, o1, servers, RelayerTakes, s2);
    assert r2[|o1| + 1] == s2 && r2[|o1|] == s1;
  }

  // ---------------------------------------------------------------- queries

  /** `get_highest_slot`: a server whose last reported slot no other exceeds; none when there is no server. */
  method GetHighestSlot(serverToSlot: map<Server, Slot>) returns (best: Option<(Server, Slot)>)
    ensures best.None? <==> serverToSlot == map[]
    ensures best.Some? ==>
              && best.value.0 in serverToSlot && serverToSlot[best.value.0] == best.value.1
              && forall t :: t in serverToSlot ==> serverToSlot[t] <= best.value.1
  {
    best := None;
    var left := serverToSlot.Keys;
    while left != {}
      invariant left <= serverToSlot.Keys
      invariant best.None? <==> left == serverToSlot.Keys
      invariant best.Some? ==>
                  && best.value.0 in serverToSlot && serverToSlot[best.value.0] == best.value.1
                  && forall t :: t in serverToSlot && t !in left ==> serverToSlot[t] <= best.value.1
      decreases left
    {
      var t :| t in left;
      left := left - {t};
      if best.None? || best.value.1 <= serverToSlot[t] {
        best := Some((t, serverToSlot[t]));
      }
    }
  }

  /** Whenever no thread is between its two writes, no server is ahead of the shared maximum. */
  lemma ReportedWithinMaximum(states: seq<State>, ops: seq<Op>, servers: set<Server>, n: nat, server: Server)
    requires Run(states, ops, servers) && n < |states|
    requires forall t :: t in states[n].threads ==> !states[n].threads[t].Recorded?
    requires server in states[n].serverToSlot
    ensures states[n].serverToSlot[server] <= states[n].max
  {
    InvAlways(states, ops, servers, n);
  }
}
