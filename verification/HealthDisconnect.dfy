/**
 * From missing slots to disconnected validators: the health manager
 * (relayer/src/health_manager.rs), the health check of new subscriptions, the subscription
 * channel and the arms of the relayer loop that add and drop subscriptions, over one clock.
 */
module HealthDisconnect {
  import opened Prelude
  import opened Packets
  import opened FanOut
  import opened Relayer

  /** The state a check publishes. */
  function Judge(lastUpdate: Time, now: Time, threshold: nat): HealthState {
    if now - lastUpdate <= threshold then Healthy else Unhealthy
  }

  // ---------------------------------------------------------------- the steps, on values

  /**
   * `lastUpdate` is the last slot relayed, `lastTick` the last health check; `calls` are subscribe
   * calls that passed the health check and have not reached the channel yet; `queue` is the
   * channel; `subscribed` the keys of the subscription map.
   */
  datatype State = State(
    now: Time, lastUpdate: Time, lastTick: Time, health: HealthState,
    calls: map<nat, Pubkey>, queue: seq<Pubkey>, subscribed: set<Pubkey>)

  /** What can happen: arms of the two threads and steps of the subscribe handler. */
  datatype Event =
    | HealthTick
    | SlotArrives(slot: Slot)
    | SubscribeCall(call: nat, pubkey: Pubkey)
    | SubscribeSends(call: nat)
    | SubscriptionArm
    | HeartbeatArm(answers: SenderId -> SendOutcome)
    | PacketArm(batches: seq<PacketBatch>, tables: CacheStates, sends: Answers)

  /** An event, and the keys whose channels it found closed. */
  datatype Done = Done(event: Event, closed: set<Pubkey>)

  function Initial(start: Time): State {
    State(start, start, start, Unhealthy, map[], [], {})
  }

  /** Where a step leads that is taken at `now`. */
  function After(s: State, d: Done, now: Time, threshold: nat): State {
    var u := s.(now := now);
    match d.event
    case HealthTick => u.(health := Judge(s.lastUpdate, now, threshold), lastTick := now)
    case SlotArrives(_) => u.(lastUpdate := now)
    case SubscribeCall(call, pubkey) =>
      if s.health.Healthy? && call !in s.calls then u.(calls := s.calls[call := pubkey]) else u
    case SubscribeSends(call) =>
      if call in s.calls then u.(queue := s.queue + [s.calls[call]], calls := s.calls - {call}) else u
    case SubscriptionArm =>
      if s.queue != [] then u.(subscribed := s.subscribed + {s.queue[0]}, queue := s.queue[1..]) else u
    case HeartbeatArm(_) => u.(subscribed := if s.health.Healthy? then s.subscribed - d.closed else {})
    case PacketArm(_, _, _) => u.(subscribed := s.subscribed - d.closed)
  }

  /** Time may pass before any step. */
  ghost predicate Next(s: State, d: Done, t: State, threshold: nat) {
    s.now <= t.now && t == After(s, d, t.now, threshold)
  }

  /** A run: the state it starts in, or a run with one more step. */
  datatype Trace = Start(state: State) | Then(before: Trace, done: Done, state: State)
  {
    function First(): State {
      match this
      case Start(s) => s
      case Then(before, _, _) => before.First()
    }

    ghost predicate IsRun(threshold: nat) {
      match this
      case Start(_) => true
      case Then(before, d, t) => before.IsRun(threshold) && Next(before.state, d, t, threshold)
    }

    /** The events handled, in order. */
    function Events(): seq<Event> {
      match this
      case Start(_) => []
      case Then(before, d, _) => before.Events() + [d.event]
    }

    /** Health ticks are handled at most `gap` apart. */
    ghost predicate Timely(gap: nat) {
      match this
      case Start(_) => true
      case Then(before, _, t) => before.Timely(gap) && t.now <= before.state.lastTick + gap
    }

    /** A run of the relayer from its start, with timely health ticks. */
    ghost predicate FromStart(threshold: nat, gap: nat) {
      IsRun(threshold) && Timely(gap) && First() == Initial(First().now)
    }

    /** All along, the last slot is more than threshold + gap ago: slots have stopped. */
    ghost predicate Stalled(threshold: nat, gap: nat) {
      match this
      case Start(_) => true
      case Then(before, d, t) =>
        && before.Stalled(threshold, gap)
        && before.state.lastUpdate + threshold + gap < t.now && !d.event.SlotArrives?
    }

    /** A heartbeat has been handled. */
    predicate Beaten() {
      match this
      case Start(_) => false
      case Then(before, d, _) => d.event.HeartbeatArm? || before.Beaten()
    }
  }

  // ---------------------------------------------------------------- what runs guarantee

  ghost predicate Inv(s: State, threshold: nat) {
    && s.lastUpdate <= s.now && s.lastTick <= s.now
    && (s.health.Healthy? ==> s.lastTick <= s.lastUpdate + threshold)
  }

  lemma InvStep(s: State, d: Done, t: State, threshold: nat)
    requires Inv(s, threshold) && Next(s, d, t, threshold)
    ensures Inv(t, threshold)
  {}

  lemma {:induction false} InvAlways(tr: Trace, threshold: nat)
    requires tr.IsRun(threshold) && Inv(tr.First(), threshold)
    ensures Inv(tr.state, threshold)
  {
    if tr.Then? {
      InvAlways(tr.before, threshold);
      InvStep(tr.before.state, tr.done, tr.state, threshold);
    }
  }

  lemma GapStep(s: State, d: Done, t: State, threshold: nat, gap: nat)
    requires Inv(s, threshold) && Next(s, d, t, threshold) && t.now <= s.lastTick + gap
    ensures t.health.Healthy? ==> t.now <= t.lastUpdate + threshold + gap
    ensures s.health.Healthy? ==> t.now <= s.lastUpdate + threshold + gap
  {}

  /** Healthy means a recent slot: the last one (or the start) is at most threshold + gap ago. */
  lemma HealthyMeansRecentSlot(tr: Trace, threshold: nat, gap: nat)
    requires tr.FromStart(threshold, gap)
    ensures tr.state.health.Healthy? ==> tr.state.now <= tr.state.lastUpdate + threshold + gap
  {
    if tr.Then? {
      InvAlways(tr.before, threshold);
      GapStep(tr.before.state, tr.done, tr.state, threshold, gap);
    }
  }

  /**
   * Once slots stop, every heartbeat handled later than threshold + gap after the last one leaves
   * nobody subscribed, whatever was still queued or in flight before it.
   */
  lemma HeartbeatDisconnectsEveryone(tr: Trace, threshold: nat, gap: nat)
    requires tr.FromStart(threshold, gap) && tr.Then? && tr.done.event.HeartbeatArm?
    requires tr.before.state.lastUpdate + threshold + gap < tr.state.now
    ensures tr.state.subscribed == {}
  {
    InvAlways(tr.before, threshold);
    GapStep(tr.before.state, tr.done, tr.state, threshold, gap);
  }

  /** Subscriptions that can still arrive. */
  function Pending(s: State): nat { |s.calls| + |s.queue| }

  /** Whoever is subscribed, or can still become so. */
  ghost predicate Exposed(s: State, p: Pubkey) {
    p in s.subscribed || p in s.queue || exists call :: call in s.calls && s.calls[call] == p
  }

  lemma ExposedStep(s: State, d: Done, t: State, threshold: nat, p: Pubkey)
    requires Next(s, d, t, threshold) && s.health.Unhealthy? && Exposed(t, p)
    ensures Exposed(s, p)
  {}

  lemma PendingStep(s: State, d: Done, t: State, threshold: nat)
    requires Next(s, d, t, threshold) && s.health.Unhealthy?
    ensures Pending(t) <= Pending(s)
  {
    if d.event.SubscribeSends? && d.event.call in s.calls {
      assert t.calls.Keys == s.calls.Keys - {d.event.call};
      assert |t.calls| == |t.calls.Keys| && |s.calls| == |s.calls.Keys|;
    }
  }

  /** Past the deadline the published state is unhealthy at every step. */
  lemma StalledIsUnhealthy(tr: Trace, threshold: nat, gap: nat)
    requires tr.IsRun(threshold) && tr.Timely(gap) && tr.Stalled(threshold, gap)
    requires Inv(tr.First(), threshold) && tr.Then?
    ensures tr.before.state.health.Unhealthy?
  {
    InvAlways(tr.before, threshold);
    GapStep(tr.before.state, tr.done, tr.state, threshold, gap);
  }

  /**
   * Past the deadline nobody new can get in: whoever is subscribed, queued or in flight was so
   * when the stall began, and what is pending only shrinks.
   */
  lemma {:induction false} NobodyNewGetsIn(past: Trace, tr: Trace, threshold: nat, gap: nat)
    requires past.FromStart(threshold, gap) && tr.First() == past.state
    requires tr.IsRun(threshold) && tr.Timely(gap) && tr.Stalled(threshold, gap)
    ensures forall p :: Exposed(tr.state, p) ==> Exposed(past.state, p)
    ensures Pending(tr.state) <= Pending(past.state)
  {
    if tr.Then? {
      NobodyNewGetsIn(past, tr.before, threshold, gap);
      InvAlways(past, threshold);
      StalledIsUnhealthy(tr, threshold, gap);
      PendingStep(tr.before.state, tr.done, tr.state, threshold);
      forall p | Exposed(tr.state, p) ensures Exposed(past.state, p) {
        ExposedStep(tr.before.state, tr.done, tr.state, threshold, p);
      }
    }
  }

  /** With nothing pending when the stall begins, the first heartbeat disconnects everyone for good. */
  lemma {:induction false} DisconnectedForGood(past: Trace, tr: Trace, threshold: nat, gap: nat)
    requires past.FromStart(threshold, gap) && tr.First() == past.state && Pending(past.state) == 0
    requires tr.IsRun(threshold) && tr.Timely(gap) && tr.Stalled(threshold, gap) && tr.Beaten()
    ensures tr.state.subscribed == {}
  {
    InvAlways(past, threshold);
    StalledIsUnhealthy(tr, threshold, gap);
    if !tr.done.event.HeartbeatArm? {
      DisconnectedForGood(past, tr.before, threshold, gap);
      NobodyNewGetsIn(past, tr.before, threshold, gap);
    }
  }

  // ---------------------------------------------------------------- what the relayer owes its subscribers

  /** Nobody is dropped without a reason: an unhealthy heartbeat, or a channel found closed. */
  lemma DroppedIff(tr: Trace, threshold: nat, p: Pubkey)
    requires tr.IsRun(threshold) && tr.Then? && p in tr.before.state.subscribed
    ensures p !in tr.state.subscribed <==>
            || (tr.done.event.HeartbeatArm? && tr.before.state.health.Unhealthy?)
            || ((tr.done.event.HeartbeatArm? || tr.done.event.PacketArm?) && p in tr.done.closed)
  {
    assert Next(tr.before.state, tr.done, tr.state, threshold);
  }

  /** A call while healthy, its send and the loop's turn make a subscription, whatever time passes between them. */
  lemma HealthyCallGetsIn(base: Trace, tr: Trace, threshold: nat, call: nat, pubkey: Pubkey)
    requires tr.IsRun(threshold) && tr.Then? && tr.before.Then? && tr.before.before.Then?
    requires tr.before.before.before == base && base.state.health.Healthy?
    requires call !in base.state.calls && base.state.queue == []
    requires tr.before.before.done.event == SubscribeCall(call, pubkey)
    requires tr.before.done.event == SubscribeSends(call) && tr.done.event == SubscriptionArm
    ensures tr.state.subscribed == base.state.subscribed + {pubkey} && tr.state.queue == []
    ensures tr.state.calls == base.state.calls
  {
    assert tr.before.IsRun(threshold) && tr.before.before.IsRun(threshold);
    assert Next(base.state, tr.before.before.done, tr.before.before.state, threshold);
    assert Next(tr.before.before.state, tr.before.done, tr.before.state, threshold);
    assert tr.before.state.queue == [pubkey];
  }

  // ---------------------------------------------------------------- the code takes these steps

  /** Some send to this sender was answered closed. */
  ghost predicate MetClosed(sends: Answers, sender: SenderId) {
    exists j: nat :: sends(j, sender) == Closed
  }

  lemma SomeSendClosed(n: nat, sends: Answers, sender: SenderId)
    requires ClosedTimes(n, sends, sender) > 0
    ensures MetClosed(sends, sender)
  {
    ClosedTimesExactly(n, sends, sender);
    ClosedOnce(n, sends, sender);
  }

  /** The keys found closed are subscribers whose channel did answer so. */
  ghost predicate ClosedFound(d: Done, subscriptions: map<Pubkey, SenderId>) {
    match d.event
    case HeartbeatArm(answers) =>
      forall p :: p in d.closed <==> p in subscriptions && answers(subscriptions[p]) == Closed
    case PacketArm(_, _, sends) =>
      forall p :: p in d.closed ==> p in subscriptions && MetClosed(sends, subscriptions[p])
    case _ => d.closed == {}
  }

  /** The health manager's thread: two arms of its `select!`. */
  class HealthManager {
    const threshold: nat
    const clock: Clock
    var lastUpdate: Time
    var state: HealthState
    var relayed: seq<Slot>
    ghost var lastTick: Time

    /** What was published last is what the last check saw. */
    ghost predicate Valid()
      reads this, clock
    {
      && lastUpdate <= clock.now && lastTick <= clock.now
      && (state.Healthy? ==> lastTick <= lastUpdate + threshold)
    }

    constructor (clock: Clock, threshold: nat)
      ensures Valid() && this.clock == clock && this.threshold == threshold
      ensures lastUpdate == lastTick == clock.now && state == Unhealthy && relayed == []
    {
      this.clock, this.threshold := clock, threshold;
      lastUpdate, state, relayed, lastTick := clock.now, Unhealthy, [], clock.now;
    }

    /** A tick publishes healthy exactly when the last slot is at most the threshold ago. */
    method OnTick()
      requires Valid()
      modifies this`state, this`lastTick, clock
      ensures Valid() && old(clock.now) <= clock.now == lastTick
      ensures state.Healthy? <==> clock.now <= lastUpdate + threshold
    {
      var now := clock.Read();
      state := if now - lastUpdate <= threshold then Healthy else Unhealthy;
      lastTick := now;
    }

    /** The slot is passed on first; the update counts from then. */
    method OnSlot(slot: Slot)
      requires Valid()
      modifies this`lastUpdate, this`relayed, clock
      ensures Valid() && old(clock.now) <= clock.now == lastUpdate && relayed == old(relayed) + [slot]
    {
      relayed := relayed + [slot];
      lastUpdate := clock.Read();
    }
  }

  /** The health manager, the subscribe handler and the relayer loop, over one clock. */
  class Plant {
    const manager: HealthManager
    const relayer: Relayer
    var calls: map<nat, Pubkey>
    var queue: seq<Pubkey>

    ghost predicate Valid()
      reads this, manager, manager.clock, relayer
    {
      manager.Valid() && relayer.Valid()
    }

    ghost function Value(): State
      reads this, manager, manager.clock, relayer
    {
      State(manager.clock.now, manager.lastUpdate, manager.lastTick, manager.state, calls, queue,
            relayer.subscriptions.Keys)
    }

    constructor (manager: HealthManager, relayer: Relayer)
      requires manager.Valid() && relayer.Valid()
      requires manager.lastUpdate == manager.lastTick == manager.clock.now && manager.state.Unhealthy?
      requires relayer.subscriptions == map[]
      ensures Valid() && this.manager == manager && this.relayer == relayer && Value() == Initial(manager.clock.now)
    {
      this.manager, this.relayer, this.calls, this.queue := manager, relayer, map[], [];
    }

    /** `subscribe_packets`, first half: unhealthy relayers turn the call away. */
    method Subscribe(call: nat, pubkey: Pubkey)
      modifies this`calls
      ensures calls == if manager.state.Healthy? && call !in old(calls) then old(calls)[call := pubkey] else old(calls)
    {
      if manager.state.Healthy? && call !in calls { calls := calls[call := pubkey]; }
    }

    /** The subscription arm of the relayer loop; the sender is the one the call made. */
    method TakeSubscription()
      requires Valid()
      modifies this`queue, relayer
      ensures Valid()
      ensures queue == if old(queue) == [] then [] else old(queue)[1..]
      ensures relayer.subscriptions.Keys
              == if old(queue) == [] then old(relayer.subscriptions).Keys
                 else old(relayer.subscriptions).Keys + {old(queue)[0]}
    {
      if queue != [] {
        ghost var some := Unused(relayer.channels.Keys);
        assert some !in relayer.channels.Keys;
        var sender :| sender !in relayer.channels.Keys;
        relayer.OnSubscription(queue[0], sender);
        queue := queue[1..];
      }
    }

    method Beat(answers: SenderId -> SendOutcome) returns (ghost closed: set<Pubkey>)
      requires Valid()
      modifies relayer
      ensures Valid()
      ensures forall p :: p in closed <==> p in old(relayer.subscriptions)
                                           && answers(old(relayer.subscriptions)[p]) == Closed
      ensures relayer.subscriptions.Keys
              == if manager.state.Healthy? then old(relayer.subscriptions).Keys - closed else {}
    {
      closed := set p | p in relayer.subscriptions && answers(relayer.subscriptions[p]) == Closed;
      relayer.OnHeartbeat(manager.state, answers);
    }

    /** The packet arm. */
    method Forward(batches: seq<PacketBatch>, tables: CacheStates, sends: Answers) returns (ghost closed: set<Pubkey>)
      requires Valid()
      modifies relayer
      ensures Valid() && relayer.subscriptions.Keys == old(relayer.subscriptions).Keys - closed
      ensures forall p :: p in closed ==> p in old(relayer.subscriptions)
                                          && MetClosed(sends, old(relayer.subscriptions)[p])
    {
      var failed;
      ghost var packets, targets;
      failed, packets, targets := relayer.OnPackets(batches, tables, sends);
      closed := ToSet(failed);
      forall p | p in closed ensures MetClosed(sends, old(relayer.subscriptions)[p]) {
        SomeSendClosed(|ChunksOf(packets, relayer.batchSize)|, sends, old(relayer.subscriptions)[p]);
      }
    }

    method Handle(e: Event) returns (ghost d: Done)
      requires Valid()
      modifies this, manager, manager.clock, relayer
      ensures Valid() && d.event == e
      ensures Next(old(Value()), d, Value(), manager.threshold)
      ensures ClosedFound(d, old(relayer.subscriptions))
    {
      d := Done(e, {});
      match e {
        case HealthTick => manager.OnTick();
        case SlotArrives(slot) => manager.OnSlot(slot);
        case SubscribeCall(call, pubkey) => Subscribe(call, pubkey);
        case SubscribeSends(call) =>
          if call in calls { queue, calls := queue + [calls[call]], calls - {call}; }
        case SubscriptionArm => TakeSubscription();
        case HeartbeatArm(answers) =>
          ghost var closed := Beat(answers);
          d := Done(e, closed);
        case PacketArm(batches, tables, sends) =>
          ghost var closed := Forward(batches, tables, sends);
          d := Done(e, closed);
      }
    }
  }

  /** The run so far has led to where the plant is. */
  ghost predicate Underway(plant: Plant, tr: Trace)
    reads plant, plant.manager, plant.manager.clock, plant.relayer
  {
    match tr
    case Start(s) => plant.Valid() && s == plant.Value()
    case Then(_, _, s) => plant.Valid() && s == plant.Value() && tr.IsRun(plant.manager.threshold)
  }

  /** One more event of a run. */
  method Advance(plant: Plant, e: Event, ghost tr: Trace) returns (ghost tr': Trace)
    requires Underway(plant, tr)
    modifies plant, plant.manager, plant.manager.clock, plant.relayer
    ensures Underway(plant, tr') && tr'.First() == tr.First() && tr'.Events() == tr.Events() + [e]
  {
    ghost var d := plant.Handle(e);
    tr' := Then(tr, d, plant.Value());
  }

  /** Each event is one step: what holds of every run holds of the code. */
  method Operate(plant: Plant, events: seq<Event>) returns (ghost tr: Trace)
    requires plant.Valid()
    modifies plant, plant.manager, plant.manager.clock, plant.relayer
    ensures Underway(plant, tr) && tr.IsRun(plant.manager.threshold)
    ensures tr.First() == old(plant.Value()) && tr.Events() == events
  {
    tr := Start(plant.Value());
    for i := 0 to |events|
      invariant Underway(plant, tr) && tr.First() == old(plant.Value()) && tr.Events() == events[..i]
    {
      tr := Advance(plant, events[i], tr);
    }
  }
}
