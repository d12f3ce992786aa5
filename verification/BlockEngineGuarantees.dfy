/**
 * What a connection to the block engine guarantees, in terms of what happened on it: the events
 * it handled, the clock it read and the answers it got.
 */
module BlockEngineGuarantees {
  import opened Prelude
  import opened Sequences
  import opened Packets
  import opened Ofac
  import opened BlockEngineFilter
  import opened BlockEngineSession
  import T = TokenRefresh

  // ---------------------------------------------------------------- what is forwarded

  /**
   * A packet the block engine has asked for and may have, by the updates handled so far: it
   * mentions no sanctioned account, and it writes an account named in an update whose handling
   * began less than the lifespan ago, or mentions a program so named, or some update had "*".
   */
  ghost predicate Wanted(p: Packet, cache: TableCache, tr: Trace, now: Time, c: Setup) {
    && !p.discard && p.tx.Some?
    && (forall account :: Mentions(p.tx.value, cache, account) ==> account !in c.ofac)
    && (|| tr.SawWildcard()
        || (exists account :: Writes(p.tx.value, cache, account) && tr.AccountNamedWithin(account, now, c))
        || (exists account :: Mentions(p.tx.value, cache, account) && tr.ProgramNamedWithin(account, now, c)))
  }

  /** The same, counting the lifespan from the end of an update's handling. */
  ghost predicate MaybeWanted(p: Packet, cache: TableCache, tr: Trace, now: Time, c: Setup) {
    && !p.discard && p.tx.Some?
    && (forall account :: Mentions(p.tx.value, cache, account) ==> account !in c.ofac)
    && (|| tr.SawWildcard()
        || (exists account :: Writes(p.tx.value, cache, account) && tr.AccountNamedSince(account, now, c))
        || (exists account :: Mentions(p.tx.value, cache, account) && tr.ProgramNamedSince(account, now, c)))
  }

  lemma WantedIsDue(p: Packet, cache: TableCache, tr: Trace, now: Time, c: Setup)
    requires tr.IsSession(c) && Wanted(p, cache, tr, now, c)
    ensures Surely(p, Rules({cache}, c.ofac, tr.view.wildcard), Interest(tr.view.aoi, tr.view.poi, c.ttlSecs), now)
  {
    var interest := Interest(tr.view.aoi, tr.view.poi, c.ttlSecs);
    if account :| Writes(p.tx.value, cache, account) && tr.AccountNamedWithin(account, now, c) {
      InterestIsWhatUpdatesSaid(tr, c, account, now);
      assert interest.Account(account, now);
    } else if account :| Mentions(p.tx.value, cache, account) && tr.ProgramNamedWithin(account, now, c) {
      InterestIsWhatUpdatesSaid(tr, c, account, now);
      assert interest.Program(account, now);
    } else {
      InterestIsWhatUpdatesSaid(tr, c, 0, now);
    }
    assert Forwardable(p, cache, c.ofac, tr.view.wildcard, interest, now);
    AtRest(p, cache, c.ofac, tr.view.wildcard, interest, now);
  }

  lemma EligibleIsWanted(p: Packet, cache: TableCache, tr: Trace, now: Time, c: Setup)
    requires tr.IsSession(c)
    requires Possibly(p, Rules({cache}, c.ofac, tr.view.wildcard), Interest(tr.view.aoi, tr.view.poi, c.ttlSecs), now)
    ensures MaybeWanted(p, cache, tr, now, c)
  {
    var interest := Interest(tr.view.aoi, tr.view.poi, c.ttlSecs);
    AtRest(p, cache, c.ofac, tr.view.wildcard, interest, now);
    assert Forwardable(p, cache, c.ofac, tr.view.wildcard, interest, now);
    if account :| Writes(p.tx.value, cache, account) && interest.Account(account, now) {
      InterestIsWhatUpdatesSaid(tr, c, account, now);
      assert tr.AccountNamedSince(account, now, c);
    } else if account :| Mentions(p.tx.value, cache, account) && interest.Program(account, now) {
      InterestIsWhatUpdatesSaid(tr, c, account, now);
      assert tr.ProgramNamedSince(account, now, c);
    } else {
      InterestIsWhatUpdatesSaid(tr, c, 0, now);
    }
  }

  /**
   * From the updates to the stream. In every session a receive that finds a batch filters the
   * oldest one queued: all its packets still wanted when the filter ends come out, nothing comes out
   * that was not wanted when it began, in order, and whatever comes out is put on the stream as one
   * update under the batch's own stamp and expiry, if the stream takes it. The lookup tables are
   * at rest during the call.
   */
  lemma WantedPacketsAreForwarded(tr: Trace, c: Setup, cache: TableCache)
    requires tr.IsSession(c) && tr.Then? && tr.before.view.queue != []
    requires tr.done.event.Recv? && tr.done.event.tables == {cache}
    ensures var batch, out := tr.before.view.queue[0], tr.done.out;
            var packets := Flatten(batch.batches);
            && Subsequence(Converted(packets, p => Wanted(p, cache, tr.before, tr.view.now, c)), out)
            && Subsequence(out, Converted(packets, p => MaybeWanted(p, cache, tr.before, tr.before.view.now, c)))
            && tr.view.outbound == tr.before.view.outbound
                                   + (if out != [] && tr.done.event.sent then
                                        [Batches(out, batch.stamp, batch.expiration)] else [])
  {
    var s, t, before := tr.before.view, tr.view, tr.before;
    var packets, rules := Flatten(s.queue[0].batches), Rules({cache}, c.ofac, s.wildcard);
    var interest := Interest(s.aoi, s.poi, c.ttlSecs);
    assert Handles(s, tr.done, t, c);
    forall p | Wanted(p, cache, before, t.now, c) ensures Surely(p, rules, interest, t.now) {
      WantedIsDue(p, cache, before, t.now, c);
    }
    forall p | Possibly(p, rules, interest, s.now) ensures MaybeWanted(p, cache, before, s.now, c) {
      EligibleIsWanted(p, cache, before, s.now, c);
    }
    var wanted := (p: Packet) => Wanted(p, cache, before, t.now, c);
    var maybe := (p: Packet) => MaybeWanted(p, cache, before, s.now, c);
    ConvertedMonotone(packets, wanted, p => Surely(p, rules, interest, t.now));
    ConvertedMonotone(packets, p => Possibly(p, rules, interest, s.now), maybe);
    SubsequenceTrans(Converted(packets, wanted), Due(packets, rules, interest, t.now), tr.done.out);
    SubsequenceTrans(tr.done.out, Eligible(packets, rules, interest, s.now), Converted(packets, maybe));
    assert s.outbound + [] == s.outbound;
  }

  /** What the events put on the stream: a numbered heartbeat for each tick, an update for each batch let out. */
  function Emitted(tr: Trace): seq<Update> {
    match tr
    case Start(_) => []
    case Then(before, h, _) =>
      match h.event
      case HeartbeatTick(sent) => if sent then Emitted(before) + [Heartbeat(before.Beats())] else Emitted(before)
      case Recv(_, sent) =>
        if sent && before.view.queue != [] && h.out != [] then
          Emitted(before) + [Batches(h.out, before.view.queue[0].stamp, before.view.queue[0].expiration)]
        else Emitted(before)
      case _ => Emitted(before)
  }

  /** The stream is exactly what the events put on it, in their order. */
  lemma {:induction false} StreamIsWhatWasEmitted(tr: Trace, c: Setup)
    requires tr.IsSession(c)
    ensures tr.view.outbound == Emitted(tr)
  {
    match tr
    case Start(_) =>
    case Then(before, h, t) =>
      StreamIsWhatWasEmitted(before, c);
      HeartbeatsCountUp(before, c);
      StreamStep(before.view, h, t, c);
  }

  // ---------------------------------------------------------------- what ends a session

  /** When the last reply was handled or, before any, the session began. */
  function LastReply(tr: Trace): Time {
    match tr
    case Start(view) => view.now
    case Then(before, h, t) => if h.event.Response? && h.event.reply.Message? then t.now else LastReply(before)
  }

  lemma {:induction false} ReplyIsNoted(tr: Trace, c: Setup)
    requires tr.IsSession(c)
    ensures tr.view.lastResponseAt == LastReply(tr)
  {
    match tr
    case Start(_) =>
    case Then(before, h, t) =>
      ReplyIsNoted(before, c);
      ReplyStep(before.view, h, t, c);
  }

  lemma ReplyStep(s: View, h: Handled, t: View, c: Setup)
    requires Handles(s, h, t, c)
    ensures t.lastResponseAt == if h.event.Response? && h.event.reply.Message? then t.now else s.lastResponseAt
  {}

  /** A refresh that cannot be met: the tokens a tick needs do not come. */
  predicate RefreshFails(held: T.Holding, h: Handled)
    requires held.access.expiresAt.Some? && held.refresh.expiresAt.Some? && h.event.AuthTick?
  {
    if held.refresh.expiresAt.value - h.recheck < 300_000_000_000 then
      !(match h.event.answer
        case Granted(Some(access), Some(refresh)) => access.expiresAt.Some? && refresh.expiresAt.Some?
        case _ => false)
    else
      && held.access.expiresAt.value - h.check < 300_000_000_000
      && (h.event.renewal.RefreshFailed? || h.event.renewal.access.None?)
  }

  /** What ends a session without a panic, `lastReply` being when the last reply came. */
  predicate EndedBy(s: View, h: Handled, lastReply: Time) {
    match h.event
    case Arrive(_) => false
    case Response(reply) => !reply.Message?
    case HeartbeatTick(sent) => !sent
    case Aoi(accounts) => !accounts.Message?
    case Poi(programs) => !programs.Message?
    case Recv(_, sent) => s.queue != [] && h.out != [] && !sent
    case ReceiverClosed => true
    case AuthTick(_, _) =>
      s.held.access.expiresAt.Some? && s.held.refresh.expiresAt.Some? && RefreshFails(s.held, h)
    case MetricsTick => h.check - lastReply > 30_000_000_000
  }

  /**
   * Every way a session ends, and no other: a stream that ends or breaks, a send that fails, a
   * closed receiver, more than thirty seconds without a reply at a metrics check, a refresh that
   * cannot be met; and a panic, exactly at a refresh tick that finds an access token without expiry.
   */
  lemma SessionEndsIff(tr: Trace, c: Setup)
    requires tr.IsSession(c) && tr.Then?
    ensures tr.Verdict() == Panic <==> tr.done.event.AuthTick? && tr.before.view.held.access.expiresAt.None?
    ensures tr.Verdict() == Disconnect <==> EndedBy(tr.before.view, tr.done, LastReply(tr.before))
  {
    ReplyIsNoted(tr.before, c);
    EndStep(tr.before.view, tr.done, tr.view, c);
  }

  lemma EndStep(s: View, h: Handled, t: View, c: Setup)
    requires Handles(s, h, t, c)
    ensures h.verdict == Panic <==> h.event.AuthTick? && s.held.access.expiresAt.None?
    ensures h.verdict == Disconnect <==> EndedBy(s, h, s.lastResponseAt)
  {}

  /** A session whose every metrics check comes at most thirty seconds after a reply. */
  ghost predicate Answered(tr: Trace) {
    match tr
    case Start(_) => true
    case Then(before, h, _) =>
      Answered(before) && (h.event.MetricsTick? ==> h.check - LastReply(before) <= 30_000_000_000)
  }

  /** Such a session is never ended by a metrics check. */
  lemma AnsweredSessionGoesOn(tr: Trace, c: Setup)
    requires tr.IsSession(c) && Answered(tr) && tr.Then? && tr.done.event.MetricsTick?
    ensures tr.Verdict() == Continue
  {
    SessionEndsIff(tr, c);
  }

  // ---------------------------------------------------------------- the tokens of a session

  /** The refresh ticks of a session, with the clock readings they met. */
  function AuthTicks(tr: Trace): seq<T.Event> {
    match tr
    case Start(_) => []
    case Then(before, h, t) =>
      if h.event.AuthTick? then
        AuthTicks(before) + [T.Event.AuthTick(h.check, h.recheck, t.now, h.event.answer, h.event.renewal)]
      else AuthTicks(before)
  }

  /**
   * The refresh ticks of every session that starts with the tokens of `auth` are ticks in the sense
   * of `TokenRefresh.Ticks`, so what holds of all of those holds of the tokens of a session.
   */
  lemma {:induction false} SessionTicks(tr: Trace, c: Setup)
      returns (held: seq<T.Holding>, results: seq<T.RefreshResult>)
    requires tr.IsSession(c)
    requires tr.First().held.access.expiresAt.Some? && tr.First().held.refresh.expiresAt.Some?
    ensures T.Ticks(held, AuthTicks(tr), results)
    ensures held[0] == tr.First().held && held[|held| - 1] == tr.view.held
    ensures tr.Verdict() == Continue ==>
              forall i :: 0 <= i < |results| ==> !results[i].Failed? && !results[i].Panicked?
  {
    match tr
    case Start(view) =>
      held, results := [view.held], [];
    case Then(before, h, t) =>
      held, results := SessionTicks(before, c);
      if h.event.AuthTick? {
        var e := T.Event.AuthTick(h.check, h.recheck, t.now, h.event.answer, h.event.renewal);
        var r := T.Tick(before.view.held, e.t1, e.t2, e.t3, e.answer, e.renewal).0;
        OneMoreTick(held, AuthTicks(before), results, e, r, t.held);
        held, results := held + [t.held], results + [r];
      } else {
        HeldStep(before.view, h, t, c);
      }
  }

  lemma HeldStep(s: View, h: Handled, t: View, c: Setup)
    requires Handles(s, h, t, c) && !h.event.AuthTick?
    ensures t.held == s.held
  {}

  lemma OneMoreTick(
      held: seq<T.Holding>, ticks: seq<T.Event>, results: seq<T.RefreshResult>, e: T.Event, r: T.RefreshResult,
      h: T.Holding)
    requires T.Ticks(held, ticks, results)
    requires forall i :: 0 <= i < |results| ==> !results[i].Failed? && !results[i].Panicked?
    requires e.AuthTick? && T.IsTick(held[|held| - 1], e, r, h)
    ensures T.Ticks(held + [h], ticks + [e], results + [r])
  {
    var more, all, ends := held + [h], ticks + [e], results + [r];
    forall i | 0 <= i < |all| ensures all[i].AuthTick? && T.IsTick(more[i], all[i], ends[i], more[i + 1]) {
      if i < |ticks| {
        assert T.IsTick(held[i], ticks[i], results[i], held[i + 1]);
      }
    }
  }
}
