/** The client side of authentication: `auth` and `maybe_refresh_auth` of block_engine/src/block_engine.rs. */
module TokenRefresh {
  import opened Prelude

  /** Tokens are renewed when less than this is left. */
  const EXPIRING_SOON: nat := 5 * 60 * NANOS_PER_SEC

  /** A token as the server hands it out and the client keeps it; the expiry is the server's own. */
  datatype Token = Token(value: string, expiresAt: Option<Time>)

  /** The answer to the whole challenge handshake, and to `RefreshAccessToken`. */
  datatype AuthAnswer = AuthFailed | Granted(access: Option<Token>, refresh: Option<Token>)

  datatype RefreshAnswer = RefreshFailed | Refreshed(access: Option<Token>)

  datatype RefreshResult = NotNeeded | Reauthenticated | AccessRenewed | Failed | Panicked

  /** How long a token is still valid; negative once it has expired. */
  function Left(t: Token, now: Time): int
    requires t.expiresAt.Some?
  {
    t.expiresAt.value - now
  }

  /** `auth` rejects an answer that lacks a token or an expiry. */
  predicate Complete(answer: AuthAnswer) {
    && answer.Granted?
    && answer.access.Some? && answer.refresh.Some?
    && answer.access.value.expiresAt.Some? && answer.refresh.value.expiresAt.Some?
  }

  /** On receipt the token has at least `life` left. */
  predicate LivesAtLeast(t: Token, received: Time, life: nat) {
    t.expiresAt.Some? && life <= Left(t, received)
  }

  /** Every access token the server grants lives at least `life` from its receipt. */
  predicate GrantsAtLeast(answer: AuthAnswer, renewal: RefreshAnswer, received: Time, life: nat) {
    && (Complete(answer) ==> LivesAtLeast(answer.access.value, received, life))
    && (renewal.Refreshed? && renewal.access.Some? ==> LivesAtLeast(renewal.access.value, received, life))
  }

  function Min(a: int, b: int): int { if a <= b then a else b }

  /** A `RefreshAccessToken` call: the token presented and what it had left when it was checked. */
  datatype Presented = Presented(token: Token, left: int)

  /**
   * The tokens in use. `checkedAt` is when the access token was last found fresh enough or
   * received; `presented` lists the `RefreshAccessToken` calls made.
   */
  datatype Holding = Holding(access: Token, refresh: Token, checkedAt: Option<Time>, presented: seq<Presented>)

  /**
   * One tick: `t1` and `t2` are when the two expiries are compared with the clock, `t3`
   * when the answer is in.
   */
  function Tick(h: Holding, t1: Time, t2: Time, t3: Time, answer: AuthAnswer, renewal: RefreshAnswer)
    : (r: (RefreshResult, Holding))
    requires h.refresh.expiresAt.Some?
    ensures r.1.refresh.expiresAt.Some?
    ensures r.0.Panicked? <==> h.access.expiresAt.None?
    ensures r.0.Panicked? || r.0.Failed? || r.0.NotNeeded? ==> r.1.access == h.access && r.1.refresh == h.refresh
    ensures r.0.AccessRenewed? ==> renewal == Refreshed(Some(r.1.access)) && r.1.refresh == h.refresh
    ensures r.0.Reauthenticated? ==> answer == Granted(Some(r.1.access), Some(r.1.refresh))
  {
    if h.access.expiresAt.None? then (Panicked, h)
    else if Left(h.refresh, t2) < EXPIRING_SOON then
      if !Complete(answer) then (Failed, h)
      else (Reauthenticated,
            Holding(answer.access.value, answer.refresh.value, Some(t3), h.presented))
    else if Left(h.access, t1) < EXPIRING_SOON then
      var h' := h.(presented := h.presented + [Presented(h.refresh, Left(h.refresh, t2))]);
      if renewal.RefreshFailed? || renewal.access.None? then (Failed, h')
      else (AccessRenewed, h'.(access := renewal.access.value, checkedAt := Some(t3)))
    else (NotNeeded, h.(checkedAt := Some(t1)))
  }

  class Tokens {
    var access: Token
    var refresh: Token
    ghost var checkedAt: Option<Time>
    ghost var presented: seq<Presented>

    constructor (access: Token, refresh: Token)
      requires access.expiresAt.Some? && refresh.expiresAt.Some?
      ensures Value() == Holding(access, refresh, None, [])
    {
      this.access, this.refresh := access, refresh;
      checkedAt, presented := None, [];
    }

    ghost function Value(): Holding
      reads this
    {
      Holding(access, refresh, checkedAt, presented)
    }

    /** `maybe_refresh_auth` */
    method MaybeRefreshAuth(clock: Clock, answer: AuthAnswer, renewal: RefreshAnswer)
        returns (r: RefreshResult, ghost t1: Time, ghost t2: Time, ghost t3: Time)
      requires refresh.expiresAt.Some?
      modifies this, clock
      ensures old(clock.now) <= t1 <= t2 <= t3 == clock.now
      ensures (r, Value()) == Tick(old(Value()), t1, t2, t3, answer, renewal)
    {
      t1, t2, t3 := clock.now, clock.now, clock.now;
      if access.expiresAt.None? { return Panicked, t1, t2, t3; }
      var accessCheck := clock.Read();
      var accessLeft := Left(access, accessCheck);
      var refreshCheck := clock.Read();
      var refreshLeft := Left(refresh, refreshCheck);
      t1, t2, t3 := accessCheck, refreshCheck, refreshCheck;
      match (refreshLeft < EXPIRING_SOON, accessLeft < EXPIRING_SOON) {
        case (true, _) =>
          if !Complete(answer) { return Failed, t1, t2, t3; }
          var received := clock.Read();
          t3 := received;
          refresh := answer.refresh.value;
          access := answer.access.value;
          checkedAt := Some(received);
          r := Reauthenticated;
        case (false, true) =>
          presented := presented + [Presented(refresh, refreshLeft)];
          if renewal.RefreshFailed? || renewal.access.None? { return Failed, t1, t2, t3; }
          var received := clock.Read();
          t3 := received;
          access := renewal.access.value;
          checkedAt := Some(received);
          r := AccessRenewed;
        case (false, false) =>
          checkedAt := Some(accessCheck);
          r := NotNeeded;
      }
    }
  }

  // ---------------------------------------------------------------- renewals without an expiry

  datatype Event =
    | Wait
    | AuthTick(t1: Time, t2: Time, t3: Time, answer: AuthAnswer, renewal: RefreshAnswer)

  /** A renewal whose token lacks an expiry is accepted like any other, and the tick after it panics. */
  lemma BareRenewalIsAccepted(h: Holding, e: Event, value: string, next: Event)
    requires h.access.expiresAt.Some? && h.refresh.expiresAt.Some? && e.AuthTick? && next.AuthTick?
    requires Left(h.access, e.t1) < EXPIRING_SOON <= Left(h.refresh, e.t2)
    requires e.renewal == Refreshed(Some(Token(value, None)))
    ensures var (r, h') := Tick(h, e.t1, e.t2, e.t3, e.answer, e.renewal);
            && r == AccessRenewed && h'.access == Token(value, None)
            && Tick(h', next.t1, next.t2, next.t3, next.answer, next.renewal).0 == Panicked
  {}

  /** The ticks of a session that starts with the tokens of `auth`; one that fails or panics is its last. */
  ghost predicate Ticks(held: seq<Holding>, ticks: seq<Event>, results: seq<RefreshResult>) {
    && |held| == |ticks| + 1 && |results| == |ticks|
    && held[0].access.expiresAt.Some?
    && (forall i :: 0 <= i < |held| ==> held[i].refresh.expiresAt.Some?)
    && (forall i :: 0 <= i < |ticks| ==> ticks[i].AuthTick? && IsTick(held[i], ticks[i], results[i], held[i + 1]))
    && (forall i :: 0 <= i < |ticks| - 1 ==> !results[i].Failed? && !results[i].Panicked?)
  }

  ghost predicate IsTick(h: Holding, e: Event, r: RefreshResult, h': Holding)
    requires h.refresh.expiresAt.Some? && e.AuthTick?
  {
    (r, h') == Tick(h, e.t1, e.t2, e.t3, e.answer, e.renewal)
  }

  /** Among the first `n` ticks, the last that brought a new access token was a renewal without an expiry. */
  ghost predicate LastRenewalBare(ticks: seq<Event>, results: seq<RefreshResult>, n: nat)
    requires n <= |ticks| == |results|
  {
    exists k :: 0 <= k < n && BareRenewal(ticks[k], results[k]) && forall m :: k < m < n ==> results[m].NotNeeded?
  }

  predicate BareRenewal(e: Event, r: RefreshResult) {
    && r.AccessRenewed? && e.AuthTick? && e.renewal.Refreshed?
    && e.renewal.access.Some? && e.renewal.access.value.expiresAt.None?
  }

  /** In every session a tick panics if and only if the last renewal before it carried no expiry. */
  lemma PanicsIffLastRenewalBare(held: seq<Holding>, ticks: seq<Event>, results: seq<RefreshResult>, n: nat)
    requires Ticks(held, ticks, results) && n < |ticks|
    ensures results[n].Panicked? <==> LastRenewalBare(ticks, results, n)
  {
    assert IsTick(held[n], ticks[n], results[n], held[n + 1]);
    if held[n].access.expiresAt.None? {
      assert IsTick(held[n - 1], ticks[n - 1], results[n - 1], held[n - 1 + 1]);
      assert BareRenewal(ticks[n - 1], results[n - 1]);
    }
    if k :| 0 <= k < n && BareRenewal(ticks[k], results[k]) && forall m :: k < m < n ==> results[m].NotNeeded? {
      assert IsTick(held[k], ticks[k], results[k], held[k + 1]);
      assert IsTick(held[k + 1], ticks[k + 1], results[k + 1], held[k + 1 + 1]);
    }
  }

  // ---------------------------------------------------------------- which tokens are held, and why

  /** `auth` accepts the answer: both tokens, each with an expiry. */
  ghost predicate GrantsBoth(answer: AuthAnswer, access: Token, refresh: Token) {
    answer == Granted(Some(access), Some(refresh)) && access.expiresAt.Some? && refresh.expiresAt.Some?
  }

  /** Tick `k` is the last of the first `n` that ended in a new handshake. */
  ghost predicate LastHandshake(results: seq<RefreshResult>, k: nat, n: nat)
    requires n <= |results|
  {
    k < n && results[k].Reauthenticated? && forall m :: k < m < n ==> !results[m].Reauthenticated?
  }

  predicate Brings(r: RefreshResult) { r.Reauthenticated? || r.AccessRenewed? }

  /** Tick `k` is the last of the first `n` that brought an access token. */
  ghost predicate LastAccess(results: seq<RefreshResult>, k: nat, n: nat)
    requires n <= |results|
  {
    k < n && Brings(results[k]) && forall m :: k < m < n ==> !Brings(results[m])
  }

  /** The tick brought this access token, by a handshake or by a renewal. */
  predicate BroughtBy(e: Event, r: RefreshResult, access: Token) {
    && e.AuthTick?
    && (if r.Reauthenticated? then e.answer.Granted? && e.answer.access == Some(access)
        else e.renewal == Refreshed(Some(access)))
  }

  lemma AccessStep(h: Holding, e: Event, r: RefreshResult, h': Holding)
    requires h.refresh.expiresAt.Some? && e.AuthTick? && IsTick(h, e, r, h')
    ensures if Brings(r) then BroughtBy(e, r, h'.access) else h'.access == h.access
  {}

  /**
   * The refresh token held is that of the last handshake: of the last tick that ended in one, or
   * else the one the session started with.
   */
  lemma {:induction false} RefreshTokenHeld(held: seq<Holding>, ticks: seq<Event>, results: seq<RefreshResult>, n: nat)
    requires Ticks(held, ticks, results) && n <= |ticks|
    ensures (forall m :: 0 <= m < n ==> !results[m].Reauthenticated?) ==> held[n].refresh == held[0].refresh
    ensures forall k: nat :: LastHandshake(results, k, n) ==>
                          ticks[k].answer.Granted? && ticks[k].answer.refresh == Some(held[n].refresh)
  {
    if n > 0 {
      RefreshTokenHeld(held, ticks, results, n - 1);
      assert IsTick(held[n - 1], ticks[n - 1], results[n - 1], held[n - 1 + 1]);
      forall k: nat | LastHandshake(results, k, n) && k < n - 1 ensures LastHandshake(results, k, n - 1) {}
    }
  }

  /**
   * The access token held is the one brought by the last tick that brought any, by a handshake
   * or by a renewal, or else the one the session started with.
   */
  lemma {:induction false} AccessTokenHeld(held: seq<Holding>, ticks: seq<Event>, results: seq<RefreshResult>, n: nat)
    requires Ticks(held, ticks, results) && n <= |ticks|
    ensures (forall m :: 0 <= m < n ==> !Brings(results[m])) ==> held[n].access == held[0].access
    ensures forall k: nat :: LastAccess(results, k, n) ==> BroughtBy(ticks[k], results[k], held[n].access)
  {
    if n > 0 {
      AccessTokenHeld(held, ticks, results, n - 1);
      assert IsTick(held[n - 1], ticks[n - 1], results[n - 1], held[n - 1 + 1]);
      AccessStep(held[n - 1], ticks[n - 1], results[n - 1], held[n]);
      forall k: nat | LastAccess(results, k, n) ensures BroughtBy(ticks[k], results[k], held[n].access) {
        if k < n - 1 {
          assert LastAccess(results, k, n - 1);
          assert !Brings(results[n - 1]);
        }
      }
    }
  }

  /**
   * How a tick ends, from the tokens held and the answers alone. With less than five minutes left
   * of the refresh token only a handshake helps; otherwise, with less than five minutes left of the
   * access token, only a renewal does; otherwise nothing is asked for.
   */
  lemma TickEndsIff(held: seq<Holding>, ticks: seq<Event>, results: seq<RefreshResult>, n: nat)
    requires Ticks(held, ticks, results) && n < |ticks|
    requires held[n].access.expiresAt.Some?
    ensures var e, fiveMinutes := ticks[n], 300_000_000_000;
            var expiring := held[n].refresh.expiresAt.value - e.t2 < fiveMinutes;
            var stale := !expiring && held[n].access.expiresAt.value - e.t1 < fiveMinutes;
            && (results[n].Reauthenticated? <==> expiring && exists a, r :: GrantsBoth(e.answer, a, r))
            && (results[n].AccessRenewed? <==> stale && exists a :: e.renewal == Refreshed(Some(a)))
            && (results[n].NotNeeded? <==> !expiring && !stale)
            && !results[n].Panicked?
            && held[n + 1].presented == held[n].presented + (
                 if stale then [Presented(held[n].refresh, held[n].refresh.expiresAt.value - e.t2)] else [])
  {
    var e := ticks[n];
    assert IsTick(held[n], e, results[n], held[n + 1]);
    if Complete(e.answer) { assert GrantsBoth(e.answer, e.answer.access.value, e.answer.refresh.value); }
    assert held[n].presented + [] == held[n].presented;
  }

  // ---------------------------------------------------------------- a session, timed

  datatype State = State(now: Time, holding: Holding)

  /** Ticks are handled at most `gap` apart. */
  predicate OnTime(h: Holding, now: Time, gap: nat) {
    h.checkedAt.Some? ==> now <= h.checkedAt.value + gap
  }

  ghost predicate Next(s: State, e: Event, t: State, gap: nat) {
    && s.now <= t.now
    && OnTime(s.holding, t.now, gap) && OnTime(t.holding, t.now, gap)
    && s.holding.refresh.expiresAt.Some?
    && match e
       case Wait => t.holding == s.holding
       case AuthTick(t1, t2, t3, answer, renewal) =>
         && s.now <= t1 <= t2 <= t3 == t.now
         && var (r, h) := Tick(s.holding, t1, t2, t3, answer, renewal);
            !r.Failed? && !r.Panicked? && t.holding == h
  }

  ghost predicate Run(states: seq<State>, events: seq<Event>, gap: nat) {
    && |states| == |events| + 1
    && (forall i :: 0 <= i < |events| ==> Next(states[i], events[i], states[i + 1], gap))
  }

  ghost predicate Fresh(s: State, life: nat) {
    && (s.holding.checkedAt.Some? ==>
          && s.holding.access.expiresAt.Some? && s.holding.checkedAt.value <= s.now
          && Min(EXPIRING_SOON, life) <= Left(s.holding.access, s.holding.checkedAt.value))
    && (forall i :: 0 <= i < |s.holding.presented| ==>
                      && s.holding.presented[i].token.expiresAt.Some?
                      && EXPIRING_SOON <= s.holding.presented[i].left)
  }

  lemma FreshStep(s: State, e: Event, t: State, gap: nat, life: nat)
    requires Fresh(s, life) && Next(s, e, t, gap)
    requires e.AuthTick? ==> GrantsAtLeast(e.answer, e.renewal, e.t3, life)
    ensures Fresh(t, life)
    ensures e.AuthTick? || s.holding.checkedAt.Some? ==> t.holding.checkedAt.Some?
  {}

  /** A token found fresh enough at most `gap` ago. */
  lemma FreshLeft(s: State, gap: nat, life: nat)
    requires Fresh(s, life) && OnTime(s.holding, s.now, gap) && s.holding.checkedAt.Some?
    ensures s.holding.access.expiresAt.Some?
    ensures Min(EXPIRING_SOON, life) - gap <= Left(s.holding.access, s.now)
  {}

  /**
   * Token freshness. In every session that starts with the tokens of `auth`, ticks handled
   * at most `gap` apart and access tokens granted for at least `life`: at every moment after
   * the first tick the access token has at least min(five minutes, `life`) - `gap` left, and
   * every refresh token presented had five minutes left when it was checked.
   */
  lemma {:induction false} AccessTokenStaysFresh(
      states: seq<State>, events: seq<Event>, gap: nat, life: nat, i: nat)
    requires Run(states, events, gap) && i < |states|
    requires states[0].holding.checkedAt.None? && states[0].holding.presented == []
    requires forall k :: 0 <= k < |events| && events[k].AuthTick? ==>
                           GrantsAtLeast(events[k].answer, events[k].renewal, events[k].t3, life)
    ensures Fresh(states[i], life)
    ensures (exists k :: 0 <= k < i && events[k].AuthTick?) ==>
              && states[i].holding.checkedAt.Some? && states[i].holding.access.expiresAt.Some?
              && Min(EXPIRING_SOON, life) - gap <= Left(states[i].holding.access, states[i].now)
  {
    if i > 0 {
      AccessTokenStaysFresh(states, events, gap, life, i - 1);
      assert Next(states[i - 1], events[i - 1], states[i - 1 + 1], gap);
      FreshStep(states[i - 1], events[i - 1], states[i], gap, life);
      if states[i].holding.checkedAt.Some? { FreshLeft(states[i], gap, life); }
    }
  }
}
