/**
 * The handlers of relayer/src/auth_service.rs as atomic steps: one call runs from its first
 * lock to its last with nothing in between.
 */
module AuthService {
  import opened Prelude
  import opened AuthTypes
  import opened AuthChallenges

  const AUTH_CHALLENGES_CAPACITY: nat := 100_000

  datatype Config = Config(accessTtl: nat, refreshTtl: nat, challengeTtl: nat)

  /** The stored challenges, and every token signed so far. */
  datatype AuthState = AuthState(store: Store, issued: set<Token>)

  /** `ip` is missing when the transport has no peer address, `pubkey` when it is not 32 bytes. */
  datatype ChallengeRequest = ChallengeRequest(ip: Option<Ip>, isValidator: bool, pubkey: Option<Pubkey>)

  datatype TokensRequest = TokensRequest(ip: Option<Ip>, pubkey: Option<Pubkey>, text: Text, signature: Signature)

  /** The clock readings of a challenge call, in order. */
  datatype Stamps = Stamps(check: Time, access: Time, refresh: Time, expiry: Time)

  function MakeChallenge(ip: Ip, pubkey: Pubkey, nonce: Nonce, at: Stamps, config: Config): Challenge {
    Challenge(nonce, Claims(ip, pubkey, at.access + config.accessTtl),
              Claims(ip, pubkey, at.refresh + config.refreshTtl), at.expiry + config.challengeTtl)
  }

  function ChallengeStep(
      s: AuthState, req: ChallengeRequest, healthy: bool, authorised: set<Pubkey>, at: Stamps, nonce: Nonce,
      config: Config)
    : (AuthState, Result<Nonce, Status>)
  {
    if !healthy then (s, Err(Internal))
    else if |s.store| >= AUTH_CHALLENGES_CAPACITY then (s, Err(ResourceExhausted))
    else if req.ip.None? then (s, Err(Internal))
    else if req.ip.value in s.store && !IsExpired(s.store[req.ip.value].expiresAt, at.check) then
      (s, Ok(s.store[req.ip.value].nonce))
    else if !req.isValidator || req.pubkey.None? then (s, Err(InvalidArgument))
    else if req.pubkey.value !in authorised then (s, Err(PermissionDenied))
    else
      var c := MakeChallenge(req.ip.value, req.pubkey.value, nonce, at, config);
      (s.(store := s.store[req.ip.value := c]), Ok(nonce))
  }

  /** What stands between a tokens request and its tokens, in the order it is checked. */
  function TokensError(s: AuthState, req: TokensRequest, healthy: bool): Option<Status> {
    if !healthy || req.ip.None? then Some(Internal)
    else if req.pubkey.None? then Some(InvalidArgument)
    else if req.ip.value !in s.store then Some(PermissionDenied)
    else if s.store[req.ip.value].access.pubkey != req.pubkey.value then Some(PermissionDenied)
    else if req.text != Expected(req.pubkey.value, s.store[req.ip.value].nonce) then Some(InvalidArgument)
    else if !Verifies(req.signature, req.pubkey.value, req.text) then Some(InvalidArgument)
    else None
  }

  function TokensStep(s: AuthState, req: TokensRequest, healthy: bool): (AuthState, Result<(Token, Token), Status>) {
    var e := TokensError(s, req, healthy);
    if e.Some? then (s, Err(e.value))
    else
      var c := s.store[req.ip.value];
      var access, refresh := Issue(c.access), Issue(c.refresh);
      (AuthState(s.store - {req.ip.value}, s.issued + {access, refresh}), Ok((access, refresh)))
  }

  function RefreshStep(s: AuthState, token: Token, healthy: bool, check: Time, stamp: Time, config: Config)
    : (AuthState, Result<Token, Status>)
  {
    if !healthy then (s, Err(Internal))
    else if token !in s.issued || IsExpired(token.claims.expiresAt, check) then (s, Err(PermissionDenied))
    else
      var access := Issue(token.claims.(expiresAt := stamp + config.accessTtl));
      (s.(issued := s.issued + {access}), Ok(access))
  }

  class AuthService {
    const config: Config
    const clock: Clock
    const challenges: AuthChallenges
    var issued: set<Token>

    constructor (config: Config, clock: Clock)
      ensures this.config == config && this.clock == clock && fresh(challenges)
      ensures Value() == AuthState(map[], {})
    {
      this.config, this.clock, this.issued := config, clock, {};
      challenges := new AuthChallenges();
    }

    ghost function Value(): AuthState
      reads this, challenges
    {
      AuthState(challenges.queue, issued)
    }

    method GenerateAuthChallenge(req: ChallengeRequest, healthy: bool, authorised: set<Pubkey>, nonce: Nonce)
        returns (r: Result<Nonce, Status>, ghost at: Stamps)
      modifies challenges, clock
      ensures old(clock.now) <= at.check <= at.access <= at.refresh <= at.expiry <= clock.now
      ensures (Value(), r) == ChallengeStep(old(Value()), req, healthy, authorised, at, nonce, config)
      ensures r.Ok? <==>
                && healthy && |old(challenges.queue)| < 100_000 && req.ip.Some?
                && (|| (req.ip.value in old(challenges.queue)
                        && at.check < old(challenges.queue)[req.ip.value].expiresAt)
                    || (req.isValidator && req.pubkey.Some? && req.pubkey.value in authorised))
    {
      var check, access, refresh, expiry := clock.now, clock.now, clock.now, clock.now;
      at := Stamps(check, access, refresh, expiry);
      if !healthy { return Err(Internal), at; }
      var n := challenges.Len();
      if n >= AUTH_CHALLENGES_CAPACITY { return Err(ResourceExhausted), at; }
      if req.ip.None? { return Err(Internal), at; }
      var known := challenges.GetPriority(req.ip.value);
      check := clock.Read();
      at := Stamps(check, check, check, check);
      if known.Some? && !IsExpired(known.value.expiresAt, check) { return Ok(known.value.nonce), at; }
      if !req.isValidator || req.pubkey.None? { return Err(InvalidArgument), at; }
      if req.pubkey.value !in authorised { return Err(PermissionDenied), at; }
      access := clock.Read();
      refresh := clock.Read();
      expiry := clock.Read();
      at := Stamps(check, access, refresh, expiry);
      var stamps := Stamps(check, access, refresh, expiry);
      challenges.Push(req.ip.value, MakeChallenge(req.ip.value, req.pubkey.value, nonce, stamps, config));
      r := Ok(nonce);
    }

    method GenerateAuthTokens(req: TokensRequest, healthy: bool) returns (r: Result<(Token, Token), Status>)
      modifies this, challenges
      ensures (Value(), r) == TokensStep(old(Value()), req, healthy)
      ensures r.Ok? <==>
                && healthy && req.ip.Some? && req.pubkey.Some? && req.ip.value in old(challenges.queue)
                && var c := old(challenges.queue)[req.ip.value];
                   && c.access.pubkey == req.pubkey.value && req.text == Expected(req.pubkey.value, c.nonce)
                   && req.signature == Signature(req.pubkey.value, req.text)
    {
      if !healthy { return Err(Internal); }
      if req.ip.None? { return Err(Internal); }
      if req.pubkey.None? { return Err(InvalidArgument); }
      var c := challenges.GetPriority(req.ip.value);
      if c.None? { return Err(PermissionDenied); }
      if c.value.access.pubkey != req.pubkey.value { return Err(PermissionDenied); }
      if req.text != Expected(req.pubkey.value, c.value.nonce) { return Err(InvalidArgument); }
      if !Verifies(req.signature, req.pubkey.value, req.text) { return Err(InvalidArgument); }
      var access, refresh := Issue(c.value.access), Issue(c.value.refresh);
      issued := issued + {access, refresh};
      challenges.Remove(req.ip.value);
      r := Ok((access, refresh));
    }

    method RefreshAccessToken(token: Token, healthy: bool)
        returns (r: Result<Token, Status>, ghost check: Time, ghost stamp: Time)
      modifies this, clock
      ensures old(clock.now) <= check <= stamp <= clock.now
      ensures (Value(), r) == RefreshStep(old(Value()), token, healthy, check, stamp, config)
      ensures r.Ok? <==> healthy && token in old(issued) && check < token.claims.expiresAt
    {
      check, stamp := clock.now, clock.now;
      if !healthy { return Err(Internal), check, stamp; }
      if token !in issued { return Err(PermissionDenied), check, stamp; }
      var now := clock.Read();
      check, stamp := now, now;
      if IsExpired(token.claims.expiresAt, now) { return Err(PermissionDenied), check, stamp; }
      var later := clock.Read();
      stamp := later;
      var access := Issue(Claims(token.claims.ip, token.claims.pubkey, later + config.accessTtl));
      issued := issued + {access};
      r := Ok(access);
    }
  }

  // ---------------------------------------------------------------- runs of atomic handlers

  datatype Event =
    | ChallengeCall(req: ChallengeRequest, healthy: bool, authorised: set<Pubkey>, at: Stamps, nonce: Nonce)
    | TokensCall(tokensReq: TokensRequest, healthy: bool)
    | RefreshCall(token: Token, healthy: bool, check: Time, stamp: Time)
    | ExpirationTask(lookedAt: Time)

  /** What the caller is told. */
  datatype Answer =
    | ForChallenge(nonce: Result<Nonce, Status>)
    | ForTokens(pair: Result<(Token, Token), Status>)
    | ForRefresh(access: Result<Token, Status>)
    | Nothing

  function Apply(s: AuthState, e: Event, config: Config): (AuthState, Answer) {
    match e
    case ChallengeCall(req, healthy, authorised, at, nonce) =>
      var (t, r) := ChallengeStep(s, req, healthy, authorised, at, nonce, config); (t, ForChallenge(r))
    case TokensCall(req, healthy) =>
      var (t, r) := TokensStep(s, req, healthy); (t, ForTokens(r))
    case RefreshCall(token, healthy, check, stamp) =>
      var (t, r) := RefreshStep(s, token, healthy, check, stamp, config); (t, ForRefresh(r))
    case ExpirationTask(lookedAt) => (s.(store := NotExpired(s.store, lookedAt)), Nothing)
  }

  /** Everything that happened to a service since it started, call by call, with the answers given. */
  ghost predicate Run(states: seq<AuthState>, events: seq<Event>, answers: seq<Answer>, config: Config) {
    && |states| == |events| + 1 && |answers| == |events|
    && states[0] == AuthState(map[], {})
    && (forall i :: 0 <= i < |events| ==> (states[i + 1], answers[i]) == Apply(states[i], events[i], config))
  }

  /** Later calls and expirations read later times. */
  ghost predicate Timed(events: seq<Event>) {
    forall i, j :: 0 <= i < j < |events| && events[j].ChallengeCall? ==>
                     && (events[i].ChallengeCall? ==> events[i].at.check <= events[j].at.check)
                     && (events[i].ExpirationTask? ==> events[i].lookedAt <= events[j].at.check)
  }

  /** What arrives at the service: calls with what they find, and the expiration task's turn. */
  datatype Request =
    | AskChallenge(req: ChallengeRequest, healthy: bool, authorised: set<Pubkey>, nonce: Nonce)
    | AskTokens(tokensReq: TokensRequest, healthy: bool)
    | AskRefresh(token: Token, healthy: bool)
    | Expiration

  /** The request as it was handled, with the clock readings it met. */
  predicate Handles(e: Event, q: Request) {
    match q
    case AskChallenge(req, healthy, authorised, nonce) =>
      e.ChallengeCall? && e == ChallengeCall(req, healthy, authorised, e.at, nonce)
    case AskTokens(req, healthy) => e == TokensCall(req, healthy)
    case AskRefresh(token, healthy) => e.RefreshCall? && e == RefreshCall(token, healthy, e.check, e.stamp)
    case Expiration => e.ExpirationTask?
  }

  /** No reading of these events is later than `now`. */
  ghost predicate NotAfter(events: seq<Event>, now: Time) {
    forall i :: 0 <= i < |events| ==>
                  && (events[i].ChallengeCall? ==> events[i].at.check <= now)
                  && (events[i].ExpirationTask? ==> events[i].lookedAt <= now)
  }

  /** One request. */
  method ServeOne(service: AuthService, q: Request) returns (a: Answer, ghost e: Event)
    modifies service, service.challenges, service.clock
    ensures Handles(e, q) && (service.Value(), a) == Apply(old(service.Value()), e, service.config)
    ensures old(service.clock.now) <= service.clock.now && NotAfter([e], service.clock.now)
    ensures e.ChallengeCall? ==> old(service.clock.now) <= e.at.check
  {
    match q {
      case AskChallenge(req, healthy, authorised, nonce) =>
        var r;
        ghost var at;
        r, at := service.GenerateAuthChallenge(req, healthy, authorised, nonce);
        a, e := ForChallenge(r), ChallengeCall(req, healthy, authorised, at, nonce);
      case AskTokens(req, healthy) =>
        var r := service.GenerateAuthTokens(req, healthy);
        a, e := ForTokens(r), TokensCall(req, healthy);
      case AskRefresh(token, healthy) =>
        var r;
        ghost var check, stamp;
        r, check, stamp := service.RefreshAccessToken(token, healthy);
        a, e := ForRefresh(r), RefreshCall(token, healthy, check, stamp);
      case Expiration =>
        var lookedAt := service.challenges.RemoveAllExpired(service.clock);
        a, e := Nothing, ExpirationTask(lookedAt);
    }
  }

  /** A service from its start: whatever it is asked, what it does is a run, and its readings never go back. */
  method Serve(service: AuthService, requests: seq<Request>)
      returns (answers: seq<Answer>, ghost states: seq<AuthState>, ghost events: seq<Event>)
    requires service.Value() == AuthState(map[], {})
    modifies service, service.challenges, service.clock
    ensures Run(states, events, answers, service.config) && Timed(events)
    ensures |events| == |requests| && states[|events|] == service.Value()
    ensures forall i :: 0 <= i < |events| ==> Handles(events[i], requests[i])
  {
    answers, states, events := [], [service.Value()], [];
    for n := 0 to |requests|
      invariant |events| == n && Run(states, events, answers, service.config) && Timed(events)
      invariant states[n] == service.Value() && NotAfter(events, service.clock.now)
      invariant forall i :: 0 <= i < n ==> Handles(events[i], requests[i])
    {
      ghost var before := service.clock.now;
      var a;
      ghost var e;
      a, e := ServeOne(service, requests[n]);
      RunNext(states, events, answers, service.config, e, a, service.Value());
      TimedNext(events, before, e, service.clock.now);
      answers, states, events := answers + [a], states + [service.Value()], events + [e];
    }
  }

  lemma RunNext(
      states: seq<AuthState>, events: seq<Event>, answers: seq<Answer>, config: Config, e: Event, a: Answer,
      t: AuthState)
    requires Run(states, events, answers, config) && (t, a) == Apply(states[|events|], e, config)
    ensures Run(states + [t], events + [e], answers + [a], config)
  {
    var ss, es, rs := states + [t], events + [e], answers + [a];
    forall i | 0 <= i < |es| ensures (ss[i + 1], rs[i]) == Apply(ss[i], es[i], config) {
      if i < |events| { assert (states[i + 1], answers[i]) == Apply(states[i], events[i], config); }
    }
  }

  lemma TimedNext(events: seq<Event>, before: Time, e: Event, now: Time)
    requires Timed(events) && NotAfter(events, before) && before <= now && NotAfter([e], now)
    requires e.ChallengeCall? ==> before <= e.at.check
    ensures Timed(events + [e]) && NotAfter(events + [e], now)
  {
    assert [e][0] == e;
  }

  /** A challenge call from this address, and what it answered. */
  predicate Challenged(e: Event, a: Answer, ip: Ip, nonce: Nonce) {
    e.ChallengeCall? && e.req.ip == Some(ip) && a == ForChallenge(Ok(nonce))
  }

  /** A tokens call from this address that was given tokens. */
  predicate Redeems(e: Event, a: Answer, ip: Ip) {
    e.TokensCall? && e.tokensReq.ip == Some(ip) && a.ForTokens? && a.pair.Ok?
  }

  lemma {:induction false} ChallengePersists(
      states: seq<AuthState>, events: seq<Event>, answers: seq<Answer>, config: Config, i: nat, k: nat, ip: Ip,
      check: Time)
    requires Run(states, events, answers, config)
    requires i <= k < |states| && ip in states[i].store && !IsExpired(states[i].store[ip].expiresAt, check)
    requires forall m :: i <= m < k ==> !Redeems(events[m], answers[m], ip)
    requires forall m :: i <= m < k ==> (events[m].ChallengeCall? ==> events[m].at.check <= check)
                                        && (events[m].ExpirationTask? ==> events[m].lookedAt <= check)
    ensures ip in states[k].store && states[k].store[ip] == states[i].store[ip]
  {
    if i < k {
      ChallengePersists(states, events, answers, config, i, k - 1, ip, check);
      assert (states[k - 1 + 1], answers[k - 1]) == Apply(states[k - 1], events[k - 1], config);
      assert !Redeems(events[k - 1], answers[k - 1], ip);
    }
  }

  /** Until it expires or is redeemed, an address is always answered with the same challenge. */
  lemma SameChallengeUntilExpiryOrRedemption(
      states: seq<AuthState>, events: seq<Event>, answers: seq<Answer>, config: Config, i: nat, j: nat, ip: Ip,
      first: Nonce, second: Nonce)
    requires Run(states, events, answers, config) && Timed(events)
    requires i < j < |events|
    requires Challenged(events[i], answers[i], ip, first) && Challenged(events[j], answers[j], ip, second)
    requires ip in states[i + 1].store ==> !IsExpired(states[i + 1].store[ip].expiresAt, events[j].at.check)
    requires forall m :: i < m < j ==> !Redeems(events[m], answers[m], ip)
    ensures first == second
  {
    assert (states[i + 1], answers[i]) == Apply(states[i], events[i], config);
    assert (states[j + 1], answers[j]) == Apply(states[j], events[j], config);
    ChallengePersists(states, events, answers, config, i + 1, j, ip, events[j].at.check);
  }

  /** Each draw is fresh. */
  ghost predicate FreshNonces(events: seq<Event>) {
    forall i, j :: 0 <= i < j < |events| && events[i].ChallengeCall? && events[j].ChallengeCall? ==>
                     events[i].nonce != events[j].nonce
  }

  ghost predicate DrawnBefore(events: seq<Event>, n: nat, nonce: Nonce)
    requires n <= |events|
  {
    exists k :: 0 <= k < n && events[k].ChallengeCall? && events[k].nonce == nonce
  }

  /** Stored challenges were drawn earlier, and no two addresses share one. */
  ghost predicate StoreInv(s: AuthState, events: seq<Event>, n: nat)
    requires n <= |events|
  {
    && (forall ip :: ip in s.store ==> DrawnBefore(events, n, s.store[ip].nonce))
    && (forall ip, other :: ip in s.store && other in s.store && s.store[ip].nonce == s.store[other].nonce ==>
                              ip == other)
  }

  lemma DrawnLater(events: seq<Event>, n: nat, nonce: Nonce)
    requires n < |events| && DrawnBefore(events, n, nonce)
    ensures DrawnBefore(events, n + 1, nonce)
  {
    var k :| 0 <= k < n && events[k].ChallengeCall? && events[k].nonce == nonce;
    assert events[k].nonce == nonce;
  }

  /** A stored challenge is an old one or the one just drawn. */
  lemma StoredBefore(s: AuthState, e: Event, config: Config, ip: Ip)
    requires ip in Apply(s, e, config).0.store
    ensures var t := Apply(s, e, config).0;
            || (ip in s.store && t.store[ip] == s.store[ip])
            || (e.ChallengeCall? && e.req.ip == Some(ip) && t.store[ip].nonce == e.nonce)
  {}

  lemma StoreInvStep(s: AuthState, events: seq<Event>, n: nat, config: Config)
    requires n < |events| && FreshNonces(events) && StoreInv(s, events, n)
    ensures StoreInv(Apply(s, events[n], config).0, events, n + 1)
  {
    var e, t := events[n], Apply(s, events[n], config).0;
    if e.ChallengeCall? {
      assert DrawnBefore(events, n + 1, e.nonce) && !DrawnBefore(events, n, e.nonce);
    }
    forall ip | ip in t.store ensures DrawnBefore(events, n + 1, t.store[ip].nonce) {
      StoredBefore(s, e, config, ip);
      if ip in s.store { DrawnLater(events, n, s.store[ip].nonce); }
    }
    forall ip, other | ip in t.store && other in t.store && t.store[ip].nonce == t.store[other].nonce
      ensures ip == other
    {
      StoredBefore(s, e, config, ip);
      StoredBefore(s, e, config, other);
    }
  }

  lemma {:induction false} StoreInvAlways(
      states: seq<AuthState>, events: seq<Event>, answers: seq<Answer>, config: Config, n: nat)
    requires Run(states, events, answers, config) && FreshNonces(events) && n < |states|
    ensures StoreInv(states[n], events, n)
  {
    if n > 0 {
      StoreInvAlways(states, events, answers, config, n - 1);
      assert (states[n - 1 + 1], answers[n - 1]) == Apply(states[n - 1], events[n - 1], config);
      StoreInvStep(states[n - 1], events, n - 1, config);
    }
  }

  lemma {:induction false} RedeemedNeverReturns(
      states: seq<AuthState>, events: seq<Event>, answers: seq<Answer>, config: Config, i: nat, m: nat, ip: Ip)
    requires Run(states, events, answers, config) && FreshNonces(events)
    requires i < m < |states| && Redeems(events[i], answers[i], ip)
    ensures ip in states[i].store
    ensures forall other :: other in states[m].store ==> states[m].store[other].nonce != states[i].store[ip].nonce
  {
    StoreInvAlways(states, events, answers, config, i);
    assert (states[i + 1], answers[i]) == Apply(states[i], events[i], config);
    assert (states[m - 1 + 1], answers[m - 1]) == Apply(states[m - 1], events[m - 1], config);
    if i + 1 < m {
      RedeemedNeverReturns(states, events, answers, config, i, m - 1, ip);
      var k :| 0 <= k < i && events[k].ChallengeCall? && events[k].nonce == states[i].store[ip].nonce;
      if events[m - 1].ChallengeCall? {
        assert events[m - 1].nonce != events[k].nonce;
      }
    }
  }

  /** A challenge yields at most one pair of tokens: no two redemptions ever share one. */
  lemma OnePairPerChallenge(
      states: seq<AuthState>, events: seq<Event>, answers: seq<Answer>, config: Config, i: nat, j: nat, ip: Ip,
      other: Ip)
    requires Run(states, events, answers, config) && FreshNonces(events)
    requires i < j < |events| && Redeems(events[i], answers[i], ip) && Redeems(events[j], answers[j], other)
    ensures ip in states[i].store && other in states[j].store
    ensures states[i].store[ip].nonce != states[j].store[other].nonce
  {
    RedeemedNeverReturns(states, events, answers, config, i, j, ip);
    assert (states[j + 1], answers[j]) == Apply(states[j], events[j], config);
  }
}
