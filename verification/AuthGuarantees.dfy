/**
 * What relayer/src/auth_service.rs answers, and why: for every run of its handlers, each answer is
 * determined by the state it was given in, and whatever the service holds is accounted for by the
 * calls it was given.
 */
module AuthGuarantees {
  import opened Prelude
  import opened AuthTypes
  import opened AuthChallenges
  import opened AuthService
  import P = AuthProtocol

  // ---------------------------------------------------------------- each answer

  /** The address has a stored challenge that has not expired by `now`. */
  predicate HasLive(s: AuthState, ip: Option<Ip>, now: Time) {
    ip.Some? && ip.value in s.store && now < s.store[ip.value].expiresAt
  }

  /** The call is for a validator with a well-formed key that is authorised. */
  predicate MayAsk(e: Event)
    requires e.ChallengeCall?
  {
    e.req.isValidator && e.req.pubkey.Some? && e.req.pubkey.value in e.authorised
  }

  /** The challenge a call draws: both claims for its address and key, each expiry counted from its own stamp. */
  predicate DrawnBy(c: Challenge, e: Event, ip: Ip, pubkey: Pubkey, config: Config) {
    && e.ChallengeCall? && c.nonce == e.nonce
    && c.access == Claims(ip, pubkey, e.at.access + config.accessTtl)
    && c.refresh == Claims(ip, pubkey, e.at.refresh + config.refreshTtl)
    && c.expiresAt == e.at.expiry + config.challengeTtl
  }

  /**
   * A challenge call is answered exactly when the service is healthy, has room and knows the
   * address, and either the address has a live challenge, which is the answer, or the call is for an
   * authorised validator, which gets a new one in place of any other; every error has its one cause.
   */
  lemma ChallengeAnsweredIff(
      states: seq<AuthState>, events: seq<Event>, answers: seq<Answer>, config: Config, i: nat)
    requires Run(states, events, answers, config) && i < |events| && events[i].ChallengeCall?
    ensures answers[i].ForChallenge?
    ensures var s, e, r, t := states[i], events[i], answers[i].nonce, states[i + 1];
            var open := e.healthy && |s.store| < 100_000 && e.req.ip.Some?;
            var live := HasLive(s, e.req.ip, e.at.check);
            && (r.Ok? <==> open && (live || MayAsk(e)))
            && (r == Err(ResourceExhausted) <==> e.healthy && |s.store| >= 100_000)
            && (r == Err(Internal) <==> !e.healthy || (|s.store| < 100_000 && e.req.ip.None?))
            && (r == Err(InvalidArgument) <==> open && !live && !(e.req.isValidator && e.req.pubkey.Some?))
            && (r.Err? || live ==> t == s)
            && (r.Ok? && live ==> r.value == s.store[e.req.ip.value].nonce)
            && (r.Ok? && !live ==>
                  && r.value == e.nonce && t.issued == s.issued
                  && t.store.Keys == s.store.Keys + {e.req.ip.value}
                  && (forall ip :: ip in s.store && ip != e.req.ip.value ==> t.store[ip] == s.store[ip])
                  && DrawnBy(t.store[e.req.ip.value], e, e.req.ip.value, e.req.pubkey.value, config))
  {
    assert (states[i + 1], answers[i]) == Apply(states[i], events[i], config);
  }

  /** The request signs the stored challenge of its address with the key it was made for. */
  predicate Signs(s: AuthState, req: TokensRequest, ip: Ip, pubkey: Pubkey) {
    && req.ip == Some(ip) && req.pubkey == Some(pubkey)
    && ip in s.store && s.store[ip].access.pubkey == pubkey
    && req.text == Expected(pubkey, s.store[ip].nonce)
    && req.signature == Signature(pubkey, req.text)
  }

  /** The token for these claims: the same, its expiry cut to the whole second. */
  predicate IsTokenFor(token: Token, claims: Claims) {
    token == Token(Claims(claims.ip, claims.pubkey, claims.expiresAt / 1_000_000_000 * 1_000_000_000))
  }

  /**
   * A tokens call is answered exactly when the service is healthy and the request signs the stored
   * challenge; the answer is the access token and then the refresh token of that challenge, which is
   * gone afterwards.
   */
  lemma TokensAnsweredIff(
      states: seq<AuthState>, events: seq<Event>, answers: seq<Answer>, config: Config, i: nat)
    requires Run(states, events, answers, config) && i < |events| && events[i].TokensCall?
    ensures answers[i].ForTokens?
    ensures var s, e, r, t := states[i], events[i], answers[i].pair, states[i + 1];
            var known := e.healthy && e.tokensReq.ip.Some?;
            var named := known && e.tokensReq.pubkey.Some?;
            var mine := named && e.tokensReq.ip.value in s.store
                        && s.store[e.tokensReq.ip.value].access.pubkey == e.tokensReq.pubkey.value;
            && (r.Ok? <==> named && Signs(s, e.tokensReq, e.tokensReq.ip.value, e.tokensReq.pubkey.value))
            && (r == Err(Internal) <==> !known)
            && (r == Err(PermissionDenied) <==> named && !mine)
            && (r.Err? ==> r.error in {Internal, PermissionDenied, InvalidArgument} && t == s)
            && (r.Ok? ==>
                  && IsTokenFor(r.value.0, s.store[e.tokensReq.ip.value].access)
                  && IsTokenFor(r.value.1, s.store[e.tokensReq.ip.value].refresh)
                  && t.issued == s.issued + {r.value.0, r.value.1}
                  && t.store.Keys == s.store.Keys - {e.tokensReq.ip.value}
                  && (forall ip :: ip in t.store ==> t.store[ip] == s.store[ip]))
  {
    assert (states[i + 1], answers[i]) == Apply(states[i], events[i], config);
  }

  /**
   * A refresh is answered exactly when the service is healthy, has itself issued the token presented,
   * and is asked strictly before that token expires; the answer is an access token for the same
   * address and key that lives from the stamp of this call.
   */
  lemma RefreshAnsweredIff(
      states: seq<AuthState>, events: seq<Event>, answers: seq<Answer>, config: Config, i: nat)
    requires Run(states, events, answers, config) && i < |events| && events[i].RefreshCall?
    ensures answers[i].ForRefresh? && states[i + 1].store == states[i].store
    ensures var s, e, r, t := states[i], events[i], answers[i].access, states[i + 1];
            && (r.Ok? <==> e.healthy && e.token in s.issued && e.check < e.token.claims.expiresAt)
            && (r == Err(Internal) <==> !e.healthy)
            && (r.Err? ==> r.error in {Internal, PermissionDenied} && t.issued == s.issued)
            && (r.Ok? ==>
                  && IsTokenFor(r.value, Claims(e.token.claims.ip, e.token.claims.pubkey, e.stamp + config.accessTtl))
                  && t.issued == s.issued + {r.value})
  {
    assert (states[i + 1], answers[i]) == Apply(states[i], events[i], config);
  }

  /** The expiration task removes exactly the challenges that had expired when it last looked. */
  lemma ExpirationRemovesIff(
      states: seq<AuthState>, events: seq<Event>, answers: seq<Answer>, config: Config, i: nat, ip: Ip)
    requires Run(states, events, answers, config) && i < |events| && events[i].ExpirationTask?
    ensures ip in states[i + 1].store
            <==> ip in states[i].store && events[i].lookedAt < states[i].store[ip].expiresAt
    ensures ip in states[i + 1].store ==> states[i + 1].store[ip] == states[i].store[ip]
    ensures states[i + 1].issued == states[i].issued
  {
    assert (states[i + 1], answers[i]) == Apply(states[i], events[i], config);
  }

  // ---------------------------------------------------------------- what the service holds

  /** Call `k` asked for this challenge: healthy, from this address, for this validator, authorised then. */
  predicate AskedAt(events: seq<Event>, k: nat, ip: Ip, pubkey: Pubkey)
    requires k < |events|
  {
    && events[k].ChallengeCall? && events[k].healthy
    && events[k].req == ChallengeRequest(Some(ip), true, Some(pubkey)) && pubkey in events[k].authorised
  }

  /** One of the first `n` calls asked for the challenge and drew it. */
  ghost predicate Accounted(events: seq<Event>, config: Config, n: nat, ip: Ip, c: Challenge)
    requires n <= |events|
  {
    exists k :: 0 <= k < n && AskedAt(events, k, ip, c.access.pubkey)
                && DrawnBy(c, events[k], ip, c.access.pubkey, config)
  }

  /**
   * Every stored challenge is filed under the address of a call that was made to a healthy service
   * for a validator authorised at the time, and carries that call's address, key and stamps.
   */
  lemma {:induction false} StoredChallengesAreAccountedFor(
      states: seq<AuthState>, events: seq<Event>, answers: seq<Answer>, config: Config, n: nat)
    requires Run(states, events, answers, config) && n < |states|
    ensures forall ip :: ip in states[n].store ==> Accounted(events, config, n, ip, states[n].store[ip])
  {
    if n > 0 {
      StoredChallengesAreAccountedFor(states, events, answers, config, n - 1);
      forall ip | ip in states[n].store ensures Accounted(events, config, n, ip, states[n].store[ip]) {
        StoredStep(states, events, answers, config, n - 1, ip);
      }
    }
  }

  lemma StoredStep(
      states: seq<AuthState>, events: seq<Event>, answers: seq<Answer>, config: Config, n: nat, ip: Ip)
    requires Run(states, events, answers, config) && n < |events| && ip in states[n + 1].store
    requires ip in states[n].store ==> Accounted(events, config, n, ip, states[n].store[ip])
    ensures Accounted(events, config, n + 1, ip, states[n + 1].store[ip])
  {
    assert (states[n + 1], answers[n]) == Apply(states[n], events[n], config);
    var c := states[n + 1].store[ip];
    if ip in states[n].store && states[n].store[ip] == c {
      var k :| 0 <= k < n && AskedAt(events, k, ip, c.access.pubkey)
               && DrawnBy(c, events[k], ip, c.access.pubkey, config);
      assert AskedAt(events, k, ip, c.access.pubkey);
    } else {
      assert AskedAt(events, n, ip, c.access.pubkey) && DrawnBy(c, events[n], ip, c.access.pubkey, config);
    }
  }

  /** Call `j` signed the challenge stored for this address, with this key. */
  predicate SignedAt(states: seq<AuthState>, events: seq<Event>, j: nat, ip: Ip, pubkey: Pubkey)
    requires j < |states| && j < |events|
  {
    events[j].TokensCall? && events[j].healthy && Signs(states[j], events[j].tokensReq, ip, pubkey)
  }

  /** Among the first `n` calls, the key has signed a challenge for this address that was accounted for. */
  ghost predicate Proven(states: seq<AuthState>, events: seq<Event>, config: Config, n: nat, ip: Ip, pubkey: Pubkey)
    requires |states| == |events| + 1 && n <= |events|
  {
    exists j :: 0 <= j < n && SignedAt(states, events, j, ip, pubkey)
                && Accounted(events, config, j, ip, states[j].store[ip])
  }

  /** Call `j` brought the token as one of the pair for the challenge it signed. */
  ghost predicate PairedAt(states: seq<AuthState>, events: seq<Event>, j: nat, token: Token)
    requires j < |states| && j < |events|
  {
    var ip, pubkey := token.claims.ip, token.claims.pubkey;
    && SignedAt(states, events, j, ip, pubkey)
    && (IsTokenFor(token, states[j].store[ip].access) || IsTokenFor(token, states[j].store[ip].refresh))
  }

  /** Call `m` brought the token in return for one issued before, for the same address and key, that had not expired. */
  ghost predicate RefreshedAt(states: seq<AuthState>, events: seq<Event>, config: Config, m: nat, token: Token)
    requires m < |states| && m < |events|
  {
    var e := events[m];
    && e.RefreshCall? && e.healthy && e.token in states[m].issued && e.check < e.token.claims.expiresAt
    && e.token.claims.ip == token.claims.ip && e.token.claims.pubkey == token.claims.pubkey
    && IsTokenFor(token, Claims(token.claims.ip, token.claims.pubkey, e.stamp + config.accessTtl))
  }

  ghost predicate Brought(states: seq<AuthState>, events: seq<Event>, config: Config, n: nat, token: Token)
    requires |states| == |events| + 1 && n <= |events|
  {
    exists m :: 0 <= m < n && (PairedAt(states, events, m, token) || RefreshedAt(states, events, config, m, token))
  }

  ghost predicate TokenOk(states: seq<AuthState>, events: seq<Event>, config: Config, n: nat, token: Token)
    requires |states| == |events| + 1 && n <= |events|
  {
    && Proven(states, events, config, n, token.claims.ip, token.claims.pubkey)
    && Brought(states, events, config, n, token)
  }

  lemma TokenLater(states: seq<AuthState>, events: seq<Event>, config: Config, n: nat, token: Token)
    requires |states| == |events| + 1 && n < |events| && TokenOk(states, events, config, n, token)
    ensures TokenOk(states, events, config, n + 1, token)
  {
    var ip, pubkey := token.claims.ip, token.claims.pubkey;
    var j :| 0 <= j < n && SignedAt(states, events, j, ip, pubkey)
             && Accounted(events, config, j, ip, states[j].store[ip]);
    assert SignedAt(states, events, j, ip, pubkey);
    var m :| 0 <= m < n && (PairedAt(states, events, m, token) || RefreshedAt(states, events, config, m, token));
    assert PairedAt(states, events, m, token) || RefreshedAt(states, events, config, m, token);
  }

  lemma PairIsOk(
      states: seq<AuthState>, events: seq<Event>, answers: seq<Answer>, config: Config, n: nat, token: Token)
    requires Run(states, events, answers, config) && n < |events| && events[n].TokensCall?
    requires token in states[n + 1].issued && token !in states[n].issued
    ensures TokenOk(states, events, config, n + 1, token)
  {
    TokensAnsweredIff(states, events, answers, config, n);
    StoredChallengesAreAccountedFor(states, events, answers, config, n);
    var ip, pubkey := events[n].tokensReq.ip.value, events[n].tokensReq.pubkey.value;
    var c := states[n].store[ip];
    assert Accounted(events, config, n, ip, c);
    assert c.access.ip == ip && c.refresh.ip == ip && c.refresh.pubkey == pubkey;
    assert SignedAt(states, events, n, ip, pubkey) && PairedAt(states, events, n, token);
  }

  lemma RefreshedIsOk(
      states: seq<AuthState>, events: seq<Event>, answers: seq<Answer>, config: Config, n: nat, token: Token)
    requires Run(states, events, answers, config) && n < |events| && events[n].RefreshCall?
    requires forall t :: t in states[n].issued ==> TokenOk(states, events, config, n, t)
    requires token in states[n + 1].issued && token !in states[n].issued
    ensures TokenOk(states, events, config, n + 1, token)
  {
    RefreshAnsweredIff(states, events, answers, config, n);
    assert RefreshedAt(states, events, config, n, token);
    TokenLater(states, events, config, n, events[n].token);
  }

  /**
   * Every token the service has issued belongs to an address and a key that was authorised when it
   * asked for a challenge and has signed that challenge; and it was brought by such a signature, or
   * in return for an unexpired token of the same address and key, with exactly the lifetime due.
   */
  lemma {:induction false} TokensAreAccountedFor(
      states: seq<AuthState>, events: seq<Event>, answers: seq<Answer>, config: Config, n: nat)
    requires Run(states, events, answers, config) && n < |states|
    ensures forall token :: token in states[n].issued ==> TokenOk(states, events, config, n, token)
  {
    if n > 0 {
      TokensAreAccountedFor(states, events, answers, config, n - 1);
      assert (states[n - 1 + 1], answers[n - 1]) == Apply(states[n - 1], events[n - 1], config);
      forall token | token in states[n].issued ensures TokenOk(states, events, config, n, token) {
        if token in states[n - 1].issued {
          TokenLater(states, events, config, n - 1, token);
        } else if events[n - 1].TokensCall? {
          PairIsOk(states, events, answers, config, n - 1, token);
        } else {
          RefreshedIsOk(states, events, answers, config, n - 1, token);
        }
      }
    }
  }

  // ---------------------------------------------------------------- the same handlers, interleaved

  /**
   * However the handlers interleave, a refresh adds a token exactly when the service is healthy, has
   * issued the token presented and is asked strictly before it expires; the token added is for the
   * same address and key, and nothing else changes.
   */
  lemma InterleavedRefreshIff(states: seq<P.State>, ops: seq<P.Op>, cap: nat, config: Config, i: nat)
    requires P.Run(states, ops, cap, config) && i < |ops| && ops[i].Refresh?
    ensures var s, shown, t := states[i], ops[i].token, states[i + 1];
            var expiry := (s.now + config.accessTtl) / 1_000_000_000 * 1_000_000_000;
            var access := Token(Claims(shown.claims.ip, shown.claims.pubkey, expiry));
            var granted := s.healthy && shown in s.issued && s.now < shown.claims.expiresAt;
            t == s.(issued := if granted then s.issued + {access} else s.issued)
  {
    assert P.Next(states[i], ops[i], states[i + 1], cap, config);
  }

  /** The expiration task, wherever it falls, removes exactly the challenges that have expired. */
  lemma InterleavedExpirationIff(states: seq<P.State>, ops: seq<P.Op>, cap: nat, config: Config, i: nat, ip: Ip)
    requires P.Run(states, ops, cap, config) && i < |ops| && ops[i].Expire?
    ensures ip in states[i + 1].store <==> ip in states[i].store && states[i].now < states[i].store[ip].expiresAt
    ensures ip in states[i + 1].store ==> states[i + 1].store[ip] == states[i].store[ip]
    ensures states[i + 1] == states[i].(store := states[i + 1].store)
  {
    assert P.Next(states[i], ops[i], states[i + 1], cap, config);
  }

  /** While the service is unhealthy no call gets past its first check and no token is added by a refresh. */
  lemma NothingBeginsUnhealthy(states: seq<P.State>, ops: seq<P.Op>, cap: nat, config: Config, i: nat)
    requires P.Run(states, ops, cap, config) && i < |ops| && !states[i].healthy
    ensures states[i + 1].calls.Keys <= states[i].calls.Keys
    ensures !ops[i].RemoveAndIssue? ==> states[i + 1].issued == states[i].issued
  {
    assert P.Next(states[i], ops[i], states[i + 1], cap, config);
  }

  /** Steps from one state on. */
  datatype Path = At(state: P.State) | Step(before: Path, op: P.Op, state: P.State)
  {
    function First(): P.State { if At? then state else before.First() }

    ghost predicate IsPath(cap: nat, config: Config) {
      match this
      case At(_) => true
      case Step(before, op, t) => before.IsPath(cap, config) && P.Next(before.state, op, t, cap, config)
    }
  }

  ghost predicate Leads(s: P.State, t: P.State, cap: nat, config: Config) {
    exists p: Path :: p.IsPath(cap, config) && p.First() == s && p.state == t
  }

  lemma LeadsNowhere(s: P.State, cap: nat, config: Config)
    ensures Leads(s, s, cap, config)
  {
    assert At(s).IsPath(cap, config) && At(s).First() == s;
  }

  lemma LeadsOn(s: P.State, t: P.State, op: P.Op, u: P.State, cap: nat, config: Config)
    requires Leads(s, t, cap, config) && P.Next(t, op, u, cap, config)
    ensures Leads(s, u, cap, config)
  {
    var p: Path :| p.IsPath(cap, config) && p.First() == s && p.state == t;
    assert Step(p, op, u).IsPath(cap, config) && Step(p, op, u).First() == s;
  }

  /** From any state with room: an authorised key at an address without a challenge gets one stored. */
  lemma GetsChallenge(s: P.State, call: nat, ip: Ip, pubkey: Pubkey, nonce: Nonce, cap: nat, config: Config)
      returns (t: P.State)
    requires s.healthy && pubkey in s.authorised && |s.store| < cap && ip !in s.store && call !in s.calls
    ensures Leads(s, t, cap, config) && ip in t.store && t.store[ip].nonce == nonce
    ensures t.store[ip].access.pubkey == pubkey
    ensures t == s.(store := s.store[ip := t.store[ip]])
  {
    var at := Stamps(s.now, s.now, s.now, s.now);
    var c := MakeChallenge(ip, pubkey, nonce, at, config);
    var s1 := s.(calls := s.calls[call := P.PastCapacity(ip, pubkey)]);
    var s2 := s.(calls := s.calls[call := P.NoLiveChallenge(ip, pubkey)]);
    var s3 := s.(calls := s.calls[call := P.ReadyToPush(ip, c)]);
    t := s.(store := s.store[ip := c]);
    assert s1.calls[call := s2.calls[call]] == s2.calls && s2.calls[call := s3.calls[call]] == s3.calls;
    assert s3.calls - {call} == s.calls;
    LeadsNowhere(s, cap, config);
    LeadsOn(s, s, P.CheckCapacity(call, ip, pubkey), s1, cap, config);
    LeadsOn(s, s1, P.LookUp(call), s2, cap, config);
    LeadsOn(s, s2, P.Authorise(call, true, nonce), s3, cap, config);
    LeadsOn(s, s3, P.Push(call), t, cap, config);
  }

  /** From there: its owner signs it and is issued the pair. */
  lemma GetsTokens(start: P.State, s: P.State, call: nat, ip: Ip, pubkey: Pubkey, cap: nat, config: Config)
      returns (t: P.State)
    requires Leads(start, s, cap, config) && s.healthy && call !in s.calls
    requires ip in s.store && s.store[ip].access.pubkey == pubkey
    ensures Leads(start, t, cap, config) && t.healthy && call !in t.calls
    ensures Issue(s.store[ip].access) in t.issued && Issue(s.store[ip].refresh) in t.issued && ip !in t.store
  {
    var c := s.store[ip];
    var text := Expected(pubkey, c.nonce);
    var s1 := s.(signatures := s.signatures + {Signature(pubkey, text)});
    var s2 := s1.(calls := s.calls[call := P.Verified(ip, c)]);
    t := s1.(store := s.store - {ip}, issued := s.issued + {Issue(c.access), Issue(c.refresh)});
    assert s2.calls - {call} == s.calls;
    LeadsOn(start, s, P.Sign(Signature(pubkey, text)), s1, cap, config);
    var req := TokensRequest(Some(ip), Some(pubkey), text, Signature(pubkey, text));
    LeadsOn(start, s1, P.VerifyTokens(call, req), s2, cap, config);
    LeadsOn(start, s2, P.RemoveAndIssue(call), t, cap, config);
  }

  lemma HandlesFirst(start: P.State, s: P.State, pubkey: Pubkey, cap: nat, config: Config) returns (t: P.State)
    requires Leads(start, s, cap, config) && s.subscriptions != []
    requires pubkey in s.subscriptions || pubkey in s.subscribed
    ensures Leads(start, t, cap, config) && |t.subscriptions| < |s.subscriptions|
    ensures pubkey in t.subscriptions || pubkey in t.subscribed
  {
    var first, rest := s.subscriptions[0], s.subscriptions[1..];
    t := s.(subscribed := s.subscribed + {first}, subscriptions := rest);
    LeadsOn(start, s, P.HandleSubscription, t, cap, config);
    if pubkey in s.subscriptions {
      var i :| 0 <= i < |s.subscriptions| && s.subscriptions[i] == pubkey;
      assert i > 0 ==> rest[i - 1] == pubkey;
    }
  }

  /** The relayer loop works the subscription channel off. */
  lemma {:induction false} WorksOff(start: P.State, s: P.State, pubkey: Pubkey, cap: nat, config: Config)
      returns (t: P.State)
    requires Leads(start, s, cap, config) && (pubkey in s.subscriptions || pubkey in s.subscribed)
    ensures Leads(start, t, cap, config) && pubkey in t.subscribed
    decreases |s.subscriptions|
  {
    if s.subscriptions == [] {
      t := s;
    } else {
      var u := HandlesFirst(start, s, pubkey, cap, config);
      t := WorksOff(start, u, pubkey, cap, config);
    }
  }

  /**
   * The checks keep nobody out who should be let in: from any state of a healthy service with room,
   * an authorised validator at an address without a challenge can get its challenge, its tokens and
   * its subscription.
   */
  lemma AuthorisedValidatorGetsIn(s: P.State, ip: Ip, pubkey: Pubkey, nonce: Nonce, cap: nat, config: Config)
    requires s.healthy && pubkey in s.authorised && |s.store| < cap && ip !in s.store
    ensures exists t :: Leads(s, t, cap, config) && pubkey in t.subscribed
  {
    var call := Unused(s.calls.Keys);
    var s1 := GetsChallenge(s, call, ip, pubkey, nonce, cap, config);
    var access := Issue(s1.store[ip].access);
    var s2 := GetsTokens(s, s1, call, ip, pubkey, cap, config);
    var s3 := s2.(calls := s2.calls[call := P.Subscribing(pubkey)]);
    LeadsOn(s, s2, P.Intercept(call, access), s3, cap, config);
    var s4 := s3.(subscriptions := s3.subscriptions + [pubkey], calls := s3.calls - {call});
    LeadsOn(s, s3, P.SendSubscription(call), s4, cap, config);
    var t := WorksOff(s, s4, pubkey, cap, config);
  }
}
