/**
 * The same handlers split at every lock acquisition and run concurrently, together with the
 * expiration task, the token interceptor and the subscription path: anything may happen
 * between two steps of one call.
 */
module AuthProtocol {
  import opened Prelude
  import opened AuthTypes
  import opened AuthChallenges
  import opened AuthService

  /** Where a call is, and what it carries from lock to lock. */
  datatype Call =
    | PastCapacity(ip: Ip, pubkey: Pubkey)
    | NoLiveChallenge(ip: Ip, pubkey: Pubkey)
    | ReadyToPush(ip: Ip, challenge: Challenge)
    | Verified(ip: Ip, challenge: Challenge)
    | Subscribing(pubkey: Pubkey)
  {
    /** A challenge call that has passed the capacity check and may still push. */
    predicate MayPush() { PastCapacity? || NoLiveChallenge? || ReadyToPush? }
  }

  /**
   * `signatures` holds every signature made so far by the owner of its key; `subscriptions`
   * is the channel to the relayer loop and `subscribed` the keys of the subscription map.
   */
  datatype State = State(
    now: Time, healthy: bool, authorised: set<Pubkey>, signatures: set<Signature>,
    store: Store, calls: map<nat, Call>, issued: set<Token>, subscriptions: seq<Pubkey>, subscribed: set<Pubkey>)

  datatype Op =
    | Wait(until: Time)
    | SetHealth(healthy: bool)
    | SetAuthorised(authorised: set<Pubkey>)
    | Sign(signature: Signature)
    | CheckCapacity(call: nat, ip: Ip, pubkey: Pubkey)
    | LookUp(call: nat)
    | Authorise(call: nat, accepted: bool, nonce: Nonce)
    | Push(call: nat)
    | VerifyTokens(call: nat, req: TokensRequest)
    | RemoveAndIssue(call: nat)
    | Refresh(token: Token)
    | Expire
    | Intercept(call: nat, token: Token)
    | SendSubscription(call: nat)
    | HandleSubscription
    | DropConnections(pubkeys: set<Pubkey>)

  const EMPTY: State := State(0, false, {}, {}, map[], map[], {}, [], {})

  ghost predicate Next(s: State, op: Op, t: State, cap: nat, config: Config) {
    match op
    case Wait(until) => s.now <= until && t == s.(now := until)
    case SetHealth(healthy) => t == s.(healthy := healthy)
    case SetAuthorised(authorised) => t == s.(authorised := authorised)
    case Sign(signature) => t == s.(signatures := s.signatures + {signature})
    case CheckCapacity(call, ip, pubkey) =>
      && call !in s.calls
      && t == if s.healthy && |s.store| < cap then s.(calls := s.calls[call := PastCapacity(ip, pubkey)]) else s
    case LookUp(call) =>
      && call in s.calls && s.calls[call].PastCapacity?
      && var c := s.calls[call];
         t == if c.ip in s.store && !IsExpired(s.store[c.ip].expiresAt, s.now) then s.(calls := s.calls - {call})
              else s.(calls := s.calls[call := NoLiveChallenge(c.ip, c.pubkey)])
    case Authorise(call, accepted, nonce) =>
      && call in s.calls && s.calls[call].NoLiveChallenge?
      && var c := s.calls[call];
         t == if accepted && c.pubkey in s.authorised
              then s.(calls := s.calls[call := ReadyToPush(c.ip,
                        MakeChallenge(c.ip, c.pubkey, nonce, Stamps(s.now, s.now, s.now, s.now), config))])
              else s.(calls := s.calls - {call})
    case Push(call) =>
      && call in s.calls && s.calls[call].ReadyToPush?
      && t == s.(store := s.store[s.calls[call].ip := s.calls[call].challenge], calls := s.calls - {call})
    case VerifyTokens(call, req) =>
      && call !in s.calls
      && (req.signature.Signature? ==> req.signature in s.signatures)
      && t == if TokensError(AuthState(s.store, s.issued), req, s.healthy).None?
              then s.(calls := s.calls[call := Verified(req.ip.value, s.store[req.ip.value])]) else s
    case RemoveAndIssue(call) =>
      && call in s.calls && s.calls[call].Verified?
      && var c := s.calls[call];
         t == s.(store := s.store - {c.ip}, calls := s.calls - {call},
                 issued := s.issued + {Issue(c.challenge.access), Issue(c.challenge.refresh)})
    case Refresh(token) =>
      t == s.(issued := RefreshStep(AuthState(s.store, s.issued), token, s.healthy, s.now, s.now, config).0.issued)
    case Expire => t == s.(store := NotExpired(s.store, s.now))
    case Intercept(call, token) =>
      && call !in s.calls
      && t == if token in s.issued && s.healthy then s.(calls := s.calls[call := Subscribing(token.claims.pubkey)])
              else s
    case SendSubscription(call) =>
      && call in s.calls && s.calls[call].Subscribing?
      && t == s.(subscriptions := s.subscriptions + [s.calls[call].pubkey], calls := s.calls - {call})
    case HandleSubscription =>
      && s.subscriptions != []
      && t == s.(subscribed := s.subscribed + {s.subscriptions[0]}, subscriptions := s.subscriptions[1..])
    case DropConnections(pubkeys) => t == s.(subscribed := s.subscribed - pubkeys)
  }

  ghost predicate Run(states: seq<State>, ops: seq<Op>, cap: nat, config: Config) {
    && |states| == |ops| + 1
    && states[0] == EMPTY
    && (forall i :: 0 <= i < |ops| ==> Next(states[i], ops[i], states[i + 1], cap, config))
  }

  // ---------------------------------------------------------------- provenance

  /** At step `i` a challenge was made for this address and key, while the key was authorised. */
  ghost predicate AuthorisedAt(states: seq<State>, ops: seq<Op>, i: nat, ip: Ip, pubkey: Pubkey, nonce: Nonce)
    requires i < |states| && i < |ops|
  {
    && ops[i].Authorise? && ops[i].nonce == nonce && ops[i].accepted
    && ops[i].call in states[i].calls && states[i].calls[ops[i].call] == NoLiveChallenge(ip, pubkey)
    && pubkey in states[i].authorised
  }

  /** At step `j` this key's signature over "pubkey-challenge" was verified for the stored challenge of the address. */
  ghost predicate VerifiedAt(states: seq<State>, ops: seq<Op>, j: nat, ip: Ip, pubkey: Pubkey, nonce: Nonce)
    requires j < |states| && j < |ops|
  {
    && ops[j].VerifyTokens? && ops[j].req.ip == Some(ip)
    && ip in states[j].store && states[j].store[ip].nonce == nonce
    && ops[j].req.signature == Signature(pubkey, Expected(pubkey, nonce))
    && ops[j].req.signature in states[j].signatures
  }

  ghost predicate Made(states: seq<State>, ops: seq<Op>, n: nat, ip: Ip, pubkey: Pubkey, nonce: Nonce)
    requires |states| == |ops| + 1 && n <= |ops|
  {
    exists i :: 0 <= i < n && AuthorisedAt(states, ops, i, ip, pubkey, nonce)
  }

  /** The full chain: made while authorised, and later answered with the key's own signature. */
  ghost predicate Proven(states: seq<State>, ops: seq<Op>, n: nat, ip: Ip, pubkey: Pubkey)
    requires |states| == |ops| + 1 && n <= |ops|
  {
    exists j, nonce ::
      0 <= j < n && Made(states, ops, j, ip, pubkey, nonce) && VerifiedAt(states, ops, j, ip, pubkey, nonce)
  }

  ghost predicate ProvenKey(states: seq<State>, ops: seq<Op>, n: nat, pubkey: Pubkey)
    requires |states| == |ops| + 1 && n <= |ops|
  {
    exists ip :: Proven(states, ops, n, ip, pubkey)
  }

  /** A challenge is for the address it is filed under and one key, and was made properly. */
  ghost predicate ChallengeOk(states: seq<State>, ops: seq<Op>, n: nat, ip: Ip, c: Challenge)
    requires |states| == |ops| + 1 && n <= |ops|
  {
    && c.access.ip == ip && c.refresh.ip == ip && c.access.pubkey == c.refresh.pubkey
    && Made(states, ops, n, ip, c.access.pubkey, c.nonce)
  }

  ghost predicate CallOk(states: seq<State>, ops: seq<Op>, n: nat, c: Call)
    requires |states| == |ops| + 1 && n <= |ops|
  {
    match c
    case ReadyToPush(ip, challenge) => ChallengeOk(states, ops, n, ip, challenge)
    case Verified(ip, challenge) =>
      ChallengeOk(states, ops, n, ip, challenge) && Proven(states, ops, n, ip, challenge.access.pubkey)
    case Subscribing(pubkey) => ProvenKey(states, ops, n, pubkey)
    case _ => true
  }

  ghost predicate StoreOk(states: seq<State>, ops: seq<Op>, n: nat, store: Store)
    requires |states| == |ops| + 1 && n <= |ops|
  {
    forall ip :: ip in store ==> ChallengeOk(states, ops, n, ip, store[ip])
  }

  ghost predicate CallsOk(states: seq<State>, ops: seq<Op>, n: nat, calls: map<nat, Call>)
    requires |states| == |ops| + 1 && n <= |ops|
  {
    forall call :: call in calls ==> CallOk(states, ops, n, calls[call])
  }

  ghost predicate TokensOk(states: seq<State>, ops: seq<Op>, n: nat, issued: set<Token>)
    requires |states| == |ops| + 1 && n <= |ops|
  {
    forall token :: token in issued ==> Proven(states, ops, n, token.claims.ip, token.claims.pubkey)
  }

  ghost predicate KeysOk(states: seq<State>, ops: seq<Op>, n: nat, s: State)
    requires |states| == |ops| + 1 && n <= |ops|
  {
    && (forall pubkey :: pubkey in s.subscriptions ==> ProvenKey(states, ops, n, pubkey))
    && (forall pubkey :: pubkey in s.subscribed ==> ProvenKey(states, ops, n, pubkey))
  }

  /** Everything a state holds goes back to proper links. */
  ghost predicate Provenance(states: seq<State>, ops: seq<Op>, n: nat, s: State)
    requires |states| == |ops| + 1 && n <= |ops|
  {
    && StoreOk(states, ops, n, s.store) && CallsOk(states, ops, n, s.calls)
    && TokensOk(states, ops, n, s.issued) && KeysOk(states, ops, n, s)
  }

  /** What was proven stays proven. */
  lemma ProvenLater(states: seq<State>, ops: seq<Op>, n: nat, ip: Ip, pubkey: Pubkey)
    requires |states| == |ops| + 1 && n < |ops| && Proven(states, ops, n, ip, pubkey)
    ensures Proven(states, ops, n + 1, ip, pubkey)
  {
    var j, nonce :|
      0 <= j < n && Made(states, ops, j, ip, pubkey, nonce) && VerifiedAt(states, ops, j, ip, pubkey, nonce);
    assert Made(states, ops, j, ip, pubkey, nonce) && VerifiedAt(states, ops, j, ip, pubkey, nonce);
  }

  lemma ChallengeLater(states: seq<State>, ops: seq<Op>, n: nat, ip: Ip, c: Challenge)
    requires |states| == |ops| + 1 && n < |ops| && ChallengeOk(states, ops, n, ip, c)
    ensures ChallengeOk(states, ops, n + 1, ip, c)
  {
    var i :| 0 <= i < n && AuthorisedAt(states, ops, i, ip, c.access.pubkey, c.nonce);
    assert AuthorisedAt(states, ops, i, ip, c.access.pubkey, c.nonce);
  }

  lemma KeyLater(states: seq<State>, ops: seq<Op>, n: nat, pubkey: Pubkey)
    requires |states| == |ops| + 1 && n < |ops| && ProvenKey(states, ops, n, pubkey)
    ensures ProvenKey(states, ops, n + 1, pubkey)
  {
    var ip :| Proven(states, ops, n, ip, pubkey);
    ProvenLater(states, ops, n, ip, pubkey);
  }

  lemma ProvenanceLater(states: seq<State>, ops: seq<Op>, n: nat, s: State)
    requires |states| == |ops| + 1 && n < |ops| && Provenance(states, ops, n, s)
    ensures Provenance(states, ops, n + 1, s)
  {
    forall ip | ip in s.store ensures ChallengeOk(states, ops, n + 1, ip, s.store[ip]) {
      ChallengeLater(states, ops, n, ip, s.store[ip]);
    }
    forall call | call in s.calls ensures CallOk(states, ops, n + 1, s.calls[call]) {
      assert CallOk(states, ops, n, s.calls[call]);
      match s.calls[call]
      case ReadyToPush(ip, c) => ChallengeLater(states, ops, n, ip, c);
      case Verified(ip, c) =>
        ChallengeLater(states, ops, n, ip, c);
        ProvenLater(states, ops, n, ip, c.access.pubkey);
      case Subscribing(pubkey) => KeyLater(states, ops, n, pubkey);
      case _ =>
    }
    forall token | token in s.issued ensures Proven(states, ops, n + 1, token.claims.ip, token.claims.pubkey) {
      ProvenLater(states, ops, n, token.claims.ip, token.claims.pubkey);
    }
    forall pubkey | ProvenKey(states, ops, n, pubkey) ensures ProvenKey(states, ops, n + 1, pubkey) {
      KeyLater(states, ops, n, pubkey);
    }
  }

  /** The two steps that add to the chain add its links. */
  lemma LinksAdded(states: seq<State>, ops: seq<Op>, n: nat, cap: nat, config: Config)
    requires Run(states, ops, cap, config) && n < |ops| && Provenance(states, ops, n, states[n])
    ensures (ops[n].Authorise? || ops[n].VerifyTokens?) && ops[n].call in states[n + 1].calls ==>
              CallOk(states, ops, n + 1, states[n + 1].calls[ops[n].call])
  {
    var s, op, t := states[n], ops[n], states[n + 1];
    assert Next(states[n], ops[n], states[n + 1], cap, config);
    match op
    case Authorise(call, accepted, nonce) =>
      if call in t.calls {
        assert AuthorisedAt(states, ops, n, s.calls[call].ip, s.calls[call].pubkey, nonce);
      }
    case VerifyTokens(call, req) =>
      if call in t.calls {
        var ip, c := req.ip.value, s.store[req.ip.value];
        assert ChallengeOk(states, ops, n, ip, c);
        assert VerifiedAt(states, ops, n, ip, c.access.pubkey, c.nonce);
        ChallengeLater(states, ops, n, ip, c);
      }
    case _ =>
  }

  lemma StoreKeeps(states: seq<State>, ops: seq<Op>, m: nat, s: State, op: Op, t: State, cap: nat, config: Config)
    requires |states| == |ops| + 1 && m <= |ops| && Provenance(states, ops, m, s) && Next(s, op, t, cap, config)
    ensures StoreOk(states, ops, m, t.store)
  {
    if op.Push? { assert CallOk(states, ops, m, s.calls[op.call]); }
  }

  lemma TokensKeep(states: seq<State>, ops: seq<Op>, m: nat, s: State, op: Op, t: State, cap: nat, config: Config)
    requires |states| == |ops| + 1 && m <= |ops| && Provenance(states, ops, m, s) && Next(s, op, t, cap, config)
    ensures TokensOk(states, ops, m, t.issued)
  {
    if op.RemoveAndIssue? { assert CallOk(states, ops, m, s.calls[op.call]); }
  }

  lemma SubscriptionsKeep(
      states: seq<State>, ops: seq<Op>, m: nat, s: State, op: Op, t: State, cap: nat, config: Config)
    requires |states| == |ops| + 1 && m <= |ops| && Provenance(states, ops, m, s) && Next(s, op, t, cap, config)
    ensures KeysOk(states, ops, m, t)
  {
    if op.SendSubscription? { assert CallOk(states, ops, m, s.calls[op.call]); }
  }

  /** Given the new link, if this step made one, all calls carry proper links. */
  lemma CallsKeep(states: seq<State>, ops: seq<Op>, m: nat, s: State, op: Op, t: State, cap: nat, config: Config)
    requires |states| == |ops| + 1 && m <= |ops| && Provenance(states, ops, m, s) && Next(s, op, t, cap, config)
    requires (op.Authorise? || op.VerifyTokens?) && op.call in t.calls ==> CallOk(states, ops, m, t.calls[op.call])
    ensures CallsOk(states, ops, m, t.calls)
  {
    forall call | call in t.calls ensures CallOk(states, ops, m, t.calls[call]) {
      if call in s.calls {
        assert CallOk(states, ops, m, s.calls[call]);
      } else if op.Intercept? && op.call == call {
        assert Proven(states, ops, m, op.token.claims.ip, op.token.claims.pubkey);
      }
    }
  }

  lemma ProvenanceStep(states: seq<State>, ops: seq<Op>, n: nat, cap: nat, config: Config)
    requires Run(states, ops, cap, config) && n < |ops| && Provenance(states, ops, n, states[n])
    ensures Provenance(states, ops, n + 1, states[n + 1])
  {
    var s, op, t := states[n], ops[n], states[n + 1];
    assert Next(states[n], ops[n], states[n + 1], cap, config);
    LinksAdded(states, ops, n, cap, config);
    ProvenanceLater(states, ops, n, s);
    StoreKeeps(states, ops, n + 1, s, op, t, cap, config);
    TokensKeep(states, ops, n + 1, s, op, t, cap, config);
    SubscriptionsKeep(states, ops, n + 1, s, op, t, cap, config);
    CallsKeep(states, ops, n + 1, s, op, t, cap, config);
  }

  lemma {:induction false} ProvenanceAlways(states: seq<State>, ops: seq<Op>, n: nat, cap: nat, config: Config)
    requires Run(states, ops, cap, config) && n < |states|
    ensures Provenance(states, ops, n, states[n])
  {
    if n > 0 {
      ProvenanceAlways(states, ops, n - 1, cap, config);
      ProvenanceStep(states, ops, n - 1, cap, config);
    }
  }

  /**
   * In every interleaved run, every subscribed validator traces back to a challenge made
   * for its key while the key was authorised, answered by a verified signature of that key
   * over that challenge; and every token, however often refreshed, still carries the
   * address and key of such a chain.
   */
  lemma SubscribersAreProven(states: seq<State>, ops: seq<Op>, n: nat, cap: nat, config: Config)
    requires Run(states, ops, cap, config) && n < |states|
    ensures forall pubkey :: pubkey in states[n].subscribed ==> exists ip :: Proven(states, ops, n, ip, pubkey)
    ensures forall token :: token in states[n].issued ==> Proven(states, ops, n, token.claims.ip, token.claims.pubkey)
  {
    ProvenanceAlways(states, ops, n, cap, config);
    forall pubkey | pubkey in states[n].subscribed ensures exists ip :: Proven(states, ops, n, ip, pubkey) {
      assert ProvenKey(states, ops, n, pubkey);
    }
  }

  // ---------------------------------------------------------------- capacity

  /** Challenge calls past the capacity check that may still push. */
  function PastCheck(s: State): set<nat> {
    set call | call in s.calls && s.calls[call].MayPush()
  }

  ghost predicate Within(s: State, cap: nat, k: nat) {
    |s.store| + |PastCheck(s)| <= cap - 1 + k
  }

  /** Only a passed check and a push add anything. */
  lemma OthersOnlyShrink(s: State, op: Op, t: State, cap: nat, config: Config)
    requires Next(s, op, t, cap, config) && !op.CheckCapacity? && !op.Push?
    ensures t.store.Keys <= s.store.Keys && PastCheck(t) <= PastCheck(s)
  {}

  lemma PushMoves(s: State, op: Op, t: State, cap: nat, config: Config)
    requires Next(s, op, t, cap, config) && op.Push?
    ensures |t.store| <= |s.store| + 1 && |PastCheck(t)| == |PastCheck(s)| - 1
  {
    InsertSize(s.store, s.calls[op.call].ip, s.calls[op.call].challenge);
    var before := PastCheck(s);
    assert op.call in before;
    assert PastCheck(t) == before - {op.call};
  }

  lemma InsertSize(store: Store, ip: Ip, c: Challenge)
    ensures |store[ip := c]| == |store| + if ip in store then 0 else 1
  {
    var after := store[ip := c];
    assert after.Keys == store.Keys + {ip};
    assert |after| == |after.Keys| && |store| == |store.Keys|;
  }

  lemma WithinStep(s: State, op: Op, t: State, cap: nat, config: Config, k: nat)
    requires Within(s, cap, k) && Next(s, op, t, cap, config) && |PastCheck(t)| <= k
    ensures Within(t, cap, k)
  {
    if op.Push? {
      PushMoves(s, op, t, cap, config);
    } else if !op.CheckCapacity? {
      OthersOnlyShrink(s, op, t, cap, config);
      SubsetSize(PastCheck(t), PastCheck(s));
      SubsetSize(t.store.Keys, s.store.Keys);
      assert |t.store| == |t.store.Keys| && |s.store| == |s.store.Keys|;
    }
  }

  lemma {:induction false} SubsetSize(a: set<nat>, b: set<nat>)
    requires a <= b
    ensures |a| <= |b|
  {
    if a != {} {
      var x :| x in a;
      SubsetSize(a - {x}, b - {x});
    }
  }

  /**
   * With at most `k` challenge calls past the capacity check at any moment, the store
   * holds at most `cap` - 1 + `k` challenges, whatever the expiration task does.
   */
  lemma {:induction false} StoreStaysWithin(states: seq<State>, ops: seq<Op>, n: nat, cap: nat, config: Config, k: nat)
    requires Run(states, ops, cap, config) && n < |states| && cap > 0
    requires forall i :: 0 <= i < |states| ==> |PastCheck(states[i])| <= k
    ensures Within(states[n], cap, k)
    ensures |states[n].store| <= cap - 1 + k
  {
    if n == 0 {
      assert PastCheck(EMPTY) == {};
    } else {
      StoreStaysWithin(states, ops, n - 1, cap, config, k);
      assert Next(states[n - 1], ops[n - 1], states[n - 1 + 1], cap, config);
      WithinStep(states[n - 1], ops[n - 1], states[n], cap, config, k);
    }
  }

  /** Calls one at a time: the configured capacity is never exceeded. */
  lemma SerialCallsStayWithinCapacity(states: seq<State>, ops: seq<Op>, n: nat, config: Config)
    requires Run(states, ops, AUTH_CHALLENGES_CAPACITY, config) && n < |states|
    requires forall i :: 0 <= i < |states| ==> |PastCheck(states[i])| <= 1
    ensures |states[n].store| <= AUTH_CHALLENGES_CAPACITY
  {
    StoreStaysWithin(states, ops, n, AUTH_CHALLENGES_CAPACITY, config, 1);
  }

  // ---------------------------------------------------------------- the bound is reached

  ghost predicate Reachable(s: State, cap: nat, config: Config, k: nat) {
    exists states: seq<State>, ops: seq<Op> ::
      && Run(states, ops, cap, config) && states[|ops|] == s
      && forall i :: 0 <= i < |states| ==> |PastCheck(states[i])| <= k
  }

  lemma ReachStep(s: State, op: Op, t: State, cap: nat, config: Config, k: nat)
    requires Reachable(s, cap, config, k) && Next(s, op, t, cap, config) && |PastCheck(t)| <= k
    ensures Reachable(t, cap, config, k)
  {
    var states, ops :| Run(states, ops, cap, config) && states[|ops|] == s
                       && forall i :: 0 <= i < |states| ==> |PastCheck(states[i])| <= k;
    var states', ops' := states + [t], ops + [op];
    forall i | 0 <= i < |ops'| ensures Next(states'[i], ops'[i], states'[i + 1], cap, config) {
      if i < |ops| { assert Next(states[i], ops[i], states[i + 1], cap, config); }
    }
    assert Run(states', ops', cap, config) && states'[|ops'|] == t;
  }

  /** Addresses below `n` have challenges; calls `a` to `b` - 1, one per address, are past the check. */
  function Shape(n: nat, a: nat, b: nat, config: Config): State {
    State(0, true, {0}, {}, map ip: Ip | 0 <= ip < n :: MakeChallenge(ip, 0, 0, Stamps(0, 0, 0, 0), config),
          map c: nat | a <= c < b :: PastCapacity(c, 0), {}, [], {})
  }

  lemma {:induction false} RangeSize(a: nat, b: nat, range: set<nat>)
    requires a <= b && forall c :: c in range <==> a <= c < b
    ensures |range| == b - a
  {
    if a < b {
      RangeSize(a, b - 1, range - {b - 1});
    } else {
      assert range == {};
    }
  }

  lemma ShapeSizes(n: nat, a: nat, b: nat, config: Config)
    requires a <= b
    ensures |Shape(n, a, b, config).store| == n && |PastCheck(Shape(n, a, b, config))| == b - a
  {
    var s := Shape(n, a, b, config);
    RangeSize(0, n, s.store.Keys);
    assert |s.store| == |s.store.Keys|;
    RangeSize(a, b, PastCheck(s));
  }

  lemma StartShape(cap: nat, config: Config, k: nat)
    ensures Reachable(Shape(0, 0, 0, config), cap, config, k)
  {
    var s1, s2 := EMPTY.(healthy := true), EMPTY.(healthy := true, authorised := {0});
    assert PastCheck(EMPTY) == {} && PastCheck(s1) == {} && PastCheck(s2) == {};
    assert Run([EMPTY], [], cap, config);
    assert Reachable(EMPTY, cap, config, k);
    ReachStep(EMPTY, SetHealth(true), s1, cap, config, k);
    ReachStep(s1, SetAuthorised({0}), s2, cap, config, k);
    assert s2 == Shape(0, 0, 0, config);
  }

  /** One more call passes the check. */
  lemma PassOne(n: nat, a: nat, b: nat, cap: nat, config: Config, k: nat)
    requires a <= b && b - a < k && n < cap && Reachable(Shape(n, a, b, config), cap, config, k)
    ensures Reachable(Shape(n, a, b + 1, config), cap, config, k)
  {
    ShapeSizes(n, a, b, config);
    ShapeSizes(n, a, b + 1, config);
    var s, t := Shape(n, a, b, config), Shape(n, a, b + 1, config);
    assert t.calls == s.calls[b := PastCapacity(b, 0)];
    ReachStep(s, CheckCapacity(b, b, 0), t, cap, config, k);
  }

  lemma PushedShape(n: nat, b: nat, config: Config, x: Call, y: Call)
    requires n < b && x.MayPush() && y.MayPush()
    ensures var s := Shape(n, n, b, config);
            && n !in s.store && n in s.calls && s.calls[n] == PastCapacity(n, 0)
            && PastCheck(s.(calls := s.calls[n := x])) == PastCheck(s)
            && PastCheck(s.(calls := s.calls[n := x][n := y])) == PastCheck(s)
            && Shape(n + 1, n + 1, b, config)
               == s.(store := s.store[n := MakeChallenge(n, 0, 0, Stamps(0, 0, 0, 0), config)],
                     calls := s.calls[n := x][n := y] - {n})
  {
    var s, t := Shape(n, n, b, config), Shape(n + 1, n + 1, b, config);
    assert t.store == s.store[n := MakeChallenge(n, 0, 0, Stamps(0, 0, 0, 0), config)];
    assert t.calls == s.calls[n := x][n := y] - {n};
  }

  /** The oldest of the passed calls completes. */
  lemma PushOne(n: nat, b: nat, cap: nat, config: Config, k: nat)
    requires n < b <= n + k && Reachable(Shape(n, n, b, config), cap, config, k)
    ensures Reachable(Shape(n + 1, n + 1, b, config), cap, config, k)
  {
    var s := Shape(n, n, b, config);
    var x, y := NoLiveChallenge(n, 0), ReadyToPush(n, MakeChallenge(n, 0, 0, Stamps(0, 0, 0, 0), config));
    ShapeSizes(n, n, b, config);
    ShapeSizes(n + 1, n + 1, b, config);
    PushedShape(n, b, config, x, y);
    var s1 := s.(calls := s.calls[n := x]);
    var s2 := s1.(calls := s1.calls[n := y]);
    ReachStep(s, LookUp(n), s1, cap, config, k);
    ReachStep(s1, Authorise(n, true, 0), s2, cap, config, k);
    ReachStep(s2, Push(n), Shape(n + 1, n + 1, b, config), cap, config, k);
  }

  lemma {:induction false} FillSerially(n: nat, cap: nat, config: Config, k: nat)
    requires n <= cap && k > 0
    ensures Reachable(Shape(n, n, n, config), cap, config, k)
  {
    if n == 0 {
      StartShape(cap, config, k);
    } else {
      FillSerially(n - 1, cap, config, k);
      PassOne(n - 1, n - 1, n - 1, cap, config, k);
      PushOne(n - 1, n, cap, config, k);
    }
  }

  lemma {:induction false} PassMany(n: nat, j: nat, cap: nat, config: Config, k: nat)
    requires n < cap && 0 < k && j <= k
    ensures Reachable(Shape(n, n, n + j, config), cap, config, k)
  {
    if j == 0 {
      FillSerially(n, cap, config, k);
    } else {
      PassMany(n, j - 1, cap, config, k);
      PassOne(n, n, n + j - 1, cap, config, k);
    }
  }

  lemma {:induction false} PushMany(n: nat, j: nat, cap: nat, config: Config, k: nat)
    requires n < cap && 0 < k && j <= k
    ensures Reachable(Shape(n + j, n + j, n + k, config), cap, config, k)
  {
    if j == 0 {
      PassMany(n, k, cap, config, k);
    } else {
      PushMany(n, j - 1, cap, config, k);
      PushOne(n + j - 1, n + k, cap, config, k);
    }
  }

  /**
   * The bound is exact: with `k` calls allowed past the check at once, some run fills the
   * store to `cap` - 1 + `k`. So the capacity itself can be exceeded exactly when two calls
   * may be past the check together.
   */
  lemma BoundIsReached(cap: nat, config: Config, k: nat)
    requires cap > 0 && k > 0
    ensures exists s: State :: Reachable(s, cap, config, k) && |s.store| == cap - 1 + k
  {
    PushMany(cap - 1, k, cap, config, k);
    ShapeSizes(cap - 1 + k, cap - 1 + k, cap - 1 + k, config);
    assert Reachable(Shape(cap - 1 + k, cap - 1 + k, cap - 1 + k, config), cap, config, k);
  }
}
