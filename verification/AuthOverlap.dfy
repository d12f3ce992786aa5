/**
 * The life of a challenge when the handlers of relayer/src/auth_service.rs run concurrently. With
 * atomic handlers an address is always answered with the same live challenge, and a challenge is
 * redeemed once. Split at the locks, the handlers keep both promises exactly as long as no second
 * call for the same challenge is already past its look-up; this module says so for all runs.
 */
module AuthOverlap {
  import opened Prelude
  import opened AuthTypes
  import opened AuthChallenges
  import opened AuthService
  import P = AuthProtocol

  /** A run of the split handlers from an empty service, in which every nonce is drawn once. */
  datatype Trace = Start | Then(before: Trace, op: P.Op, next: P.State)
  {
    function State(): P.State { if Start? then P.EMPTY else next }

    function Drawn(): set<Nonce> {
      match this
      case Start => {}
      case Then(before, op, _) => before.Drawn() + if op.Authorise? then {op.nonce} else {}
    }

    ghost predicate IsRun(cap: nat, config: Config) {
      match this
      case Start => true
      case Then(before, op, t) =>
        && before.IsRun(cap, config) && P.Next(before.State(), op, t, cap, config)
        && (op.Authorise? ==> op.nonce !in before.Drawn())
    }

    /** This run goes on from `base`. */
    ghost predicate Extends(base: Trace) {
      this == base || (Then? && before.Extends(base))
    }

    /** Since `base`, the challenge has been redeemed. */
    ghost predicate RedeemedSince(base: Trace, nonce: Nonce) {
      this != base && Then? && (RedeemsNonce(before.State(), op, nonce) || before.RedeemedSince(base, nonce))
    }

    /** Since `base`, the address's challenge has neither expired nor been redeemed. */
    ghost predicate UndisturbedSince(base: Trace, ip: Ip) {
      || this == base
      || (&& Then? && before.UndisturbedSince(base, ip)
          && LiveAt(before.State(), ip) && LiveAt(State(), ip) && !Removes(before.State(), op, ip))
    }
  }

  /** The step redeems the challenge with this nonce. */
  ghost predicate RedeemsNonce(s: P.State, op: P.Op, nonce: Nonce) {
    op.RemoveAndIssue? && VerifiedFor(s, op.call, nonce)
  }

  /** The call has verified its request against this challenge and has not redeemed it yet. */
  ghost predicate VerifiedFor(s: P.State, call: nat, nonce: Nonce) {
    call in s.calls && s.calls[call].Verified? && s.calls[call].challenge.nonce == nonce
  }

  /** The step removes the address's challenge. */
  ghost predicate Removes(s: P.State, op: P.Op, ip: Ip) {
    op.RemoveAndIssue? && op.call in s.calls && s.calls[op.call].Verified? && s.calls[op.call].ip == ip
  }

  ghost predicate LiveAt(s: P.State, ip: Ip) {
    ip in s.store && !IsExpired(s.store[ip].expiresAt, s.now)
  }

  /** The step answers the address with this nonce: a stored challenge found, or a new one pushed. */
  ghost predicate Answers(s: P.State, op: P.Op, ip: Ip, nonce: Nonce) {
    || (&& op.LookUp? && op.call in s.calls && s.calls[op.call].PastCapacity? && s.calls[op.call].ip == ip
        && LiveAt(s, ip) && s.store[ip].nonce == nonce)
    || (&& op.Push? && op.call in s.calls && s.calls[op.call].ReadyToPush? && s.calls[op.call].ip == ip
        && s.calls[op.call].challenge.nonce == nonce)
  }

  /** A challenge call for the address has found no live challenge, and has not pushed its own yet. */
  ghost predicate PastLookUp(s: P.State, call: nat, ip: Ip) {
    call in s.calls && (s.calls[call].NoLiveChallenge? || s.calls[call].ReadyToPush?) && s.calls[call].ip == ip
  }

  // ---------------------------------------------------------------- each nonce belongs to one challenge

  ghost predicate StoreUnique(s: P.State, drawn: set<Nonce>) {
    && (forall ip :: ip in s.store ==> s.store[ip].nonce in drawn)
    && (forall ip, other :: ip in s.store && other in s.store && s.store[ip].nonce == s.store[other].nonce ==>
                              ip == other)
  }

  ghost predicate ReadyUnique(s: P.State, drawn: set<Nonce>) {
    && (forall c :: c in s.calls && s.calls[c].ReadyToPush? ==> s.calls[c].challenge.nonce in drawn)
    && (forall c, ip :: c in s.calls && s.calls[c].ReadyToPush? && ip in s.store ==>
                          s.calls[c].challenge.nonce != s.store[ip].nonce)
    && (forall c, d :: c in s.calls && d in s.calls && s.calls[c].ReadyToPush? && s.calls[d].ReadyToPush? && c != d ==>
                         s.calls[c].challenge.nonce != s.calls[d].challenge.nonce)
  }

  ghost predicate VerifiedUnique(s: P.State, drawn: set<Nonce>) {
    && (forall c :: c in s.calls && s.calls[c].Verified? ==> s.calls[c].challenge.nonce in drawn)
    && (forall c, ip :: c in s.calls && s.calls[c].Verified? && ip in s.store && s.calls[c].ip != ip ==>
                          s.calls[c].challenge.nonce != s.store[ip].nonce)
    && (forall c, d :: c in s.calls && d in s.calls && s.calls[c].Verified? && s.calls[d].ReadyToPush? ==>
                         s.calls[c].challenge.nonce != s.calls[d].challenge.nonce)
  }

  ghost predicate Unique(s: P.State, drawn: set<Nonce>) {
    StoreUnique(s, drawn) && ReadyUnique(s, drawn) && VerifiedUnique(s, drawn)
  }

  /** Where a stored challenge comes from. */
  lemma StoredFrom(s: P.State, op: P.Op, t: P.State, cap: nat, config: Config, ip: Ip)
    requires P.Next(s, op, t, cap, config) && ip in t.store
    ensures || (ip in s.store && t.store[ip] == s.store[ip])
            || (&& op.Push? && op.call in s.calls && s.calls[op.call] == P.ReadyToPush(ip, t.store[ip])
                && t.calls == s.calls - {op.call} && t.store == s.store[ip := t.store[ip]])
  {}

  /** Where a call that is ready to push comes from. */
  lemma ReadyFrom(s: P.State, op: P.Op, t: P.State, cap: nat, config: Config, c: nat)
    requires P.Next(s, op, t, cap, config) && c in t.calls && t.calls[c].ReadyToPush?
    ensures || (c in s.calls && t.calls[c] == s.calls[c] && !(op.Push? && op.call == c))
            || (op.Authorise? && op.call == c && t.calls[c].challenge.nonce == op.nonce)
  {}

  /** Where a verified call comes from. */
  lemma VerifiedFrom(s: P.State, op: P.Op, t: P.State, cap: nat, config: Config, c: nat)
    requires P.Next(s, op, t, cap, config) && c in t.calls && t.calls[c].Verified?
    ensures || (c in s.calls && t.calls[c] == s.calls[c] && !(op.RemoveAndIssue? && op.call == c))
            || (&& op.VerifyTokens? && t.store == s.store && t.calls[c].ip in s.store
                && t.calls[c].challenge == s.store[t.calls[c].ip])
  {}

  lemma StoreUniqueStep(
      s: P.State, op: P.Op, t: P.State, cap: nat, config: Config, drawn: set<Nonce>, drawn': set<Nonce>)
    requires Unique(s, drawn) && P.Next(s, op, t, cap, config) && drawn <= drawn'
    ensures StoreUnique(t, drawn')
  {
    forall ip | ip in t.store ensures t.store[ip].nonce in drawn' {
      StoredFrom(s, op, t, cap, config, ip);
    }
    forall ip, other | ip in t.store && other in t.store && t.store[ip].nonce == t.store[other].nonce
      ensures ip == other
    {
      StoredFrom(s, op, t, cap, config, ip);
      StoredFrom(s, op, t, cap, config, other);
    }
  }

  lemma ReadyUniqueStep(
      s: P.State, op: P.Op, t: P.State, cap: nat, config: Config, drawn: set<Nonce>, drawn': set<Nonce>)
    requires Unique(s, drawn) && P.Next(s, op, t, cap, config) && (op.Authorise? ==> op.nonce !in drawn)
    requires drawn <= drawn' && (op.Authorise? ==> op.nonce in drawn')
    ensures ReadyUnique(t, drawn')
  {
    forall c | c in t.calls && t.calls[c].ReadyToPush? ensures t.calls[c].challenge.nonce in drawn' {
      ReadyFrom(s, op, t, cap, config, c);
    }
    forall c, ip | c in t.calls && t.calls[c].ReadyToPush? && ip in t.store
      ensures t.calls[c].challenge.nonce != t.store[ip].nonce
    {
      ReadyFrom(s, op, t, cap, config, c);
      StoredFrom(s, op, t, cap, config, ip);
    }
    forall c, d | c in t.calls && d in t.calls && t.calls[c].ReadyToPush? && t.calls[d].ReadyToPush? && c != d
      ensures t.calls[c].challenge.nonce != t.calls[d].challenge.nonce
    {
      ReadyFrom(s, op, t, cap, config, c);
      ReadyFrom(s, op, t, cap, config, d);
    }
  }

  lemma VerifiedUniqueStep(
      s: P.State, op: P.Op, t: P.State, cap: nat, config: Config, drawn: set<Nonce>, drawn': set<Nonce>)
    requires Unique(s, drawn) && P.Next(s, op, t, cap, config) && (op.Authorise? ==> op.nonce !in drawn)
    requires drawn <= drawn'
    ensures VerifiedUnique(t, drawn')
  {
    forall c | c in t.calls && t.calls[c].Verified? ensures t.calls[c].challenge.nonce in drawn' {
      VerifiedFrom(s, op, t, cap, config, c);
    }
    forall c, ip | c in t.calls && t.calls[c].Verified? && ip in t.store && t.calls[c].ip != ip
      ensures t.calls[c].challenge.nonce != t.store[ip].nonce
    {
      VerifiedFrom(s, op, t, cap, config, c);
      StoredFrom(s, op, t, cap, config, ip);
    }
    forall c, d | c in t.calls && d in t.calls && t.calls[c].Verified? && t.calls[d].ReadyToPush?
      ensures t.calls[c].challenge.nonce != t.calls[d].challenge.nonce
    {
      VerifiedFrom(s, op, t, cap, config, c);
      ReadyFrom(s, op, t, cap, config, d);
    }
  }

  lemma {:induction false} UniqueAlways(tr: Trace, cap: nat, config: Config)
    requires tr.IsRun(cap, config)
    ensures Unique(tr.State(), tr.Drawn())
  {
    if tr.Then? {
      var s, op, t, drawn, drawn' := tr.before.State(), tr.op, tr.next, tr.before.Drawn(), tr.Drawn();
      UniqueAlways(tr.before, cap, config);
      StoreUniqueStep(s, op, t, cap, config, drawn, drawn');
      ReadyUniqueStep(s, op, t, cap, config, drawn, drawn');
      VerifiedUniqueStep(s, op, t, cap, config, drawn, drawn');
    }
  }

  // ---------------------------------------------------------------- redeeming twice

  /** The challenge is gone for good, except for calls that had verified it by `s0`. */
  ghost predicate Spent(s0: P.State, s: P.State, nonce: Nonce, redeemer: nat) {
    && (forall ip :: ip in s.store ==> s.store[ip].nonce != nonce)
    && (forall c :: c in s.calls && s.calls[c].ReadyToPush? ==> s.calls[c].challenge.nonce != nonce)
    && (forall c :: VerifiedFor(s, c, nonce) ==> c != redeemer && VerifiedFor(s0, c, nonce))
  }

  lemma SpentStarts(s: P.State, op: P.Op, t: P.State, cap: nat, config: Config, drawn: set<Nonce>, nonce: Nonce)
    requires Unique(s, drawn) && P.Next(s, op, t, cap, config) && RedeemsNonce(s, op, nonce)
    ensures Spent(s, t, nonce, op.call)
  {
    forall ip | ip in t.store ensures t.store[ip].nonce != nonce {
      StoredFrom(s, op, t, cap, config, ip);
    }
    forall c | c in t.calls && t.calls[c].ReadyToPush? ensures t.calls[c].challenge.nonce != nonce {
      ReadyFrom(s, op, t, cap, config, c);
    }
    forall c | VerifiedFor(t, c, nonce) ensures c != op.call && VerifiedFor(s, c, nonce) {
      VerifiedFrom(s, op, t, cap, config, c);
    }
  }

  lemma SpentStep(
      s0: P.State, s: P.State, op: P.Op, t: P.State, cap: nat, config: Config, nonce: Nonce, redeemer: nat)
    requires Spent(s0, s, nonce, redeemer) && P.Next(s, op, t, cap, config) && (op.Authorise? ==> op.nonce != nonce)
    ensures Spent(s0, t, nonce, redeemer)
  {
    forall ip | ip in t.store ensures t.store[ip].nonce != nonce {
      StoredFrom(s, op, t, cap, config, ip);
    }
    forall c | c in t.calls && t.calls[c].ReadyToPush? ensures t.calls[c].challenge.nonce != nonce {
      ReadyFrom(s, op, t, cap, config, c);
    }
    forall c | VerifiedFor(t, c, nonce) ensures c != redeemer && VerifiedFor(s0, c, nonce) {
      VerifiedFrom(s, op, t, cap, config, c);
      assert VerifiedFor(s, c, nonce);
    }
  }

  /** A redeemed challenge stays spent in every continuation. */
  lemma {:induction false} SpentForever(base: Trace, tr: Trace, cap: nat, config: Config, nonce: Nonce)
    requires base.Then? && RedeemsNonce(base.before.State(), base.op, nonce)
    requires tr.IsRun(cap, config) && tr.Extends(base)
    ensures Spent(base.before.State(), tr.State(), nonce, base.op.call) && nonce in tr.Drawn()
  {
    if tr == base {
      UniqueAlways(base.before, cap, config);
      SpentStarts(base.before.State(), base.op, base.next, cap, config, base.before.Drawn(), nonce);
    } else {
      SpentForever(base, tr.before, cap, config, nonce);
      SpentStep(base.before.State(), tr.before.State(), tr.op, tr.next, cap, config, nonce, base.op.call);
    }
  }

  /** Some continuation redeems the challenge once more. */
  ghost predicate CanRedeemAgain(base: Trace, cap: nat, config: Config, nonce: Nonce) {
    exists tr: Trace :: tr.IsRun(cap, config) && tr.Extends(base) && tr.RedeemedSince(base, nonce)
  }

  lemma {:induction false} SecondRedeemer(base: Trace, tr: Trace, cap: nat, config: Config, nonce: Nonce)
      returns (call: nat)
    requires base.Then? && RedeemsNonce(base.before.State(), base.op, nonce)
    requires tr.IsRun(cap, config) && tr.Extends(base) && tr.RedeemedSince(base, nonce)
    ensures call != base.op.call && VerifiedFor(base.before.State(), call, nonce)
  {
    if RedeemsNonce(tr.before.State(), tr.op, nonce) {
      SpentForever(base, tr.before, cap, config, nonce);
      call := tr.op.call;
    } else {
      call := SecondRedeemer(base, tr.before, cap, config, nonce);
    }
  }

  /**
   * A challenge that has been redeemed can be redeemed again if and only if, when it was, another
   * call had already verified its own request against it.
   */
  lemma RedeemableAgainIff(base: Trace, cap: nat, config: Config, nonce: Nonce)
    requires base.IsRun(cap, config) && base.Then? && RedeemsNonce(base.before.State(), base.op, nonce)
    ensures CanRedeemAgain(base, cap, config, nonce)
            <==> exists call :: call != base.op.call && VerifiedFor(base.before.State(), call, nonce)
  {
    if tr: Trace :| tr.IsRun(cap, config) && tr.Extends(base) && tr.RedeemedSince(base, nonce) {
      var call := SecondRedeemer(base, tr, cap, config, nonce);
    }
    if call :| call != base.op.call && VerifiedFor(base.before.State(), call, nonce) {
      var s := base.next;
      var c := s.calls[call];
      var t := s.(store := s.store - {c.ip}, calls := s.calls - {call},
                  issued := s.issued + {Issue(c.challenge.access), Issue(c.challenge.refresh)});
      var tr := Then(base, P.RemoveAndIssue(call), t);
      assert P.Next(s, tr.op, t, cap, config);
      assert tr.before == base && base.Extends(base) && tr != base;
      assert RedeemsNonce(base.State(), tr.op, nonce);
      assert tr.IsRun(cap, config) && tr.Extends(base) && tr.RedeemedSince(base, nonce);
    }
  }

  // ---------------------------------------------------------------- answering twice

  /** The address still has this challenge, and nobody is about to replace it. */
  ghost predicate Settled(s: P.State, ip: Ip, challenge: Challenge) {
    ip in s.store && s.store[ip] == challenge && forall call :: !PastLookUp(s, call, ip)
  }

  lemma SettledStep(s: P.State, op: P.Op, t: P.State, cap: nat, config: Config, ip: Ip, challenge: Challenge)
    requires Settled(s, ip, challenge) && P.Next(s, op, t, cap, config)
    requires LiveAt(s, ip) && !Removes(s, op, ip)
    requires op.Expire? ==> LiveAt(t, ip)
    ensures Settled(t, ip, challenge)
  {
    if op.Push? { assert !PastLookUp(s, op.call, ip); }
    forall call | PastLookUp(t, call, ip) ensures false {
      PastLookUpFrom(s, op, t, cap, config, call, ip);
    }
  }

  /** A call gets past its look-up only by finding no live challenge. */
  lemma PastLookUpFrom(s: P.State, op: P.Op, t: P.State, cap: nat, config: Config, call: nat, ip: Ip)
    requires P.Next(s, op, t, cap, config) && PastLookUp(t, call, ip)
    ensures PastLookUp(s, call, ip) || !LiveAt(s, ip)
  {}

  lemma SettledAnswers(s: P.State, op: P.Op, ip: Ip, challenge: Challenge)
    requires Settled(s, ip, challenge)
    ensures forall nonce :: Answers(s, op, ip, nonce) ==> nonce == challenge.nonce
  {
    if op.Push? { assert !PastLookUp(s, op.call, ip); }
  }

  lemma {:induction false} SettledSince(
      base: Trace, tr: Trace, cap: nat, config: Config, ip: Ip, challenge: Challenge)
    requires Settled(base.State(), ip, challenge)
    requires tr.IsRun(cap, config) && tr.Extends(base) && tr.UndisturbedSince(base, ip)
    ensures Settled(tr.State(), ip, challenge)
  {
    if tr != base {
      SettledSince(base, tr.before, cap, config, ip, challenge);
      SettledStep(tr.before.State(), tr.op, tr.next, cap, config, ip, challenge);
    }
  }

  /** The run goes on from `base` and then answers the address, whose live challenge has been left alone, otherwise. */
  ghost predicate AnswersOtherwise(tr: Trace, base: Trace, cap: nat, config: Config, ip: Ip, nonce: Nonce) {
    && tr.IsRun(cap, config) && tr.Then? && tr.before.Extends(base)
    && tr.before.UndisturbedSince(base, ip) && LiveAt(tr.before.State(), ip)
    && exists other :: other != nonce && Answers(tr.before.State(), tr.op, ip, other)
  }

  ghost predicate CanAnswerOtherwise(base: Trace, cap: nat, config: Config, ip: Ip, nonce: Nonce) {
    exists tr: Trace :: AnswersOtherwise(tr, base, cap, config, ip, nonce)
  }

  /** A call that is ready pushes its own challenge, which is another one. */
  lemma ReadyAnswersOtherwise(base: Trace, tr: Trace, cap: nat, config: Config, ip: Ip, nonce: Nonce, call: nat)
    requires tr.IsRun(cap, config) && tr.Extends(base) && tr.UndisturbedSince(base, ip) && LiveAt(tr.State(), ip)
    requires tr.State().store[ip].nonce == nonce
    requires call in tr.State().calls && tr.State().calls[call].ReadyToPush? && tr.State().calls[call].ip == ip
    ensures CanAnswerOtherwise(base, cap, config, ip, nonce)
  {
    UniqueAlways(tr, cap, config);
    var s := tr.State();
    var c := s.calls[call];
    var t := s.(store := s.store[c.ip := c.challenge], calls := s.calls - {call});
    var longer := Then(tr, P.Push(call), t);
    assert P.Next(s, longer.op, t, cap, config);
    assert Answers(s, longer.op, ip, c.challenge.nonce) && c.challenge.nonce != nonce;
    assert AnswersOtherwise(longer, base, cap, config, ip, nonce);
  }

  /** A call that has found no live challenge can still be authorised and become ready. */
  lemma BecomesReady(base: Trace, cap: nat, config: Config, ip: Ip, call: nat) returns (tr: Trace)
    requires base.IsRun(cap, config) && LiveAt(base.State(), ip)
    requires call in base.State().calls && base.State().calls[call].NoLiveChallenge?
    requires base.State().calls[call].ip == ip
    ensures tr.IsRun(cap, config) && tr.Extends(base) && tr.UndisturbedSince(base, ip) && LiveAt(tr.State(), ip)
    ensures tr.State().store == base.State().store
    ensures call in tr.State().calls && tr.State().calls[call].ReadyToPush? && tr.State().calls[call].ip == ip
  {
    var s := base.State();
    var c := s.calls[call];
    var nonce := Unused(base.Drawn());
    var s1 := s.(authorised := {c.pubkey});
    var challenge := MakeChallenge(c.ip, c.pubkey, nonce, Stamps(s.now, s.now, s.now, s.now), config);
    var s2 := s1.(calls := s1.calls[call := P.ReadyToPush(c.ip, challenge)]);
    var tr1 := Then(base, P.SetAuthorised({c.pubkey}), s1);
    assert P.Next(s, tr1.op, s1, cap, config) && base.UndisturbedSince(base, ip);
    tr := Then(tr1, P.Authorise(call, true, nonce), s2);
    assert P.Next(s1, tr.op, s2, cap, config) && nonce !in tr1.Drawn();
    assert tr1.Extends(base) && tr1.IsRun(cap, config) && tr1.UndisturbedSince(base, ip);
  }

  /**
   * As long as its challenge is live and unredeemed, an address can be answered with another one
   * if and only if a challenge call for it is already past its look-up.
   */
  lemma AnsweredOtherwiseIff(base: Trace, cap: nat, config: Config, ip: Ip)
    requires base.IsRun(cap, config) && LiveAt(base.State(), ip)
    ensures CanAnswerOtherwise(base, cap, config, ip, base.State().store[ip].nonce)
            <==> exists call :: PastLookUp(base.State(), call, ip)
  {
    var s := base.State();
    var challenge := s.store[ip];
    if call :| PastLookUp(s, call, ip) {
      if s.calls[call].ReadyToPush? {
        ReadyAnswersOtherwise(base, base, cap, config, ip, challenge.nonce, call);
      } else {
        var tr := BecomesReady(base, cap, config, ip, call);
        ReadyAnswersOtherwise(base, tr, cap, config, ip, challenge.nonce, call);
      }
    } else if tr: Trace :| AnswersOtherwise(tr, base, cap, config, ip, challenge.nonce) {
      SettledSince(base, tr.before, cap, config, ip, challenge);
      SettledAnswers(tr.before.State(), tr.op, ip, challenge);
    }
  }
}
