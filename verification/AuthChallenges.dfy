/**
 * The challenge store of relayer/src/auth_challenges.rs: a keyed priority queue in which the
 * challenge that expires first comes first.
 */
module AuthChallenges {
  import opened Prelude
  import opened AuthTypes

  type Store = map<Ip, Challenge>

  /** The store without its expired challenges. */
  function NotExpired(store: Store, now: Time): Store {
    map ip | ip in store && !IsExpired(store[ip].expiresAt, now) :: store[ip]
  }

  /** `Ord for AuthChallenge`: only the expiry counts. */
  predicate NoLaterThan(a: Challenge, b: Challenge) { a.expiresAt <= b.expiresAt }

  /** `Reverse` puts the earliest expiry first. */
  predicate IsFront(store: Store, ip: Ip) {
    ip in store && forall other :: other in store ==> NoLaterThan(store[ip], store[other])
  }

  lemma {:induction false} FrontExists(store: Store, among: set<Ip>) returns (ip: Ip)
    requires among <= store.Keys && among != {}
    ensures ip in among && forall other :: other in among ==> NoLaterThan(store[ip], store[other])
    decreases among
  {
    var x :| x in among;
    if among == {x} {
      ip := x;
    } else {
      var y := FrontExists(store, among - {x});
      ip := if NoLaterThan(store[x], store[y]) then x else y;
    }
  }

  class AuthChallenges {
    var queue: Store

    constructor ()
      ensures queue == map[]
    {
      queue := map[];
    }

    /** `peek`: some challenge that expires first, if there is any. */
    method Peek() returns (front: Option<Ip>)
      ensures front.None? <==> queue == map[]
      ensures front.Some? ==> IsFront(queue, front.value)
    {
      if queue == map[] { return None; }
      assert queue.Keys != {};
      ghost var some := FrontExists(queue, queue.Keys);
      assert IsFront(queue, some);
      var ip :| IsFront(queue, ip);
      front := Some(ip);
    }

    /**
     * `remove_all_expired`: popping from the front until a live challenge shows up removes
     * exactly the challenges expired at the last look.
     */
    method RemoveAllExpired(clock: Clock) returns (lookedAt: Time)
      modifies this, clock
      ensures old(clock.now) <= lookedAt <= clock.now
      ensures queue == NotExpired(old(queue), lookedAt)
    {
      lookedAt := clock.now;
      var front := Peek();
      while front.Some?
        invariant front.None? <==> queue == map[]
        invariant front.Some? ==> IsFront(queue, front.value)
        invariant old(clock.now) <= lookedAt <= clock.now
        invariant forall ip :: ip in queue ==> ip in old(queue) && queue[ip] == old(queue)[ip]
        invariant forall ip :: ip in old(queue) && ip !in queue ==> IsExpired(old(queue)[ip].expiresAt, lookedAt)
        decreases queue.Keys
      {
        lookedAt := clock.Read();
        if !IsExpired(queue[front.value].expiresAt, lookedAt) {
          assert forall ip :: ip in queue ==> NoLaterThan(queue[front.value], queue[ip]);
          return;
        }
        assert front.value in queue.Keys;
        queue := queue - {front.value};
        front := Peek();
      }
    }

    /** `push`: a challenge already stored for the address is replaced. */
    method Push(ip: Ip, challenge: Challenge)
      modifies this
      ensures queue == old(queue)[ip := challenge]
    {
      queue := queue[ip := challenge];
    }

    method Remove(ip: Ip)
      modifies this
      ensures queue == old(queue) - {ip}
    {
      queue := queue - {ip};
    }

    method Len() returns (n: nat)
      ensures n == |queue|
    {
      n := |queue|;
    }

    method GetPriority(ip: Ip) returns (c: Option<Challenge>)
      ensures c == if ip in queue then Some(queue[ip]) else None
    {
      c := if ip in queue then Some(queue[ip]) else None;
    }
  }
}
