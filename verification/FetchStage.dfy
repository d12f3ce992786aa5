/** `handle_forwarded_packets` of core/src/fetch_stage.rs. */
module FetchStage {
  import opened Prelude
  import opened Sequences
  import opened Packets

  const MAX_PACKETS: nat := 1024

  /** `flags |= FORWARDED` and nothing else. */
  function Marked(p: Packet): Packet { p.(forwarded := true) }

  /** The same packets in the same order, each now forwarded and otherwise as it was. */
  ghost predicate AllMarked(before: seq<Packet>, after: seq<Packet>) {
    && |after| == |before|
    && (forall k :: 0 <= k < |after| ==>
                      && after[k].forwarded
                      && after[k].payload == before[k].payload && after[k].discard == before[k].discard
                      && after[k].meta == before[k].meta && after[k].tx == before[k].tx)
  }

  /** Packets in the first `n` batches. */
  function Total(batches: seq<array<Packet>>, n: nat): nat
    requires n <= |batches|
  {
    if n == 0 then 0 else Total(batches, n - 1) + batches[n - 1].Length
  }

  /** What the first `n` batches hold. */
  ghost function Contents(batches: seq<array<Packet>>, n: nat): seq<seq<Packet>>
    requires n <= |batches|
    reads batches
  {
    seq(n, i requires 0 <= i < n reads batches => batches[i][..])
  }

  /** It counts the packets themselves. */
  lemma {:induction false} TotalCountsPackets(batches: seq<array<Packet>>, n: nat)
    requires n <= |batches|
    ensures Total(batches, n) == |Flatten(Contents(batches, n))|
  {
    if n > 0 {
      TotalCountsPackets(batches, n - 1);
      assert Contents(batches, n)[..n - 1] == Contents(batches, n - 1);
    }
  }

  /** `iter_mut().for_each(mark_forwarded)` */
  method MarkForwarded(batch: array<Packet>)
    modifies batch
    ensures AllMarked(old(batch[..]), batch[..])
  {
    for i := 0 to batch.Length
      invariant forall k :: 0 <= k < i ==> batch[k] == Marked(old(batch[k]))
      invariant forall k :: i <= k < batch.Length ==> batch[k] == old(batch[k])
    {
      batch[i] := Marked(batch[i]);
    }
  }

  datatype FetchError = RecvError | SendError

  /** How many batches a round reads: at least one, and then until the queue is empty or the total is past the limit. */
  ghost predicate IsRound(batches: seq<array<Packet>>, n: nat) {
    && 1 <= n <= |batches|
    && (n == |batches| || (n >= 2 && Total(batches, n) > MAX_PACKETS))
    && (forall m :: 2 <= m < n ==> Total(batches, m) <= MAX_PACKETS)
  }

  /** A round reads at most the larger of the limit and the first batch, plus one batch. */
  lemma RoundIsBounded(batches: seq<array<Packet>>, n: nat, largest: nat)
    requires IsRound(batches, n)
    requires forall i :: 0 <= i < |batches| ==> batches[i].Length <= largest
    ensures |Flatten(Contents(batches, n))| <= (if batches[0].Length > 1024 then batches[0].Length else 1024) + largest
  {
    assert Total(batches, 1) == batches[0].Length;
    if n >= 3 {
      assert Total(batches, n - 1) <= MAX_PACKETS;
    }
    TotalCountsPackets(batches, n);
  }

  class FetchStage {
    var receiver: seq<array<Packet>>
    var sender: seq<array<Packet>>

    /** Batches are owned by one place at a time. */
    ghost predicate Valid()
      reads this
    {
      && (forall i, j :: 0 <= i < j < |receiver| ==> receiver[i] != receiver[j])
      && (forall i, j :: 0 <= i < |receiver| && 0 <= j < |sender| ==> receiver[i] != sender[j])
    }

    /** The reading loop: a round's batches, marked in place. */
    method ReadRound() returns (n: nat)
      requires Valid() && receiver != []
      modifies receiver
      ensures IsRound(receiver, n)
      ensures forall i :: 0 <= i < n ==> AllMarked(old(receiver[i][..]), receiver[i][..])
      ensures forall i :: n <= i < |receiver| ==> receiver[i][..] == old(receiver[i][..])
    {
      MarkForwarded(receiver[0]);
      n := 1;
      var numPackets := receiver[0].Length;
      while n < |receiver|
        invariant 1 <= n <= |receiver| && numPackets == Total(receiver, n)
        invariant forall m :: 2 <= m <= n ==> Total(receiver, m) <= MAX_PACKETS
        invariant forall i :: 0 <= i < n ==> AllMarked(old(receiver[i][..]), receiver[i][..])
        invariant forall i :: n <= i < |receiver| ==> receiver[i][..] == old(receiver[i][..])
      {
        numPackets := numPackets + receiver[n].Length;
        MarkForwarded(receiver[n]);
        n := n + 1;
        if numPackets > MAX_PACKETS { return; }
      }
    }

    /**
     * One round. `accepted` is how many sends the channel takes before it is closed. On
     * success exactly the batches read are passed on, in order, every packet marked and
     * otherwise as it was, and the unread batches are untouched.
     */
    method HandleForwardedPackets(accepted: nat) returns (r: Result<(), FetchError>, n: nat)
      requires Valid()
      modifies this, receiver
      ensures r == Err(RecvError) <==> old(receiver) == []
      ensures r == Err(RecvError) ==> receiver == old(receiver) && sender == old(sender)
      ensures r != Err(RecvError) ==>
                && IsRound(old(receiver), n) && receiver == old(receiver)[n..]
                && (forall i :: 0 <= i < n ==> AllMarked(old(receiver[i][..]), old(receiver)[i][..]))
                && (forall i :: n <= i < |old(receiver)| ==> old(receiver)[i][..] == old(receiver[i][..]))
      ensures r.Ok? ==> n <= accepted && sender == old(sender) + old(receiver)[..n]
      ensures r == Err(SendError) ==> accepted < n && sender == old(sender) + old(receiver)[..accepted]
      ensures r.Ok? ==> Valid()
    {
      if receiver == [] { return Err(RecvError), 0; }
      n := ReadRound();
      var batches := receiver[..n];
      receiver := receiver[n..];
      for i := 0 to n
        modifies `sender
        invariant i <= accepted
        invariant sender == old(sender) + batches[..i] && receiver == old(receiver)[n..]
      {
        if i == accepted { return Err(SendError), n; }
        assert batches[..i + 1] == batches[..i] + [batches[i]];
        sender := sender + [batches[i]];
      }
      assert batches[..n] == batches;
      r := Ok(());
    }
  }
}
