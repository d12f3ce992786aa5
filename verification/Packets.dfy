/** Packets, the transactions they carry and the lookup tables that complete a transaction's account list. */
module Packets {
  import opened Prelude
  import opened Sequences

  /** One `MessageAddressTableLookup` of a version-0 message. */
  datatype TableLookup = TableLookup(
    accountKey: Pubkey, writableIndexes: seq<nat>, readonlyIndexes: seq<nat>)

  /**
   * What the filters look at in a transaction. `maybeWritable` holds the static positions for
   * which `is_maybe_writable` answers true; `lookups` is `None` for a legacy message.
   */
  datatype Transaction = Transaction(
    staticKeys: seq<Pubkey>, maybeWritable: set<nat>, lookups: Option<seq<TableLookup>>)
  {
    function Lookups(): seq<TableLookup> {
      if lookups.Some? then lookups.value else []
    }
  }

  /** `payload` is what `data(..)` answers and `tx` what deserialising it answers. */
  datatype Packet = Packet(
    payload: Option<seq<bv8>>, discard: bool, forwarded: bool, meta: nat, tx: Option<Transaction>)

  type PacketBatch = seq<Packet>

  datatype ProtoPacket = ProtoPacket(data: seq<bv8>, discard: bool, forwarded: bool, meta: nat)

  /** `packet_to_proto_packet`: defined when the packet has data. */
  function ToProto(p: Packet): Option<ProtoPacket> {
    if p.payload.Some? then Some(ProtoPacket(p.payload.value, p.discard, p.forwarded, p.meta)) else None
  }

  /** The lookup-table cache: each table's address list under the table's key. */
  type TableCache = map<Pubkey, seq<Pubkey>>

  /** The states the cache goes through during a call: each table read finds it in one of them. */
  type CacheStates = states: set<TableCache> | states != {} witness {map[]}

  function Get(cache: TableCache, key: Pubkey): Option<seq<Pubkey>> {
    if key in cache then Some(cache[key]) else None
  }

  /** The packets of `s` selected by `keep` that convert, converted, in order. */
  function Converted(s: seq<Packet>, keep: Packet -> bool): seq<ProtoPacket> {
    if s == [] then []
    else
      var front := Converted(s[..|s| - 1], keep);
      var p := s[|s| - 1];
      if keep(p) && ToProto(p).Some? then front + [ToProto(p).value] else front
  }

  /**
   * Position by position: the output is the payload and flags of exactly the selected packets
   * that have data, in their order.
   */
  lemma {:induction false} ConvertedExactly(s: seq<Packet>, keep: Packet -> bool) returns (at: seq<nat>)
    ensures InOrder(at, set i: nat | i < |s| && keep(s[i]) && s[i].payload.Some?)
    ensures |Converted(s, keep)| == |at|
    ensures forall k :: 0 <= k < |at| ==>
                          && at[k] < |s| && s[at[k]].payload.Some?
                          && Converted(s, keep)[k] == ProtoPacket(s[at[k]].payload.value, s[at[k]].discard,
                                                                  s[at[k]].forwarded, s[at[k]].meta)
  {
    if s == [] {
      at := [];
    } else {
      var last := |s| - 1;
      var front := ConvertedExactly(s[..last], keep);
      var before := set i: nat | i < |s[..last]| && keep(s[..last][i]) && s[..last][i].payload.Some?;
      var now := set i: nat | i < |s| && keep(s[i]) && s[i].payload.Some?;
      if keep(s[last]) && s[last].payload.Some? {
        InOrderNext(front, before, last);
        assert now == before + {last};
        at := front + [last];
      } else {
        assert now == before;
        at := front;
      }
    }
  }

  /** Every packet that converts: all any path could emit. */
  function Convertible(s: seq<Packet>): seq<ProtoPacket> {
    Converted(s, p => true)
  }

  lemma ConvertibleAppend(s: seq<Packet>, t: seq<Packet>)
    ensures Convertible(s + t) == Convertible(s) + Convertible(t)
  {
    ConvertedAppend(s, t, p => true);
  }

  lemma {:induction false} ConvertedAppend(s: seq<Packet>, t: seq<Packet>, keep: Packet -> bool)
    ensures Converted(s + t, keep) == Converted(s, keep) + Converted(t, keep)
  {
    if t == [] {
      assert s + t == s;
    } else {
      assert (s + t)[..|s + t| - 1] == s + t[..|t| - 1];
      ConvertedAppend(s, t[..|t| - 1], keep);
    }
  }

  /** Selecting less keeps an in-order subsequence. */
  lemma {:induction false} ConvertedMonotone(s: seq<Packet>, keep: Packet -> bool, wider: Packet -> bool)
    requires forall p :: p in s && keep(p) ==> wider(p)
    ensures Subsequence(Converted(s, keep), Converted(s, wider))
  {
    if s != [] {
      var front := s[..|s| - 1];
      ConvertedMonotone(front, keep, wider);
      var p := s[|s| - 1];
      if ToProto(p).Some? {
        var a, b := Converted(front, keep), Converted(front, wider);
        SubsequenceSkip(a, b, ToProto(p).value);
        SubsequenceKeep(a, b, ToProto(p).value);
      }
    }
  }

  lemma ConvertedIsConvertible(s: seq<Packet>, keep: Packet -> bool)
    ensures Subsequence(Converted(s, keep), Convertible(s))
  {
    ConvertedMonotone(s, keep, p => true);
  }

  lemma {:induction false} ConvertedSame(s: seq<Packet>, keep: Packet -> bool, other: Packet -> bool)
    requires forall p :: p in s ==> keep(p) == other(p)
    ensures Converted(s, keep) == Converted(s, other)
  {
    if s != [] {
      ConvertedSame(s[..|s| - 1], keep, other);
    }
  }

  /** One packet more keeps an output between two selections. */
  lemma ConvertedStep(
      done: seq<Packet>, p: Packet, low: Packet -> bool, high: Packet -> bool, out: seq<ProtoPacket>, ok: bool)
    requires low(p) ==> ok
    requires ok ==> high(p)
    requires Subsequence(Converted(done, low), out) && Subsequence(out, Converted(done, high))
    ensures var out' := if ok && ToProto(p).Some? then out + [ToProto(p).value] else out;
            Subsequence(Converted(done + [p], low), out') && Subsequence(out', Converted(done + [p], high))
  {
    assert (done + [p])[..|done|] == done;
    if ToProto(p).Some? {
      var x := ToProto(p).value;
      SubsequenceKeep(Converted(done, low), out, x);
      SubsequenceSkip(Converted(done, low), out, x);
      SubsequenceKeep(out, Converted(done, high), x);
      SubsequenceSkip(out, Converted(done, high), x);
    }
  }
}
