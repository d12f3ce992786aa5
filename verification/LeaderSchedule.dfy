/** The leader schedule cache of relayer/src/schedule_cache.rs and what the relayer and the authoriser read from it. */
module LeaderSchedule {
  import opened Prelude

  /** `epoch_info`: the current slot, counted from genesis and from the start of the epoch. */
  datatype EpochInfo = EpochInfo(absoluteSlot: U64, slotIndex: U64)
  {
    /** The epoch's first slot, on machine words. */
    function Offset(): U64 { WrappingSub(absoluteSlot, slotIndex) }
  }

  /** On any answer in which the epoch begins after genesis and ends within a word, the words are the numbers. */
  lemma OffsetIsFirstSlot(epoch: EpochInfo, index: U64)
    requires epoch.slotIndex <= epoch.absoluteSlot && epoch.absoluteSlot - epoch.slotIndex + index <= U64_MAX
    ensures WrappingAdd(index, epoch.Offset()) == epoch.absoluteSlot - epoch.slotIndex + index
  {}

  /** The RPC answer: each leader's slots within the epoch, under the leader's printed key. */
  type Fetched = map<string, seq<U64>>

  type Parser = string -> Option<Pubkey>

  /** One of these slots, shifted to the epoch, is this one. */
  predicate Lists(slots: seq<U64>, offset: U64, slot: Slot) {
    exists i :: 0 <= i < |slots| && WrappingAdd(slots[i], offset) == slot
  }

  /** The fetched schedule gives this slot to this key. */
  ghost predicate Assigned(fetched: Fetched, parse: Parser, offset: U64, slot: Slot, pubkey: Pubkey) {
    exists name :: name in fetched && parse(name) == Some(pubkey) && Lists(fetched[name], offset, slot)
  }

  /** In plain arithmetic: the epoch's first slot and an index listed under the key, modulo a word, make the slot. */
  lemma AssignedIffListed(epoch: EpochInfo, fetched: Fetched, parse: Parser, slot: Slot, pubkey: Pubkey)
    ensures Assigned(fetched, parse, epoch.Offset(), slot, pubkey) <==>
            exists name, index :: && name in fetched && parse(name) == Some(pubkey) && index in fetched[name]
                                  && (epoch.absoluteSlot - epoch.slotIndex + index) % 0x1_0000_0000_0000_0000 == slot
  {
    forall index: U64
      ensures WrappingAdd(index, epoch.Offset())
              == (epoch.absoluteSlot - epoch.slotIndex + index) % 0x1_0000_0000_0000_0000
    {
      ShiftedIndex(epoch, index);
    }
    if Assigned(fetched, parse, epoch.Offset(), slot, pubkey) {
      var name :| name in fetched && parse(name) == Some(pubkey) && Lists(fetched[name], epoch.Offset(), slot);
      var i :| 0 <= i < |fetched[name]| && WrappingAdd(fetched[name][i], epoch.Offset()) == slot;
      assert fetched[name][i] in fetched[name];
    }
    forall name, index | && name in fetched && parse(name) == Some(pubkey) && index in fetched[name]
                         && (epoch.absoluteSlot - epoch.slotIndex + index) % 0x1_0000_0000_0000_0000 == slot
      ensures Assigned(fetched, parse, epoch.Offset(), slot, pubkey)
    {
      var i :| 0 <= i < |fetched[name]| && fetched[name][i] == index;
      assert WrappingAdd(fetched[name][i], epoch.Offset()) == slot;
      assert Lists(fetched[name], epoch.Offset(), slot);
    }
  }

  lemma ShiftedIndex(epoch: EpochInfo, index: U64)
    ensures WrappingAdd(index, epoch.Offset())
            == (epoch.absoluteSlot - epoch.slotIndex + index) % 0x1_0000_0000_0000_0000
  {
    if epoch.absoluteSlot < epoch.slotIndex {
      assert epoch.Offset() == epoch.absoluteSlot - epoch.slotIndex + WORD;
    }
  }

  /** No slot is listed under two different keys. */
  ghost predicate Disjoint(fetched: Fetched, parse: Parser) {
    forall a, b, i :: a in fetched && b in fetched && i in fetched[a] && i in fetched[b] ==>
                        parse(a).None? || parse(b).None? || parse(a) == parse(b)
  }

  /** Shifting by a word is one-to-one, so the shifted lists meet exactly where the lists do. */
  lemma ShiftInjective(a: U64, b: U64, offset: U64)
    requires WrappingAdd(a, offset) == WrappingAdd(b, offset)
    ensures a == b
  {}

  /** The cache is the fetched schedule turned around, shifted to absolute slots. */
  ghost predicate IsInverse(schedule: map<Slot, Pubkey>, fetched: Fetched, parse: Parser, offset: U64) {
    forall slot: Slot, pubkey: Pubkey ::
      (slot in schedule && schedule[slot] == pubkey) <==> Assigned(fetched, parse, offset, slot, pubkey)
  }

  /** Some of the names, taken in any order, have been entered. */
  ghost predicate Entered(
      schedule: map<Slot, Pubkey>, fetched: Fetched, names: set<string>, parse: Parser, offset: U64)
    requires names <= fetched.Keys
  {
    && (forall slot :: slot in schedule ==>
                         exists name :: && name in names && parse(name) == Some(schedule[slot])
                                        && Lists(fetched[name], offset, slot))
    && (forall name, slot: Slot :: name in names && parse(name).Some? && Lists(fetched[name], offset, slot) ==>
                                     slot in schedule)
  }

  /** One leader's slots have been entered over what there was. */
  ghost predicate EnteredOver(
      before: map<Slot, Pubkey>, after: map<Slot, Pubkey>, slots: seq<U64>, offset: U64, pubkey: Pubkey)
  {
    && (forall slot: Slot :: slot in after <==> slot in before || Lists(slots, offset, slot))
    && (forall slot: Slot :: slot in after ==>
                               after[slot] == if Lists(slots, offset, slot) then pubkey else before[slot])
  }

  lemma ListsNext(slots: seq<U64>, n: nat, offset: U64, slot: Slot)
    requires n < |slots|
    ensures Lists(slots[..n + 1], offset, slot)
            <==> Lists(slots[..n], offset, slot) || slot == WrappingAdd(slots[n], offset)
  {
    if i :| 0 <= i < n && WrappingAdd(slots[i], offset) == slot {
      assert slots[..n + 1][i] == slots[..n][i] == slots[i];
    } else if slot == WrappingAdd(slots[n], offset) {
      assert slots[..n + 1][n] == slots[n];
    }
  }

  /** The inner loop: one leader's slots. */
  method EnterSlots(schedule: map<Slot, Pubkey>, slots: seq<U64>, offset: U64, pubkey: Option<Pubkey>)
      returns (r: map<Slot, Pubkey>)
    ensures pubkey.None? ==> r == schedule
    ensures pubkey.Some? ==> EnteredOver(schedule, r, slots, offset, pubkey.value)
  {
    r := schedule;
    for n := 0 to |slots|
      invariant pubkey.None? ==> r == schedule
      invariant pubkey.Some? ==> EnteredOver(schedule, r, slots[..n], offset, pubkey.value)
    {
      if pubkey.Some? {
        forall slot: Slot
          ensures Lists(slots[..n + 1], offset, slot)
                  <==> Lists(slots[..n], offset, slot) || slot == WrappingAdd(slots[n], offset)
        {
          ListsNext(slots, n, offset, slot);
        }
        r := r[WrappingAdd(slots[n], offset) := pubkey.value];
      }
    }
    assert slots[..|slots|] == slots;
  }

  lemma EnterName(
      before: map<Slot, Pubkey>, after: map<Slot, Pubkey>, fetched: Fetched, names: set<string>, name: string,
      parse: Parser, offset: U64)
    requires names <= fetched.Keys && name in fetched && Entered(before, fetched, names, parse, offset)
    requires parse(name).None? ==> after == before
    requires parse(name).Some? ==> EnteredOver(before, after, fetched[name], offset, parse(name).value)
    ensures Entered(after, fetched, names + {name}, parse, offset)
  {}

  /** The rebuild loop, over the names in whatever order the map yields them. */
  method Rebuild(fetched: Fetched, parse: Parser, offset: U64) returns (schedule: map<Slot, Pubkey>)
    ensures IsRebuilt(schedule, fetched, parse, offset)
  {
    schedule := map[];
    var left := fetched.Keys;
    while left != {}
      invariant left <= fetched.Keys
      invariant Entered(schedule, fetched, fetched.Keys - left, parse, offset)
      decreases left
    {
      var name :| name in left;
      ghost var before := schedule;
      schedule := EnterSlots(schedule, fetched[name], offset, parse(name));
      EnterName(before, schedule, fetched, fetched.Keys - left, name, parse, offset);
      assert fetched.Keys - (left - {name}) == fetched.Keys - left + {name};
      left := left - {name};
    }
    assert fetched.Keys - left == fetched.Keys;
    RebuiltInverse(schedule, fetched, parse, offset);
  }

  lemma DisjointIsInverse(schedule: map<Slot, Pubkey>, fetched: Fetched, parse: Parser, offset: U64)
    requires Entered(schedule, fetched, fetched.Keys, parse, offset) && Disjoint(fetched, parse)
    ensures IsInverse(schedule, fetched, parse, offset)
  {
    forall slot: Slot, pubkey: Pubkey
      ensures (slot in schedule && schedule[slot] == pubkey) <==> Assigned(fetched, parse, offset, slot, pubkey)
    {
      if Assigned(fetched, parse, offset, slot, pubkey) {
        var name :| name in fetched && parse(name) == Some(pubkey) && Lists(fetched[name], offset, slot);
        var other :| other in fetched && parse(other) == Some(schedule[slot]) && Lists(fetched[other], offset, slot);
        var i :| 0 <= i < |fetched[name]| && WrappingAdd(fetched[name][i], offset) == slot;
        var j :| 0 <= j < |fetched[other]| && WrappingAdd(fetched[other][j], offset) == slot;
        ShiftInjective(fetched[name][i], fetched[other][j], offset);
        assert fetched[name][i] in fetched[name] && fetched[name][i] in fetched[other];
      }
    }
  }

  lemma InverseIsDisjoint(schedule: map<Slot, Pubkey>, fetched: Fetched, parse: Parser, offset: U64)
    requires IsInverse(schedule, fetched, parse, offset)
    ensures Disjoint(fetched, parse)
  {
    forall a, b, i | a in fetched && b in fetched && i in fetched[a] && i in fetched[b]
      ensures parse(a).None? || parse(b).None? || parse(a) == parse(b)
    {
      if parse(a).Some? && parse(b).Some? {
        var slot := WrappingAdd(i, offset);
        assert Lists(fetched[a], offset, slot) && Lists(fetched[b], offset, slot);
        assert Assigned(fetched, parse, offset, slot, parse(a).value);
        assert Assigned(fetched, parse, offset, slot, parse(b).value);
      }
    }
  }

  /**
   * What a rebuild leaves: only assignments of the answer, one for every slot it assigns;
   * and that is the inverse, whatever the order of iteration, exactly when no slot is
   * listed under two keys.
   */
  ghost predicate IsRebuilt(schedule: map<Slot, Pubkey>, fetched: Fetched, parse: Parser, offset: U64) {
    && Entered(schedule, fetched, fetched.Keys, parse, offset)
    && (IsInverse(schedule, fetched, parse, offset) <==> Disjoint(fetched, parse))
  }

  lemma RebuiltInverse(schedule: map<Slot, Pubkey>, fetched: Fetched, parse: Parser, offset: U64)
    requires Entered(schedule, fetched, fetched.Keys, parse, offset)
    ensures IsRebuilt(schedule, fetched, parse, offset)
  {
    if Disjoint(fetched, parse) { DisjointIsInverse(schedule, fetched, parse, offset); }
    if IsInverse(schedule, fetched, parse, offset) { InverseIsDisjoint(schedule, fetched, parse, offset); }
  }

  class ScheduleCache {
    var schedule: map<Slot, Pubkey>

    /** `update_leader_cache`: both answers are needed, and without them nothing changes. */
    method UpdateLeaderCache(epoch: Option<EpochInfo>, answer: Option<Fetched>, parse: Parser) returns (ok: bool)
      modifies this
      ensures ok <==> epoch.Some? && answer.Some?
      ensures !ok ==> schedule == old(schedule)
      ensures ok ==> IsRebuilt(schedule, answer.value, parse, epoch.value.Offset())
    {
      if epoch.Some? && answer.Some? {
        schedule := Rebuild(answer.value, parse, epoch.value.Offset());
        return true;
      }
      return false;
    }

    /** `leaders_for_slots` */
    method LeadersForSlots(slots: seq<Slot>) returns (leaders: set<Pubkey>)
      ensures forall p :: p in leaders <==> exists s :: s in slots && s in schedule && schedule[s] == p
    {
      leaders := {};
      for i := 0 to |slots|
        invariant forall p :: p in leaders <==> exists s :: s in slots[..i] && s in schedule && schedule[s] == p
      {
        assert slots[..i + 1] == slots[..i] + [slots[i]];
        if slots[i] in schedule { leaders := leaders + {schedule[slots[i]]}; }
      }
      assert slots[..|slots|] == slots;
    }
  }

  /** `leaders` are the leaders, by the cache, of the slots from `h` on. */
  ghost predicate AreLeaders(leaders: set<Pubkey>, schedule: map<Slot, Pubkey>, h: Slot, lookahead: nat) {
    forall p :: p in leaders <==> exists s :: h <= s < h + lookahead && s in schedule && schedule[s] == p
  }

  /**
   * The leader window, end to end: with a cache rebuilt from disjoint lists, the leaders
   * the relayer loop reads on slot `h` are exactly the keys the fetched schedule gives a
   * slot in [h, h + lookahead).
   */
  lemma WindowIsFetchedWindow(
      leaders: set<Pubkey>, schedule: map<Slot, Pubkey>, fetched: Fetched, parse: Parser, offset: U64, h: Slot,
      lookahead: nat)
    requires IsInverse(schedule, fetched, parse, offset) && AreLeaders(leaders, schedule, h, lookahead)
    ensures forall p: Pubkey ::
              p in leaders <==> exists s: Slot :: h <= s < h + lookahead && Assigned(fetched, parse, offset, s, p)
  {
    forall p: Pubkey
      ensures p in leaders <==> exists s: Slot :: h <= s < h + lookahead && Assigned(fetched, parse, offset, s, p)
    {
      if p in leaders {
        var s :| h <= s < h + lookahead && s in schedule && schedule[s] == p;
        assert Assigned(fetched, parse, offset, s, p);
      }
    }
  }

  /** `is_scheduled_validator` */
  predicate IsScheduled(schedule: map<Slot, Pubkey>, pubkey: Pubkey) {
    exists slot :: slot in schedule && schedule[slot] == pubkey
  }

  /** Where `is_authorized` looks a validator up. */
  datatype ValidatorStore = FromSchedule(schedule: map<Slot, Pubkey>) | UserDefined(pubkeys: set<Pubkey>)

  predicate IsAuthorized(store: ValidatorStore, pubkey: Pubkey) {
    match store
    case FromSchedule(schedule) => IsScheduled(schedule, pubkey)
    case UserDefined(pubkeys) => pubkey in pubkeys
  }

  /** `--allowed-validators`, when given, takes the place of the schedule. */
  function ChosenStore(allowed: Option<seq<Pubkey>>, schedule: map<Slot, Pubkey>): ValidatorStore {
    if allowed.Some? then UserDefined(set pubkey | pubkey in allowed.value) else FromSchedule(schedule)
  }

  /**
   * The authorised validators are those of the operator's list or, without one, those the epoch
   * gives at least one slot by the rebuilt schedule.
   */
  lemma AuthorizedIff(
      allowed: Option<seq<Pubkey>>, schedule: map<Slot, Pubkey>, fetched: Fetched, parse: Parser, offset: U64,
      pubkey: Pubkey)
    requires IsInverse(schedule, fetched, parse, offset)
    ensures IsAuthorized(ChosenStore(allowed, schedule), pubkey) <==>
            if allowed.Some? then exists i :: 0 <= i < |allowed.value| && allowed.value[i] == pubkey
            else exists slot: Slot :: Assigned(fetched, parse, offset, slot, pubkey)
  {
    if allowed.None? && IsAuthorized(FromSchedule(schedule), pubkey) {
      var slot :| slot in schedule && schedule[slot] == pubkey;
      assert Assigned(fetched, parse, offset, slot, pubkey);
    }
  }
}
