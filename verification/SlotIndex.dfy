/** The selectors that keep the KV index, in place. */
module SlotIndex {
  import opened Wrappers
  import opened KvIndex

  /** The slot is what the contract has active under its key. */
  predicate Active(ix: Index, slot: Slot, id: string) {
    slot.key in ix.ActiveOf(id) && ix.ActiveOf(id)[slot.key] == slot
  }

  /** For the registered slots of its type listed, the contract has exactly those active whose `match` holds. */
  ghost predicate Settled(ix: Index, id: string, rKeys: set<string>, matches: (Slot, string) -> bool) {
    id in ix.types ==>
      forall rKey <- rKeys :: rKey in ix.slots && ix.slots[rKey].contractType == ix.types[id] ==>
        (ix.slots[rKey].key in ix.ActiveOf(id) <==> matches(ix.slots[rKey], id))
  }

  /** The active slots of a contract are exactly the registered slots of its type whose `match` holds. */
  ghost predicate ExactlyMatching(ix: Index, id: string, matches: (Slot, string) -> bool) {
    forall slot: Slot :: Active(ix, slot, id) <==>
      ix.Registered(slot) && id in ix.types && ix.types[id] == slot.contractType && matches(slot, id)
  }

  lemma SettledIsExact(ix: Index, id: string, matches: (Slot, string) -> bool)
    requires ix.Consistent() && Settled(ix, id, ix.slots.Keys, matches)
    ensures ExactlyMatching(ix, id, matches)
  {
    assert ix.ContractOk(id);
    forall slot: Slot
      ensures Active(ix, slot, id) <==>
        ix.Registered(slot) && id in ix.types && ix.types[id] == slot.contractType && matches(slot, id)
    {
      var rKey := RegistryKey(slot.contractType, slot.key);
      if slot.key in ix.ActiveOf(id) { assert ix.SlotOk(id, slot.key); }
      assert rKey in ix.slots <==> rKey in ix.slots.Keys;
    }
  }

  /** Reconciling one more slot settles it and unsettles no other. */
  lemma SettlesOneMore(ix: Index, id: string, rKeys: set<string>, rKey: string, matches: (Slot, string) -> bool)
    requires ix.Consistent() && rKeys <= ix.slots.Keys && rKey in ix.slots && Settled(ix, id, rKeys, matches)
    requires id in ix.subscribed
    ensures Settled(Reconciled(ix, ix.slots[rKey], id, matches(ix.slots[rKey], id)), id, rKeys + {rKey}, matches)
  {
    hide Reconciled, Index.ContractOkBut;
    var slot := ix.slots[rKey];
    var ix' := Reconciled(ix, slot, id, matches(slot, id));
    ReconciledElsewhere(ix, slot, id, matches(slot, id));
    if id in ix.types && ix.types[id] == slot.contractType {
      assert ix.ContractOk(id);
      OkButMore(ix, id, {slot.key});
      ReconcileRestores(ix, slot, id, matches(slot, id));
      forall other | other in rKeys + {rKey} && ix.slots[other].contractType == ix.types[id]
        ensures ix.slots[other].key in ix'.ActiveOf(id) <==> matches(ix.slots[other], id)
      {
        if ix.slots[other].key == slot.key { assert other == rKey; }
      }
    } else {
      assert ix' == ix by { ReconciledNothing(ix, slot, id, matches(slot, id)); }
    }
  }

  lemma ReconciledNothing(ix: Index, slot: Slot, id: string, matches: bool)
    requires id !in ix.types || ix.types[id] != slot.contractType
    ensures Reconciled(ix, slot, id, matches) == ix
  {
  }

  /** The registry, the indices and the sets of the client's KV state. */
  class KvSlots {
    var kvSlots: map<string, Slot>
    var kvSlotsByContractID: map<string, map<string, Slot>>
    var kvActiveFilters: map<string, set<string>>
    var kvFilterDirty: set<string>
    var mirror: map<string, set<string>>
    var subscriptionSet: set<string>
    var types: map<string, string>
    var nextId: nat

    function Value(): Index
      reads this
    {
      Index(kvSlots, kvSlotsByContractID, kvActiveFilters, kvFilterDirty, mirror, subscriptionSet, types)
    }

    constructor ()
      ensures Value().Consistent() && kvSlots == map[] && subscriptionSet == {}
    {
      kvSlots, kvSlotsByContractID, kvActiveFilters, kvFilterDirty := map[], map[], map[], {};
      mirror, subscriptionSet, types, nextId := map[], {}, map[], 0;
    }

    method QueueFilterFlush(id: string)
      modifies this`kvFilterDirty
      ensures kvFilterDirty == old(kvFilterDirty) + {id}
    {
      kvFilterDirty := kvFilterDirty + {id};
    }

    method ReconcileForSlot(slot: Slot, id: string, matches: bool)
      modifies this
      ensures Value() == Reconciled(old(Value()), slot, id, matches) && nextId == old(nextId)
    {
      if id !in subscriptionSet || id !in types || types[id] != slot.contractType { return; }
      if matches { Activate(slot, id); } else { Deactivate(slot.key, id); }
    }

    method Activate(slot: Slot, id: string)
      modifies this
      ensures Value() == Activated(old(Value()), slot, id) && nextId == old(nextId)
    {
      var bucket := if id in kvSlotsByContractID then kvSlotsByContractID[id] else map[];
      kvSlotsByContractID := kvSlotsByContractID[id := bucket[slot.key := slot]];
      UpdateFilter(slot, id);
      var perContract := if id in mirror then mirror[id] else {};
      if slot.key !in perContract { perContract := perContract + {slot.key}; }
      assert perContract == old(Value()).MirrorOf(id) + {slot.key};
      mirror := mirror[id := perContract];
    }

    method UpdateFilter(slot: Slot, id: string)
      modifies this`kvActiveFilters, this`kvFilterDirty
      ensures var filter := Edited(old(Value().FilterOf(id)), slot);
        && kvActiveFilters == old(kvActiveFilters)[id := filter]
        && kvFilterDirty ==
          if filter != old(Value().FilterOf(id)) || id !in old(kvActiveFilters) then old(kvFilterDirty) + {id}
          else old(kvFilterDirty)
    {
      var created := id !in kvActiveFilters;
      var filter := if created then {} else kvActiveFilters[id];
      EditFacts(filter, slot.key);
      if slot.autoSubscribe && slot.key !in filter {
        filter := filter + {slot.key};
        QueueFilterFlush(id);
      } else if !slot.autoSubscribe {
        if slot.key in filter {
          filter := filter - {slot.key};
          QueueFilterFlush(id);
        } else if created {
          QueueFilterFlush(id);
        }
      } else {
        assert !created;
      }
      kvActiveFilters := kvActiveFilters[id := filter];
    }

    method Detach(key: string, id: string)
      modifies this`kvSlotsByContractID, this`kvActiveFilters, this`kvFilterDirty
      ensures Value() == Detached(old(Value()), key, id)
    {
      if id !in kvSlotsByContractID || key !in kvSlotsByContractID[id] { return; }
      var perKey := kvSlotsByContractID[id] - {key};
      var contractEmptied := perKey == map[];
      assert contractEmptied <==> old(kvSlotsByContractID)[id].Keys == {key} by {
        assert perKey.Keys == old(kvSlotsByContractID)[id].Keys - {key};
        assert perKey == map[] <==> perKey.Keys == {};
      }
      kvSlotsByContractID := if contractEmptied then kvSlotsByContractID - {id} else kvSlotsByContractID[id := perKey];
      if id in kvActiveFilters && key in kvActiveFilters[id] {
        kvActiveFilters := kvActiveFilters[id := kvActiveFilters[id] - {key}];
        QueueFilterFlush(id);
      }
      if contractEmptied { kvActiveFilters := kvActiveFilters - {id}; }
    }

    method Deactivate(key: string, id: string)
      modifies this
      ensures Value() == Deactivated(old(Value()), key, id) && nextId == old(nextId)
    {
      Detach(key, id);
      if id in mirror {
        var perContract := mirror[id] - {key};
        mirror := if perContract == {} then mirror - {id} else mirror[id := perContract];
      }
    }

    /** Reconciles every registered slot with one contract. */
    method ReconcileContract(id: string, matches: (Slot, string) -> bool)
      requires Value().Consistent() && id in subscriptionSet
      modifies this
      ensures Value().Consistent() && ExactlyMatching(Value(), id, matches)
      ensures SameElsewhere(old(Value()), Value(), id) && Tracked(old(Value()), Value()) && nextId == old(nextId)
    {
      hide Reconciled, Index.Consistent, SameElsewhere, Tracked, Settled, ExactlyMatching;
      var rest := kvSlots.Keys;
      ghost var done: set<string> := {};
      StartSettled(Value(), id, matches);
      while rest != {}
        invariant Value().Consistent() && Settled(Value(), id, done, matches)
        invariant rest + done == kvSlots.Keys
        invariant kvSlots == old(kvSlots) && subscriptionSet == old(subscriptionSet) && nextId == old(nextId)
        invariant SameElsewhere(old(Value()), Value(), id) && Tracked(old(Value()), Value())
      {
        var rKey :| rKey in rest;
        var slot := kvSlots[rKey];
        ghost var before := Value();
        StepReconcile(old(Value()), before, rKey, id, done, matches);
        ReconcileForSlot(slot, id, matches(slot, id));
        rest, done := rest - {rKey}, done + {rKey};
      }
      assert done == kvSlots.Keys;
      SettledIsExact(Value(), id, matches);
    }

    /** `refreshFilters`: afterwards every contract asked for has exactly the matching slots of its type active. */
    method RefreshFilters(contractID: Option<string>, matches: (Slot, string) -> bool)
      requires Value().Consistent()
      modifies this
      ensures Value().Consistent() && Tracked(old(Value()), Value())
      ensures forall id <- subscriptionSet :: contractID.None? || contractID.value == id ==>
        ExactlyMatching(Value(), id, matches)
      ensures forall id: string :: contractID.Some? && contractID.value != id ==> SameEntries(old(Value()), Value(), id)
      ensures kvSlots == old(kvSlots) && subscriptionSet == old(subscriptionSet)
    {
      hide Reconciled, Index.Consistent, Tracked, ExactlyMatching, SameElsewhere, SameEntries;
      var targets := if contractID.None? then subscriptionSet
                     else if contractID.value in subscriptionSet then {contractID.value} else {};
      RefreshTargets(targets, matches);
      forall id: string | contractID.Some? && contractID.value != id ensures SameEntries(old(Value()), Value(), id) {
        assert id !in targets;
      }
    }

    method RefreshTargets(targets: set<string>, matches: (Slot, string) -> bool)
      requires Value().Consistent() && targets <= subscriptionSet
      modifies this
      ensures Value().Consistent() && Tracked(old(Value()), Value())
      ensures forall id <- targets :: ExactlyMatching(Value(), id, matches)
      ensures forall id: string :: id !in targets ==> SameEntries(old(Value()), Value(), id)
      ensures kvSlots == old(kvSlots) && subscriptionSet == old(subscriptionSet)
    {
      hide Reconciled, Index.Consistent, Tracked, ExactlyMatching, SameElsewhere, SameEntries;
      StartTracked(Value());
      var rest := targets;
      while rest != {}
        invariant Value().Consistent() && Tracked(old(Value()), Value()) && rest <= targets
        invariant kvSlots == old(kvSlots) && subscriptionSet == old(subscriptionSet)
        invariant forall id <- targets - rest :: ExactlyMatching(Value(), id, matches)
        invariant forall id: string :: id !in targets ==> SameEntries(old(Value()), Value(), id)
      {
        var id :| id in rest;
        ghost var before := Value();
        ReconcileContract(id, matches);
        TrackedTwice(old(Value()), before, Value());
        ElsewhereFields(before, Value(), id);
        forall other | other in targets - rest && other != id ensures ExactlyMatching(Value(), other, matches) {
          ExactElsewhere(before, Value(), id, other, matches);
        }
        forall other: string | other !in targets ensures SameEntries(old(Value()), Value(), other) {
          EntriesTwice(old(Value()), before, Value(), id, other);
        }
        rest := rest - {id};
      }
    }

    /** A contract enters the subscription set with a known type, and `_onContractsModified` wires its slots up. */
    method ContractAdded(id: string, contractType: string, matches: (Slot, string) -> bool)
      requires Value().Consistent() && id !in subscriptionSet
      modifies this
      ensures Value().Consistent() && ExactlyMatching(Value(), id, matches) && Tracked(old(Value()), Value())
      ensures subscriptionSet == old(subscriptionSet) + {id} && kvSlots == old(kvSlots)
      ensures types == old(types)[id := contractType]
      ensures forall other: string :: other != id ==> SameEntries(old(Value()), Value(), other)
    {
      hide Tracked, ExactlyMatching, SameEntries;
      ghost var before := Value();
      subscriptionSet := subscriptionSet + {id};
      types := types[id := contractType];
      AddedConsistent(before, id, contractType);
      ghost var mid := Value();
      ReconcileContract(id, matches);
      AddedTracked(before, mid, Value());
      forall other: string | other != id ensures SameEntries(before, Value(), other) {
        assert SameEntries(mid, Value(), other);
        AddedEntries(before, mid, Value(), other);
      }
    }

    method CleanupContractRuntime(id: string)
      modifies this
      ensures Value() == Cleaned(old(Value()), id) && nextId == old(nextId)
    {
      if id in kvActiveFilters { QueueFilterFlush(id); }
      kvSlotsByContractID, kvActiveFilters := kvSlotsByContractID - {id}, kvActiveFilters - {id};
      mirror := mirror - {id};
    }

    /** A contract is released: its runtime state goes, then its place in the subscription set. */
    method ContractRemoved(id: string)
      requires Value().Consistent()
      modifies this
      ensures Value().Consistent() && Tracked(old(Value()), Value()) && subscriptionSet == old(subscriptionSet) - {id}
      ensures Value().ActiveOf(id) == map[] && id !in kvActiveFilters && id !in mirror
      ensures forall other: string :: other != id ==> SameEntries(old(Value()), Value(), other)
    {
      hide Index.Consistent, Tracked;
      ghost var before := Value();
      CleanConsistent(before, id);
      CleanTracked(before, id);
      CleanedElsewhere(before, id);
      CleanupContractRuntime(id);
      ghost var mid := Value();
      subscriptionSet, types := subscriptionSet - {id}, types - {id};
      RemovedConsistent(mid, id);
      RemovedTracked(before, mid, Value());
      CleanupContractRuntime(id);
      assert Value() == mid.(subscribed := mid.subscribed - {id}, types := mid.types - {id}) by {
        assert id !in mid.active && id !in mid.filters && id !in mid.mirror;
        assert Cleaned(mid, id) == mid;
      }
    }

    /**
     `defineSlot`: a key that is empty or holds the separator, or an empty type, is refused before anything changes.
     Otherwise the definition is registered and reconciled for every type. The index stays consistent if and only if for
     none of the types it displaces an active slot of another type, and then every type is wired.
     */
    method Define(key: string, contractTypes: seq<string>, autoSubscribe: bool, source: Source,
                  matches: (Slot, string) -> bool)
      returns (ok: bool)
      requires Value().Consistent()
      modifies this
      ensures ok <==> key != "" && !HasSeparator(key) && contractTypes != [] && "" !in contractTypes
      ensures subscriptionSet == old(subscriptionSet) && types == old(types)
      ensures !ok ==> Value() == old(Value())
      ensures ok ==>
        (Value().Consistent() <==>
        forall i | 0 <= i < |contractTypes| :: !Displaces(old(Value()), contractTypes[i], key))
      ensures ok && Value().Consistent() ==>
        && Tracked(old(Value()), Value())
        && forall i | 0 <= i < |contractTypes| :: Wired(Value(), contractTypes[i], key, autoSubscribe, source, matches)
      ensures ok ==>
        forall i | 0 <= i < |contractTypes| :: Registers(Value(), contractTypes[i], key, autoSubscribe, source)
    {
      hide Index.Consistent, Tracked, Wired, Displaces, Halfway, Registers;
      StartTracked(Value());
      if key == "" || HasSeparator(key) || contractTypes == [] || "" in contractTypes { return false; }
      HalfwayStarts(Value(), contractTypes, key, autoSubscribe, source, matches);
      for i := 0 to |contractTypes|
        invariant subscriptionSet == old(subscriptionSet) && types == old(types)
        invariant Halfway(old(Value()), Value(), contractTypes[..i], key, autoSubscribe, source, matches)
      {
        assert contractTypes[..i + 1] == contractTypes[..i] + [contractTypes[i]];
        if contractTypes[i] !in contractTypes[..i] {
          ghost var before := Value();
          DefineForType(contractTypes[i], key, autoSubscribe, source, matches);
          HalfwayOn(old(Value()), before, Value(), contractTypes[..i], contractTypes[i], key, autoSubscribe, source,
              matches);
        } else {
          HalfwayAgain(old(Value()), Value(), contractTypes[..i], contractTypes[i], key, autoSubscribe, source,
              matches);
        }
      }
      assert contractTypes[..|contractTypes|] == contractTypes;
      HalfwayEnds(old(Value()), Value(), contractTypes, key, autoSubscribe, source, matches);
      return true;
    }

    /**
     One type of a definition: registers the slot, repoints the contracts that had its predecessor, and reconciles. The
     index stays consistent if and only if the definition does not displace an active slot of another type.
     */
    method DefineForType(contractType: string, key: string, autoSubscribe: bool, source: Source,
                         matches: (Slot, string) -> bool)
      modifies this
      ensures subscriptionSet == old(subscriptionSet) && types == old(types)
      ensures kvSlots ==
        old(kvSlots)[RegistryKey(contractType, key) := Slot(old(nextId), contractType, key, autoSubscribe, source)]
      ensures forall id: string :: !OfType(Value(), id, contractType) ==> SameEntries(old(Value()), Value(), id)
      ensures OtherKeysKept(old(Value()), Value(), key)
      ensures old(Value()).Consistent() ==>
        && (Value().Consistent() <==> !Displaces(old(Value()), contractType, key))
        && (!Displaces(old(Value()), contractType, key) ==>
              Tracked(old(Value()), Value()) && Wired(Value(), contractType, key, autoSubscribe, source, matches))
    {
      hide Index.Consistent, Tracked, Rewiring, Reconciled, SameEntries, Displaces, Wired, Swapped, OtherKeysKept;
      var slot := Slot(nextId, contractType, key, autoSubscribe, source);
      nextId := nextId + 1;
      var rKey := RegistryKey(contractType, key);
      var previous := if rKey in kvSlots then Some(kvSlots[rKey]) else None;
      ghost var sound := Value().Consistent() && !Displaces(Value(), contractType, key);
      if sound { RewiringStarts(Value(), slot, matches); }
      RegisteredEntries(Value(), slot);
      kvSlots := kvSlots[rKey := slot];
      EntriesKeepKeys(old(Value()), Value(), key);
      var rest := subscriptionSet;
      while rest != {}
        invariant sound ==> Rewiring(Value(), rest, slot, matches) && Tracked(old(Value()), Value())
        invariant rest <= subscriptionSet
        invariant subscriptionSet == old(subscriptionSet) && types == old(types)
        invariant kvSlots == old(kvSlots)[rKey := slot]
        invariant forall id: string :: !OfType(Value(), id, contractType) ==> SameEntries(old(Value()), Value(), id)
        invariant OtherKeysKept(old(Value()), Value(), key)
      {
        var id :| id in rest;
        ghost var before := Value();
        if id in types && types[id] == contractType {
          var swap := previous.Some? && id in kvSlotsByContractID && key in kvSlotsByContractID[id]
            && kvSlotsByContractID[id][key] == previous.value;
          if swap {
            kvSlotsByContractID := kvSlotsByContractID[id := kvSlotsByContractID[id][key := slot]];
          }
          assert Value() == Swapped(before, slot, id, swap) by { SwapIs(before, slot, id, swap); }
          if sound { RewireStep(old(Value()), before, rest, slot, id, swap, matches); }
          RewireEntries(before, slot, id, swap, matches(slot, id));
          RewireOtherKeys(old(Value()), before, slot, id, swap, matches(slot, id));
          ReconcileForSlot(slot, id, matches(slot, id));
          forall other: string | !OfType(Value(), other, contractType)
            ensures SameEntries(old(Value()), Value(), other) {
            EntriesTwice(old(Value()), before, Value(), id, other);
          }
        } else if sound {
          RewireSkip(before, rest, slot, id, matches);
        }
        rest := rest - {id};
      }
      if sound { RewiringEnds(Value(), slot, matches); }
      if old(Value()).Consistent() && Displaces(old(Value()), contractType, key) {
        StrandedBreaks(old(Value()), Value(), contractType, key);
      }
    }

    /**
     `_cleanupContractSlots` for one key that a manifest no longer lists: only a slot this manifest registered goes. The
     index stays consistent if and only if the slot found is not another type's, active somewhere under a key of its
     own. (The walk over mirror records of contracts that are not subscribed finds nothing, there being none.)
     */
    method CleanupContractSlot(contractType: string, manifest: string, key: string)
      requires Value().Consistent()
      modifies this
      ensures Value().Consistent() <==>
        !(Owned(old(Value()), contractType, manifest, key) && Displaces(old(Value()), contractType, key))
      ensures Value().Consistent() ==> Tracked(old(Value()), Value())
      ensures subscriptionSet == old(subscriptionSet) && types == old(types)
      ensures kvSlots == old(kvSlots) -
        if Owned(old(Value()), contractType, manifest, key) then {RegistryKey(contractType, key)} else {}
      ensures !Owned(old(Value()), contractType, manifest, key) ==> Value() == old(Value())
    {
      hide Index.Consistent, Tracked, Unwiring, Detached, Displaces, Unwired;
      StartTracked(Value());
      var rKey := RegistryKey(contractType, key);
      if rKey !in kvSlots || kvSlots[rKey].source != DefineContract(manifest) { return; }
      var slot := kvSlots[rKey];
      ghost var own := slot.contractType == contractType;
      ghost var unregistered := Value().(slots := kvSlots - {rKey});
      UnwiringStarts(Value(), slot, contractType, key);
      kvSlots := kvSlots - {rKey};
      var rest := kvSlotsByContractID.Keys;
      while rest != {}
        invariant own ==> Unwiring(Value(), rest, slot) && Tracked(old(Value()), Value())
        invariant !own ==> Value() == unregistered
        invariant subscriptionSet == old(subscriptionSet) && types == old(types) && kvSlots == old(kvSlots) - {rKey}
      {
        var id :| id in rest;
        if own {
          UnwireStep(old(Value()), Value(), rest, slot, id);
        } else {
          NotUnderThisKey(old(Value()), slot, id, key);
        }
        if id in kvSlotsByContractID && key in kvSlotsByContractID[id] && kvSlotsByContractID[id][key] == slot {
          assert own;
          UnwiredIs(Value(), slot, id);
          Detach(key, id);
          if id in mirror { mirror := mirror[id := mirror[id] - {key}]; }
        } else if own {
          UnwiredNothing(Value(), slot, id);
        }
        rest := rest - {id};
      }
      if own { UnwiringEnds(Value(), slot); }
    }
  }

  predicate OfType(ix: Index, id: string, contractType: string) { id in ix.types && ix.types[id] == contractType }

  /**
   The definition is registered for the type, and active for exactly the subscribed contracts of the type that match.
   */
  ghost predicate Wired(ix: Index, contractType: string, key: string, autoSubscribe: bool, source: Source,
                        matches: (Slot, string) -> bool)
  {
    && RegistryKey(contractType, key) in ix.slots
    && var slot := ix.slots[RegistryKey(contractType, key)];
       && slot == Slot(slot.id, contractType, key, autoSubscribe, source)
       && forall id <- ix.subscribed :: OfType(ix, id, contractType) ==> (Active(ix, slot, id) <==> matches(slot, id))
  }

  /** A manifest's own registration, and not one that replaced it. */
  predicate Owned(ix: Index, contractType: string, manifest: string, key: string) {
    RegistryKey(contractType, key) in ix.slots
      && ix.slots[RegistryKey(contractType, key)].source == DefineContract(manifest)
  }

  /** The slot that has the registry key is one of another type, and some contract has it active. */
  predicate Displaces(ix: Index, contractType: string, key: string) {
    RegistryKey(contractType, key) in ix.slots &&
    var s := ix.slots[RegistryKey(contractType, key)];
    s.contractType != contractType && exists id <- ix.active :: Active(ix, s, id)
  }

  /** The registry key of a key tells its type. */
  lemma SameKeyTypes(type1: string, type2: string, key: string)
    requires RegistryKey(type1, key) == RegistryKey(type2, key)
    ensures type1 == type2
  {
    var s := RegistryKey(type1, key);
    assert |type1| == |type2|;
    assert type1 == s[..|type1|] && type2 == s[..|type2|];
  }

  /** The definition has its registry key. */
  predicate Registers(ix: Index, contractType: string, key: string, autoSubscribe: bool, source: Source) {
    RegistryKey(contractType, key) in ix.slots &&
    var slot := ix.slots[RegistryKey(contractType, key)];
    slot == Slot(slot.id, contractType, key, autoSubscribe, source)
  }

  /** One active entry is the same in both. */
  predicate SameActive(ix: Index, ix': Index, id: string, k: string) {
    (k in ix'.ActiveOf(id) <==> k in ix.ActiveOf(id))
      && (k in ix.ActiveOf(id) ==> ix'.ActiveOf(id)[k] == ix.ActiveOf(id)[k])
  }

  /** Active entries under other keys than this are as they were. */
  ghost predicate OtherKeysKept(ix: Index, ix': Index, key: string) {
    forall id: string, k: string :: k != key ==> SameActive(ix, ix', id, k)
  }

  lemma EntriesKeepKeys(ix: Index, ix': Index, key: string)
    requires forall id: string :: SameEntries(ix, ix', id)
    ensures OtherKeysKept(ix, ix', key)
  {
    forall id: string, k: string | k != key ensures SameActive(ix, ix', id, k) {
      assert SameEntries(ix, ix', id);
    }
  }

  lemma ReconciledOtherKeys(ix: Index, slot: Slot, id: string, m: bool)
    ensures Reconciled(ix, slot, id, m).ActiveOf(id) == ix.ActiveOf(id)
      || Reconciled(ix, slot, id, m).ActiveOf(id) == ix.ActiveOf(id)[slot.key := slot]
      || Reconciled(ix, slot, id, m).ActiveOf(id) == ix.ActiveOf(id) - {slot.key}
  {
  }

  lemma RewireOtherKeys(start: Index, ix: Index, slot: Slot, id: string, swap: bool, m: bool)
    requires OtherKeysKept(start, ix, slot.key)
    ensures OtherKeysKept(start, Reconciled(Swapped(ix, slot, id, swap), slot, id, m), slot.key)
  {
    hide Reconciled;
    var mid := Swapped(ix, slot, id, swap);
    var ix' := Reconciled(mid, slot, id, m);
    RewireEntries(ix, slot, id, swap, m);
    ReconciledOtherKeys(mid, slot, id, m);
    assert mid.ActiveOf(id) == ix.ActiveOf(id) || mid.ActiveOf(id) == ix.ActiveOf(id)[slot.key := slot];
    forall other: string, k: string | k != slot.key ensures SameActive(start, ix', other, k) {
      assert SameActive(start, ix, other, k);
      if other != id { assert SameEntries(ix, ix', other); }
    }
  }

  /** What a definition has done when it is through with some of its types. */
  ghost predicate Halfway(start: Index, ix: Index, done: seq<string>, key: string, autoSubscribe: bool, source: Source,
                          matches: (Slot, string) -> bool) {
    && ix.subscribed == start.subscribed && ix.types == start.types
    && OtherKeysKept(start, ix, key)
    && (forall t: string :: t !in done ==> SameRegistration(start, ix, t, key))
    && (forall i | 0 <= i < |done| :: Registers(ix, done[i], key, autoSubscribe, source))
    && (Harmless(start, done, key) ==>
      ix.Consistent() && Tracked(start, ix) && AllWired(ix, done, key, autoSubscribe, source, matches))
  }

  ghost predicate AllWired(ix: Index, done: seq<string>, key: string, autoSubscribe: bool, source: Source,
                           matches: (Slot, string) -> bool)
  {
    forall i | 0 <= i < |done| :: Wired(ix, done[i], key, autoSubscribe, source, matches)
  }

  predicate Harmless(start: Index, done: seq<string>, key: string) {
    forall i | 0 <= i < |done| :: !Displaces(start, done[i], key)
  }

  predicate SameRegistration(ix: Index, ix': Index, contractType: string, key: string) {
    var rKey := RegistryKey(contractType, key);
    (rKey in ix'.slots <==> rKey in ix.slots) && (rKey in ix.slots ==> ix'.slots[rKey] == ix.slots[rKey])
  }

  lemma HalfwayStarts(ix: Index, contractTypes: seq<string>, key: string, autoSubscribe: bool, source: Source,
                      matches: (Slot, string) -> bool)
    requires ix.Consistent()
    ensures contractTypes[..0] == [] && Halfway(ix, ix, [], key, autoSubscribe, source, matches)
  {
    hide Index.Consistent, SameActive;
    forall id: string ensures SameEntries(ix, ix, id) {}
    EntriesKeepKeys(ix, ix, key);
    StartTracked(ix);
  }

  /** Until a type is reached, what it would displace is what it would have displaced at the start. */
  lemma DisplacesStill(start: Index, ix: Index, contractType: string, key: string)
    requires start.RegistryOk() && SameRegistration(start, ix, contractType, key) && OtherKeysKept(start, ix, key)
    ensures Displaces(ix, contractType, key) <==> Displaces(start, contractType, key)
  {
    var rKey := RegistryKey(contractType, key);
    if rKey in start.slots && start.slots[rKey].contractType != contractType {
      var s := start.slots[rKey];
      if s.key == key { SameKeyTypes(s.contractType, contractType, key); }
      assert s.key != key;
      forall id: string ensures Active(start, s, id) <==> Active(ix, s, id) {
        assert SameActive(start, ix, id, s.key);
      }
      assert forall id: string :: Active(start, s, id) ==> id in start.active;
      assert forall id: string :: Active(ix, s, id) ==> id in ix.active;
      if id :| id in start.active && Active(start, s, id) { assert Active(ix, s, id); }
      if id :| id in ix.active && Active(ix, s, id) { assert Active(start, s, id); }
    }
  }

  lemma OtherKeysTwice(a: Index, b: Index, c: Index, key: string)
    requires OtherKeysKept(a, b, key) && OtherKeysKept(b, c, key)
    ensures OtherKeysKept(a, c, key)
  {
    forall id: string, k: string | k != key ensures SameActive(a, c, id, k) {
      assert SameActive(a, b, id, k) && SameActive(b, c, id, k);
    }
  }

  lemma HalfwayOn(start: Index, ix: Index, ix': Index, done: seq<string>, t: string, key: string, autoSubscribe: bool,
                  source: Source, matches: (Slot, string) -> bool)
    requires start.Consistent() && Halfway(start, ix, done, key, autoSubscribe, source, matches) && t !in done
    requires ix'.subscribed == ix.subscribed && ix'.types == ix.types
    requires exists id :: ix'.slots == ix.slots[RegistryKey(t, key) := Slot(id, t, key, autoSubscribe, source)]
    requires forall id: string :: !OfType(ix', id, t) ==> SameEntries(ix, ix', id)
    requires OtherKeysKept(ix, ix', key)
    requires ix.Consistent() ==>
      && (ix'.Consistent() <==> !Displaces(ix, t, key))
      && (!Displaces(ix, t, key) ==> Tracked(ix, ix') && Wired(ix', t, key, autoSubscribe, source, matches))
    ensures Halfway(start, ix', done + [t], key, autoSubscribe, source, matches)
  {
    hide Index.Consistent, Tracked, Wired, Displaces, OtherKeysKept, SameEntries;
    ConsistentRegistry(start);
    OtherKeysTwice(start, ix, ix', key);
    forall u: string | u !in done + [t] ensures SameRegistration(start, ix', u, key) {
      assert SameRegistration(start, ix, u, key);
      if RegistryKey(u, key) == RegistryKey(t, key) { SameKeyTypes(u, t, key); }
    }
    forall i | 0 <= i < |done + [t]| ensures Registers(ix', (done + [t])[i], key, autoSubscribe, source) {
      if i < |done| {
        assert Registers(ix, done[i], key, autoSubscribe, source) && done[i] != t;
        if RegistryKey(done[i], key) == RegistryKey(t, key) { SameKeyTypes(done[i], t, key); }
      }
    }
    if Harmless(start, done + [t], key) {
      assert (done + [t])[|done|] == t && forall i | 0 <= i < |done| :: (done + [t])[i] == done[i];
      assert Harmless(start, done, key);
      assert SameRegistration(start, ix, t, key);
      DisplacesStill(start, ix, t, key);
      TrackedTwice(start, ix, ix');
      forall i | 0 <= i < |done| ensures Wired(ix', done[i], key, autoSubscribe, source, matches) {
        WiredElsewhere(ix, ix', t, done[i], key, autoSubscribe, source, matches);
      }
    }
  }

  lemma HalfwayAgain(start: Index, ix: Index, done: seq<string>, t: string, key: string, autoSubscribe: bool,
                     source: Source, matches: (Slot, string) -> bool)
    requires Halfway(start, ix, done, key, autoSubscribe, source, matches) && t in done
    ensures Halfway(start, ix, done + [t], key, autoSubscribe, source, matches)
  {
    hide Index.Consistent, Tracked, Wired, Displaces, OtherKeysKept, Registers;
    var i :| 0 <= i < |done| && done[i] == t;
    assert forall j | 0 <= j < |done| :: (done + [t])[j] == done[j];
    if Harmless(start, done + [t], key) { assert Harmless(start, done, key); }
  }

  lemma HalfwayEnds(start: Index, ix: Index, done: seq<string>, key: string, autoSubscribe: bool, source: Source,
                    matches: (Slot, string) -> bool)
    requires start.Consistent() && Halfway(start, ix, done, key, autoSubscribe, source, matches)
    ensures ix.Consistent() <==> forall i | 0 <= i < |done| :: !Displaces(start, done[i], key)
    ensures ix.Consistent() ==>
      Tracked(start, ix) && forall i | 0 <= i < |done| :: Wired(ix, done[i], key, autoSubscribe, source, matches)
    ensures forall i | 0 <= i < |done| :: Registers(ix, done[i], key, autoSubscribe, source)
  {
    hide Tracked, Wired, Index.Consistent;
    if i :| 0 <= i < |done| && Displaces(start, done[i], key) {
      assert Registers(ix, done[i], key, autoSubscribe, source);
      StrandedBreaks(start, ix, done[i], key);
    }
  }

  /** A displaced slot stays active where it was, and is no longer registered. */
  lemma StrandedBreaks(start: Index, ix: Index, contractType: string, key: string)
    requires start.Consistent() && Displaces(start, contractType, key) && ix.types == start.types
    requires OtherKeysKept(start, ix, key)
    requires RegistryKey(contractType, key) in ix.slots ==>
      ix.slots[RegistryKey(contractType, key)].contractType == contractType
    ensures !ix.Consistent()
  {
    var s := start.slots[RegistryKey(contractType, key)];
    var id :| id in start.active && Active(start, s, id);
    assert start.ContractOk(id) && start.SlotOk(id, s.key);
    if s.key == key { SameKeyTypes(s.contractType, contractType, key); }
    assert SameActive(start, ix, id, s.key);
    assert RegistryKey(s.contractType, s.key) == RegistryKey(contractType, key);
    assert !ix.Registered(s);
    assert id in ix.types && id in ix.filters ==> !ix.SlotOk(id, s.key);
    assert !ix.ContractOk(id);
  }

  lemma WiredElsewhere(ix: Index, ix': Index, defined: string, contractType: string, key: string, autoSubscribe: bool,
                       source: Source, matches: (Slot, string) -> bool)
    requires Wired(ix, contractType, key, autoSubscribe, source, matches) && defined != contractType
    requires RegistryKey(defined, key) in ix'.slots
    requires ix'.slots == ix.slots[RegistryKey(defined, key) := ix'.slots[RegistryKey(defined, key)]]
    requires ix'.subscribed == ix.subscribed && ix'.types == ix.types
    requires forall id: string :: !OfType(ix', id, defined) ==> SameEntries(ix, ix', id)
    ensures Wired(ix', contractType, key, autoSubscribe, source, matches)
  {
    assert RegistryKey(defined, key) != RegistryKey(contractType, key) by {
      if RegistryKey(defined, key) == RegistryKey(contractType, key) { SameKeyTypes(defined, contractType, key); }
    }
    var slot := ix.slots[RegistryKey(contractType, key)];
    forall id | id in ix.subscribed && OfType(ix, id, contractType)
      ensures Active(ix', slot, id) <==> matches(slot, id) {
      assert SameEntries(ix, ix', id);
    }
  }

  /** The key whose slot may be out of date at a contract that a definition has still to visit. */
  function Stale(ix: Index, rest: set<string>, slot: Slot, id: string): set<string> {
    if id in rest && OfType(ix, id, slot.contractType) then {slot.key} else {}
  }

  /** The key whose slot is gone from the registry, at a contract that a removal has still to visit. */
  function Orphaned(ix: Index, rest: set<string>, slot: Slot, id: string): set<string> {
    if id in rest && Active(ix, slot, id) then {slot.key} else {}
  }

  /**
   In the middle of a definition: the contracts of its type still to be visited may point at the slot's predecessor.
   */
  ghost predicate Rewiring(ix: Index, rest: set<string>, slot: Slot, matches: (Slot, string) -> bool) {
    && ix.RegistryOk() && ix.Registered(slot)
    && (forall id: string :: ix.ContractOkBut(id, Stale(ix, rest, slot, id)))
    && (forall id <- ix.subscribed - rest :: OfType(ix, id, slot.contractType) ==>
      (Active(ix, slot, id) <==> matches(slot, id)))
  }

  lemma RewiringStarts(ix: Index, slot: Slot, matches: (Slot, string) -> bool)
    requires ix.Consistent() && !Displaces(ix, slot.contractType, slot.key)
    ensures var ix' := ix.(slots := ix.slots[RegistryKey(slot.contractType, slot.key) := slot]);
      Rewiring(ix', ix.subscribed, slot, matches) && Tracked(ix, ix') && forall id: string :: SameEntries(ix, ix', id)
  {
    var ix' := ix.(slots := ix.slots[RegistryKey(slot.contractType, slot.key) := slot]);
    forall id: string
      ensures ix'.ContractOkBut(id, Stale(ix', ix.subscribed, slot, id))
    {
      assert ix.ContractOk(id);
      if id in ix.active { RegisteringKeeps(ix, slot, id); }
    }
  }

  lemma RegisteringKeeps(ix: Index, slot: Slot, id: string)
    requires ix.ContractOk(id) && id in ix.active && !Displaces(ix, slot.contractType, slot.key)
    ensures var ix' := ix.(slots := ix.slots[RegistryKey(slot.contractType, slot.key) := slot]);
      forall k <- ix.active[id] :: k != slot.key || ix.types[id] != slot.contractType ==> ix'.SlotOk(id, k)
  {
    var rKey := RegistryKey(slot.contractType, slot.key);
    var ix' := ix.(slots := ix.slots[rKey := slot]);
    forall k | k in ix.active[id] && (k != slot.key || ix.types[id] != slot.contractType) ensures ix'.SlotOk(id, k) {
      assert ix.SlotOk(id, k);
      KeepsApart(ix, slot, id, k);
    }
  }

  lemma KeepsApart(ix: Index, slot: Slot, id: string, k: string)
    requires id in ix.active && k in ix.active[id] && id in ix.filters && id in ix.types && ix.SlotOk(id, k)
    requires !Displaces(ix, slot.contractType, slot.key) && (k != slot.key || ix.types[id] != slot.contractType)
    ensures RegistryKey(ix.active[id][k].contractType, ix.active[id][k].key) != RegistryKey(slot.contractType, slot.key)
  {
    var s := ix.active[id][k];
    if RegistryKey(s.contractType, s.key) == RegistryKey(slot.contractType, slot.key) {
      assert Active(ix, s, id);
      SameTypeKeys(slot.contractType, s.key, slot.key);
    }
  }

  lemma SameTypeKeys(contractType: string, key1: string, key2: string)
    ensures RegistryKey(contractType, key1) == RegistryKey(contractType, key2) ==> key1 == key2
  {
    assert key1 == RegistryKey(contractType, key1)[|contractType| + 2..];
    assert key2 == RegistryKey(contractType, key2)[|contractType| + 2..];
  }

  /** The index entry of a contract repointed to the new definition. */
  function Swapped(ix: Index, slot: Slot, id: string, swap: bool): Index {
    if swap && slot.key in ix.ActiveOf(id) then ix.(active := ix.active[id := ix.active[id][slot.key := slot]]) else ix
  }

  lemma SwapIs(ix: Index, slot: Slot, id: string, swap: bool)
    requires swap ==> id in ix.active && slot.key in ix.active[id]
    ensures Swapped(ix, slot, id, swap) ==
      if swap then ix.(active := ix.active[id := ix.active[id][slot.key := slot]]) else ix
  {
  }

  lemma RegisteredEntries(ix: Index, slot: Slot)
    ensures var ix' := ix.(slots := ix.slots[RegistryKey(slot.contractType, slot.key) := slot]);
      forall id: string :: SameEntries(ix, ix', id)
  {
  }

  lemma RewireEntries(ix: Index, slot: Slot, id: string, swap: bool, matches: bool)
    ensures SameElsewhere(ix, Reconciled(Swapped(ix, slot, id, swap), slot, id, matches), id)
  {
    hide Reconciled;
    assert SameElsewhere(ix, Swapped(ix, slot, id, swap), id);
    ReconciledElsewhere(Swapped(ix, slot, id, swap), slot, id, matches);
    ElsewhereTwice(ix, Swapped(ix, slot, id, swap), Reconciled(Swapped(ix, slot, id, swap), slot, id, matches), id);
  }

  lemma SwapKeeps(ix: Index, slot: Slot, id: string, swap: bool)
    requires ix.ContractOkBut(id, {slot.key})
    ensures Swapped(ix, slot, id, swap).ContractOkBut(id, {slot.key})
    ensures SameElsewhere(ix, Swapped(ix, slot, id, swap), id) && Tracked(ix, Swapped(ix, slot, id, swap))
  {
    var ix' := Swapped(ix, slot, id, swap);
    assert ix'.ActiveOf(id).Keys == ix.ActiveOf(id).Keys;
    if id in ix.active {
      forall k | k in ix.active[id] && k != slot.key ensures ix'.SlotOk(id, k) { assert ix.SlotOk(id, k); }
    }
  }

  lemma RewireStep(start: Index, ix: Index, rest: set<string>, slot: Slot, id: string, swap: bool,
                   matches: (Slot, string) -> bool)
    requires Rewiring(ix, rest, slot, matches) && id in rest && rest <= ix.subscribed
    requires OfType(ix, id, slot.contractType)
    requires Tracked(start, ix)
    ensures var ix' := Reconciled(Swapped(ix, slot, id, swap), slot, id, matches(slot, id));
      && Rewiring(ix', rest - {id}, slot, matches) && Tracked(start, ix')
      && ix'.slots == ix.slots && ix'.subscribed == ix.subscribed && ix'.types == ix.types
      && forall other: string :: !OfType(ix, other, slot.contractType) && SameEntries(start, ix, other) ==>
        SameEntries(start, ix', other)
  {
    hide Reconciled, Swapped, Tracked, Index.ContractOkBut;
    var m := matches(slot, id);
    var mid := Swapped(ix, slot, id, swap);
    var ix' := Reconciled(mid, slot, id, m);
    assert ix.ContractOkBut(id, Stale(ix, rest, slot, id)) && Stale(ix, rest, slot, id) == {slot.key};
    SwapKeeps(ix, slot, id, swap);
    ReconcileRestores(mid, slot, id, m);
    ReconciledElsewhere(mid, slot, id, m);
    ElsewhereTwice(ix, mid, ix', id);
    ReconcileTracked(mid, slot, id, m);
    TrackedTwice(ix, mid, ix');
    TrackedTwice(start, ix, ix');
    forall other: string
      ensures ix'.ContractOkBut(other, Stale(ix', rest - {id}, slot, other))
    {
      var but := Stale(ix, rest, slot, other);
      assert ix.ContractOkBut(other, but);
      if other != id { OthersKept(ix, ix', id, other, but); }
    }
    forall other | other in ix'.subscribed - (rest - {id}) && OfType(ix', other, slot.contractType)
      ensures Active(ix', slot, other) <==> matches(slot, other)
    {
      if other != id { assert SameEntries(ix, ix', other); }
    }
    forall other: string | !OfType(ix, other, slot.contractType) && SameEntries(start, ix, other)
      ensures SameEntries(start, ix', other) {
      assert SameEntries(ix, ix', other);
    }
  }

  lemma RewireSkip(ix: Index, rest: set<string>, slot: Slot, id: string, matches: (Slot, string) -> bool)
    requires Rewiring(ix, rest, slot, matches) && id in rest && !OfType(ix, id, slot.contractType)
    ensures Rewiring(ix, rest - {id}, slot, matches)
  {
    hide Index.ContractOkBut;
    forall other: string
      ensures ix.ContractOkBut(other, Stale(ix, rest - {id}, slot, other))
    {
      assert ix.ContractOkBut(other, Stale(ix, rest, slot, other));
    }
  }

  lemma RewiringEnds(ix: Index, slot: Slot, matches: (Slot, string) -> bool)
    requires Rewiring(ix, {}, slot, matches)
    ensures ix.Consistent() && Wired(ix, slot.contractType, slot.key, slot.autoSubscribe, slot.source, matches)
  {
    forall id: string ensures ix.ContractOk(id) {
      assert ix.ContractOkBut(id, Stale(ix, {}, slot, id));
    }
  }

  /** In the middle of a removal: the contracts still to be visited may have the removed slot active. */
  ghost predicate Unwiring(ix: Index, rest: set<string>, slot: Slot) {
    && ix.RegistryOk() && !ix.Registered(slot)
    && forall id: string :: ix.ContractOkBut(id, Orphaned(ix, rest, slot, id))
  }

  /**
   Removing a slot from the registry: of the type's own there is work to do, of another type's nothing will be found.
   */
  lemma UnwiringStarts(ix: Index, slot: Slot, contractType: string, key: string)
    requires ix.Consistent() && RegistryKey(contractType, key) in ix.slots
    requires ix.slots[RegistryKey(contractType, key)] == slot
    ensures var ix' := ix.(slots := ix.slots - {RegistryKey(contractType, key)});
      && (slot.contractType == contractType ==>
            slot.key == key && Unwiring(ix', ix.active.Keys, slot) && Tracked(ix, ix')
              && !Displaces(ix, contractType, key))
      && (slot.contractType != contractType ==>
            slot.key != key && Tracked(ix, ix') && (ix'.Consistent() <==> !Displaces(ix, contractType, key)))
  {
    hide Unwiring, Index.Consistent;
    assert ix.RegistryOk() by { ConsistentRegistry(ix); }
    if slot.contractType == contractType {
      SameTypeKeys(contractType, slot.key, key);
      RemovedUnwiring(ix, slot, RegistryKey(contractType, key));
    } else {
      if slot.key == key { SameKeyTypes(slot.contractType, contractType, key); }
      RemovedElsewhere(ix, slot, contractType, key);
    }
  }

  lemma ConsistentRegistry(ix: Index)
    requires ix.Consistent()
    ensures ix.RegistryOk()
  {
  }

  lemma RemovedElsewhere(ix: Index, slot: Slot, contractType: string, key: string)
    requires ix.Consistent() && RegistryKey(contractType, key) in ix.slots
    requires ix.slots[RegistryKey(contractType, key)] == slot
    requires slot.contractType != contractType
    ensures var ix' := ix.(slots := ix.slots - {RegistryKey(contractType, key)});
      Tracked(ix, ix') && (ix'.Consistent() <==> !Displaces(ix, contractType, key))
  {
    var ix' := ix.(slots := ix.slots - {RegistryKey(contractType, key)});
    if Displaces(ix, contractType, key) {
      forall id: string ensures SameEntries(ix, ix', id) {}
      EntriesKeepKeys(ix, ix', key);
      StrandedBreaks(ix, ix', contractType, key);
    } else {
      forall id: string ensures ix'.ContractOk(id) {
        assert ix.ContractOk(id);
        if id in ix.active {
          forall k | k in ix.active[id] ensures ix'.SlotOk(id, k) {
            assert ix.SlotOk(id, k);
            assert slot.key == k ==> (Active(ix, slot, id) <==> ix.active[id][k] == slot);
          }
        }
      }
    }
  }

  /** In a consistent index no contract has a slot active under another key than its own. */
  lemma NotUnderThisKey(ix: Index, slot: Slot, id: string, key: string)
    requires ix.Consistent() && slot.key != key
    ensures id in ix.active && key in ix.active[id] ==> ix.active[id][key] != slot
  {
    assert ix.ContractOk(id);
    if id in ix.active && key in ix.active[id] { assert ix.SlotOk(id, key); }
  }

  lemma RemovedUnwiring(ix: Index, slot: Slot, rKey: string)
    requires ix.Consistent() && rKey in ix.slots && ix.slots[rKey] == slot
    ensures var ix' := ix.(slots := ix.slots - {rKey});
      Unwiring(ix', ix.active.Keys, slot) && Tracked(ix, ix')
  {
    var ix' := ix.(slots := ix.slots - {rKey});
    forall id: string ensures ix'.ContractOkBut(id, Orphaned(ix', ix.active.Keys, slot, id)) {
      assert ix.ContractOk(id);
      if id in ix.active {
        forall k | k in ix.active[id] && ix.active[id][k] != slot ensures ix'.SlotOk(id, k) { assert ix.SlotOk(id, k); }
        forall k | k in ix.active[id] ensures ix.active[id][k].key == k { assert ix.SlotOk(id, k); }
      }
    }
  }

  /** Dropping a key of a contract's mirror record, and keeping the record. */
  function MirrorDropped(ix: Index, key: string, id: string): Index {
    if id in ix.mirror then ix.(mirror := ix.mirror[id := ix.mirror[id] - {key}]) else ix
  }

  function Unwired(ix: Index, slot: Slot, id: string): Index {
    if Active(ix, slot, id) then MirrorDropped(Detached(ix, slot.key, id), slot.key, id) else ix
  }

  lemma UnwiredIs(ix: Index, slot: Slot, id: string)
    requires id in ix.active && slot.key in ix.active[id] && ix.active[id][slot.key] == slot
    ensures Unwired(ix, slot, id) == MirrorDropped(Detached(ix, slot.key, id), slot.key, id)
  {
    hide Detached, MirrorDropped;
  }

  lemma UnwireOne(ix: Index, slot: Slot, id: string)
    requires ix.ContractOkBut(id, {slot.key}) && Active(ix, slot, id)
    ensures Unwired(ix, slot, id).ContractOk(id) && SameElsewhere(ix, Unwired(ix, slot, id), id)
    ensures Tracked(ix, Unwired(ix, slot, id))
  {
    hide Detached;
    var mid := Detached(ix, slot.key, id);
    DetachRestores(ix, slot.key, id);
    DetachedElsewhere(ix, slot.key, id);
    DetachTracked(ix, slot.key, id);
    var ix' := Unwired(ix, slot, id);
    if id in mid.active {
      forall k | k in mid.active[id] ensures ix'.SlotOk(id, k) { assert mid.SlotOk(id, k); }
    }
    forall other: string | other != id ensures SameEntries(ix, ix', other) { assert SameEntries(ix, mid, other); }
  }

  lemma DetachTracked(ix: Index, key: string, id: string)
    ensures Tracked(ix, Detached(ix, key, id))
  {
  }

  lemma UnwireStep(start: Index, ix: Index, rest: set<string>, slot: Slot, id: string)
    requires Unwiring(ix, rest, slot) && id in rest && Tracked(start, ix)
    ensures var ix' := Unwired(ix, slot, id);
      && Unwiring(ix', rest - {id}, slot) && Tracked(start, ix')
      && ix'.slots == ix.slots && ix'.subscribed == ix.subscribed && ix'.types == ix.types
  {
    hide Unwired, Tracked, Index.ContractOkBut;
    var ix' := Unwired(ix, slot, id);
    assert ix.ContractOkBut(id, Orphaned(ix, rest, slot, id));
    if Active(ix, slot, id) {
      UnwireOne(ix, slot, id);
      TrackedTwice(start, ix, ix');
      forall other: string ensures ix'.ContractOkBut(other, Orphaned(ix', rest - {id}, slot, other)) {
        var but := Orphaned(ix, rest, slot, other);
        assert ix.ContractOkBut(other, but);
        if other != id { OthersKept(ix, ix', id, other, but); }
      }
    } else {
      assert ix' == ix by { UnwiredNothing(ix, slot, id); }
      forall other: string ensures ix'.ContractOkBut(other, Orphaned(ix', rest - {id}, slot, other)) {
        assert ix.ContractOkBut(other, Orphaned(ix, rest, slot, other));
      }
    }
  }

  lemma UnwiredNothing(ix: Index, slot: Slot, id: string)
    requires !Active(ix, slot, id)
    ensures Unwired(ix, slot, id) == ix
  {
  }

  lemma UnwiringEnds(ix: Index, slot: Slot)
    requires Unwiring(ix, {}, slot)
    ensures ix.Consistent()
  {
    forall id: string ensures ix.ContractOk(id) {
      assert ix.ContractOkBut(id, Orphaned(ix, {}, slot, id));
    }
  }

  lemma EditFacts(filter: set<string>, key: string)
    ensures key in filter <==> filter + {key} == filter
    ensures key !in filter <==> filter - {key} == filter
  {
  }

  lemma StartSettled(ix: Index, id: string, matches: (Slot, string) -> bool)
    ensures Settled(ix, id, {}, matches) && SameElsewhere(ix, ix, id) && Tracked(ix, ix)
  {
  }

  lemma StartTracked(ix: Index)
    ensures Tracked(ix, ix) && forall id: string :: SameEntries(ix, ix, id)
  {
  }

  lemma StepReconcile(start: Index, ix: Index, rKey: string, id: string, done: set<string>,
                      matches: (Slot, string) -> bool)
    requires ix.Consistent() && rKey in ix.slots && id in ix.subscribed && done <= ix.slots.Keys
    requires Settled(ix, id, done, matches)
    requires SameElsewhere(start, ix, id) && Tracked(start, ix)
    ensures var ix' := Reconciled(ix, ix.slots[rKey], id, matches(ix.slots[rKey], id));
      && ix'.Consistent() && Settled(ix', id, done + {rKey}, matches)
      && SameElsewhere(start, ix', id) && Tracked(start, ix')
      && ix'.slots == ix.slots && ix'.subscribed == ix.subscribed
  {
    hide Reconciled, Settled, Tracked, Index.ContractOkBut;
    var slot := ix.slots[rKey];
    var m := matches(slot, id);
    SettlesOneMore(ix, id, done, rKey, matches);
    ReconcileConsistent(ix, slot, id, m);
    ReconciledElsewhere(ix, slot, id, m);
    ElsewhereTwice(start, ix, Reconciled(ix, slot, id, m), id);
    ReconcileTracked(ix, slot, id, m);
    TrackedTwice(start, ix, Reconciled(ix, slot, id, m));
  }

  lemma ElsewhereFields(ix: Index, ix': Index, id: string)
    requires SameElsewhere(ix, ix', id)
    ensures ix'.slots == ix.slots && ix'.subscribed == ix.subscribed && ix'.types == ix.types
  {
  }

  lemma ExactElsewhere(ix: Index, ix': Index, id: string, other: string, matches: (Slot, string) -> bool)
    requires SameElsewhere(ix, ix', id) && other != id && ExactlyMatching(ix, other, matches)
    ensures ExactlyMatching(ix', other, matches)
  {
    assert SameEntries(ix, ix', other);
    forall slot: Slot
      ensures Active(ix', slot, other) <==>
        ix'.Registered(slot) && other in ix'.types && ix'.types[other] == slot.contractType && matches(slot, other)
    {
      assert Active(ix, slot, other) <==> Active(ix', slot, other);
    }
  }

  lemma EntriesTwice(a: Index, b: Index, c: Index, id: string, other: string)
    requires SameEntries(a, b, other) && SameElsewhere(b, c, id) && other != id
    ensures SameEntries(a, c, other)
  {
    assert SameEntries(b, c, other);
  }

  lemma AddedConsistent(ix: Index, id: string, contractType: string)
    requires ix.Consistent() && id !in ix.subscribed
    ensures ix.(subscribed := ix.subscribed + {id}, types := ix.types[id := contractType]).Consistent()
  {
    var ix' := ix.(subscribed := ix.subscribed + {id}, types := ix.types[id := contractType]);
    forall other: string ensures ix'.ContractOk(other) {
      assert ix.ContractOk(other);
      if other in ix.active {
        forall key | key in ix.active[other] ensures ix'.SlotOk(other, key) { assert ix.SlotOk(other, key); }
      }
    }
  }

  lemma RemovedConsistent(ix: Index, id: string)
    requires ix.Consistent() && id !in ix.active && id !in ix.filters && id !in ix.mirror
    ensures ix.(subscribed := ix.subscribed - {id}, types := ix.types - {id}).Consistent()
  {
    var ix' := ix.(subscribed := ix.subscribed - {id}, types := ix.types - {id});
    forall other: string ensures ix'.ContractOk(other) {
      assert ix.ContractOk(other);
      if other in ix.active {
        forall key | key in ix.active[other] ensures ix'.SlotOk(other, key) { assert ix.SlotOk(other, key); }
      }
    }
  }

  lemma AddedTracked(before: Index, mid: Index, after: Index)
    requires mid.dirty == before.dirty && mid.filters == before.filters && Tracked(mid, after)
    ensures Tracked(before, after)
  {
  }

  lemma RemovedTracked(before: Index, mid: Index, after: Index)
    requires after.dirty == mid.dirty && after.filters == mid.filters && Tracked(before, mid)
    ensures Tracked(before, after)
  {
  }

  lemma AddedEntries(before: Index, mid: Index, after: Index, other: string)
    requires mid.active == before.active && mid.filters == before.filters && mid.mirror == before.mirror
    requires SameEntries(mid, after, other)
    ensures SameEntries(before, after, other)
  {
  }

  // ---- clashing registry keys are within reach --------------------------------------------

  /**
   A contract of type `a:` with slot `b` active, by the selectors alone: a definition of slot `:b` for type `a`
   displaces it.
   */
  method ReachClash(manifest: string) returns (kv: KvSlots)
    ensures fresh(kv) && kv.Value().Consistent()
    ensures Displaces(kv.Value(), "a", ":b") && Owned(kv.Value(), "a", manifest, ":b")
  {
    kv := new KvSlots();
    var always := (slot: Slot, id: string) => true;
    kv.ContractAdded("c", "a:", always);
    assert !HasSeparator("b") && "" !in ["a:"];
    var ok := kv.Define("b", ["a:"], true, DefineContract(manifest), always);
    ghost var ix := kv.Value();
    assert ["a:"][0] == "a:" && ix.Consistent();
    assert Wired(ix, ["a:"][0], "b", true, DefineContract(manifest), always);
    assert RegistryKey("a", ":b") == RegistryKey("a:", "b");
    var slot := kv.kvSlots[RegistryKey("a:", "b")];
    assert Active(ix, slot, "c");
  }

  /** So the definition leaves the index inconsistent. */
  method DefinitionBreaksIndex() returns (kv: KvSlots)
    ensures fresh(kv) && !kv.Value().Consistent()
  {
    kv := ReachClash("m");
    kv.DefineForType("a", ":b", true, DefineSlot, (slot: Slot, id: string) => true);
  }

  /** And so does the cleanup of slot `:b` of type `a`, for the manifest that registered both. */
  method CleanupBreaksIndex() returns (kv: KvSlots)
    ensures fresh(kv) && !kv.Value().Consistent()
  {
    kv := ReachClash("m");
    kv.CleanupContractSlot("a", "m", ":b");
  }
}
