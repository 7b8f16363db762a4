/** The three-way index behind KV slots: registry, active slots per contract, active filters; with the mirror's keys. */
module KvIndex {
  import opened Wrappers

  const KV_KEY_SEPARATOR := "::"

  function RegistryKey(contractType: string, key: string): string { contractType + KV_KEY_SEPARATOR + key }

  predicate HasSeparator(s: string) { exists i | 0 <= i < |s| - 1 :: s[i] == ':' && s[i + 1] == ':' }

  /**
   Two registrations share a registry key exactly when they are the same, or when a colon at the end of one contract
   type stands against a colon at the start of the other key.
   */
  lemma RegistryKeyClash(type1: string, key1: string, type2: string, key2: string)
    requires !HasSeparator(key1) && !HasSeparator(key2)
    ensures RegistryKey(type1, key1) == RegistryKey(type2, key2) <==>
      || (type1 == type2 && key1 == key2)
      || (type2 == type1 + ":" && key1 == ":" + key2)
      || (type1 == type2 + ":" && key2 == ":" + key1)
  {
    if |type1| <= |type2| {
      ShorterTypeClash(type1, key1, type2, key2);
    } else {
      ShorterTypeClash(type2, key2, type1, key1);
    }
  }

  lemma ShorterTypeClash(type1: string, key1: string, type2: string, key2: string)
    requires !HasSeparator(key1) && |type1| <= |type2|
    ensures RegistryKey(type1, key1) == RegistryKey(type2, key2) <==>
      (type1 == type2 && key1 == key2) || (type2 == type1 + ":" && key1 == ":" + key2)
  {
    assert type1 + "::" + (":" + key2) == (type1 + ":") + "::" + key2;
    if RegistryKey(type1, key1) == RegistryKey(type2, key2) { ClashOverlap(type1, key1, type2, key2); }
  }

  /** The longer type overlaps the separator of the shorter one, by one colon or by more. */
  lemma ClashOverlap(type1: string, key1: string, type2: string, key2: string)
    requires |type1| <= |type2| && RegistryKey(type1, key1) == RegistryKey(type2, key2)
    ensures |type2| == |type1| ==> type1 == type2 && key1 == key2
    ensures |type2| == |type1| + 1 ==> type2 == type1 + ":" && key1 == ":" + key2
    ensures |type2| >= |type1| + 2 ==> HasSeparator(key1)
  {
    var s := RegistryKey(type1, key1);
    var n, d := |type1|, |type2| - |type1|;
    assert type1 == s[..n] && type2 == s[..n + d] && key1 == s[n + 2..] && key2 == s[n + d + 2..];
    assert s[n] == ':' && s[n + 1] == ':' && s[n + d] == ':' && s[n + d + 1] == ':';
    if d >= 2 { assert key1[d - 2] == ':' && key1[d - 1] == ':'; }
  }

  datatype Source = DefineSlot | DefineContract(manifest: string)

  /** A registered slot. `id` is the identity of the object: two definitions are never the same slot. */
  datatype Slot = Slot(id: nat, contractType: string, key: string, autoSubscribe: bool, source: Source)

  datatype Index = Index(
    slots: map<string, Slot>,                       // kvSlots
    active: map<string, map<string, Slot>>,         // kvSlotsByContractID
    filters: map<string, set<string>>,              // kvActiveFilters
    dirty: set<string>,                             // kvFilterDirty
    mirror: map<string, set<string>>,               // the keys of rootState._kv, per contract
    subscribed: set<string>,                        // subscriptionSet
    types: map<string, string>)                     // getContractType, where it is known
  {
    function ActiveOf(id: string): map<string, Slot> { if id in active then active[id] else map[] }

    function FilterOf(id: string): set<string> { if id in filters then filters[id] else {} }

    function MirrorOf(id: string): set<string> { if id in mirror then mirror[id] else {} }

    predicate Registered(slot: Slot) {
      RegistryKey(slot.contractType, slot.key) in slots && slots[RegistryKey(slot.contractType, slot.key)] == slot
    }

    /** The clauses about one active slot. */
    predicate SlotOk(id: string, key: string)
      requires id in active && key in active[id] && id in filters && id in types
    {
      var slot := active[id][key];
      slot.key == key && slot.contractType == types[id] && Registered(slot)
        && (slot.autoSubscribe <==> key in filters[id])
    }

    /**
     The clauses about the active slots and the filter of one contract, except about the slots under the keys listed.
     */
    predicate SlotsOkBut(id: string, but: set<string>) {
      && (id in active ==>
            && id in subscribed && id in filters && id in types
            && forall key <- active[id] :: key !in but ==> SlotOk(id, key))
      && (id in filters ==> filters[id] <= ActiveOf(id).Keys && id in subscribed)
    }

    /** The mirror has entries for active slots only. */
    predicate MirrorOk(id: string) { id in mirror ==> mirror[id] <= ActiveOf(id).Keys && id in subscribed }

    /** Every clause of `_assertIndexConsistent` about one contract. */
    predicate ContractOkBut(id: string, but: set<string>) { SlotsOkBut(id, but) && MirrorOk(id) }

    predicate ContractOk(id: string) { ContractOkBut(id, {}) }

    /** The registry files every slot under its own registry key. */
    predicate RegistryOk() { forall rKey <- slots :: RegistryKey(slots[rKey].contractType, slots[rKey].key) == rKey }

    ghost predicate Consistent() { RegistryOk() && forall id: string :: ContractOk(id) }
  }

  /** The filter with the slot's key in it, or out of it if the slot is not for subscribing. */
  function Edited(filter: set<string>, slot: Slot): set<string> {
    if slot.autoSubscribe then filter + {slot.key} else filter - {slot.key}
  }

  /** `_reconcileForSlot` when `match` says yes; a change of the filter, or a new one, is queued for a flush. */
  function Activated(ix: Index, slot: Slot, id: string): Index {
    var filter := Edited(ix.FilterOf(id), slot);
    ix.(active := ix.active[id := ix.ActiveOf(id)[slot.key := slot]],
        filters := ix.filters[id := filter],
        dirty := if filter != ix.FilterOf(id) || id !in ix.filters then ix.dirty + {id} else ix.dirty,
        mirror := ix.mirror[id := ix.MirrorOf(id) + {slot.key}])
  }

  /** Taking a key out of the active slots and the filter of a contract; a contract without slots loses its entries. */
  function Detached(ix: Index, key: string, id: string): Index {
    if key !in ix.ActiveOf(id) then ix
    else
      var last := ix.ActiveOf(id).Keys == {key};
      ix.(active := if last then ix.active - {id} else ix.active[id := ix.ActiveOf(id) - {key}],
          filters := if last then ix.filters - {id}
                     else if key in ix.FilterOf(id) then ix.filters[id := ix.FilterOf(id) - {key}] else ix.filters,
          dirty := if key in ix.FilterOf(id) then ix.dirty + {id} else ix.dirty)
  }

  /** Dropping a key of the mirror, and with its last key the record of the contract. */
  function Unmirrored(ix: Index, key: string, id: string): Index {
    if id !in ix.mirror then ix
    else if ix.mirror[id] - {key} == {} then ix.(mirror := ix.mirror - {id})
    else ix.(mirror := ix.mirror[id := ix.mirror[id] - {key}])
  }

  function Deactivated(ix: Index, key: string, id: string): Index { Unmirrored(Detached(ix, key, id), key, id) }

  /** `_reconcileForSlot`; `matches` is what the slot's predicate answers, with an exception counting as no. */
  function Reconciled(ix: Index, slot: Slot, id: string, matches: bool): Index {
    if id !in ix.subscribed || id !in ix.types || ix.types[id] != slot.contractType then ix
    else if matches then Activated(ix, slot, id)
    else Deactivated(ix, slot.key, id)
  }

  /** `_cleanupContractRuntime` */
  function Cleaned(ix: Index, id: string): Index {
    ix.(active := ix.active - {id}, filters := ix.filters - {id}, mirror := ix.mirror - {id},
        dirty := if id in ix.filters then ix.dirty + {id} else ix.dirty)
  }

  // ---- what a step at one contract does ---------------------------------------------------

  /** The entries of one contract are the same in both. */
  predicate SameEntries(ix: Index, ix': Index, id: string) {
    && (id in ix'.active <==> id in ix.active) && (id in ix.active ==> ix'.active[id] == ix.active[id])
    && (id in ix'.filters <==> id in ix.filters) && (id in ix.filters ==> ix'.filters[id] == ix.filters[id])
    && (id in ix'.mirror <==> id in ix.mirror) && (id in ix.mirror ==> ix'.mirror[id] == ix.mirror[id])
  }

  /** Everything but the entries of one contract is as it was. */
  ghost predicate SameElsewhere(ix: Index, ix': Index, id: string) {
    && ix'.slots == ix.slots && ix'.subscribed == ix.subscribed && ix'.types == ix.types
    && ix.dirty <= ix'.dirty <= ix.dirty + {id}
    && forall other: string :: other != id ==> SameEntries(ix, ix', other)
  }

  lemma OthersKept(ix: Index, ix': Index, id: string, other: string, but: set<string>)
    requires SameElsewhere(ix, ix', id) && other != id && ix.ContractOkBut(other, but)
    ensures ix'.ContractOkBut(other, but) && ix'.ActiveOf(other) == ix.ActiveOf(other)
  {
    assert SameEntries(ix, ix', other);
  }

  lemma ActivatedElsewhere(ix: Index, slot: Slot, id: string)
    ensures SameElsewhere(ix, Activated(ix, slot, id), id)
  {
  }

  lemma DetachedElsewhere(ix: Index, key: string, id: string)
    ensures SameElsewhere(ix, Detached(ix, key, id), id) && Detached(ix, key, id).mirror == ix.mirror
  {
  }

  lemma UnmirroredElsewhere(ix: Index, key: string, id: string)
    ensures SameElsewhere(ix, Unmirrored(ix, key, id), id)
  {
  }

  lemma CleanedElsewhere(ix: Index, id: string)
    ensures SameElsewhere(ix, Cleaned(ix, id), id)
  {
  }

  lemma ElsewhereTwice(a: Index, b: Index, c: Index, id: string)
    requires SameElsewhere(a, b, id) && SameElsewhere(b, c, id)
    ensures SameElsewhere(a, c, id)
  {
    forall other: string | other != id ensures SameEntries(a, c, other) {
      assert SameEntries(a, b, other) && SameEntries(b, c, other);
    }
  }

  lemma ReconciledElsewhere(ix: Index, slot: Slot, id: string, matches: bool)
    ensures SameElsewhere(ix, Reconciled(ix, slot, id, matches), id)
  {
    hide SameElsewhere, Activated, Detached, Unmirrored;
    SameAsItself(ix, id);
    ActivatedElsewhere(ix, slot, id);
    DetachedElsewhere(ix, slot.key, id);
    UnmirroredElsewhere(Detached(ix, slot.key, id), slot.key, id);
    ElsewhereTwice(ix, Detached(ix, slot.key, id), Deactivated(ix, slot.key, id), id);
  }

  lemma SameAsItself(ix: Index, id: string)
    ensures SameElsewhere(ix, ix, id)
  {
  }

  /**
   What reconciling does with a slot that matches a contract of its type: it is the active one under its key, is in the
   filter exactly if it is for subscribing, and has its place in the mirror. Nothing else changes but that a new filter,
   or a change of the filter, is queued for a flush.
   */
  lemma ActivateEffect(ix: Index, slot: Slot, id: string, key: string)
    requires id in ix.subscribed && id in ix.types && ix.types[id] == slot.contractType
    ensures var ix' := Reconciled(ix, slot, id, true);
      && slot.key in ix'.ActiveOf(id) && ix'.ActiveOf(id)[slot.key] == slot && id in ix'.filters
      && (slot.key in ix'.FilterOf(id) <==> slot.autoSubscribe) && slot.key in ix'.MirrorOf(id)
      && (key != slot.key ==> SameAt(ix, ix', id, key))
      && var changed := id !in ix.filters || ((slot.key in ix.FilterOf(id)) != slot.autoSubscribe);
         ix'.dirty == if changed then ix.dirty + {id} else ix.dirty
  {
  }

  /**
   And with one that does not match: it is in none of them, a contract left without slots has no filter, and a flush is
   queued exactly if the slot was in it.
   */
  lemma DeactivateEffect(ix: Index, slot: Slot, id: string, key: string)
    requires id in ix.subscribed && id in ix.types && ix.types[id] == slot.contractType
    requires ix.FilterOf(id) <= ix.ActiveOf(id).Keys
    ensures var ix' := Reconciled(ix, slot, id, false);
      && slot.key !in ix'.ActiveOf(id) && slot.key !in ix'.FilterOf(id) && slot.key !in ix'.MirrorOf(id)
      && (ix.ActiveOf(id).Keys == {slot.key} ==> id !in ix'.filters)
      && (key != slot.key ==> SameAt(ix, ix', id, key))
      && ix'.dirty == if slot.key in ix.FilterOf(id) then ix.dirty + {id} else ix.dirty
  {
    hide Detached, Unmirrored;
    DetachEffect(ix, slot.key, id, key);
    UnmirrorEffect(Detached(ix, slot.key, id), slot.key, id, key);
  }

  lemma DetachEffect(ix: Index, gone: string, id: string, key: string)
    requires ix.FilterOf(id) <= ix.ActiveOf(id).Keys
    ensures var ix' := Detached(ix, gone, id);
      && ix'.mirror == ix.mirror && gone !in ix'.ActiveOf(id) && gone !in ix'.FilterOf(id)
      && (ix.ActiveOf(id).Keys == {gone} ==> id !in ix'.filters)
      && (key != gone ==>
            && (key in ix'.ActiveOf(id) <==> key in ix.ActiveOf(id))
            && (key in ix.ActiveOf(id) ==> ix'.ActiveOf(id)[key] == ix.ActiveOf(id)[key])
            && (key in ix'.FilterOf(id) <==> key in ix.FilterOf(id)))
      && ix'.dirty == if gone in ix.FilterOf(id) then ix.dirty + {id} else ix.dirty
  {
  }

  lemma UnmirrorEffect(ix: Index, gone: string, id: string, key: string)
    ensures var ix' := Unmirrored(ix, gone, id);
      && ix' == ix.(mirror := ix'.mirror) && gone !in ix'.MirrorOf(id)
      && (key != gone ==> (key in ix'.MirrorOf(id) <==> key in ix.MirrorOf(id)))
  {
    if id in ix.mirror && key in ix.mirror[id] && key != gone { assert key in ix.mirror[id] - {gone}; }
  }

  /** Under one key a contract has the same slot, filter entry and mirror entry in both. */
  predicate SameAt(ix: Index, ix': Index, id: string, key: string) {
    && (key in ix'.ActiveOf(id) <==> key in ix.ActiveOf(id))
    && (key in ix.ActiveOf(id) ==> ix'.ActiveOf(id)[key] == ix.ActiveOf(id)[key])
    && (key in ix'.FilterOf(id) <==> key in ix.FilterOf(id))
    && (key in ix'.MirrorOf(id) <==> key in ix.MirrorOf(id))
  }

  /** Releasing a contract takes its slots, its filter and its mirror, and queues a flush exactly if it had a filter. */
  lemma CleanEffect(ix: Index, id: string)
    ensures var ix' := Cleaned(ix, id);
      && id !in ix'.active && id !in ix'.filters && id !in ix'.mirror
      && ix'.dirty == if id in ix.filters then ix.dirty + {id} else ix.dirty
  {
  }

  // ---- reconciling one contract -------------------------------------------------------------

  lemma ActivateRestores(ix: Index, slot: Slot, id: string)
    requires ix.Registered(slot) && id in ix.subscribed && id in ix.types && ix.types[id] == slot.contractType
    requires ix.ContractOkBut(id, {slot.key})
    ensures Activated(ix, slot, id).ContractOk(id)
    ensures Activated(ix, slot, id).ActiveOf(id) == ix.ActiveOf(id)[slot.key := slot]
  {
    var ix' := Activated(ix, slot, id);
    forall key | key in ix'.active[id] ensures ix'.SlotOk(id, key) {
      if key != slot.key { assert ix.SlotOk(id, key); }
    }
  }

  lemma DetachRestores(ix: Index, key: string, id: string)
    requires ix.SlotsOkBut(id, {key})
    ensures Detached(ix, key, id).SlotsOkBut(id, {})
    ensures Detached(ix, key, id).ActiveOf(id) == ix.ActiveOf(id) - {key}
    ensures Detached(ix, key, id).mirror == ix.mirror && Detached(ix, key, id).subscribed == ix.subscribed
  {
    var ix' := Detached(ix, key, id);
    if id in ix'.active {
      forall k | k in ix'.active[id] ensures ix'.SlotOk(id, k) {
        assert ix.SlotOk(id, k);
      }
    }
  }

  lemma UnmirrorRestores(ix: Index, key: string, id: string)
    requires ix.SlotsOkBut(id, {})
    requires id in ix.mirror ==> ix.mirror[id] <= ix.ActiveOf(id).Keys + {key} && id in ix.subscribed
    ensures Unmirrored(ix, key, id).ContractOk(id) || key in ix.ActiveOf(id)
    ensures Unmirrored(ix, key, id).active == ix.active
  {
    var ix' := Unmirrored(ix, key, id);
    if id in ix.active {
      forall k | k in ix.active[id] ensures ix'.SlotOk(id, k) {
        assert ix.SlotOk(id, k);
      }
    }
  }

  lemma DeactivateRestores(ix: Index, key: string, id: string)
    requires ix.ContractOkBut(id, {key})
    ensures Deactivated(ix, key, id).ContractOk(id)
    ensures Deactivated(ix, key, id).ActiveOf(id) == ix.ActiveOf(id) - {key}
  {
    hide Detached, Unmirrored, Index.SlotsOkBut;
    DetachRestores(ix, key, id);
    UnmirrorRestores(Detached(ix, key, id), key, id);
  }

  /**
   Reconciling a registered slot repairs whatever was wrong with its key, and makes it active exactly if it matches.
   */
  lemma ReconcileRestores(ix: Index, slot: Slot, id: string, matches: bool)
    requires ix.Registered(slot) && id in ix.subscribed && id in ix.types && ix.types[id] == slot.contractType
    requires ix.ContractOkBut(id, {slot.key})
    ensures Reconciled(ix, slot, id, matches).ContractOk(id)
    ensures Reconciled(ix, slot, id, matches).ActiveOf(id) ==
      if matches then ix.ActiveOf(id)[slot.key := slot] else ix.ActiveOf(id) - {slot.key}
  {
    hide Activated, Deactivated, Index.ContractOkBut;
    if matches { ActivateRestores(ix, slot, id); } else { DeactivateRestores(ix, slot.key, id); }
  }

  lemma OkButMore(ix: Index, id: string, but: set<string>)
    requires ix.ContractOk(id)
    ensures ix.ContractOkBut(id, but)
  {
  }

  /** Reconciling keeps the whole index consistent. */
  lemma ReconcileConsistent(ix: Index, slot: Slot, id: string, matches: bool)
    requires ix.Consistent() && ix.Registered(slot)
    ensures Reconciled(ix, slot, id, matches).Consistent()
  {
    hide Activated, Deactivated, Index.ContractOkBut;
    var ix' := Reconciled(ix, slot, id, matches);
    ReconciledElsewhere(ix, slot, id, matches);
    if ix' != ix {
      OkButMore(ix, id, {slot.key});
      ReconcileRestores(ix, slot, id, matches);
      forall other: string ensures ix'.ContractOk(other) {
        assert ix.ContractOk(other);
        if other != id { OthersKept(ix, ix', id, other, {}); }
      }
    }
  }

  lemma CleanConsistent(ix: Index, id: string)
    requires ix.Consistent()
    ensures Cleaned(ix, id).Consistent()
  {
    hide Index.ContractOkBut;
    var ix' := Cleaned(ix, id);
    CleanedElsewhere(ix, id);
    forall other: string ensures ix'.ContractOk(other) {
      assert ix.ContractOk(other);
      if other != id { OthersKept(ix, ix', id, other, {}); } else { CleanedOk(ix, id); }
    }
  }

  lemma CleanedOk(ix: Index, id: string)
    ensures Cleaned(ix, id).ContractOk(id)
  {
  }

  // ---- every change of a filter is queued ------------------------------------------------------

  /** Filters that are new or different belong to contracts that wait for a flush. */
  predicate Tracked(ix: Index, ix': Index) {
    && ix.dirty <= ix'.dirty
    && forall id <- ix'.filters :: id in ix'.dirty || (id in ix.filters && ix'.filters[id] == ix.filters[id])
  }

  lemma ReconcileTracked(ix: Index, slot: Slot, id: string, matches: bool)
    ensures Tracked(ix, Reconciled(ix, slot, id, matches))
  {
  }

  lemma CleanTracked(ix: Index, id: string)
    ensures Tracked(ix, Cleaned(ix, id))
  {
  }

  lemma TrackedTwice(a: Index, b: Index, c: Index)
    requires Tracked(a, b) && Tracked(b, c)
    ensures Tracked(a, c)
  {
  }

  /**
   Entries that go are another matter: taking away the last active slot of a contract drops its filter entry, and queues
   a flush if and only if the slot was one for subscribing. After a local-only slot pubsub keeps the filter it was
   handed.
   */
  lemma LastDetachFlushes(ix: Index, key: string, id: string)
    requires ix.ContractOk(id) && ix.ActiveOf(id).Keys == {key} && id !in ix.dirty
    ensures id in ix.filters && id !in Detached(ix, key, id).filters
    ensures id in Detached(ix, key, id).dirty <==> ix.ActiveOf(id)[key].autoSubscribe
  {
    assert key in ix.ActiveOf(id).Keys;
    assert ix.SlotOk(id, key);
  }
}
