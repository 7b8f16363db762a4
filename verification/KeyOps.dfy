/** The handlers that evolve `state._vm` in place, proved against the operations of the key table. */
module KeyOps {
  import opened Wrappers
  import opened KeyTable

  /** The ids listed by a sequence. */
  function Elements(ids: seq<KeyId>): set<KeyId> { set id | id in ids }

  lemma RevokedStep(invites: map<KeyId, Invite>, keys: Keys, ids: set<KeyId>, id: KeyId)
    requires id in keys
    ensures RevokedInvites(invites, keys, ids + {id}) ==
      if InviteName(keys[id].name) && id in invites
      then RevokedInvites(invites, keys, ids)[id := invites[id].(status := Revoked)]
      else RevokedInvites(invites, keys, ids)
  {
  }

  lemma NoneRevoked(invites: map<KeyId, Invite>, keys: Keys)
    ensures Elements([]) == {} && RevokedInvites(invites, keys, {}) == invites
  {
  }

  lemma ElementsStep(ids: seq<KeyId>, i: nat)
    requires i < |ids|
    ensures Elements(ids[..i + 1]) == Elements(ids[..i]) + {ids[i]} && ids[i] in Elements(ids)
    ensures i == 0 ==> Elements(ids[..i]) == {}
  {
  }

  lemma DeletedAt(keys: Keys, height: nat, ids: set<KeyId>, id: KeyId)
    requires id in ids && id in keys
    ensures id in Deleted(keys, height, ids) && Deleted(keys, height, ids)[id] == keys[id].(notAfter := Some(height))
  {
  }

  lemma SameForeign(k: Key, k': Key)
    requires k.foreignKey == k'.foreignKey
    ensures BrokenForeign(k) <==> BrokenForeign(k')
  {
  }

  lemma RevokedKeys(invites: map<KeyId, Invite>, keys: Keys, ids: set<KeyId>)
    ensures RevokedInvites(invites, keys, ids).Keys == invites.Keys
  {
  }

  /** Revoking changes nothing but the status, so revoking again from the state before is the same. */
  lemma RevokedAgain(invites: map<KeyId, Invite>, keys: Keys, ids: set<KeyId>, id: KeyId)
    requires id in invites
    ensures id in RevokedInvites(invites, keys, ids)
      && RevokedInvites(invites, keys, ids)[id].(status := Revoked) == invites[id].(status := Revoked)
  {
  }

  method KeysToMapLoop(items: seq<Item<Key>>, height: nat, existing: Keys) returns (r: Result<Keys, Failure>)
    ensures r == KeysToMap(items, height, existing)
  {
    var m: Keys := map[];
    var clash := false;
    for i := 0 to |items|
      invariant KeysToMap(items[..i], height, existing) == if clash then Err(Fatal) else Ok(m)
    {
      assert items[..i + 1][..i] == items[..i];
      if !clash && items[i].Readable() {
        if items[i].value.id in existing && existing[items[i].value.id].Active() {
          clash := true;
        } else {
          m := m[items[i].value.id := Entered(items[i], height, existing)];
        }
      }
    }
    assert items[..|items|] == items;
    return if clash then Err(Fatal) else Ok(m);
  }

  /** `validateKeyUpdatePermissions` up to the permission check: the keys as updated, and the ids they replace. */
  method ReadChangesLoop(keys: Keys, items: seq<Item<KeyChange>>)
    returns (r: Result<seq<Key>, Failure>, updated: map<KeyId, KeyId>)
    ensures r == ReadChanges(keys, items)
    ensures r.Ok? ==> updated == Replaced(items)
  {
    hide ReadChange;
    var us: seq<Key> := [];
    updated := map[];
    for i := 0 to |items|
      invariant ReadChanges(keys, items[..i]) == Ok(us)
      invariant updated == Replaced(items[..i])
    {
      assert items[..i + 1][..i] == items[..i];
      if items[i].Readable() {
        match ReadChange(keys, items[i])
        case Err(e) =>
          ReadChangesFails(keys, items, i + 1);
          return Err(e), updated;
        case Ok(u) =>
          us := us + [u];
          var change := items[i].value;
          if change.id.Some? && change.id.value != change.oldKeyId {
            updated := updated[change.id.value := change.oldKeyId];
          }
      }
    }
    assert items[..|items|] == items;
    return Ok(us), updated;
  }

  lemma {:induction false} ReadChangesFails(keys: Keys, items: seq<Item<KeyChange>>, n: nat)
    requires n <= |items| && ReadChanges(keys, items[..n]).Err?
    ensures ReadChanges(keys, items) == ReadChanges(keys, items[..n])
    decreases |items| - n
  {
    if n < |items| {
      assert items[..n + 1][..n] == items[..n];
      ReadChangesFails(keys, items, n + 1);
    } else {
      assert items[..n] == items;
    }
  }

  lemma {:induction false} AdditionFails(invites: map<KeyId, Invite>, items: seq<Item<Key>>, n: nat)
    requires n <= |items| && AdditionProcessed(invites, items[..n]).Err?
    ensures AdditionProcessed(invites, items) == Err(Fatal) == AdditionProcessed(invites, items[..n])
    decreases |items| - n
  {
    AdditionOnlyFatal(invites, items[..n]);
    if n < |items| {
      assert items[..n + 1][..n] == items[..n];
      AdditionFails(invites, items, n + 1);
    } else {
      assert items[..n] == items;
    }
  }

  lemma {:induction false} AdditionOnlyFatal(invites: map<KeyId, Invite>, items: seq<Item<Key>>)
    ensures AdditionProcessed(invites, items).Err? ==> AdditionProcessed(invites, items) == Err(Fatal)
  {
    if items != [] {
      AdditionOnlyFatal(invites, items[..|items| - 1]);
    }
  }

  lemma {:induction false} InstallFails(keys: Keys, height: nat, us: seq<Key>, n: nat)
    requires n <= |us| && InstallAll(keys, height, us[..n]).Err?
    ensures InstallAll(keys, height, us) == Err(Fatal)
    decreases |us| - n
  {
    InstallOnlyFatal(keys, height, us[..n]);
    if n < |us| {
      assert us[..n + 1][..n] == us[..n];
      InstallFails(keys, height, us, n + 1);
    } else {
      assert us[..n] == us;
    }
  }

  lemma {:induction false} InstallOnlyFatal(keys: Keys, height: nat, us: seq<Key>)
    ensures InstallAll(keys, height, us).Err? ==> InstallAll(keys, height, us) == Err(Fatal)
  {
    if us != [] {
      InstallOnlyFatal(keys, height, us[..|us| - 1]);
    }
  }

  lemma {:induction false} AtomicFails(vm: Vm, ctx: Context, ops: seq<Op>, n: nat)
    requires n <= |ops| && ApplyAtomic(vm, ctx, ops[..n]) == Err(Fatal)
    ensures ApplyAtomic(vm, ctx, ops) == Err(Fatal)
    decreases |ops| - n
  {
    hide ApplyPrim;
    if n < |ops| {
      assert ops[..n + 1][..n] == ops[..n];
      AtomicFails(vm, ctx, ops, n + 1);
    } else {
      assert ops[..n] == ops;
    }
  }

  /** `state._vm` of one contract. */
  class VmState {
    var authorizedKeys: Keys
    var invites: map<KeyId, Invite>
    var pendingKeyshares: map<string, PendingShare>

    ghost function Value(): Vm
      reads this
    {
      Vm(authorizedKeys, invites, pendingKeyshares)
    }

    constructor (vm: Vm)
      ensures Value() == vm
    {
      authorizedKeys, invites, pendingKeyshares := vm.keys, vm.invites, vm.pending;
    }

    /** `deleteKeyHelper`: ends the window of every listed key that exists. */
    method DeleteKeyHelper(height: nat, ids: seq<KeyId>)
      modifies this`authorizedKeys
      ensures authorizedKeys == Deleted(old(authorizedKeys), height, Elements(ids))
    {
      for i := 0 to |ids|
        invariant authorizedKeys == Deleted(old(authorizedKeys), height, Elements(ids[..i]))
      {
        assert Elements(ids[..i + 1]) == Elements(ids[..i]) + {ids[i]};
        if ids[i] in authorizedKeys {
          authorizedKeys := authorizedKeys[ids[i] := authorizedKeys[ids[i]].(notAfter := Some(height))];
        }
      }
      assert ids[..|ids|] == ids;
    }

    /** `keyAdditionProcessor`: stops at the first key it rejects, after the invites of the keys before it. */
    method KeyAdditionProcessor(items: seq<Item<Key>>) returns (failure: Option<Failure>)
      modifies this`invites
      ensures failure.None? ==> AdditionProcessed(old(invites), items) == Ok(invites)
      ensures failure.Some? ==> AdditionProcessed(old(invites), items) == Err(Fatal) && failure == Some(Fatal)
    {
      for i := 0 to |items|
        invariant AdditionProcessed(old(invites), items[..i]) == Ok(invites)
      {
        assert items[..i + 1][..i] == items[..i];
        if items[i].Readable() {
          var key := items[i].value;
          if !SakOk(items[i]) || (InviteName(key.name) && key.meta.None?) {
            AdditionFails(old(invites), items, i + 1);
            return Some(Fatal);
          }
          if InviteName(key.name) {
            var q := key.meta.value;
            invites := invites[key.id := Invite(Valid, q.quantity, q.quantity, q.expires)];
          }
        }
      }
      assert items[..|items|] == items;
      return None;
    }

    /** OP_CONTRACT of a first message. */
    method OpContract(height: nat, items: seq<Item<Key>>) returns (failure: Option<Failure>)
      modifies this
      ensures failure.None? ==> ApplyContract(old(Value()), height, items) == Ok(Value())
      ensures failure.Some? ==>
        ApplyContract(old(Value()), height, items) == Err(failure.value) && failure.value == Fatal
    {
      hide KeysToMap, AdditionProcessed;
      var keys := KeysToMapLoop(items, height, map[]);
      if keys.Err? {
        KeysToMapOnlyFatal(items, height, map[]);
        return Some(keys.error);
      }
      authorizedKeys := keys.value;
      failure := KeyAdditionProcessor(items);
    }

    method OpKeyAdd(ctx: Context, items: seq<Item<Key>>) returns (failure: Option<Failure>)
      modifies this
      ensures failure.None? ==> ApplyKeyAdd(old(Value()), ctx, items) == Ok(Value())
      ensures failure.Some? ==> ApplyKeyAdd(old(Value()), ctx, items) == Err(failure.value) && failure.value == Fatal
    {
      hide KeysToMap, AdditionProcessed;
      var added := KeysToMapLoop(items, ctx.height, authorizedKeys);
      if added.Err? {
        KeysToMapOnlyFatal(items, ctx.height, authorizedKeys);
        return Some(added.error);
      }
      if !AddAllowed(authorizedKeys, ctx.signer, items, false) {
        return Some(Fatal);
      }
      authorizedKeys := authorizedKeys + added.value;
      failure := KeyAdditionProcessor(items);
    }

    method OpKeyDel(ctx: Context, items: seq<Item<KeyId>>) returns (failure: Option<Failure>)
      modifies this
      ensures failure.None? ==> ApplyKeyDel(old(Value()), ctx, items) == Ok(Value())
      ensures failure.Some? ==> ApplyKeyDel(old(Value()), ctx, items) == Err(failure.value) && failure.value == Fatal
    {
      if !DelAllowed(authorizedKeys, ctx.signer, items) {
        return Some(Fatal);
      }
      var ids := FilterActive(authorizedKeys, items);
      assert forall id <- ids :: id in Elements(ids);
      DeleteKeyHelper(ctx.height, ids);
      failure := RevokeInvites(ids, old(authorizedKeys), ctx.height);
      assert failure.None? ==> invites == RevokedInvites(old(invites), old(authorizedKeys), Elements(ids));
    }

    /** The loop over the deleted keys that checks foreign keys and revokes invites. */
    method RevokeInvites(ids: seq<KeyId>, ghost before: Keys, ghost height: nat) returns (failure: Option<Failure>)
      requires (forall id <- ids :: id in before) && authorizedKeys == Deleted(before, height, Elements(ids))
      modifies this`invites
      ensures failure.None? <==> !exists id | id in ids :: BrokenForeign(before[id])
      ensures failure.None? ==> invites == RevokedInvites(old(invites), before, Elements(ids))
      ensures failure.Some? ==> failure.value == Fatal
    {
      hide RevokedInvites, Deleted, Elements, BrokenForeign;
      NoneRevoked(invites, before);
      for i := 0 to |ids|
        invariant forall j | 0 <= j < i :: ids[j] in before && !BrokenForeign(before[ids[j]])
        invariant invites == RevokedInvites(old(invites), before, Elements(ids[..i]))
      {
        ElementsStep(ids, i);
        DeletedAt(before, height, Elements(ids), ids[i]);
        var key := authorizedKeys[ids[i]];
        SameForeign(key, before[ids[i]]);
        if BrokenForeign(key) {
          assert ids[i] in ids && BrokenForeign(before[ids[i]]);
          return Some(Fatal);
        }
        RevokedStep(old(invites), before, Elements(ids[..i]), ids[i]);
        RevokedKeys(old(invites), before, Elements(ids[..i]));
        if InviteName(key.name) && ids[i] in invites {
          RevokedAgain(old(invites), before, Elements(ids[..i]), ids[i]);
          invites := invites[ids[i] := invites[ids[i]].(status := Revoked)];
        }
      }
      assert ids[..|ids|] == ids;
      return None;
    }

    /** The loop of OP_KEY_UPDATE: adds a key that is new, merges into an active one, and fails on a revoked one. */
    method InstallLoop(height: nat, us: seq<Key>) returns (failure: Option<Failure>)
      modifies this`authorizedKeys
      ensures failure.None? ==> InstallAll(old(authorizedKeys), height, us) == Ok(authorizedKeys)
      ensures failure.Some? ==> InstallAll(old(authorizedKeys), height, us) == Err(Fatal) && failure.value == Fatal
    {
      hide Merged;
      for i := 0 to |us|
        invariant InstallAll(old(authorizedKeys), height, us[..i]) == Ok(authorizedKeys)
      {
        assert us[..i + 1][..i] == us[..i];
        var key := us[i];
        ghost var before := authorizedKeys;
        if key.id !in authorizedKeys {
          authorizedKeys := authorizedKeys[key.id := key.(notBefore := height, notAfter := None)];
        } else if authorizedKeys[key.id].Active() {
          authorizedKeys := authorizedKeys[key.id := Merged(authorizedKeys[key.id], key)];
        } else {
          InstallFails(old(authorizedKeys), height, us, i + 1);
          return Some(Fatal);
        }
        if key.foreignKey.ForeignKey? && !key.foreignKey.namesKey {
          assert Install(before, height, key).Err?;
          InstallFails(old(authorizedKeys), height, us, i + 1);
          return Some(Fatal);
        }
      }
      assert us[..|us|] == us;
      return None;
    }

    /** OP_KEY_UPDATE. The only failure that can be stepped over, a missing old key, comes before any change. */
    method OpKeyUpdate(ctx: Context, items: seq<Item<KeyChange>>) returns (failure: Option<Failure>)
      modifies this
      ensures failure.None? ==> ApplyKeyUpdate(old(Value()), ctx, items) == Ok(Value())
      ensures failure.Some? ==> ApplyKeyUpdate(old(Value()), ctx, items) == Err(failure.value)
      ensures failure.Some? && failure.value != Fatal ==> Value() == old(Value())
    {
      hide ReadChanges, Replaced, AddAllowed, InstallAll, AdditionProcessed;
      var read, updated := ReadChangesLoop(authorizedKeys, items);
      if read.Err? {
        return Some(read.error);
      }
      if !AddAllowed(authorizedKeys, ctx.signer, AsPlain(read.value), true) {
        return Some(Fatal);
      }
      var toDelete := ListValues(updated);
      DeleteKeyHelper(ctx.height, toDelete);
      failure := InstallLoop(ctx.height, read.value);
      if failure.None? {
        failure := KeyAdditionProcessor(AsPlain(read.value));
      }
    }

    method OpKeyRequest(ctx: Context, op: Op)
      requires op.KeyRequest?
      modifies this
      ensures Value() == ApplyKeyRequest(old(Value()), ctx, op)
    {
      var id := ctx.signer.id;
      if id in invites && !op.skipAccounting {
        if invites[id].status != Valid {
          return;
        }
        if invites[id].quantity.Some? {
          if invites[id].quantity.value > 0 {
            invites := invites[id := invites[id].(quantity := Some(invites[id].quantity.value - 1))];
            if invites[id].quantity.value <= 0 {
              invites := invites[id := invites[id].(status := Used)];
            }
          } else {
            assert invites[id := invites[id]] == invites;
            return;
          }
        } else {
          assert invites[id := invites[id]] == invites;
        }
        if invites[id].expires.Some? && invites[id].expires.value < op.now {
          return;
        }
      }
      if op.context.NoContextProperty? || (op.context.From? && op.context.contractID != op.originator) {
        return;
      }
      if op.context.From? {
        pendingKeyshares := pendingKeyshares[ctx.hash :=
          PendingShare(id, ctx.height, Some(op.originator), op.skipAccounting)];
      } else {
        pendingKeyshares := pendingKeyshares[ctx.hash := PendingShare(id, ctx.height, None, false)];
      }
    }

    /** One operation of `opFns`, other than OP_ATOMIC. */
    method OpFn(ctx: Context, op: Op) returns (failure: Option<Failure>)
      modifies this
      ensures failure.None? ==> ApplyPrim(old(Value()), ctx, op) == Ok(Value())
      ensures failure.Some? ==> ApplyPrim(old(Value()), ctx, op) == Err(failure.value)
      ensures failure.Some? && failure.value != Fatal ==> Value() == old(Value())
    {
      hide ApplyKeyAdd, ApplyKeyDel, ApplyKeyUpdate, ApplyKeyRequest;
      failure := None;
      match op
      case Contract(_) => failure := Some(Fatal);
      case KeyAdd(items) => failure := OpKeyAdd(ctx, items);
      case KeyDel(items) => failure := OpKeyDel(ctx, items);
      case KeyUpdate(items) => failure := OpKeyUpdate(ctx, items);
      case KeyRequest(_, _, _, _) => OpKeyRequest(ctx, op);
      case KeyRequestSeen(h) => if h.Some? { pendingKeyshares := pendingKeyshares - {h.value}; }
      case Other(_, outcome) => failure := outcome;
      case Atomic(_) => failure := Some(Fatal);
    }

    /** OP_ATOMIC: permissions are checked again before every operation, on the state reached so far. */
    method OpAtomic(ctx: Context, ops: seq<Op>) returns (failure: Option<Failure>)
      modifies this
      ensures failure.None? ==> ApplyAtomic(old(Value()), ctx, ops) == Ok(Value())
      ensures failure.Some? ==> ApplyAtomic(old(Value()), ctx, ops) == Err(Fatal) && failure.value == Fatal
    {
      hide ApplyPrim, MayIssue;
      for i := 0 to |ops|
        invariant ApplyAtomic(old(Value()), ctx, ops[..i]) == Ok(Value())
      {
        assert ops[..i + 1][..i] == ops[..i];
        if ops[i].Atomic? || !MayIssue(authorizedKeys, ctx.signer.id, ops[i]) {
          AtomicFails(old(Value()), ctx, ops, i + 1);
          return Some(Fatal);
        }
        failure := OpFn(ctx, ops[i]);
        if failure == Some(Fatal) {
          AtomicFails(old(Value()), ctx, ops, i + 1);
          return;
        }
      }
      assert ops[..|ops|] == ops;
      return None;
    }

    /**
     Processes one message on a copy, and keeps the copy only if nothing failed: all of an atomic batch, or none of it.
     */
    method ProcessMessage(m: Message)
      modifies this
      ensures Value() == Process(old(Value()), m)
    {
      hide ApplyAtomic, ApplyPrim;
      if !Authentic(authorizedKeys, m) || !MayIssue(authorizedKeys, m.signer, m.op) {
        return;
      }
      var ctx := Context(m.hash, m.height, authorizedKeys[m.signer]);
      var copy := new VmState(Vm(authorizedKeys, invites, pendingKeyshares));
      var failure;
      match m.op {
        case Atomic(ops) => failure := copy.OpAtomic(ctx, ops);
        case _ => failure := copy.OpFn(ctx, m.op);
      }
      if failure.None? {
        authorizedKeys, invites, pendingKeyshares := copy.authorizedKeys, copy.invites, copy.pendingKeyshares;
      }
    }
  }

  /** `Object.values` of the ids that an update replaces. */
  method ListValues(m: map<KeyId, KeyId>) returns (ids: seq<KeyId>)
    ensures Elements(ids) == m.Values
  {
    ids := [];
    var rest := m.Values;
    while rest != {}
      invariant Elements(ids) + rest == m.Values
    {
      var id :| id in rest;
      assert Elements(ids + [id]) == Elements(ids) + {id};
      ids, rest := ids + [id], rest - {id};
    }
  }

  lemma {:induction false} KeysToMapOnlyFatal(items: seq<Item<Key>>, height: nat, existing: Keys)
    ensures KeysToMap(items, height, existing).Err? ==> KeysToMap(items, height, existing) == Err(Fatal)
  {
    if items != [] {
      KeysToMapOnlyFatal(items[..|items| - 1], height, existing);
    }
  }

  /** The readable ids of existing keys that are still active, in order. */
  method FilterActive(keys: Keys, items: seq<Item<KeyId>>) returns (ids: seq<KeyId>)
    ensures Elements(ids) == ActiveIds(keys, items)
  {
    ids := [];
    for i := 0 to |items|
      invariant Elements(ids) == ActiveIds(keys, items[..i])
    {
      ActiveIdsStep(keys, items, i);
      if items[i].Readable() && items[i].value in keys && keys[items[i].value].Active() {
        assert Elements(ids + [items[i].value]) == Elements(ids) + {items[i].value};
        ids := ids + [items[i].value];
      }
    }
    assert items[..|items|] == items;
  }

  lemma ActiveIdsStep(keys: Keys, items: seq<Item<KeyId>>, i: nat)
    requires i < |items|
    ensures ActiveIds(keys, items[..i + 1]) == ActiveIds(keys, items[..i]) +
      if items[i].Readable() && items[i].value in keys && keys[items[i].value].Active() then {items[i].value} else {}
  {
    var before, after := items[..i], items[..i + 1];
    forall id | id in ActiveIds(keys, before) ensures id in ActiveIds(keys, after) {
      var j :| 0 <= j < i && before[j].Readable() && before[j].value == id && id in keys && keys[id].Active();
      assert after[j] == before[j];
    }
    forall id | id in ActiveIds(keys, after)
      ensures id in ActiveIds(keys, before) || (items[i].Readable() && items[i].value == id)
    {
      var j :| 0 <= j <= i && after[j].Readable() && after[j].value == id && id in keys && keys[id].Active();
      if j < i { assert before[j] == after[j]; }
    }
    if items[i].Readable() && items[i].value in keys && keys[items[i].value].Active() {
      assert after[i] == items[i];
    }
  }
}
