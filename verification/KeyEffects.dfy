/** When each key operation succeeds, and what it then does: said on the items sent and the table they meet. */
module KeyEffects {
  import opened Wrappers
  import opened KeyTable
  import opened KeyAuthority

  // ---- OP_CONTRACT and OP_KEY_ADD ---------------------------------------------------------

  /** `#sak` must be the bare service key, and an invite key must say what it invites to. */
  predicate Registrable(k: Key, sealed: bool) {
    && (k.name == "#sak" ==> !sealed && k.permissions == Only({}) && k.purpose == {"sak"} && k.ringLevel == 0)
    && (INVITE_PREFIX <= k.name ==> k.meta.Some?)
  }

  /** The signer may let a key in: a safe ring level not below its own, and no more rights than it has. */
  predicate Grantable(keys: Keys, signer: Key, k: Key) {
    && signer.id in keys && -MAX_SAFE_INTEGER <= k.ringLevel <= MAX_SAFE_INTEGER
    && keys[signer.id].ringLevel <= k.ringLevel
    && (signer.permissions == Star || (k.permissions.Only? && k.permissions.names <= signer.permissions.names))
    && (k.allowedActions == None
        || (signer.allowedActions.Some?
            && (signer.allowedActions.value == Star
                || (k.allowedActions.value.Only?
                    && k.allowedActions.value.names <= signer.allowedActions.value.names))))
  }

  /** What an OP_KEY_ADD needs: every readable key is not active, may be granted, and is sealed if the signer is. */
  predicate Addable(vm: Vm, signer: Key, items: seq<Item<Key>>) {
    && signer.id in vm.keys
    && forall i | 0 <= i < |items| && !items[i].Unreadable? ::
         var k := items[i].value;
         && (k.id in vm.keys ==> vm.keys[k.id].notAfter.Some?)
         && (signer.encryptedWith.Some? ==> items[i].Sealed?)
         && Grantable(vm.keys, signer, k) && Registrable(k, items[i].Sealed?)
  }

  predicate NoneActive(items: seq<Item<Key>>, existing: Keys) {
    forall i | 0 <= i < |items| && !items[i].Unreadable? ::
      items[i].value.id in existing ==> existing[items[i].value.id].notAfter.Some?
  }

  predicate AllRegistrable(items: seq<Item<Key>>) {
    forall i | 0 <= i < |items| && !items[i].Unreadable? :: Registrable(items[i].value, items[i].Sealed?)
  }

  lemma {:induction false} KeysToMapIff(items: seq<Item<Key>>, height: nat, existing: Keys)
    ensures if NoneActive(items, existing) then KeysToMap(items, height, existing).Ok?
            else KeysToMap(items, height, existing) == Err(Fatal)
  {
    if items != [] {
      var n := |items| - 1;
      KeysToMapIff(items[..n], height, existing);
      assert NoneActive(items, existing) ==> NoneActive(items[..n], existing);
      if items[n].Readable() { NoneActiveStep(items, existing); }
    }
  }

  lemma NoneActiveStep(items: seq<Item<Key>>, existing: Keys)
    requires items != [] && items[|items| - 1].Readable()
    ensures var last := items[|items| - 1].value;
      NoneActive(items, existing) <==>
      NoneActive(items[..|items| - 1], existing) && (last.id in existing ==> existing[last.id].notAfter.Some?)
  {
    var before := items[..|items| - 1];
    if NoneActive(items, existing) {
      forall i | 0 <= i < |before| && !before[i].Unreadable? && before[i].value.id in existing
        ensures existing[before[i].value.id].notAfter.Some?
      {
        assert before[i] == items[i];
      }
    }
  }

  lemma {:induction false} AdditionIff(invites: map<KeyId, Invite>, items: seq<Item<Key>>)
    ensures if AllRegistrable(items) then AdditionProcessed(invites, items).Ok?
            else AdditionProcessed(invites, items) == Err(Fatal)
  {
    hide Registrable;
    if items != [] {
      var n := |items| - 1;
      AdditionIff(invites, items[..n]);
      RegistrableStep(items);
      if items[n].Readable() { SakAndInvite(items[n]); }
    }
  }

  lemma RegistrableStep(items: seq<Item<Key>>)
    requires items != []
    ensures var n := |items| - 1;
      AllRegistrable(items) <==>
      AllRegistrable(items[..n]) && (!items[n].Unreadable? ==> Registrable(items[n].value, items[n].Sealed?))
  {
    hide Registrable;
    var n := |items| - 1;
    if AllRegistrable(items) {
      forall i | 0 <= i < n && !items[..n][i].Unreadable?
        ensures Registrable(items[..n][i].value, items[..n][i].Sealed?) {
        assert items[..n][i] == items[i];
      }
    } else {
      var i :| 0 <= i < |items| && !items[i].Unreadable? && !Registrable(items[i].value, items[i].Sealed?);
      if i < n { assert items[..n][i] == items[i]; }
    }
  }

  lemma SakAndInvite(item: Item<Key>)
    requires item.Readable()
    ensures Registrable(item.value, item.Sealed?) <==>
      SakOk(item) && (InviteName(item.value.name) ==> item.value.meta.Some?)
  {
  }

  /** An OP_KEY_ADD succeeds if and only if it has what it needs, and otherwise fails for good. */
  lemma AddSucceedsIff(vm: Vm, ctx: Context, items: seq<Item<Key>>)
    ensures if Addable(vm, ctx.signer, items) then ApplyKeyAdd(vm, ctx, items).Ok?
            else ApplyKeyAdd(vm, ctx, items) == Err(Fatal)
  {
    hide KeysToMap, AdditionProcessed, Registrable;
    KeysToMapIff(items, ctx.height, vm.keys);
    AdditionIff(vm.invites, items);
  }

  /**
   An OP_CONTRACT opens a table unless two of its keys need what they do not have; its keys are all the table holds.
   */
  lemma ContractOpens(items: seq<Item<Key>>, height: nat, k: KeyId)
    ensures if AllRegistrable(items) then Genesis(items, height).Ok? else Genesis(items, height) == Err(Fatal)
    ensures AllRegistrable(items) ==>
      var keys, sent := Genesis(items, height).value.keys, LastWith(items, k);
      && (k in keys <==> sent.Some?)
      && (k in keys ==> EnteredFrom(sent.value, map[], height, keys[k]))
  {
    hide KeysToMap, AdditionProcessed, Registrable, EnteredFrom;
    KeysToMapIff(items, height, map[]);
    AdditionIff(map[], items);
    if AllRegistrable(items) { KeysToMapLast(items, height, map[], k); }
  }

  /** The last of the keys that makes an invite under this id. */
  function LastInvite(items: seq<Item<Key>>, id: KeyId): Option<Key> {
    if items == [] then None
    else
      var item := items[|items| - 1];
      if !item.Unreadable? && item.value.id == id && INVITE_PREFIX <= item.value.name then Some(item.value)
      else LastInvite(items[..|items| - 1], id)
  }

  /** An invite key makes its invite afresh, for the quantity and the time it names; every other invite stays. */
  lemma {:induction false} InviteMade(invites: map<KeyId, Invite>, items: seq<Item<Key>>, id: KeyId)
    requires AdditionProcessed(invites, items).Ok?
    ensures var r, made := AdditionProcessed(invites, items).value, LastInvite(items, id);
      if made.None? then (id in r <==> id in invites) && (id in r ==> r[id] == invites[id])
      else
        && id in r && made.value.meta.Some?
        && r[id] == Invite(Valid, made.value.meta.value.quantity, made.value.meta.value.quantity,
            made.value.meta.value.expires)
  {
    if items != [] { InviteMade(invites, items[..|items| - 1], id); }
  }

  /** So an addition makes the invites of its invite keys, and leaves everything that is pending. */
  lemma AddMakesInvites(vm: Vm, ctx: Context, items: seq<Item<Key>>, id: KeyId)
    requires ApplyKeyAdd(vm, ctx, items).Ok?
    ensures var after, made := ApplyKeyAdd(vm, ctx, items).value, LastInvite(items, id);
      && after.pending == vm.pending
      && (if made.None? then (id in after.invites <==> id in vm.invites)
        && (id in vm.invites ==> after.invites[id] == vm.invites[id])
          else
            && id in after.invites && made.value.meta.Some?
            && var q := made.value.meta.value;
               after.invites[id] == Invite(Valid, q.quantity, q.quantity, q.expires))
  {
    hide KeysToMap, AdditionProcessed, LastInvite, AddAllowed;
    InviteMade(vm.invites, items, id);
  }

  // ---- OP_KEY_DEL -----------------------------------------------------------------------------

  /** What an OP_KEY_DEL needs of every id it can read. */
  predicate Deletable(vm: Vm, signer: Key, items: seq<Item<KeyId>>) {
    && signer.id in vm.keys
    && forall i | 0 <= i < |items| && !items[i].Unreadable? ::
         && items[i].value in vm.keys && signer.encryptedWith.None?
         && var k := vm.keys[items[i].value];
            && k.encryptedWith.Some? == items[i].Sealed?
            && -MAX_SAFE_INTEGER <= k.ringLevel <= MAX_SAFE_INTEGER && vm.keys[signer.id].ringLevel <= k.ringLevel
            && (k.notAfter.None? && k.foreignKey.ForeignKey? ==> k.foreignKey.namesContract && k.foreignKey.namesKey)
  }

  /** An OP_KEY_DEL succeeds if and only if it has what it needs, and then revokes the invites of the keys it closes. */
  lemma DelSucceedsIff(vm: Vm, ctx: Context, items: seq<Item<KeyId>>)
    ensures if Deletable(vm, ctx.signer, items) then ApplyKeyDel(vm, ctx, items).Ok?
            else ApplyKeyDel(vm, ctx, items) == Err(Fatal)
  {
    if DelAllowed(vm.keys, ctx.signer, items) {
      if k :| k in ActiveIds(vm.keys, items) && BrokenForeign(vm.keys[k]) {
        var i :| 0 <= i < |items| && items[i].Readable() && items[i].value in vm.keys
          && vm.keys[items[i].value].Active() && items[i].value == k;
        assert !Deletable(vm, ctx.signer, items);
      } else {
        forall i | 0 <= i < |items| && items[i].Readable() && vm.keys[items[i].value].Active()
          ensures !BrokenForeign(vm.keys[items[i].value])
        {
          assert items[i].value in ActiveIds(vm.keys, items);
        }
      }
    }
  }

  lemma DelRevokes(vm: Vm, ctx: Context, items: seq<Item<KeyId>>, k: KeyId)
    requires ApplyKeyDel(vm, ctx, items).Ok?
    ensures var after := ApplyKeyDel(vm, ctx, items).value;
      && after.pending == vm.pending && (k in after.invites <==> k in vm.invites)
      && (k in vm.invites ==>
            var closed := k in vm.keys && vm.keys[k].notAfter.None? && Names(items, k)
              && INVITE_PREFIX <= vm.keys[k].name;
            after.invites[k] == if closed then vm.invites[k].(status := Revoked) else vm.invites[k])
  {
    if k in ActiveIds(vm.keys, items) {
      var i :| 0 <= i < |items| && items[i].Readable() && items[i].value in vm.keys
        && vm.keys[items[i].value].Active() && items[i].value == k;
    }
  }

  // ---- OP_KEY_UPDATE -------------------------------------------------------------------------

  function Sent<T>(sent: Option<T>, kept: T): T { if sent.Some? then sent.value else kept }

  /** What reading a change needs of the key it names. */
  predicate Changeable(k: Key, sealed: bool, uk: KeyChange) {
    && k.encryptedWith.Some? == sealed && uk.name == k.name && uk.id.Some? == uk.data.Some?
    && (uk.data.Some? && k.meta.Some? && k.meta.value.hasPrivate ==> uk.meta.Some? && uk.meta.value.hasPrivate)
  }

  /** The id that a change ends up at. */
  function Target(keys: Keys, uk: KeyChange): KeyId
    requires uk.oldKeyId in keys
  {
    if uk.id.Some? then uk.id.value else keys[uk.oldKeyId].id
  }

  /** Only change `i` ends up at its id. */
  predicate Alone(keys: Keys, items: seq<Item<KeyChange>>, i: nat)
    requires i < |items| && !items[i].Unreadable? && items[i].value.oldKeyId in keys
  {
    forall j | 0 <= j < |items| && j != i && !items[j].Unreadable? ::
      items[j].value.oldKeyId in keys ==> Target(keys, items[j].value) != Target(keys, items[i].value)
  }

  predicate NoneAt(keys: Keys, items: seq<Item<KeyChange>>, x: KeyId) {
    forall j | 0 <= j < |items| && !items[j].Unreadable? ::
      items[j].value.oldKeyId in keys ==> Target(keys, items[j].value) != x
  }

  /** Every change that can be read names a key of the table, and reads as a key under its target. */
  lemma {:induction false} ReadAt(keys: Keys, items: seq<Item<KeyChange>>, i: nat)
    requires ReadChanges(keys, items).Ok? && i < |items| && items[i].Readable()
    ensures items[i].value.oldKeyId in keys && ReadChange(keys, items[i]).Ok?
    ensures ReadChange(keys, items[i]).value.id == Target(keys, items[i].value)
  {
    if i < |items| - 1 { ReadAt(keys, items[..|items| - 1], i); }
  }

  lemma {:induction false} NotInstalled(keys: Keys, items: seq<Item<KeyChange>>, base: Keys, height: nat, x: KeyId)
    requires ReadChanges(keys, items).Ok? && InstallAll(base, height, ReadChanges(keys, items).value).Ok?
    requires NoneAt(keys, items, x)
    ensures var r := InstallAll(base, height, ReadChanges(keys, items).value).value;
      (x in r <==> x in base) && (x in r ==> r[x] == base[x])
  {
    hide ReadChange;
    if items != [] {
      var n := |items| - 1;
      var before := items[..n];
      forall j | 0 <= j < n && !before[j].Unreadable? && before[j].value.oldKeyId in keys
        ensures Target(keys, before[j].value) != x
      {
        assert before[j] == items[j];
      }
      if items[n].Readable() {
        ReadAt(keys, items, n);
        var us, u := ReadChanges(keys, before).value, ReadChange(keys, items[n]).value;
        assert ReadChanges(keys, items).value == us + [u] && (us + [u])[..|us|] == us;
      }
      NotInstalled(keys, before, base, height, x);
    }
  }

  lemma {:induction false} InstalledAlone(keys: Keys, items: seq<Item<KeyChange>>, base: Keys, height: nat, i: nat)
    requires ReadChanges(keys, items).Ok? && InstallAll(base, height, ReadChanges(keys, items).value).Ok?
    requires i < |items| && items[i].Readable() && items[i].value.oldKeyId in keys && Alone(keys, items, i)
    ensures ReadChange(keys, items[i]).Ok?
    ensures var u, r :=
      ReadChange(keys, items[i]).value, InstallAll(base, height, ReadChanges(keys, items).value).value;
      Install(base, height, u).Ok? && u.id in r && r[u.id] == Install(base, height, u).value[u.id]
  {
    hide ReadChange;
    ReadAt(keys, items, i);
    var n, x := |items| - 1, Target(keys, items[i].value);
    var before := items[..n];
    if items[n].Readable() {
      ReadAt(keys, items, n);
      var us, u := ReadChanges(keys, before).value, ReadChange(keys, items[n]).value;
      assert ReadChanges(keys, items).value == us + [u] && (us + [u])[..|us|] == us;
    }
    if i == n {
      forall j | 0 <= j < n && !before[j].Unreadable? && before[j].value.oldKeyId in keys
        ensures Target(keys, before[j].value) != x
      {
        assert before[j] == items[j];
      }
      NotInstalled(keys, before, base, height, x);
    } else {
      assert before[i] == items[i] && Alone(keys, before, i) by { AlonePrefix(keys, items, i); }
      InstalledAlone(keys, before, base, height, i);
    }
  }

  lemma AlonePrefix(keys: Keys, items: seq<Item<KeyChange>>, i: nat)
    requires i < |items| - 1 && !items[i].Unreadable? && items[i].value.oldKeyId in keys && Alone(keys, items, i)
    ensures items[..|items| - 1][i] == items[i] && Alone(keys, items[..|items| - 1], i)
  {
    var before := items[..|items| - 1];
    forall j | 0 <= j < |before| && j != i && !before[j].Unreadable? && before[j].value.oldKeyId in keys
      ensures Target(keys, before[j].value) != Target(keys, items[i].value)
    {
      assert before[j] == items[j];
    }
  }

  /**
   A change to an id the table does not know rotates the key: under the new id stands a key with the data sent, what
   else was sent, and the rest from the key it replaces, open from the message's height; and the key it replaces is
   closed there.
   */
  lemma UpdateRotates(vm: Vm, ctx: Context, items: seq<Item<KeyChange>>, i: nat)
    requires ApplyKeyUpdate(vm, ctx, items).Ok? && i < |items| && items[i].Readable() && items[i].value.id.Some?
    requires items[i].value.oldKeyId in vm.keys ==>
      items[i].value.id.value !in vm.keys && Alone(vm.keys, items, i)
    ensures var uk, after := items[i].value, ApplyKeyUpdate(vm, ctx, items).value.keys;
      && uk.oldKeyId in vm.keys && uk.id.value in after && uk.data.Some?
      && var k, k' := vm.keys[uk.oldKeyId], after[uk.id.value];
         && k'.id == uk.id.value && k'.data == uk.data.value
         && k'.name == k.name && k'.ringLevel == k.ringLevel && k'.foreignKey == k.foreignKey
         && k'.encryptedWith == k.encryptedWith
         && k'.purpose == Sent(uk.purpose, k.purpose) && k'.permissions == Sent(uk.permissions, k.permissions)
         && k'.allowedActions == (if uk.allowedActions.Some? then uk.allowedActions else k.allowedActions)
         && k'.meta == (if uk.meta.Some? then uk.meta else k.meta)
         && k'.notBefore == ctx.height && k'.notAfter == None
    ensures var uk, after := items[i].value, ApplyKeyUpdate(vm, ctx, items).value.keys;
      uk.oldKeyId in after && after[uk.oldKeyId].notAfter == Some(ctx.height)
  {
    hide AdditionProcessed, AddAllowed, InstallAll, ReadChanges, Replaced;
    ReadAt(vm.keys, items, i);
    var base := Deleted(vm.keys, ctx.height, Replaced(items).Values);
    InstalledAlone(vm.keys, items, base, ctx.height, i);
    ReplacedAt(vm.keys, items, i);
    UpdateEffect(vm, ctx, items, items[i].value.oldKeyId);
  }

  lemma {:induction false} ReplacedAt(keys: Keys, items: seq<Item<KeyChange>>, i: nat)
    requires ReadChanges(keys, items).Ok?
    requires i < |items| && items[i].Readable() && items[i].value.oldKeyId in keys && Alone(keys, items, i)
    requires items[i].value.id.Some? && items[i].value.id.value != items[i].value.oldKeyId
    ensures var m := Replaced(items);
      items[i].value.id.value in m && m[items[i].value.id.value] == items[i].value.oldKeyId
      && items[i].value.oldKeyId in m.Values
    decreases |items|
  {
    hide ReadChange;
    var n := |items| - 1;
    if i < n {
      AlonePrefix(keys, items, i);
      if items[n].Readable() { ReadAt(keys, items, n); }
      ReplacedAt(keys, items[..n], i);
    }
    assert items[i].value.id.value in Replaced(items);
  }

  /** A change that keeps the id of an active key adds what was sent to it, and replaces nothing but its metadata. */
  lemma UpdateExtends(vm: Vm, ctx: Context, items: seq<Item<KeyChange>>, i: nat)
    requires ApplyKeyUpdate(vm, ctx, items).Ok? && i < |items| && items[i].Readable()
    requires items[i].value.oldKeyId in vm.keys ==>
      && vm.keys[items[i].value.oldKeyId].id == items[i].value.oldKeyId == Target(vm.keys, items[i].value)
      && items[i].value.oldKeyId !in Replaced(items).Values && Alone(vm.keys, items, i)
    ensures var uk, after := items[i].value, ApplyKeyUpdate(vm, ctx, items).value.keys;
      && uk.oldKeyId in vm.keys && uk.oldKeyId in after
      && var k := vm.keys[uk.oldKeyId];
         && k.notAfter == None
         && after[uk.oldKeyId] == k.(
              purpose := k.purpose + Sent(uk.purpose, {}),
              permissions := k.permissions.Join(Sent(uk.permissions, Only({}))),
              allowedActions := if uk.allowedActions.None? then k.allowedActions
                                else if k.allowedActions.None? then uk.allowedActions
                                else Some(k.allowedActions.value.Join(uk.allowedActions.value)),
              meta := if uk.meta.Some? then uk.meta else k.meta)
  {
    hide AdditionProcessed, AddAllowed, InstallAll, ReadChanges, Replaced;
    ReadAt(vm.keys, items, i);
    var base := Deleted(vm.keys, ctx.height, Replaced(items).Values);
    InstalledAlone(vm.keys, items, base, ctx.height, i);
    var k := vm.keys[items[i].value.oldKeyId];
    JoinItself(k.permissions);
    if k.allowedActions.Some? { JoinItself(k.allowedActions.value); }
    assert k.purpose + k.purpose == k.purpose && k.purpose + {} == k.purpose;
  }

  lemma JoinItself(g: Grant)
    ensures g.Join(g) == g && g.Join(Only({})) == g
  {
    if g.Only? { assert g.names + g.names == g.names && g.names + {} == g.names; }
  }

  lemma {:induction false} ReadIsMember(keys: Keys, items: seq<Item<KeyChange>>, i: nat)
    requires ReadChanges(keys, items).Ok? && i < |items| && items[i].Readable()
    ensures ReadChange(keys, items[i]).Ok? && ReadChange(keys, items[i]).value in ReadChanges(keys, items).value
  {
    hide ReadChange;
    if i < |items| - 1 { ReadIsMember(keys, items[..|items| - 1], i); }
  }

  lemma {:induction false} MemberIsRead(keys: Keys, items: seq<Item<KeyChange>>, u: Key) returns (i: nat)
    requires ReadChanges(keys, items).Ok? && u in ReadChanges(keys, items).value
    ensures i < |items| && items[i].Readable() && ReadChange(keys, items[i]) == Ok(u)
  {
    hide ReadChange;
    var n := |items| - 1;
    if u in ReadChanges(keys, items[..n]).value {
      i := MemberIsRead(keys, items[..n], u);
      assert items[..n][i] == items[i];
    } else {
      i := n;
    }
  }

  /** Every change that can be read names a key of the table that it may change. */
  predicate Reads(keys: Keys, item: Item<KeyChange>)
    requires !item.Unreadable?
  {
    item.value.oldKeyId in keys && Changeable(keys[item.value.oldKeyId], item.Sealed?, item.value)
  }

  lemma ReadsOne(keys: Keys, item: Item<KeyChange>)
    requires item.Readable()
    ensures if Reads(keys, item) then ReadChange(keys, item).Ok?
            else ReadChange(keys, item) == Err(if item.value.oldKeyId in keys then Fatal else Warning)
  {
  }

  /** The first change that cannot be made decides how an update fails. */
  predicate FailsAt(keys: Keys, items: seq<Item<KeyChange>>, i: nat) {
    && i < |items| && !items[i].Unreadable? && !Reads(keys, items[i])
    && forall j | 0 <= j < i && !items[j].Unreadable? :: Reads(keys, items[j])
  }

  predicate AllRead(keys: Keys, items: seq<Item<KeyChange>>) {
    forall i | 0 <= i < |items| && !items[i].Unreadable? :: Reads(keys, items[i])
  }

  lemma AllReadStep(keys: Keys, items: seq<Item<KeyChange>>)
    requires items != []
    ensures var n := |items| - 1;
      AllRead(keys, items) <==> AllRead(keys, items[..n]) && (!items[n].Unreadable? ==> Reads(keys, items[n]))
  {
    hide Reads;
    var n := |items| - 1;
    if AllRead(keys, items) {
      forall i | 0 <= i < n && !items[..n][i].Unreadable?
        ensures Reads(keys, items[..n][i]) { assert items[..n][i] == items[i]; }
    } else if AllRead(keys, items[..n]) {
      forall i | 0 <= i < n && !items[i].Unreadable? ensures Reads(keys, items[i]) { assert items[..n][i] == items[i]; }
    }
  }

  lemma AllReadFails(keys: Keys, items: seq<Item<KeyChange>>)
    requires items != [] && AllRead(keys, items[..|items| - 1]) && !AllRead(keys, items)
    ensures FailsAt(keys, items, |items| - 1)
  {
    hide Reads;
    AllReadStep(keys, items);
    var n := |items| - 1;
    forall j | 0 <= j < n && !items[j].Unreadable? ensures Reads(keys, items[j]) { assert items[..n][j] == items[j]; }
  }

  lemma FailsLater(keys: Keys, items: seq<Item<KeyChange>>, n: nat, i: nat)
    requires n <= |items| && FailsAt(keys, items[..n], i)
    ensures FailsAt(keys, items, i) && items[..n][i] == items[i]
  {
    hide Reads;
    forall j | 0 <= j < i && !items[j].Unreadable? ensures Reads(keys, items[j]) { assert items[..n][j] == items[j]; }
  }

  lemma FailsOnce(keys: Keys, items: seq<Item<KeyChange>>, i: nat, j: nat)
    requires FailsAt(keys, items, i) && FailsAt(keys, items, j)
    ensures i == j
  {
    hide Reads;
  }

  lemma {:induction false} ReadChangesIff(keys: Keys, items: seq<Item<KeyChange>>) returns (i: nat)
    ensures if AllRead(keys, items) then ReadChanges(keys, items).Ok?
            else
              && FailsAt(keys, items, i)
              && ReadChanges(keys, items) == Err(if items[i].value.oldKeyId in keys then Fatal else Warning)
  {
    hide ReadChange, Reads, FailsAt, AllRead;
    i := 0;
    if items == [] {
      assert AllRead(keys, items) by { NothingToRead(keys); }
    } else {
      var n := |items| - 1;
      i := ReadChangesIff(keys, items[..n]);
      AllReadStep(keys, items);
      if !AllRead(keys, items[..n]) {
        FailsLater(keys, items, n, i);
        FailsWithin(keys, items[..n], i);
      } else if items[n].Readable() {
        ReadsOne(keys, items[n]);
        if !AllRead(keys, items) { AllReadFails(keys, items); i := n; }
      }
    }
  }

  lemma NothingToRead(keys: Keys)
    ensures AllRead(keys, [])
  {
  }

  lemma FailsWithin(keys: Keys, items: seq<Item<KeyChange>>, i: nat)
    requires FailsAt(keys, items, i)
    ensures i < |items| && !items[i].Unreadable?
  {
  }

  /** A key can be installed unless the table holds it closed, or its foreign key names none. */
  predicate Installable(base: Keys, u: Key) {
    && (u.id in base ==> base[u.id].notAfter.None?)
    && (u.foreignKey.ForeignKey? ==> u.foreignKey.namesKey)
  }

  lemma {:induction false} InstallAllIff(base: Keys, height: nat, us: seq<Key>)
    ensures if forall u <- us :: Installable(base, u) then InstallAll(base, height, us).Ok?
            else InstallAll(base, height, us) == Err(Fatal)
  {
    if us != [] {
      var before, u := us[..|us| - 1], us[|us| - 1];
      InstallAllIff(base, height, before);
      assert us == before + [u] && u in us && forall v <- before :: v in us;
      if forall v <- before :: Installable(base, v) {
        InstallAllFacts(base, height, before);
        OneInstalls(base, InstallAll(base, height, before).value, height, before, u);
      }
    }
  }

  lemma OneInstalls(base: Keys, mid: Keys, height: nat, us: seq<Key>, u: Key)
    requires Installed(base, mid, height, us)
    ensures if Installable(base, u) then Install(mid, height, u).Ok? else Install(mid, height, u) == Err(Fatal)
  {
  }

  /** What an OP_KEY_UPDATE needs: it can make every change, may grant what comes out, and can install it. */
  predicate Updatable(vm: Vm, ctx: Context, items: seq<Item<KeyChange>>) {
    var base := Deleted(vm.keys, ctx.height, Replaced(items).Values);
    && ctx.signer.id in vm.keys
    && forall i | 0 <= i < |items| && !items[i].Unreadable? ::
         && Reads(vm.keys, items[i])
         && var u := ReadChange(vm.keys, items[i]);
            u.Ok? && Grantable(vm.keys, ctx.signer, u.value) && Installable(base, u.value)
              && Registrable(u.value, false)
  }

  lemma GrantableIff(keys: Keys, signer: Key, k: Key)
    ensures Grantable(keys, signer, k) <==> signer.id in keys && MayGrant(signer, keys[signer.id].ringLevel, k)
  {
  }

  lemma AllowedIff(keys: Keys, signer: Key, us: seq<Key>)
    ensures AddAllowed(keys, signer, AsPlain(us), true) <==>
      signer.id in keys && forall u <- us :: Grantable(keys, signer, u)
  {
    hide MayGrant, Grantable;
    forall u ensures Grantable(keys, signer, u) <==>
      signer.id in keys && MayGrant(signer, keys[signer.id].ringLevel, u) {
      GrantableIff(keys, signer, u);
    }
    if AddAllowed(keys, signer, AsPlain(us), true) {
      forall u | u in us ensures Grantable(keys, signer, u) {
        var i :| 0 <= i < |us| && us[i] == u;
        assert AsPlain(us)[i] == Plain(u);
      }
    }
  }

  lemma RegistrableIff(us: seq<Key>)
    ensures AllRegistrable(AsPlain(us)) <==> forall u <- us :: Registrable(u, false)
  {
    hide Registrable;
    if AllRegistrable(AsPlain(us)) {
      forall u | u in us ensures Registrable(u, false) {
        var i :| 0 <= i < |us| && us[i] == u;
        assert AsPlain(us)[i] == Plain(u);
      }
    }
  }

  /**
   An OP_KEY_UPDATE succeeds if and only if it has what it needs. It fails with a mere warning if and only if the first
   change that cannot be made names a key the table does not have.
   */
  lemma UpdateSucceedsIff(vm: Vm, ctx: Context, items: seq<Item<KeyChange>>)
    ensures ApplyKeyUpdate(vm, ctx, items).Ok? <==> Updatable(vm, ctx, items)
    ensures ApplyKeyUpdate(vm, ctx, items).Err? ==>
      (ApplyKeyUpdate(vm, ctx, items).error == Warning <==>
       exists i: nat :: FailsAt(vm.keys, items, i) && items[i].value.oldKeyId !in vm.keys)
      && ApplyKeyUpdate(vm, ctx, items).error in {Warning, Fatal}
  {
    hide ReadChange, ReadChanges, InstallAll, AdditionProcessed, AddAllowed, Updatable, FailsAt, Deleted, Replaced;
    hide Registrable, Grantable, Installable, AllRegistrable, AllRead;
    var i := ReadChangesIff(vm.keys, items);
    if AllRead(vm.keys, items) {
      var us := ReadChanges(vm.keys, items).value;
      AllowedIff(vm.keys, ctx.signer, us);
      RegistrableIff(us);
      InstallAllIff(Deleted(vm.keys, ctx.height, Replaced(items).Values), ctx.height, us);
      AdditionIff(vm.invites, AsPlain(us));
      MembersMeet(vm, ctx, items, us);
      NoneFails(vm.keys, items);
    } else {
      NotUpdatable(vm, ctx, items);
      forall j: nat | FailsAt(vm.keys, items, j) ensures j == i { FailsOnce(vm.keys, items, i, j); }
    }
  }

  lemma NoneFails(keys: Keys, items: seq<Item<KeyChange>>)
    requires AllRead(keys, items)
    ensures forall i: nat :: !FailsAt(keys, items, i)
  {
  }

  lemma NotUpdatable(vm: Vm, ctx: Context, items: seq<Item<KeyChange>>)
    requires !AllRead(vm.keys, items)
    ensures !Updatable(vm, ctx, items)
  {
    hide Reads, ReadChange, Grantable, Installable, Registrable;
  }

  lemma MembersMeet(vm: Vm, ctx: Context, items: seq<Item<KeyChange>>, us: seq<Key>)
    requires ReadChanges(vm.keys, items) == Ok(us)
    requires AllRead(vm.keys, items)
    ensures var base := Deleted(vm.keys, ctx.height, Replaced(items).Values);
      Updatable(vm, ctx, items) <==>
      ctx.signer.id in vm.keys && (forall u <- us :: Grantable(vm.keys, ctx.signer, u))
      && (forall u <- us :: Installable(base, u)) && (forall u <- us :: Registrable(u, false))
  {
    hide ReadChange, ReadChanges, Reads, Registrable, Grantable, Installable, Deleted, Replaced;
    var base := Deleted(vm.keys, ctx.height, Replaced(items).Values);
    if Updatable(vm, ctx, items) {
      forall u | u in us
        ensures Grantable(vm.keys, ctx.signer, u) && Installable(base, u) && Registrable(u, false)
      {
        var i := MemberIsRead(vm.keys, items, u);
      }
    } else if ctx.signer.id in vm.keys {
      var i :| 0 <= i < |items| && !items[i].Unreadable?
        && !(ReadChange(vm.keys, items[i]).Ok?
             && var u := ReadChange(vm.keys, items[i]).value;
                Grantable(vm.keys, ctx.signer, u) && Installable(base, u) && Registrable(u, false));
      ReadsOne(vm.keys, items[i]);
      ReadIsMember(vm.keys, items, i);
    }
  }

  // ---- OP_KEY_REQUEST and OP_KEY_REQUEST_SEEN ------------------------------------------------------

  /** The invite that pays for a request, if the request is accounted for at all. */
  predicate Paid(vm: Vm, id: KeyId, op: Op)
    requires op.KeyRequest?
  {
    id in vm.invites && !op.skipAccounting
  }

  /** There is something left of the invite. */
  predicate Left(invite: Invite) { invite.status == Valid && (invite.quantity == None || invite.quantity.value > 0) }

  /**
   Exactly when a request leaves a share to answer, and which: it is free or its invite has something left and has not
   expired, and it comes from the contract it names, or could not be decrypted. Whatever becomes of it, it uses up one
   of a limited invite that has something left, and nothing else changes.
   */
  lemma RequestEffect(vm: Vm, ctx: Context, op: Op)
    requires op.KeyRequest?
    ensures var after, id := ApplyKeyRequest(vm, ctx, op), ctx.signer.id;
      var answers :=
        && (Paid(vm, id, op) ==>
              && Left(vm.invites[id])
              && (vm.invites[id].expires == None || op.now <= vm.invites[id].expires.value))
        && (op.context.Undecrypted? || (op.context.From? && op.context.contractID == op.originator));
      && after.keys == vm.keys
      && after.pending == (if !answers then vm.pending
                           else vm.pending[ctx.hash := if op.context.From?
                                                       then PendingShare(id, ctx.height, Some(op.originator),
                                                           op.skipAccounting)
                                                       else PendingShare(id, ctx.height, None, false)])
    ensures var after, id := ApplyKeyRequest(vm, ctx, op), ctx.signer.id;
      && after.invites.Keys == vm.invites.Keys
      && forall k <- vm.invites ::
           after.invites[k] ==
           if k == id && Paid(vm, id, op) && Left(vm.invites[k]) && vm.invites[k].quantity.Some?
           then vm.invites[k].(quantity := Some(vm.invites[k].quantity.value - 1),
                               status := if vm.invites[k].quantity.value == 1 then Used else Valid)
           else vm.invites[k]
  {
  }

  /** An answered request is no longer pending; the rest is as it was. */
  lemma SeenEffect(vm: Vm, ctx: Context, hash: string, h: string)
    ensures var after := ApplyPrim(vm, ctx, KeyRequestSeen(Some(hash)));
      && after.Ok? && after.value.keys == vm.keys && after.value.invites == vm.invites
      && hash !in after.value.pending
      && (h != hash ==> (h in after.value.pending <==> h in vm.pending))
      && (h != hash && h in vm.pending ==> after.value.pending[h] == vm.pending[h])
  {
  }

  // ---- batches and messages ---------------------------------------------------------------------

  /** The key may issue the operation: it is in the table, for signing, with the permission or with all. */
  predicate Permitted(keys: Keys, signer: KeyId, code: string) {
    && signer in keys && "sig" in keys[signer].purpose
    && (keys[signer].permissions == Star || (keys[signer].permissions.Only? && code in keys[signer].permissions.names))
  }

  /** One operation of a batch takes the table from `vm` to `next`: it succeeds, or it is ignored. */
  predicate BatchStep(vm: Vm, ctx: Context, op: Op, next: Vm) {
    && !op.Atomic? && !op.Contract? && Permitted(vm.keys, ctx.signer.id, op.Code())
    && match ApplyPrim(vm, ctx, op)
       case Ok(r) => next == r
       case Err(e) => (e == Warning || e == MissingDecryptionKey) && next == vm
  }

  ghost predicate Batch(ctx: Context, ops: seq<Op>, vms: seq<Vm>) {
    && |vms| == |ops| + 1
    && forall i | 0 <= i < |ops| :: BatchStep(vms[i], ctx, ops[i], vms[i + 1])
  }

  /** A batch succeeds exactly when its operations can be taken one after the other, and is then where they lead. */
  lemma {:induction false} AtomicIff(vm: Vm, ctx: Context, ops: seq<Op>, r: Vm)
    ensures ApplyAtomic(vm, ctx, ops) == Ok(r) <==>
      exists vms :: Batch(ctx, ops, vms) && vms[0] == vm && vms[|ops|] == r
  {
    hide ApplyPrim, BatchStep;
    if ops == [] {
      assert r == vm ==> Batch(ctx, ops, [vm]) && [vm][0] == vm;
    } else {
      var n := |ops| - 1;
      AtomicStep(vm, ctx, ops, r);
      if ApplyAtomic(vm, ctx, ops) == Ok(r) {
        var mid := ApplyAtomic(vm, ctx, ops[..n]).value;
        AtomicIff(vm, ctx, ops[..n], mid);
        var vms :| Batch(ctx, ops[..n], vms) && vms[0] == vm && vms[n] == mid;
        BatchGrows(ctx, ops, vms, r);
      }
      if vms :| Batch(ctx, ops, vms) && vms[0] == vm && vms[|ops|] == r {
        BatchShrinks(ctx, ops, vms);
        AtomicIff(vm, ctx, ops[..n], vms[n]);
        assert BatchStep(vms[n], ctx, ops[n], r);
      }
    }
  }

  lemma AtomicStep(vm: Vm, ctx: Context, ops: seq<Op>, r: Vm)
    requires ops != []
    ensures var n := |ops| - 1;
      ApplyAtomic(vm, ctx, ops) == Ok(r) <==>
      ApplyAtomic(vm, ctx, ops[..n]).Ok? && BatchStep(ApplyAtomic(vm, ctx, ops[..n]).value, ctx, ops[n], r)
  {
    hide ApplyKeyAdd, ApplyKeyDel, ApplyKeyUpdate, ApplyKeyRequest;
  }

  lemma BatchGrows(ctx: Context, ops: seq<Op>, vms: seq<Vm>, r: Vm)
    requires ops != [] && Batch(ctx, ops[..|ops| - 1], vms) && BatchStep(vms[|ops| - 1], ctx, ops[|ops| - 1], r)
    ensures Batch(ctx, ops, vms + [r]) && (vms + [r])[0] == vms[0] && (vms + [r])[|ops|] == r
  {
    hide BatchStep;
    var vms', n := vms + [r], |ops| - 1;
    forall i | 0 <= i < |ops| ensures BatchStep(vms'[i], ctx, ops[i], vms'[i + 1]) {
      if i < n { assert BatchStep(vms[i], ctx, ops[..n][i], vms[i + 1]); }
    }
  }

  lemma BatchShrinks(ctx: Context, ops: seq<Op>, vms: seq<Vm>)
    requires ops != [] && Batch(ctx, ops, vms)
    ensures Batch(ctx, ops[..|ops| - 1], vms[..|ops|]) && vms[..|ops|][0] == vms[0]
    ensures vms[..|ops|][|ops| - 1] == vms[|ops| - 1]
    ensures BatchStep(vms[|ops| - 1], ctx, ops[|ops| - 1], vms[|ops|])
  {
    hide BatchStep;
    var n := |ops| - 1;
    forall i | 0 <= i < n ensures BatchStep(vms[..|ops|][i], ctx, ops[..n][i], vms[..|ops|][i + 1]) {
      assert BatchStep(vms[i], ctx, ops[i], vms[i + 1]);
    }
  }

  /**
   A message acts exactly when its signer may sign at its height and may issue its operation, and the operation
   succeeds; any other leaves the table as it was.
   */
  lemma MessageActs(vm: Vm, m: Message)
    ensures var may :=
        && Permitted(vm.keys, m.signer, m.op.Code())
        && vm.keys[m.signer].notBefore <= m.height
        && (vm.keys[m.signer].notAfter == None || m.height <= vm.keys[m.signer].notAfter.value);
      if !may then Process(vm, m) == vm
      else
        var ctx := Context(m.hash, m.height, vm.keys[m.signer]);
        var outcome := if m.op.Atomic? then ApplyAtomic(vm, ctx, m.op.ops) else ApplyPrim(vm, ctx, m.op);
        Process(vm, m) == if outcome.Ok? then outcome.value else vm
  {
    hide ApplyPrim, ApplyAtomic;
  }
}
