/** What every run of key operations keeps: verifiable history, ring levels, and the ceiling on permissions. */
module KeyAuthority {
  import opened Wrappers
  import opened KeyTable

  // ---- runs -----------------------------------------------------------------

  /** A run: messages with strictly increasing heights, from the table OP_CONTRACT made at height 0. */
  ghost predicate Run(vms: seq<Vm>, ms: seq<Message>) {
    && |vms| == |ms| + 1
    && (exists items :: Genesis(items, 0) == Ok(vms[0]))
    && (forall i | 0 <= i < |ms| :: vms[i + 1] == Process(vms[i], ms[i]) && ms[i].height > HeightAt(ms, i))
  }

  lemma RunStep(vms: seq<Vm>, ms: seq<Message>, i: nat)
    requires Run(vms, ms) && i < |ms|
    ensures i + 1 < |vms| && vms[i + 1] == Process(vms[i], ms[i]) && ms[i].height > HeightAt(ms, i)
    ensures ms[i].height == HeightAt(ms, i + 1)
  {
    hide Process, Genesis;
  }

  lemma RunLengths(vms: seq<Vm>, ms: seq<Message>)
    requires Run(vms, ms)
    ensures |vms| == |ms| + 1
  {
    hide Process, Genesis;
  }

  /** The height of the last message processed before message `i`. */
  function HeightAt(ms: seq<Message>, i: nat): nat
    requires i <= |ms|
  {
    if i == 0 then 0 else ms[i - 1].height
  }

  // ---- the effect of each helper ----------------------------------------------

  lemma {:induction false} KeysToMapFacts(items: seq<Item<Key>>, height: nat, existing: Keys)
    requires KeysToMap(items, height, existing).Ok?
    ensures forall id <- KeysToMap(items, height, existing).value ::
      ((id in existing ==> !existing[id].Active())
       && exists i :: 0 <= i < |items| && items[i].Readable() && items[i].value.id == id
                      && KeysToMap(items, height, existing).value[id] == Entered(items[i], height, existing))
  {
    if items != [] {
      var n := |items| - 1;
      KeysToMapFacts(items[..n], height, existing);
      var m := KeysToMap(items[..n], height, existing).value;
      forall id | id in KeysToMap(items, height, existing).value
        ensures id in existing ==> !existing[id].Active()
        ensures exists i :: 0 <= i < |items| && items[i].Readable() && items[i].value.id == id
                     && KeysToMap(items, height, existing).value[id] == Entered(items[i], height, existing)
      {
        if items[n].Readable() && items[n].value.id == id {
        } else {
          var i :| 0 <= i < n && items[..n][i].Readable() && items[..n][i].value.id == id
            && m[id] == Entered(items[..n][i], height, existing);
          assert items[i] == items[..n][i];
        }
      }
    }
  }

  /** Changes are read off existing keys: name, ring level and encryption stay those of the key they replace. */
  lemma {:induction false} ReadChangesFacts(keys: Keys, items: seq<Item<KeyChange>>)
    requires ReadChanges(keys, items).Ok?
    ensures forall id <- Replaced(items).Values ::
      (id in keys && exists u <- ReadChanges(keys, items).value :: u.ringLevel == keys[id].ringLevel)
  {
    if items != [] {
      var n := |items| - 1;
      ReadChangesFacts(keys, items[..n]);
      var us, us0 := ReadChanges(keys, items).value, ReadChanges(keys, items[..n]).value;
      forall id | id in Replaced(items).Values
        ensures id in keys && exists u <- us :: u.ringLevel == keys[id].ringLevel
      {
        if id in Replaced(items[..n]).Values {
          var u :| u in us0 && u.ringLevel == keys[id].ringLevel;
          assert u in us;
        } else {
          var u := ReadChange(keys, items[n]).value;
          assert us == us0 + [u] && u in us;
        }
      }
    }
  }

  /** What installing keys keeps of a key of the table. */
  predicate Extends(k: Key, k': Key) {
    && k'.id == k.id && k'.notBefore == k.notBefore && k'.notAfter == k.notAfter
    && k'.name == k.name && k'.data == k.data && k'.ringLevel == k.ringLevel && k.purpose <= k'.purpose
  }

  /**
   A key that installing adds: under its own id, open from `height`, at the ring level of one of the keys installed.
   */
  predicate Fresh(id: KeyId, k: Key, height: nat, us: seq<Key>) {
    k.id == id && k.notBefore == height && k.notAfter.None? && exists u <- us :: u.ringLevel == k.ringLevel
  }

  predicate Installed(keys: Keys, r: Keys, height: nat, us: seq<Key>) {
    && keys.Keys <= r.Keys
    && (forall k <- keys :: Extends(keys[k], r[k]))
    && (forall k <- r :: k !in keys ==> Fresh(k, r[k], height, us))
  }

  lemma FreshLater(id: KeyId, k: Key, k': Key, height: nat, us: seq<Key>, u: Key)
    requires Fresh(id, k, height, us) && Extends(k, k')
    ensures Fresh(id, k', height, us + [u])
  {
    var v :| v in us && v.ringLevel == k.ringLevel;
    assert v in us + [u];
  }

  lemma {:induction false} InstallAllFacts(keys: Keys, height: nat, us: seq<Key>)
    requires InstallAll(keys, height, us).Ok?
    ensures Installed(keys, InstallAll(keys, height, us).value, height, us)
  {
    if us != [] {
      var before, u := us[..|us| - 1], us[|us| - 1];
      InstallAllFacts(keys, height, before);
      assert us == before + [u];
      var mid, r := InstallAll(keys, height, before).value, InstallAll(keys, height, us).value;
      InstallStep(mid, r, height, u);
      forall k | k in r && k !in keys ensures Fresh(k, r[k], height, us) {
        if k in mid { FreshLater(k, mid[k], r[k], height, before, u); } else { assert u in us; }
      }
    }
  }

  lemma InstallStep(keys: Keys, r: Keys, height: nat, u: Key)
    requires Install(keys, height, u) == Ok(r)
    ensures Installed(keys, r, height, [u])
  {
    forall k | k in r && k !in keys ensures Fresh(k, r[k], height, [u]) {
      assert k == u.id && u in [u];
    }
  }

  // ---- what the operations do to the table ---------------------------------------

  /** The key that an addition brings under an id: the last readable one, if any. */
  function LastWith(items: seq<Item<Key>>, k: KeyId): Option<Key> {
    if items == [] then None
    else if items[|items| - 1].Readable() && items[|items| - 1].value.id == k then Some(items[|items| - 1].value)
    else LastWith(items[..|items| - 1], k)
  }

  /** A key as it stands in the table after it was added: open from the height, or from its earlier start. */
  predicate EnteredFrom(sent: Key, existing: Keys, height: nat, k: Key) {
    && k.id == sent.id && k.name == sent.name && k.purpose == sent.purpose && k.permissions == sent.permissions
    && k.allowedActions == sent.allowedActions && k.ringLevel == sent.ringLevel && k.data == sent.data
      && k.meta == sent.meta
    && k.Active() && k.notBefore <= height
    && (if sent.id in existing
        then k.notBefore <= existing[sent.id].notBefore && k.notBefore in {height, existing[sent.id].notBefore}
        else k.notBefore == height)
  }

  lemma {:induction false} KeysToMapLast(items: seq<Item<Key>>, height: nat, existing: Keys, k: KeyId)
    requires KeysToMap(items, height, existing).Ok?
    ensures k in KeysToMap(items, height, existing).value <==> LastWith(items, k).Some?
    ensures LastWith(items, k).Some? ==>
      && LastWith(items, k).value.id == k && (k in existing ==> !existing[k].Active())
      && EnteredFrom(LastWith(items, k).value, existing, height, KeysToMap(items, height, existing).value[k])
  {
    if items != [] {
      KeysToMapLast(items[..|items| - 1], height, existing, k);
    }
  }

  /** An addition opens exactly the keys it brings, none of which was open, and leaves every other key. */
  lemma AddEffect(vm: Vm, ctx: Context, items: seq<Item<Key>>, k: KeyId)
    requires ApplyKeyAdd(vm, ctx, items).Ok?
    ensures var after := ApplyKeyAdd(vm, ctx, items).value.keys;
      if LastWith(items, k).Some?
      then k in after && EnteredFrom(LastWith(items, k).value, vm.keys, ctx.height, after[k])
        && (k in vm.keys ==> !vm.keys[k].Active())
      else (k in after <==> k in vm.keys) && (k in after ==> after[k] == vm.keys[k])
  {
    hide AdditionProcessed, KeysToMap;
    KeysToMapLast(items, ctx.height, vm.keys, k);
  }

  predicate Names(items: seq<Item<KeyId>>, k: KeyId) {
    exists i | 0 <= i < |items| :: items[i].Readable() && items[i].value == k
  }

  /** A deletion closes, at the height of its message, exactly the active keys it names, and changes nothing else. */
  lemma DelEffect(vm: Vm, ctx: Context, items: seq<Item<KeyId>>, k: KeyId)
    requires ApplyKeyDel(vm, ctx, items).Ok?
    ensures var after := ApplyKeyDel(vm, ctx, items).value.keys;
      && (k in after <==> k in vm.keys)
      && (k in after ==>
            after[k] ==
            if vm.keys[k].Active() && Names(items, k) then vm.keys[k].(notAfter := Some(ctx.height)) else vm.keys[k])
  {
    var after := ApplyKeyDel(vm, ctx, items).value.keys;
    if k in vm.keys && k in ActiveIds(vm.keys, items) {
      var i :| 0 <= i < |items| && items[i].Readable() && items[i].value in vm.keys && vm.keys[items[i].value].Active()
        && items[i].value == k;
    }
  }

  /** An in-place update only ever adds to a key. */
  predicate OnlyExtended(k: Key, k': Key) {
    && Extends(k, k') && k.permissions.Inside(k'.permissions)
    && (k.allowedActions.Some? ==> k'.allowedActions.Some? && k.allowedActions.value.Inside(k'.allowedActions.value))
  }

  lemma {:induction false} InstallAllExtends(keys: Keys, height: nat, us: seq<Key>, k: KeyId)
    requires InstallAll(keys, height, us).Ok? && k in keys
    ensures var r := InstallAll(keys, height, us).value;
      k in r && OnlyExtended(keys[k], r[k]) && ((forall u <- us :: u.id != k) ==> r[k] == keys[k])
      && ((exists u <- us :: u.id == k) ==> keys[k].Active())
  {
    if us != [] {
      var before, u := us[..|us| - 1], us[|us| - 1];
      assert us == before + [u] && u in us && forall v <- before :: v in us;
      InstallAllExtends(keys, height, before, k);
    }
  }

  /**
   An update closes, at the height of its message, exactly the keys it replaces by another id, and changes no other
   window. Every key keeps its name, data and ring level, and loses no purpose, permission or action; one that no change
   ends up at is otherwise untouched, and one that a change ends up at is open.
   */
  lemma UpdateEffect(vm: Vm, ctx: Context, items: seq<Item<KeyChange>>, k: KeyId)
    requires ApplyKeyUpdate(vm, ctx, items).Ok? && k in vm.keys
    ensures var after, us := ApplyKeyUpdate(vm, ctx, items).value.keys, ReadChanges(vm.keys, items).value;
      var closed := if k in Replaced(items).Values then vm.keys[k].(notAfter := Some(ctx.height)) else vm.keys[k];
      && k in after && OnlyExtended(closed, after[k])
      && ((forall u <- us :: u.id != k) ==> after[k] == closed)
      && ((exists u <- us :: u.id == k) ==> closed.Active())
  {
    hide AdditionProcessed, ReadChanges, Replaced, AddAllowed, InstallAll;
    InstallAllExtends(Deleted(vm.keys, ctx.height, Replaced(items).Values), ctx.height,
        ReadChanges(vm.keys, items).value, k);
  }

  // ---- history stays verifiable -------------------------------------------------

  predicate InWindowAt(keys: Keys, k: KeyId, h: nat) { k in keys && keys[k].InWindow(h) }

  /** No key operation ever takes a past height out of a key's window. */
  lemma PrimKeepsWindow(vm: Vm, ctx: Context, op: Op, k: KeyId, h: nat)
    requires h <= ctx.height && InWindowAt(vm.keys, k, h) && ApplyPrim(vm, ctx, op).Ok?
    ensures InWindowAt(ApplyPrim(vm, ctx, op).value.keys, k, h)
  {
    match op
    case KeyAdd(items) => KeysToMapFacts(items, ctx.height, vm.keys);
    case KeyUpdate(items) =>
      InstallAllFacts(Deleted(vm.keys, ctx.height, Replaced(items).Values), ctx.height,
          ReadChanges(vm.keys, items).value);
    case _ =>
  }

  lemma {:induction false} AtomicKeepsWindow(vm: Vm, ctx: Context, ops: seq<Op>, k: KeyId, h: nat)
    requires h <= ctx.height && InWindowAt(vm.keys, k, h) && ApplyAtomic(vm, ctx, ops).Ok?
    ensures InWindowAt(ApplyAtomic(vm, ctx, ops).value.keys, k, h)
  {
    hide ApplyPrim;
    if ops != [] {
      AtomicKeepsWindow(vm, ctx, ops[..|ops| - 1], k, h);
      var mid := ApplyAtomic(vm, ctx, ops[..|ops| - 1]).value;
      if ApplyPrim(mid, ctx, ops[|ops| - 1]).Ok? {
        PrimKeepsWindow(mid, ctx, ops[|ops| - 1], k, h);
      }
    }
  }

  lemma ProcessKeepsWindow(vm: Vm, m: Message, k: KeyId, h: nat)
    requires h <= m.height && InWindowAt(vm.keys, k, h)
    ensures InWindowAt(Process(vm, m).keys, k, h)
  {
    hide ApplyPrim, ApplyAtomic;
    if Authentic(vm.keys, m) && MayIssue(vm.keys, m.signer, m.op) {
      var ctx := Context(m.hash, m.height, vm.keys[m.signer]);
      if ApplyOp(vm, ctx, m.op).Ok? {
        if m.op.Atomic? { AtomicKeepsWindow(vm, ctx, m.op.ops, k, h); } else { PrimKeepsWindow(vm, ctx, m.op, k, h); }
      }
    }
  }

  /**
   In every run, a key that is inside its height window at some height up to the current one stays inside its window at
   that height for ever: through deletions, rotations, in-place updates, re-additions and atomic batches.
   */
  lemma {:induction false} HistoryStaysVerifiable(vms: seq<Vm>, ms: seq<Message>, i: nat, j: nat, k: KeyId, h: nat)
    requires Run(vms, ms) && i <= j <= |ms|
    requires h <= HeightAt(ms, i) && InWindowAt(vms[i].keys, k, h)
    ensures InWindowAt(vms[j].keys, k, h) && h <= HeightAt(ms, j)
    decreases j
  {
    hide *;
    RunLengths(vms, ms);
    if i < j {
      HistoryStaysVerifiable(vms, ms, i, j - 1, k, h);
      RunStep(vms, ms, j - 1);
      ProcessKeepsWindow(vms[j - 1], ms[j - 1], k, h);
    }
  }

  // ---- only keys of past messages are closed, so a signer is active --------------

  /** Every key is stored under its own id, and every height in the table is past. */
  predicate Sound(keys: Keys, h: nat) {
    forall k <- keys ::
      keys[k].id == k && keys[k].notBefore <= h && (keys[k].notAfter.Some? ==> keys[k].notAfter.value <= h)
  }

  lemma PrimSound(vm: Vm, ctx: Context, op: Op)
    requires Sound(vm.keys, ctx.height) && ApplyPrim(vm, ctx, op).Ok?
    ensures Sound(ApplyPrim(vm, ctx, op).value.keys, ctx.height)
  {
    hide AdditionProcessed, ReadChanges, InstallAll, KeysToMap, AddAllowed, DelAllowed, Replaced;
    match op
    case KeyAdd(items) => KeysToMapFacts(items, ctx.height, vm.keys);
    case KeyUpdate(items) =>
      InstallAllFacts(Deleted(vm.keys, ctx.height, Replaced(items).Values), ctx.height,
          ReadChanges(vm.keys, items).value);
    case _ =>
  }

  lemma {:induction false} AtomicSound(vm: Vm, ctx: Context, ops: seq<Op>)
    requires Sound(vm.keys, ctx.height) && ApplyAtomic(vm, ctx, ops).Ok?
    ensures Sound(ApplyAtomic(vm, ctx, ops).value.keys, ctx.height)
  {
    hide ApplyPrim;
    if ops != [] {
      AtomicSound(vm, ctx, ops[..|ops| - 1]);
      var mid := ApplyAtomic(vm, ctx, ops[..|ops| - 1]).value;
      if ApplyPrim(mid, ctx, ops[|ops| - 1]).Ok? {
        PrimSound(mid, ctx, ops[|ops| - 1]);
      }
    }
  }

  lemma ProcessSound(vm: Vm, m: Message)
    requires Sound(vm.keys, m.height)
    ensures Sound(Process(vm, m).keys, m.height)
  {
    hide ApplyPrim, ApplyAtomic;
    if Authentic(vm.keys, m) && MayIssue(vm.keys, m.signer, m.op) {
      var ctx := Context(m.hash, m.height, vm.keys[m.signer]);
      if ApplyOp(vm, ctx, m.op).Ok? {
        if m.op.Atomic? { AtomicSound(vm, ctx, m.op.ops); } else { PrimSound(vm, ctx, m.op); }
      }
    }
  }

  lemma GenesisFacts(items: seq<Item<Key>>, vm: Vm)
    requires Genesis(items, 0) == Ok(vm)
    ensures Sound(vm.keys, 0)
  {
    KeysToMapFacts(items, 0, map[]);
  }

  lemma SoundLater(keys: Keys, h: nat, h': nat)
    requires Sound(keys, h) && h <= h'
    ensures Sound(keys, h')
  {
  }

  lemma {:induction false} RunSound(vms: seq<Vm>, ms: seq<Message>, i: nat)
    requires Run(vms, ms) && i <= |ms|
    ensures Sound(vms[i].keys, HeightAt(ms, i))
  {
    hide Process, Genesis, Sound;
    if i == 0 {
      var items :| Genesis(items, 0) == Ok(vms[0]);
      GenesisFacts(items, vms[0]);
    } else {
      RunSound(vms, ms, i - 1);
      RunStep(vms, ms, i - 1);
      SoundLater(vms[i - 1].keys, HeightAt(ms, i - 1), ms[i - 1].height);
      ProcessSound(vms[i - 1], ms[i - 1]);
    }
  }

  /** Whoever signs a message that is processed holds an unrevoked key, although only the height window is checked. */
  lemma SignerIsActive(vms: seq<Vm>, ms: seq<Message>, i: nat)
    requires Run(vms, ms) && i < |ms| && Authentic(vms[i].keys, ms[i])
    ensures vms[i].keys[ms[i].signer].Active()
  {
    RunSound(vms, ms, i);
  }

  // ---- ring levels -----------------------------------------------------------------

  /**
   Below ring level `r`: no key is lost, active keys keep name, data, ring level and window and lose no purpose,
   permission or action, closed ones too unless re-added at or above `r`, and nothing is new.
   */
  predicate RingKept(before: Keys, after: Keys, r: int) {
    && before.Keys <= after.Keys
    && (forall k <- before :: before[k].ringLevel < r ==>
          (OnlyExtended(before[k], after[k]) || (!before[k].Active() && after[k].ringLevel >= r)))
    && (forall k <- after :: after[k].ringLevel < r ==>
          k in before && before[k].ringLevel < r && OnlyExtended(before[k], after[k]))
  }

  lemma RingKeptTransitive(a: Keys, b: Keys, c: Keys, r: int)
    requires RingKept(a, b, r) && RingKept(b, c, r)
    ensures RingKept(a, c, r)
  {
    forall k | k in a && a[k].ringLevel < r
      ensures OnlyExtended(a[k], c[k]) || (!a[k].Active() && c[k].ringLevel >= r)
    {
      if c[k].ringLevel < r {
        assert k in b && b[k].ringLevel < r && OnlyExtended(b[k], c[k]);
      }
    }
  }

  predicate SignerAtLeast(keys: Keys, signer: Key, r: int) { signer.id in keys && keys[signer.id].ringLevel >= r }

  lemma PrimKeepsRing(vm: Vm, ctx: Context, op: Op, r: int)
    requires SignerAtLeast(vm.keys, ctx.signer, r) && ApplyPrim(vm, ctx, op).Ok?
    ensures RingKept(vm.keys, ApplyPrim(vm, ctx, op).value.keys, r)
    ensures SignerAtLeast(ApplyPrim(vm, ctx, op).value.keys, ctx.signer, r)
  {
    hide ApplyKeyAdd, ApplyKeyDel, ApplyKeyUpdate, AdditionProcessed;
    match op
    case KeyAdd(items) => AddKeepsRing(vm, ctx, items, r);
    case KeyDel(items) => DelKeepsRing(vm, ctx, items, r);
    case KeyUpdate(items) => UpdateKeepsRing(vm, ctx, items, r);
    case _ => RingKeptReflexive(vm.keys, r);
  }

  lemma AddKeepsRing(vm: Vm, ctx: Context, items: seq<Item<Key>>, r: int)
    requires SignerAtLeast(vm.keys, ctx.signer, r) && ApplyKeyAdd(vm, ctx, items).Ok?
    ensures RingKept(vm.keys, ApplyKeyAdd(vm, ctx, items).value.keys, r)
    ensures SignerAtLeast(ApplyKeyAdd(vm, ctx, items).value.keys, ctx.signer, r)
  {
    hide AdditionProcessed, KeysToMap;
    KeysToMapFacts(items, ctx.height, vm.keys);
  }

  lemma DelKeepsRing(vm: Vm, ctx: Context, items: seq<Item<KeyId>>, r: int)
    requires SignerAtLeast(vm.keys, ctx.signer, r) && ApplyKeyDel(vm, ctx, items).Ok?
    ensures RingKept(vm.keys, ApplyKeyDel(vm, ctx, items).value.keys, r)
    ensures SignerAtLeast(ApplyKeyDel(vm, ctx, items).value.keys, ctx.signer, r)
  {
  }

  lemma UpdateKeepsRing(vm: Vm, ctx: Context, items: seq<Item<KeyChange>>, r: int)
    requires SignerAtLeast(vm.keys, ctx.signer, r) && ApplyKeyUpdate(vm, ctx, items).Ok?
    ensures RingKept(vm.keys, ApplyKeyUpdate(vm, ctx, items).value.keys, r)
    ensures SignerAtLeast(ApplyKeyUpdate(vm, ctx, items).value.keys, ctx.signer, r)
  {
    var us := ReadChanges(vm.keys, items).value;
    assert forall u <- us :: u.ringLevel >= r by {
      forall u | u in us ensures u.ringLevel >= r {
        var i :| 0 <= i < |us| && us[i] == u;
        assert AsPlain(us)[i].Readable();
      }
    }
    ReadChangesFacts(vm.keys, items);
    InstallAllFacts(Deleted(vm.keys, ctx.height, Replaced(items).Values), ctx.height, us);
    forall k | k in vm.keys && vm.keys[k].ringLevel < r
      ensures OnlyExtended(vm.keys[k], ApplyKeyUpdate(vm, ctx, items).value.keys[k]) {
      UpdateEffect(vm, ctx, items, k);
    }
  }

  lemma {:induction false} AtomicKeepsRing(vm: Vm, ctx: Context, ops: seq<Op>, r: int)
    requires SignerAtLeast(vm.keys, ctx.signer, r) && ApplyAtomic(vm, ctx, ops).Ok?
    ensures RingKept(vm.keys, ApplyAtomic(vm, ctx, ops).value.keys, r)
    ensures SignerAtLeast(ApplyAtomic(vm, ctx, ops).value.keys, ctx.signer, r)
  {
    hide ApplyPrim;
    if ops != [] {
      AtomicKeepsRing(vm, ctx, ops[..|ops| - 1], r);
      var mid := ApplyAtomic(vm, ctx, ops[..|ops| - 1]).value;
      if ApplyPrim(mid, ctx, ops[|ops| - 1]).Ok? {
        PrimKeepsRing(mid, ctx, ops[|ops| - 1], r);
        RingKeptTransitive(vm.keys, mid.keys, ApplyPrim(mid, ctx, ops[|ops| - 1]).value.keys, r);
      }
    }
  }

  lemma ProcessKeepsRing(vm: Vm, m: Message, r: int)
    requires Authentic(vm.keys, m) ==> vm.keys[m.signer].ringLevel >= r
    requires Sound(vm.keys, m.height)
    ensures RingKept(vm.keys, Process(vm, m).keys, r)
  {
    hide ApplyPrim, ApplyAtomic;
    if Authentic(vm.keys, m) && MayIssue(vm.keys, m.signer, m.op) {
      var ctx := Context(m.hash, m.height, vm.keys[m.signer]);
      if ApplyOp(vm, ctx, m.op).Ok? {
        if m.op.Atomic? { AtomicKeepsRing(vm, ctx, m.op.ops, r); } else { PrimKeepsRing(vm, ctx, m.op, r); }
      }
    }
  }

  /** Messages from `i` up to `j` are signed, if authentic at all, by keys at ring level `r` or above. */
  predicate SignersAtLeast(vms: seq<Vm>, ms: seq<Message>, i: nat, j: nat, r: int)
    requires i <= j <= |ms| < |vms|
  {
    forall n | i <= n < j :: Authentic(vms[n].keys, ms[n]) ==> vms[n].keys[ms[n].signer].ringLevel >= r
  }

  /** In every run, signers at ring level `r` or above never touch what is below `r`. */
  lemma {:induction false} LowerRingsUntouched(vms: seq<Vm>, ms: seq<Message>, i: nat, j: nat, r: int)
    requires Run(vms, ms) && i <= j <= |ms| && SignersAtLeast(vms, ms, i, j, r)
    ensures RingKept(vms[i].keys, vms[j].keys, r)
    decreases j
  {
    hide *;
    RunLengths(vms, ms);
    if i == j {
      RingKeptReflexive(vms[i].keys, r);
    } else {
      SignersAtLeastShorter(vms, ms, i, j, r);
      LowerRingsUntouched(vms, ms, i, j - 1, r);
      RunStep(vms, ms, j - 1);
      RunSound(vms, ms, j - 1);
      SoundLater(vms[j - 1].keys, HeightAt(ms, j - 1), ms[j - 1].height);
      ProcessKeepsRing(vms[j - 1], ms[j - 1], r);
      RingKeptTransitive(vms[i].keys, vms[j - 1].keys, vms[j].keys, r);
    }
  }

  lemma RingKeptReflexive(keys: Keys, r: int)
    ensures RingKept(keys, keys, r)
  {
  }

  lemma SignersAtLeastShorter(vms: seq<Vm>, ms: seq<Message>, i: nat, j: nat, r: int)
    requires i < j <= |ms| < |vms| && SignersAtLeast(vms, ms, i, j, r)
    ensures SignersAtLeast(vms, ms, i, j - 1, r)
    ensures Authentic(vms[j - 1].keys, ms[j - 1]) ==> vms[j - 1].keys[ms[j - 1].signer].ringLevel >= r
  {
  }

  // ---- the ceiling on permissions --------------------------------------------------

  /** Some active key holds every permission. */
  predicate HeldStar(keys: Keys) { exists k <- keys :: keys[k].Active() && keys[k].permissions.Star? }

  /** Some active key holds permission `name`. */
  predicate Held(keys: Keys, name: string) {
    exists k <- keys :: keys[k].Active() && keys[k].permissions.Includes(name)
  }

  ghost predicate Covered(g: Grant, base: Keys) {
    && (g.Star? ==> HeldStar(base))
    && (forall name: string :: g.Includes(name) ==> Held(base, name))
  }

  ghost predicate AllCovered(keys: Keys, base: Keys) {
    forall k <- keys :: keys[k].Active() ==> Covered(keys[k].permissions, base)
  }

  lemma CoveredByItself(keys: Keys)
    ensures AllCovered(keys, keys)
  {
    forall k | k in keys && keys[k].Active() ensures Covered(keys[k].permissions, keys) {
    }
  }

  lemma {:induction false} InstallAllCovered(keys: Keys, height: nat, us: seq<Key>, base: Keys)
    requires AllCovered(keys, base) && (forall u <- us :: Covered(u.permissions, base))
    requires InstallAll(keys, height, us).Ok?
    ensures AllCovered(InstallAll(keys, height, us).value, base)
  {
    hide Held, HeldStar;
    if us != [] {
      var before, u := us[..|us| - 1], us[|us| - 1];
      assert u in us && forall v <- before :: v in us;
      InstallAllCovered(keys, height, before, base);
    }
  }

  /** The change of keys that an update makes grants nothing beyond the base table. */
  lemma UpdateCovered(vm: Vm, ctx: Context, items: seq<Item<KeyChange>>, base: Keys)
    requires AllCovered(vm.keys, base) && Covered(ctx.signer.permissions, base)
    requires ApplyKeyUpdate(vm, ctx, items).Ok?
    ensures AllCovered(ApplyKeyUpdate(vm, ctx, items).value.keys, base)
  {
    hide Held, HeldStar, InstallAll, Replaced, ReadChanges;
    var us := ReadChanges(vm.keys, items).value;
    forall u | u in us ensures Covered(u.permissions, base) {
      var i :| 0 <= i < |us| && us[i] == u;
      assert AsPlain(us)[i] == Plain(u);
      assert MayGrant(ctx.signer, vm.keys[ctx.signer.id].ringLevel, u);
    }
    InstallAllCovered(Deleted(vm.keys, ctx.height, Replaced(items).Values), ctx.height, us, base);
  }

  /** Whoever signs, no operation leaves an active key with a permission that the base table did not hold. */
  lemma PrimCovered(vm: Vm, ctx: Context, op: Op, base: Keys)
    requires AllCovered(vm.keys, base) && Covered(ctx.signer.permissions, base) && ApplyPrim(vm, ctx, op).Ok?
    ensures AllCovered(ApplyPrim(vm, ctx, op).value.keys, base)
  {
    hide Held, HeldStar, AdditionProcessed, ApplyKeyUpdate, KeysToMap, DelAllowed;
    match op
    case KeyAdd(items) => KeysToMapFacts(items, ctx.height, vm.keys);
    case KeyUpdate(items) => UpdateCovered(vm, ctx, items, base);
    case _ =>
  }

  lemma {:induction false} AtomicCovered(vm: Vm, ctx: Context, ops: seq<Op>, base: Keys)
    requires AllCovered(vm.keys, base) && Covered(ctx.signer.permissions, base) && ApplyAtomic(vm, ctx, ops).Ok?
    ensures AllCovered(ApplyAtomic(vm, ctx, ops).value.keys, base)
  {
    hide ApplyPrim, AllCovered, Covered;
    if ops != [] {
      AtomicCovered(vm, ctx, ops[..|ops| - 1], base);
      var mid := ApplyAtomic(vm, ctx, ops[..|ops| - 1]).value;
      if ApplyPrim(mid, ctx, ops[|ops| - 1]).Ok? {
        PrimCovered(mid, ctx, ops[|ops| - 1], base);
      }
    }
  }

  /** One message, atomic or not, whose signer is active, leaves no permission held that was not held before. */
  lemma ProcessCovered(vm: Vm, m: Message)
    requires Authentic(vm.keys, m) ==> vm.keys[m.signer].Active()
    ensures AllCovered(Process(vm, m).keys, vm.keys)
  {
    hide ApplyPrim, ApplyAtomic, Held, HeldStar, Covered;
    CoveredByItself(vm.keys);
    if Authentic(vm.keys, m) && MayIssue(vm.keys, m.signer, m.op) {
      var ctx := Context(m.hash, m.height, vm.keys[m.signer]);
      if ApplyOp(vm, ctx, m.op).Ok? {
        if m.op.Atomic? { AtomicCovered(vm, ctx, m.op.ops, vm.keys); } else { PrimCovered(vm, ctx, m.op, vm.keys); }
      }
    }
  }

  lemma CoveredMeansHeld(keys: Keys, base: Keys)
    requires AllCovered(keys, base)
    ensures HeldStar(keys) ==> HeldStar(base)
    ensures forall name: string :: Held(keys, name) ==> Held(base, name)
  {
  }

  /**
   In every run, after OP_CONTRACT, the permissions held by the active keys together (with `*` as all of them) never
   grow: neither by additions, nor by rotations, nor by the union that an in-place update makes, nor inside an atomic
   batch.
   */
  lemma {:induction false} PermissionsNeverGrow(vms: seq<Vm>, ms: seq<Message>, i: nat, j: nat)
    requires Run(vms, ms) && i <= j <= |ms|
    ensures HeldStar(vms[j].keys) ==> HeldStar(vms[i].keys)
    ensures forall name: string :: Held(vms[j].keys, name) ==> Held(vms[i].keys, name)
    decreases j
  {
    hide *;
    RunLengths(vms, ms);
    if i < j {
      PermissionsNeverGrow(vms, ms, i, j - 1);
      RunStep(vms, ms, j - 1);
      if Authentic(vms[j - 1].keys, ms[j - 1]) {
        SignerIsActive(vms, ms, j - 1);
      }
      ProcessCovered(vms[j - 1], ms[j - 1]);
      CoveredMeansHeld(vms[j].keys, vms[j - 1].keys);
    }
  }
}
