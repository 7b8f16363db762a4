/** Conservation of invite quantities over every run of key operations. */
module Invites {
  import opened Wrappers
  import opened KeyTable
  import KeyAuthority

  /**
   Since an invite was last created: the accounted requests that consumed it, and those that became a pending share.
   */
  datatype Ledger = Ledger(consumed: nat, admitted: nat)

  /** One of the keys is an invite key with this id, so the invite is created afresh. */
  predicate Creates(items: seq<Item<Key>>, id: KeyId) {
    exists i | 0 <= i < |items| :: items[i].Readable() && items[i].value.id == id && InviteName(items[i].value.name)
  }

  predicate PrimCreates(vm: Vm, op: Op, id: KeyId) {
    match op
    case KeyAdd(items) => Creates(items, id)
    case KeyUpdate(items) => ReadChanges(vm.keys, items).Ok? && Creates(AsPlain(ReadChanges(vm.keys, items).value), id)
    case _ => false
  }

  /** An accounted request signed with the invite's key, while the invite is valid and has a positive quantity left. */
  predicate Consumes(vm: Vm, ctx: Context, op: Op, id: KeyId) {
    && ctx.signer.id == id && Accounted(vm, id, op)
    && vm.invites[id].status == Valid && vm.invites[id].quantity.Some? && vm.invites[id].quantity.value > 0
  }

  /** An accounted request signed with the invite's key that leaves a share where there was none. */
  predicate Admits(vm: Vm, ctx: Context, op: Op, id: KeyId) {
    && ctx.signer.id == id && Accounted(vm, id, op)
    && ApplyKeyRequest(vm.(pending := map[]), ctx, op).pending != map[]
  }

  function PrimLedger(vm: Vm, ctx: Context, op: Op, id: KeyId, l: Ledger): Ledger {
    if ApplyPrim(vm, ctx, op).Err? then l
    else if PrimCreates(vm, op, id) then Ledger(0, 0)
    else Ledger(l.consumed + if Consumes(vm, ctx, op, id) then 1 else 0,
        l.admitted + if Admits(vm, ctx, op, id) then 1 else 0)
  }

  function AtomicLedger(vm: Vm, ctx: Context, ops: seq<Op>, id: KeyId, l: Ledger): Ledger
    requires ApplyAtomic(vm, ctx, ops).Ok?
  {
    if ops == [] then l
    else
      var before := ops[..|ops| - 1];
      PrimLedger(ApplyAtomic(vm, ctx, before).value, ctx, ops[|ops| - 1], id, AtomicLedger(vm, ctx, before, id, l))
  }

  /** A message that is rejected or fails counts for nothing, whatever its first operations did. */
  function MessageLedger(vm: Vm, m: Message, id: KeyId, l: Ledger): Ledger {
    if !Authentic(vm.keys, m) || !MayIssue(vm.keys, m.signer, m.op) then l
    else
      var ctx := Context(m.hash, m.height, vm.keys[m.signer]);
      if ApplyOp(vm, ctx, m.op).Err? then l
      else if m.op.Atomic? then AtomicLedger(vm, ctx, m.op.ops, id, l)
      else PrimLedger(vm, ctx, m.op, id, l)
  }

  /** The ledger of an invite after the first `i` messages of a run. */
  function LedgerAt(vms: seq<Vm>, ms: seq<Message>, i: nat, id: KeyId): Ledger
    requires i <= |ms| < |vms|
  {
    if i == 0 then Ledger(0, 0) else MessageLedger(vms[i - 1], ms[i - 1], id, LedgerAt(vms, ms, i - 1, id))
  }

  /**
   The conservation law: what was spent is what was consumed, shares admitted are among the requests consumed, and an
   invite is used up exactly by spending it: once its quantity is spent it is no longer valid.
   */
  predicate Conserved(vm: Vm, id: KeyId, l: Ledger) {
    id in vm.invites && vm.invites[id].quantity.Some? ==>
      var invite := vm.invites[id];
      && invite.initial.Some?
      && invite.initial.value - invite.quantity.value == l.consumed
      && l.admitted <= l.consumed
      && (invite.initial.value >= 0 ==> invite.quantity.value >= 0)
      && (invite.status.Used? ==> invite.quantity.value <= 0)
      && (l.consumed > 0 && invite.quantity.value <= 0 ==> !invite.status.Valid?)
  }

  lemma {:induction false} AdditionFacts(invites: map<KeyId, Invite>, items: seq<Item<Key>>, id: KeyId)
    requires AdditionProcessed(invites, items).Ok?
    ensures var r := AdditionProcessed(invites, items).value;
      if Creates(items, id) then id in r && r[id].quantity == r[id].initial && r[id].status == Valid
      else (id in r <==> id in invites) && (id in r ==> r[id] == invites[id])
  {
    if items != [] {
      var n := |items| - 1;
      AdditionFacts(invites, items[..n], id);
      if Creates(items[..n], id) {
        var i :| 0 <= i < n && items[..n][i].Readable() && items[..n][i].value.id == id
          && InviteName(items[..n][i].value.name);
        assert items[i] == items[..n][i];
      }
      CreatesEarlier(items, id);
    }
  }

  lemma CreatesEarlier(items: seq<Item<Key>>, id: KeyId)
    requires items != []
    ensures Creates(items, id) ==> Creates(items[..|items| - 1], id) || Creates([items[|items| - 1]], id)
  {
    var n := |items| - 1;
    if i :| 0 <= i < n && items[i].Readable() && items[i].value.id == id && InviteName(items[i].value.name) {
      assert items[..n][i] == items[i];
    } else if Creates(items, id) {
      assert [items[n]][0] == items[n];
    }
  }

  lemma PrimConserves(vm: Vm, ctx: Context, op: Op, id: KeyId, l: Ledger)
    requires Conserved(vm, id, l) && ApplyPrim(vm, ctx, op).Ok?
    ensures Conserved(ApplyPrim(vm, ctx, op).value, id, PrimLedger(vm, ctx, op, id, l))
  {
    hide ApplyKeyRequest, AdditionProcessed, ReadChanges, InstallAll, KeysToMap;
    match op
    case KeyAdd(items) => AdditionFacts(vm.invites, items, id);
    case KeyUpdate(items) => AdditionFacts(vm.invites, AsPlain(ReadChanges(vm.keys, items).value), id);
    case KeyRequest(_, _, _, _) => RequestConserves(vm, ctx, op, id, l);
    case _ =>
  }

  lemma RequestConserves(vm: Vm, ctx: Context, op: Op, id: KeyId, l: Ledger)
    requires Conserved(vm, id, l) && op.KeyRequest?
    ensures Conserved(ApplyKeyRequest(vm, ctx, op), id,
      Ledger(l.consumed + if Consumes(vm, ctx, op, id) then 1 else 0,
          l.admitted + if Admits(vm, ctx, op, id) then 1 else 0))
  {
  }

  lemma {:induction false} AtomicConserves(vm: Vm, ctx: Context, ops: seq<Op>, id: KeyId, l: Ledger)
    requires Conserved(vm, id, l) && ApplyAtomic(vm, ctx, ops).Ok?
    ensures Conserved(ApplyAtomic(vm, ctx, ops).value, id, AtomicLedger(vm, ctx, ops, id, l))
  {
    hide ApplyPrim, Conserved, PrimCreates, Consumes, Admits;
    if ops != [] {
      var before := ops[..|ops| - 1];
      AtomicConserves(vm, ctx, before, id, l);
      var mid := ApplyAtomic(vm, ctx, before).value;
      if ApplyPrim(mid, ctx, ops[|ops| - 1]).Ok? {
        PrimConserves(mid, ctx, ops[|ops| - 1], id, AtomicLedger(vm, ctx, before, id, l));
      }
    }
  }

  lemma MessageConserves(vm: Vm, m: Message, id: KeyId, l: Ledger)
    requires Conserved(vm, id, l)
    ensures Conserved(Process(vm, m), id, MessageLedger(vm, m, id, l))
  {
    hide ApplyPrim, ApplyAtomic, Conserved, PrimLedger, AtomicLedger;
    if Authentic(vm.keys, m) && MayIssue(vm.keys, m.signer, m.op) {
      var ctx := Context(m.hash, m.height, vm.keys[m.signer]);
      if ApplyOp(vm, ctx, m.op).Ok? {
        if m.op.Atomic? { AtomicConserves(vm, ctx, m.op.ops, id, l); } else { PrimConserves(vm, ctx, m.op, id, l); }
      }
    }
  }

  /**
   In every state of every run, for every invite limited in quantity: initial minus remaining is the number of accounted
   requests that consumed it since it was created, no more shares were admitted than that, and nothing goes below zero.
   */
  lemma {:induction false} InvitesAreConserved(vms: seq<Vm>, ms: seq<Message>, i: nat, id: KeyId)
    requires KeyAuthority.Run(vms, ms) && i <= |ms|
    ensures Conserved(vms[i], id, LedgerAt(vms, ms, i, id))
  {
    hide *;
    KeyAuthority.RunLengths(vms, ms);
    if i == 0 {
      GenesisConserves(vms, ms, id);
    } else {
      InvitesAreConserved(vms, ms, i - 1, id);
      KeyAuthority.RunStep(vms, ms, i - 1);
      MessageConserves(vms[i - 1], ms[i - 1], id, LedgerAt(vms, ms, i - 1, id));
      LedgerStep(vms, ms, i, id);
    }
  }

  lemma LedgerStep(vms: seq<Vm>, ms: seq<Message>, i: nat, id: KeyId)
    requires 0 < i <= |ms| < |vms|
    ensures LedgerAt(vms, ms, i, id) == MessageLedger(vms[i - 1], ms[i - 1], id, LedgerAt(vms, ms, i - 1, id))
  {
    hide MessageLedger;
  }

  lemma GenesisConserves(vms: seq<Vm>, ms: seq<Message>, id: KeyId)
    requires KeyAuthority.Run(vms, ms) && |ms| < |vms|
    ensures Conserved(vms[0], id, LedgerAt(vms, ms, 0, id))
  {
    hide Process;
    var items :| Genesis(items, 0) == Ok(vms[0]);
    AdditionFacts(map[], items, id);
  }

  /**
   So an invite created for `n` requests never lets more than `n` accounted shares through before it is created again.
   */
  lemma AdmittedWithinQuantity(vms: seq<Vm>, ms: seq<Message>, i: nat, id: KeyId)
    requires KeyAuthority.Run(vms, ms) && i <= |ms| && id in vms[i].invites && vms[i].invites[id].quantity.Some?
    ensures var invite := vms[i].invites[id];
      invite.initial.Some? && (invite.initial.value >= 0 ==> LedgerAt(vms, ms, i, id).admitted <= invite.initial.value)
  {
    hide KeyAuthority.Run, LedgerAt;
    InvitesAreConserved(vms, ms, i, id);
  }
}
