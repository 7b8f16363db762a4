/** Which signatures go on verifying: windows are not the whole of it. */
module Signatures {
  import opened Wrappers
  import opened KeyTable
  import opened KeyAuthority

  /** A signature made with data `d` of key `k` at height `h` passes `verifySignatureData`. */
  predicate Verifies(keys: Keys, k: KeyId, h: nat, d: string) {
    InWindowAt(keys, k, h) && "sig" in keys[k].purpose && keys[k].data == d
  }

  /** What an operation that took effect means for a key that is in the table. */
  datatype Touch =
    | Brings(signs: bool, data: string)   // an OP_KEY_ADD with this id: purpose and data are the ones it brings
    | Grants                              // an OP_KEY_UPDATE that ends up at this id with the purpose to sign
    | Leaves

  function TouchOf(vm: Vm, ctx: Context, op: Op, k: KeyId): Touch {
    if ApplyPrim(vm, ctx, op).Err? then Leaves
    else
      match op
      case KeyAdd(items) =>
        var last := LastWith(items, k);
        if last.Some? then Brings("sig" in last.value.purpose, last.value.data) else Leaves
      case KeyUpdate(items) => if GrantsSig(ReadChanges(vm.keys, items).value, k) then Grants else Leaves
      case _ => Leaves
  }

  predicate GrantsSig(us: seq<Key>, k: KeyId) { exists u <- us :: u.id == k && "sig" in u.purpose }

  /** Whether a key signs after some touches: as its last addition says, unless an update granted it since. */
  function SignsAfter(signs: bool, touches: seq<Touch>): bool {
    if touches == [] then signs
    else
      match touches[|touches| - 1]
      case Brings(s, _) => s
      case Grants => true
      case Leaves => SignsAfter(signs, touches[..|touches| - 1])
  }

  /** The data of a key after some touches: that of its last addition. */
  function DataAfter(data: string, touches: seq<Touch>): string {
    if touches == [] then data
    else if touches[|touches| - 1].Brings? then touches[|touches| - 1].data
    else DataAfter(data, touches[..|touches| - 1])
  }

  /**
   A key that signed with data `d` still does: every addition since was with that data, and none took signing away for
   good.
   */
  predicate Stands(touches: seq<Touch>, d: string) { SignsAfter(true, touches) && DataAfter(d, touches) == d }

  function AtomicTouches(vm: Vm, ctx: Context, ops: seq<Op>, k: KeyId): seq<Touch>
    requires ApplyAtomic(vm, ctx, ops).Ok?
  {
    if ops == [] then []
    else
      var before := ops[..|ops| - 1];
      AtomicTouches(vm, ctx, before, k) + [TouchOf(ApplyAtomic(vm, ctx, before).value, ctx, ops[|ops| - 1], k)]
  }

  /** The touches of one message; one that is rejected or fails has none. */
  function MessageTouches(vm: Vm, m: Message, k: KeyId): seq<Touch> {
    if !Authentic(vm.keys, m) || !MayIssue(vm.keys, m.signer, m.op) then []
    else
      var ctx := Context(m.hash, m.height, vm.keys[m.signer]);
      if ApplyOp(vm, ctx, m.op).Err? then []
      else if m.op.Atomic? then AtomicTouches(vm, ctx, m.op.ops, k)
      else [TouchOf(vm, ctx, m.op, k)]
  }

  /** The touches of the messages from `i` up to `j`. */
  function RunTouches(vms: seq<Vm>, ms: seq<Message>, i: nat, j: nat, k: KeyId): seq<Touch>
    requires i <= j <= |ms| < |vms|
  {
    if i == j then [] else RunTouches(vms, ms, i, j - 1, k) + MessageTouches(vms[j - 1], ms[j - 1], k)
  }

  lemma {:induction false} TouchesConcat(signs: bool, data: string, t1: seq<Touch>, t2: seq<Touch>)
    ensures SignsAfter(signs, t1 + t2) == SignsAfter(SignsAfter(signs, t1), t2)
    ensures DataAfter(data, t1 + t2) == DataAfter(DataAfter(data, t1), t2)
  {
    if t2 == [] {
      assert t1 + t2 == t1;
    } else {
      var before := t2[..|t2| - 1];
      assert (t1 + t2)[..|t1 + t2| - 1] == t1 + before;
      TouchesConcat(signs, data, t1, before);
    }
  }

  lemma {:induction false} InstallAllSigns(keys: Keys, height: nat, us: seq<Key>, k: KeyId)
    requires InstallAll(keys, height, us).Ok? && k in keys
    ensures var r := InstallAll(keys, height, us).value;
      k in r && ("sig" in r[k].purpose <==> "sig" in keys[k].purpose || GrantsSig(us, k))
  {
    if us != [] {
      var before, u := us[..|us| - 1], us[|us| - 1];
      InstallAllSigns(keys, height, before, k);
      assert us == before + [u];
      GrantsMore(before, u, k);
    }
  }

  lemma GrantsMore(us: seq<Key>, u: Key, k: KeyId)
    ensures GrantsSig(us + [u], k) <==> GrantsSig(us, k) || (u.id == k && "sig" in u.purpose)
  {
    if GrantsSig(us, k) {
      var v :| v in us && v.id == k && "sig" in v.purpose;
      assert v in us + [u];
    }
    assert u in us + [u];
  }

  /** A key before and after some touches. */
  predicate Follows(keys: Keys, after: Keys, k: KeyId, touches: seq<Touch>) {
    k in keys ==>
      && k in after
      && ("sig" in after[k].purpose <==> SignsAfter("sig" in keys[k].purpose, touches))
      && after[k].data == DataAfter(keys[k].data, touches)
  }

  lemma FollowsTwice(a: Keys, b: Keys, c: Keys, k: KeyId, t1: seq<Touch>, t2: seq<Touch>)
    requires Follows(a, b, k, t1) && Follows(b, c, k, t2)
    ensures Follows(a, c, k, t1 + t2)
  {
    if k in a { TouchesConcat("sig" in a[k].purpose, a[k].data, t1, t2); }
  }

  lemma OneTouch(signs: bool, data: string, t: Touch)
    ensures SignsAfter(signs, [t]) == (if t.Brings? then t.signs else t.Grants? || signs)
    ensures DataAfter(data, [t]) == if t.Brings? then t.data else data
  {
    assert [t][..0] == [];
  }

  lemma PrimFollows(vm: Vm, ctx: Context, op: Op, k: KeyId)
    requires ApplyPrim(vm, ctx, op).Ok?
    ensures Follows(vm.keys, ApplyPrim(vm, ctx, op).value.keys, k, [TouchOf(vm, ctx, op, k)])
  {
    hide AdditionProcessed, KeysToMap, InstallAll, ReadChanges, Replaced, AddAllowed, SignsAfter, DataAfter;
    if k in vm.keys {
      OneTouch("sig" in vm.keys[k].purpose, vm.keys[k].data, TouchOf(vm, ctx, op, k));
      match op
      case KeyAdd(items) => AddEffect(vm, ctx, items, k);
      case KeyUpdate(items) =>
        UpdateEffect(vm, ctx, items, k);
        InstallAllSigns(Deleted(vm.keys, ctx.height, Replaced(items).Values), ctx.height,
            ReadChanges(vm.keys, items).value, k);
      case _ =>
    }
  }

  lemma {:induction false} AtomicFollows(vm: Vm, ctx: Context, ops: seq<Op>, k: KeyId)
    requires ApplyAtomic(vm, ctx, ops).Ok?
    ensures Follows(vm.keys, ApplyAtomic(vm, ctx, ops).value.keys, k, AtomicTouches(vm, ctx, ops, k))
  {
    hide ApplyPrim, Follows, TouchOf;
    if ops == [] {
      FollowsNothing(vm.keys, k);
    } else {
      var before, op := ops[..|ops| - 1], ops[|ops| - 1];
      AtomicFollows(vm, ctx, before, k);
      var mid := ApplyAtomic(vm, ctx, before).value;
      if ApplyPrim(mid, ctx, op).Ok? { PrimFollows(mid, ctx, op, k); } else { FailedTouch(mid, ctx, op, k); }
      FollowsTwice(vm.keys, mid.keys, ApplyAtomic(vm, ctx, ops).value.keys, k, AtomicTouches(vm, ctx, before, k),
          [TouchOf(mid, ctx, op, k)]);
    }
  }

  lemma FollowsNothing(keys: Keys, k: KeyId)
    ensures Follows(keys, keys, k, [])
  {
  }

  lemma FailedTouch(vm: Vm, ctx: Context, op: Op, k: KeyId)
    requires ApplyPrim(vm, ctx, op).Err?
    ensures Follows(vm.keys, vm.keys, k, [TouchOf(vm, ctx, op, k)])
  {
    hide ApplyPrim;
    if k in vm.keys { OneTouch("sig" in vm.keys[k].purpose, vm.keys[k].data, Leaves); }
  }

  lemma MessageFollows(vm: Vm, m: Message, k: KeyId)
    ensures Follows(vm.keys, Process(vm, m).keys, k, MessageTouches(vm, m, k))
  {
    hide ApplyPrim, ApplyAtomic, Follows, TouchOf, AtomicTouches;
    FollowsNothing(vm.keys, k);
    if Authentic(vm.keys, m) && MayIssue(vm.keys, m.signer, m.op) {
      var ctx := Context(m.hash, m.height, vm.keys[m.signer]);
      if ApplyOp(vm, ctx, m.op).Ok? {
        if m.op.Atomic? { AtomicFollows(vm, ctx, m.op.ops, k); } else { PrimFollows(vm, ctx, m.op, k); }
      }
    }
  }

  lemma {:induction false} RunFollows(vms: seq<Vm>, ms: seq<Message>, i: nat, j: nat, k: KeyId)
    requires Run(vms, ms) && i <= j <= |ms| < |vms|
    ensures Follows(vms[i].keys, vms[j].keys, k, RunTouches(vms, ms, i, j, k))
    decreases j
  {
    hide Process, Follows, MessageTouches, Run;
    if i == j {
      FollowsNothing(vms[i].keys, k);
    } else {
      RunFollows(vms, ms, i, j - 1, k);
      RunStep(vms, ms, j - 1);
      MessageFollows(vms[j - 1], ms[j - 1], k);
      FollowsTwice(vms[i].keys, vms[j - 1].keys, vms[j].keys, k, RunTouches(vms, ms, i, j - 1, k),
          MessageTouches(vms[j - 1], ms[j - 1], k));
    }
  }

  lemma StandingDecides(keys: Keys, after: Keys, k: KeyId, h: nat, d: string, touches: seq<Touch>)
    requires Verifies(keys, k, h, d) && InWindowAt(after, k, h) && Follows(keys, after, k, touches)
    ensures Verifies(after, k, h, d) <==> Stands(touches, d)
  {
  }

  /** The operation is an OP_KEY_ADD whose last key with id `k` comes without the signing purpose or with other data. */
  predicate ReplacesKey(op: Op, k: KeyId, d: string) {
    op.KeyAdd? && LastWith(op.keys, k).Some?
      && !("sig" in LastWith(op.keys, k).value.purpose && LastWith(op.keys, k).value.data == d)
  }

  /**
   A signature that verifies goes on verifying after an operation that succeeds if and only if the operation does not
   add that very key id again with other data or without the purpose to sign.
   */
  lemma PrimKeepsSignatures(vm: Vm, ctx: Context, op: Op, k: KeyId, h: nat, d: string)
    requires h <= ctx.height && Verifies(vm.keys, k, h, d) && ApplyPrim(vm, ctx, op).Ok?
    ensures Verifies(ApplyPrim(vm, ctx, op).value.keys, k, h, d) <==> !ReplacesKey(op, k, d)
  {
    PrimKeepsWindow(vm, ctx, op, k, h);
    PrimFollows(vm, ctx, op, k);
    StandingDecides(vm.keys, ApplyPrim(vm, ctx, op).value.keys, k, h, d, [TouchOf(vm, ctx, op, k)]);
    OneTouch(true, d, TouchOf(vm, ctx, op, k));
  }

  /** The same for a batch as a whole: the last addition of the key counts, and what an update grants after it. */
  lemma AtomicKeepsSignatures(vm: Vm, ctx: Context, ops: seq<Op>, k: KeyId, h: nat, d: string)
    requires h <= ctx.height && Verifies(vm.keys, k, h, d) && ApplyAtomic(vm, ctx, ops).Ok?
    ensures Verifies(ApplyAtomic(vm, ctx, ops).value.keys, k, h, d) <==> Stands(AtomicTouches(vm, ctx, ops, k), d)
  {
    hide ApplyAtomic, AtomicTouches, Stands;
    AtomicKeepsWindow(vm, ctx, ops, k, h);
    AtomicFollows(vm, ctx, ops, k);
    StandingDecides(vm.keys, ApplyAtomic(vm, ctx, ops).value.keys, k, h, d, AtomicTouches(vm, ctx, ops, k));
  }

  /**
   In every run a signature of a past height that verifies at some point verifies at a later one if and only if the
   operations in between leave the key standing: the last of them that adds its id again, if any, brings the same data,
   and it, or an update after it, the purpose to sign.
   */
  lemma RunKeepsSignatures(vms: seq<Vm>, ms: seq<Message>, i: nat, j: nat, k: KeyId, h: nat, d: string)
    requires Run(vms, ms) && i <= j <= |ms| < |vms| && h <= HeightAt(ms, i) && Verifies(vms[i].keys, k, h, d)
    ensures Verifies(vms[j].keys, k, h, d) <==> Stands(RunTouches(vms, ms, i, j, k), d)
  {
    hide Run, RunTouches, Stands;
    HistoryStaysVerifiable(vms, ms, i, j, k, h);
    RunFollows(vms, ms, i, j, k);
    StandingDecides(vms[i].keys, vms[j].keys, k, h, d, RunTouches(vms, ms, i, j, k));
  }

  // ---- the failing case is real ------------------------------------------------------

  const ROOT := Key("csk", "csk", {"sig"}, Star, Some(Star), 0, "c", None, None, NotForeign, 0, None)

  const MEMBER := Key("k", "k", {"sig"}, Only({"ae"}), None, 1, "d", None, None, NotForeign, 0, None)

  lemma NoInvites(items: seq<Item<Key>>, invites: map<KeyId, Invite>)
    requires forall i | 0 <= i < |items| :: items[i].Readable() && items[i].value.name in {"csk", "k"}
    ensures AdditionProcessed(invites, items) == Ok(invites)
  {
    if items != [] {
      var name := items[|items| - 1].value.name;
      NoInvites(items[..|items| - 1], invites);
      assert "csk"[0] == 'c' && "k"[0] == 'k' && INVITE_PREFIX[0] == '#' && "#sak"[0] == '#';
      assert name[0] != '#';
    }
  }

  /** OP_CONTRACT brings both keys. */
  lemma FirstTable() returns (vm: Vm)
    ensures vm == Vm(map["csk" := ROOT, "k" := MEMBER], map[], map[])
    ensures Genesis([Plain(ROOT), Plain(MEMBER)], 0) == Ok(vm)
  {
    var items := [Plain(ROOT), Plain(MEMBER)];
    vm := Vm(map["csk" := ROOT, "k" := MEMBER], map[], map[]);
    assert items[..1] == [Plain(ROOT)] && items[..1][..0] == [];
    assert KeysToMap(items[..1], 0, map[]) == Ok(map["csk" := ROOT]);
    NoInvites(items, map[]);
  }

  /** A deletion of the member at height 5. */
  lemma Revoked(vm: Vm) returns (after: Vm)
    requires vm == Vm(map["csk" := ROOT, "k" := MEMBER], map[], map[])
    ensures after == Process(vm, Message("h5", 5, "csk", KeyDel([Plain("k")])))
    ensures after == Vm(map["csk" := ROOT, "k" := MEMBER.(notAfter := Some(5))], map[], map[])
  {
    var items: seq<Item<KeyId>> := [Plain("k")];
    after := Process(vm, Message("h5", 5, "csk", KeyDel(items)));
    assert items[0].Readable() && items[0].value == "k";
    assert ActiveIds(vm.keys, items) == {"k"};
    assert !BrokenForeign(vm.keys["k"]);
    assert DelAllowed(vm.keys, ROOT, items);
  }

  /** The member's id comes back at height 7, for another purpose. */
  lemma ReAdded(vm: Vm) returns (after: Vm)
    requires vm == Vm(map["csk" := ROOT, "k" := MEMBER.(notAfter := Some(5))], map[], map[])
    ensures after == Process(vm, Message("h7", 7, "csk", KeyAdd([Plain(MEMBER.(purpose := {"enc"}))])))
    ensures after == Vm(map["csk" := ROOT, "k" := MEMBER.(purpose := {"enc"})], map[], map[])
  {
    var items := [Plain(MEMBER.(purpose := {"enc"}))];
    after := Process(vm, Message("h7", 7, "csk", KeyAdd(items)));
    assert items[..0] == [];
    assert KeysToMap(items, 7, vm.keys) == Ok(map["k" := MEMBER.(purpose := {"enc"})]);
    NoInvites(items, map[]);
    assert items[0].Readable() && MayGrant(ROOT, 0, items[0].value);
    assert AddAllowed(vm.keys, ROOT, items, false);
  }

  /**
   A run in which a message is signed at height 3, its key revoked at height 5 and added again at height 7 for another
   purpose: the message that was authentic no longer is, although its height is in the window of its key all the time.
   */
  lemma ReAddUnverifies() returns (vms: seq<Vm>, ms: seq<Message>)
    ensures Run(vms, ms) && |ms| == 3
    ensures Authentic(vms[0].keys, ms[0]) && MayIssue(vms[0].keys, ms[0].signer, ms[0].op)
    ensures InWindowAt(vms[3].keys, ms[0].signer, ms[0].height) && !Authentic(vms[3].keys, ms[0])
  {
    hide Genesis, KeysToMap, AdditionProcessed, ApplyPrim, Process;
    var first := FirstTable();
    var signed := Message("h3", 3, "k", Other("ae", None));
    OtherKeepsTable(first, signed);
    var revoked := Revoked(first);
    var back := ReAdded(revoked);
    vms := [first, first, revoked, back];
    ms := [signed, Message("h5", 5, "csk", KeyDel([Plain("k")])),
        Message("h7", 7, "csk", KeyAdd([Plain(MEMBER.(purpose := {"enc"}))]))];
  }

  lemma OtherKeepsTable(vm: Vm, m: Message)
    requires m.op == Other("ae", None)
    ensures Process(vm, m) == vm
  {
  }
}
