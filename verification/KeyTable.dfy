/** The table of authorized keys of a contract and the operations that evolve it, with invite accounting. */
module KeyTable {
  import opened Wrappers

  type KeyId = string

  /** `'*'` or a list of names. */
  datatype Grant = Star | Only(names: set<string>)
  {
    /** Every name granted by `this` is granted by `other`. */
    predicate Inside(other: Grant) { other.Star? || (Only? && names <= other.names) }

    function Join(other: Grant): Grant {
      if Star? || other.Star? then Star else Only(names + other.names)
    }

    predicate Includes(name: string) { Star? || name in names }
  }

  datatype KeyMeta = KeyMeta(hasPrivate: bool, quantity: Option<int>, expires: Option<int>)

  /** A foreign key's URL names a contract and a key; either can be missing, and both are when it does not parse. */
  datatype ForeignKey = NotForeign | ForeignKey(namesContract: bool, namesKey: bool)

  /** A key as sent in a message and as stored; the heights are set by the table. */
  datatype Key = Key(
    id: KeyId,
    name: string,
    purpose: set<string>,
    permissions: Grant,
    allowedActions: Option<Grant>,
    ringLevel: int,
    data: string,
    meta: Option<KeyMeta>,
    encryptedWith: Option<KeyId>,   // `_private`
    foreignKey: ForeignKey,
    notBefore: nat,
    notAfter: Option<nat>)
  {
    predicate Active() { notAfter.None? }

    /** The height window that `verifySignatureData` checks. */
    predicate InWindow(h: nat) { notBefore <= h && (notAfter.None? || h <= notAfter.value) }
  }

  type Keys = map<KeyId, Key>

  /** A value that may be encrypted: one that cannot be decrypted is skipped. */
  datatype Item<T> = Unreadable | Plain(value: T) | Sealed(value: T, keyId: KeyId)
  {
    predicate Readable() { !Unreadable? }
  }

  datatype KeyChange = KeyChange(
    oldKeyId: KeyId,
    name: string,
    id: Option<KeyId>,
    data: Option<string>,
    purpose: Option<set<string>>,
    permissions: Option<Grant>,
    allowedActions: Option<Grant>,
    meta: Option<KeyMeta>)

  datatype InviteStatus = Valid | Used | Revoked

  datatype Invite = Invite(status: InviteStatus, initial: Option<int>, quantity: Option<int>, expires: Option<int>)

  datatype PendingShare = PendingShare(signer: KeyId, height: nat, contractID: Option<string>, skipsAccounting: bool)

  datatype Vm = Vm(keys: Keys, invites: map<KeyId, Invite>, pending: map<string, PendingShare>)

  /** `replyWith.context`: absent as a property, undefined, or naming the contract that asks. */
  datatype ReplyContext = NoContextProperty | Undecrypted | From(contractID: string)

  datatype Op =
    | Contract(keys: seq<Item<Key>>)   // OP_CONTRACT, which only a first message may carry
    | KeyAdd(keys: seq<Item<Key>>)
    | KeyDel(ids: seq<Item<KeyId>>)
    | KeyUpdate(changes: seq<Item<KeyChange>>)
    | KeyRequest(originator: string, skipAccounting: bool, context: ReplyContext, now: int)
    | KeyRequestSeen(requestHash: Option<string>)
    | Other(code: string, outcome: Option<Failure>)   // any operation that leaves the key table alone
    | Atomic(ops: seq<Op>)
  {
    function Code(): string {
      match this
      case Contract(_) => "c"
      case KeyAdd(_) => "ka"
      case KeyDel(_) => "kd"
      case KeyUpdate(_) => "ku"
      case KeyRequest(_, _, _, _) => "kr"
      case KeyRequestSeen(_) => "krs"
      case Other(code, _) => code
      case Atomic(_) => "a"
    }
  }

  /** How an operation can fail: ignorable inside OP_ATOMIC (a warning, a missing decryption key), or not. */
  datatype Failure = Warning | MissingDecryptionKey | Fatal

  type Outcome = Result<Vm, Failure>

  /** The facts of the message an operation belongs to; `signer` is the key as it was when the message arrived. */
  datatype Context = Context(hash: string, height: nat, signer: Key)

  const MAX_SAFE_INTEGER := 0x1F_FFFF_FFFF_FFFF

  predicate SafeInteger(n: int) { -MAX_SAFE_INTEGER <= n <= MAX_SAFE_INTEGER }

  function Min(a: nat, b: nat): nat { if a < b then a else b }

  // ---- keysToMap ---------------------------------------------------------

  /** A key entering the table at `height`; a revoked key that comes back keeps its earlier start. */
  function Entered(item: Item<Key>, height: nat, existing: Keys): Key
    requires item.Readable()
  {
    var k := item.value;
    k.(encryptedWith := if item.Sealed? then Some(item.keyId) else k.encryptedWith,
       notBefore := if k.id in existing then Min(height, existing[k.id].notBefore) else height,
       notAfter := None)
  }

  function KeysToMap(items: seq<Item<Key>>, height: nat, existing: Keys): Result<Keys, Failure> {
    if items == [] then Ok(map[])
    else
      match KeysToMap(items[..|items| - 1], height, existing)
      case Err(e) => Err(e)
      case Ok(m) =>
        var item := items[|items| - 1];
        if !item.Readable() then Ok(m)
        else if item.value.id in existing && existing[item.value.id].Active() then Err(Fatal)
        else Ok(m[item.value.id := Entered(item, height, existing)])
  }

  // ---- permission checks -------------------------------------------------

  /** The signer may add or keep a key like `k`: ring level, permissions and allowed actions within its own. */
  predicate MayGrant(signer: Key, localRing: int, k: Key) {
    && SafeInteger(k.ringLevel) && k.ringLevel >= localRing
    && k.permissions.Inside(signer.permissions)
    && (k.allowedActions.Some? ==>
      signer.allowedActions.Some? && k.allowedActions.value.Inside(signer.allowedActions.value))
  }

  /** `validateKeyAddPermissions` raises nothing. */
  predicate AddAllowed(keys: Keys, signer: Key, items: seq<Item<Key>>, skipPrivateCheck: bool) {
    && signer.id in keys
    && forall i | 0 <= i < |items| && items[i].Readable() ::
         && (!skipPrivateCheck && signer.encryptedWith.Some? ==> items[i].Sealed?)
         && MayGrant(signer, keys[signer.id].ringLevel, items[i].value)
  }

  /** `validateKeyDelPermissions` raises nothing. */
  predicate DelAllowed(keys: Keys, signer: Key, items: seq<Item<KeyId>>) {
    && signer.id in keys
    && forall i | 0 <= i < |items| && items[i].Readable() ::
         && items[i].value in keys
         && signer.encryptedWith.None?
         && (keys[items[i].value].encryptedWith.Some? <==> items[i].Sealed?)
         && SafeInteger(keys[items[i].value].ringLevel)
         && keys[items[i].value].ringLevel >= keys[signer.id].ringLevel
  }

  /** One change of OP_KEY_UPDATE against the key it names, read before anything is modified. */
  function ReadChange(keys: Keys, item: Item<KeyChange>): Result<Key, Failure>
    requires item.Readable()
  {
    var uk := item.value;
    if uk.oldKeyId !in keys then Err(Warning)
    else
      var k := keys[uk.oldKeyId];
      if k.encryptedWith.Some? != item.Sealed? then Err(Fatal)
      else if uk.name != k.name then Err(Fatal)
      else if uk.id.Some? != uk.data.Some? then Err(Fatal)
      else if uk.data.Some? && k.meta.Some? && k.meta.value.hasPrivate && !(uk.meta.Some? && uk.meta.value.hasPrivate)
      then Err(Fatal)
      else Ok(k.(permissions := if uk.permissions.Some? then uk.permissions.value else k.permissions,
                 allowedActions := if uk.allowedActions.Some? then uk.allowedActions else k.allowedActions,
                 purpose := if uk.purpose.Some? then uk.purpose.value else k.purpose,
                 meta := if uk.meta.Some? then uk.meta else k.meta,
                 id := if uk.id.Some? then uk.id.value else k.id,
                 data := if uk.data.Some? then uk.data.value else k.data,
                 notBefore := 0, notAfter := None))
  }

  function ReadChanges(keys: Keys, items: seq<Item<KeyChange>>): Result<seq<Key>, Failure> {
    if items == [] then Ok([])
    else
      match ReadChanges(keys, items[..|items| - 1])
      case Err(e) => Err(e)
      case Ok(us) =>
        var item := items[|items| - 1];
        if !item.Readable() then Ok(us)
        else
          match ReadChange(keys, item)
          case Err(e) => Err(e)
          case Ok(u) => Ok(us + [u])
  }

  /** `updatedMap`: new key id to the id it replaces; the last change with a given new id wins. */
  function Replaced(items: seq<Item<KeyChange>>): map<KeyId, KeyId> {
    if items == [] then map[]
    else
      var m := Replaced(items[..|items| - 1]);
      var item := items[|items| - 1];
      if item.Readable() && item.value.id.Some? && item.value.id.value != item.value.oldKeyId
      then m[item.value.id.value := item.value.oldKeyId]
      else m
  }

  function AsPlain(us: seq<Key>): seq<Item<Key>> {
    seq(|us|, i requires 0 <= i < |us| => Plain(us[i]))
  }

  // ---- deleteKeyHelper, updateKey -----------------------------------------

  function Deleted(keys: Keys, height: nat, ids: set<KeyId>): Keys {
    map k | k in keys :: if k in ids then keys[k].(notAfter := Some(height)) else keys[k]
  }

  /** `updateKey`: permissions, actions and purposes only ever grow. */
  function Merged(key: Key, u: Key): Key {
    key.(purpose := key.purpose + u.purpose,
         permissions := key.permissions.Join(u.permissions),
         allowedActions := if u.allowedActions.None? then key.allowedActions
                           else if key.allowedActions.None? then u.allowedActions
                           else Some(key.allowedActions.value.Join(u.allowedActions.value)),
         meta := if u.meta.Some? then u.meta else key.meta)
  }

  function Install(keys: Keys, height: nat, u: Key): Result<Keys, Failure> {
    if u.id in keys && !keys[u.id].Active() then Err(Fatal)
    else if u.foreignKey.ForeignKey? && !u.foreignKey.namesKey then Err(Fatal)
    else if u.id in keys then Ok(keys[u.id := Merged(keys[u.id], u)])
    else Ok(keys[u.id := u.(notBefore := height, notAfter := None)])
  }

  function InstallAll(keys: Keys, height: nat, us: seq<Key>): Result<Keys, Failure> {
    if us == [] then Ok(keys)
    else
      match InstallAll(keys, height, us[..|us| - 1])
      case Err(e) => Err(e)
      case Ok(k) => Install(k, height, us[|us| - 1])
  }

  // ---- keyAdditionProcessor -----------------------------------------------

  const INVITE_PREFIX := "#inviteKey-"

  predicate InviteName(name: string) { INVITE_PREFIX <= name }

  predicate SakOk(item: Item<Key>)
    requires item.Readable()
  {
    item.value.name == "#sak" ==>
      item.Plain? && item.value.permissions == Only({}) && item.value.purpose == {"sak"} && item.value.ringLevel == 0
  }

  /** The invites after the keys of one operation have been looked at: an invite key (re)creates its invite. */
  function AdditionProcessed(invites: map<KeyId, Invite>, items: seq<Item<Key>>): Result<map<KeyId, Invite>, Failure> {
    if items == [] then Ok(invites)
    else
      match AdditionProcessed(invites, items[..|items| - 1])
      case Err(e) => Err(e)
      case Ok(m) =>
        var item := items[|items| - 1];
        if !item.Readable() then Ok(m)
        else if !SakOk(item) then Err(Fatal)
        else if !InviteName(item.value.name) then Ok(m)
        else if item.value.meta.None? then Err(Fatal)
        else
          var q := item.value.meta.value;
          Ok(m[item.value.id := Invite(Valid, q.quantity, q.quantity, q.expires)])
  }

  // ---- the operations -------------------------------------------------------

  /** OP_CONTRACT: a new table, and the invites among its keys. */
  function ApplyContract(vm: Vm, height: nat, items: seq<Item<Key>>): Outcome {
    match KeysToMap(items, height, map[])
    case Err(e) => Err(e)
    case Ok(keys) =>
      match AdditionProcessed(vm.invites, items)
      case Err(e) => Err(e)
      case Ok(invites) => Ok(vm.(keys := keys, invites := invites))
  }

  function ApplyKeyAdd(vm: Vm, ctx: Context, items: seq<Item<Key>>): Outcome {
    match KeysToMap(items, ctx.height, vm.keys)
    case Err(e) => Err(e)
    case Ok(added) =>
      if !AddAllowed(vm.keys, ctx.signer, items, false) then Err(Fatal)
      else
        match AdditionProcessed(vm.invites, items)
        case Err(e) => Err(e)
        case Ok(invites) => Ok(vm.(keys := vm.keys + added, invites := invites))
  }

  /** The readable ids of keys that are still active; the rest is ignored with a warning. */
  function ActiveIds(keys: Keys, items: seq<Item<KeyId>>): set<KeyId> {
    set i | 0 <= i < |items| && items[i].Readable() && items[i].value in keys && keys[items[i].value].Active()
      :: items[i].value
  }

  predicate BrokenForeign(k: Key) { k.foreignKey.ForeignKey? && !(k.foreignKey.namesContract && k.foreignKey.namesKey) }

  function RevokedInvites(invites: map<KeyId, Invite>, keys: Keys, ids: set<KeyId>): map<KeyId, Invite> {
    map k | k in invites ::
      if k in ids && k in keys && InviteName(keys[k].name) then invites[k].(status := Revoked) else invites[k]
  }

  function ApplyKeyDel(vm: Vm, ctx: Context, items: seq<Item<KeyId>>): Outcome {
    if !DelAllowed(vm.keys, ctx.signer, items) then Err(Fatal)
    else
      var ids := ActiveIds(vm.keys, items);
      if exists k | k in ids :: BrokenForeign(vm.keys[k]) then Err(Fatal)
      else Ok(vm.(keys := Deleted(vm.keys, ctx.height, ids), invites := RevokedInvites(vm.invites, vm.keys, ids)))
  }

  function ApplyKeyUpdate(vm: Vm, ctx: Context, items: seq<Item<KeyChange>>): Outcome {
    match ReadChanges(vm.keys, items)
    case Err(e) => Err(e)
    case Ok(us) =>
      if !AddAllowed(vm.keys, ctx.signer, AsPlain(us), true) then Err(Fatal)
      else
        match InstallAll(Deleted(vm.keys, ctx.height, Replaced(items).Values), ctx.height, us)
        case Err(e) => Err(e)
        case Ok(keys) =>
          match AdditionProcessed(vm.invites, AsPlain(us))
          case Err(e) => Err(e)
          case Ok(invites) => Ok(vm.(keys := keys, invites := invites))
  }

  /** What the invite accounting of an OP_KEY_REQUEST does: the invite afterwards, and whether the request goes on. */
  function Consume(invite: Invite, now: int): (Invite, bool) {
    if invite.status != Valid then (invite, false)
    else
      var expired := invite.expires.Some? && invite.expires.value < now;
      match invite.quantity
      case None => (invite, !expired)
      case Some(q) =>
        if q <= 0 then (invite, false)
        else (invite.(quantity := Some(q - 1), status := if q - 1 <= 0 then Used else Valid), !expired)
  }

  predicate Accounted(vm: Vm, signer: KeyId, op: Op) { op.KeyRequest? && signer in vm.invites && !op.skipAccounting }

  function ApplyKeyRequest(vm: Vm, ctx: Context, op: Op): Vm
    requires op.KeyRequest?
  {
    var id := ctx.signer.id;
    var (invite, goesOn) :=
      if Accounted(vm, id, op) then Consume(vm.invites[id], op.now) else (Invite(Valid, None, None, None), true);
    var vm1 := if Accounted(vm, id, op) then vm.(invites := vm.invites[id := invite]) else vm;
    if !goesOn || op.context.NoContextProperty? || (op.context.From? && op.context.contractID != op.originator) then vm1
    else
      // a request that could not be decrypted leaves a share without a context, and without the flag
      var share := if op.context.From? then PendingShare(id, ctx.height, Some(op.originator), op.skipAccounting)
                   else PendingShare(id, ctx.height, None, false);
      vm1.(pending := vm1.pending[ctx.hash := share])
  }

  /** `validateKeyPermissions`: the key exists, can sign, and holds the permission for the operation. */
  predicate MayIssue(keys: Keys, signer: KeyId, op: Op) {
    signer in keys && "sig" in keys[signer].purpose && keys[signer].permissions.Includes(op.Code())
  }

  /** One operation that is not OP_ATOMIC, in a message after the first. */
  function ApplyPrim(vm: Vm, ctx: Context, op: Op): Outcome {
    match op
    case Contract(_) => Err(Fatal)   // `SPMessage` refuses it in a later message, alone or in a batch
    case KeyAdd(items) => ApplyKeyAdd(vm, ctx, items)
    case KeyDel(items) => ApplyKeyDel(vm, ctx, items)
    case KeyUpdate(items) => ApplyKeyUpdate(vm, ctx, items)
    case KeyRequest(_, _, _, _) => Ok(ApplyKeyRequest(vm, ctx, op))
    case KeyRequestSeen(h) => Ok(if h.Some? then vm.(pending := vm.pending - {h.value}) else vm)
    case Other(_, outcome) => if outcome.Some? then Err(outcome.value) else Ok(vm)
    case Atomic(_) => Err(Fatal)   // cannot nest
  }

  /** The operations of an OP_ATOMIC: ignorable failures are stepped over, any other one undoes the whole batch. */
  function ApplyAtomic(vm: Vm, ctx: Context, ops: seq<Op>): Outcome {
    if ops == [] then Ok(vm)
    else
      match ApplyAtomic(vm, ctx, ops[..|ops| - 1])
      case Err(e) => Err(e)
      case Ok(mid) =>
        var op := ops[|ops| - 1];
        if op.Atomic? || !MayIssue(mid.keys, ctx.signer.id, op) then Err(Fatal)
        else
          match ApplyPrim(mid, ctx, op)
          case Ok(next) => Ok(next)
          case Err(Fatal) => Err(Fatal)
          case Err(_) => Ok(mid)
  }

  function ApplyOp(vm: Vm, ctx: Context, op: Op): Outcome {
    match op
    case Atomic(ops) => ApplyAtomic(vm, ctx, ops)
    case _ => ApplyPrim(vm, ctx, op)
  }

  datatype Message = Message(hash: string, height: nat, signer: KeyId, op: Op)

  /** `verifySignatureData` names the signer: the key exists, the height is in its window, and it may sign. */
  predicate Authentic(keys: Keys, m: Message) {
    m.signer in keys && keys[m.signer].InWindow(m.height) && "sig" in keys[m.signer].purpose
  }

  /** The state after one message: a message that is rejected or fails leaves it as it was. */
  function Process(vm: Vm, m: Message): Vm {
    if !Authentic(vm.keys, m) || !MayIssue(vm.keys, m.signer, m.op) then vm
    else
      match ApplyOp(vm, Context(m.hash, m.height, vm.keys[m.signer]), m.op)
      case Ok(next) => next
      case Err(_) => vm
  }

  /** The state after a first message. */
  function Genesis(items: seq<Item<Key>>, height: nat): Outcome {
    ApplyContract(Vm(map[], map[], map[]), height, items)
  }
}
