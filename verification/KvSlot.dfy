/** One KV slot shared by any number of clients: mirrors, a compare-and-swap server, retries through a reducer. */
module KvSlot {
  import opened Wrappers
  import opened Json

  /** The server's CID of a stored body. */
  type Etag = nat

  /** A stored body: one that cannot be decrypted or verified, or JSON; `null` is the clear sentinel. */
  datatype Wire = Undecodable | Wire(json: Json)

  datatype Reduced = Noop | Invalid | Out(json: Json)

  type Reducer = Option<Json> -> Reduced

  /** A slot definition: how values are validated, and the default that stands in for an absent or cleared one. */
  datatype Slot = Slot(parse: Json -> Option<Json>, default: Option<Json>)
  {
    /** What registration demands of a schema: `null` is rejected and never produced, and parsing is idempotent. */
    ghost predicate Lawful() {
      && parse(Null).None?
      && forall j: Json :: parse(j).Some? ==> parse(j).value != Null && parse(parse(j).value) == parse(j)
    }
  }

  /** What a load makes of a body: nothing valid, or the mirror value (`None` for a cleared slot). */
  function Reads(slot: Slot, w: Wire): Option<Option<Json>> {
    match w
    case Undecodable => None
    case Wire(j) => if j == Null then Some(None) else if slot.parse(j).Some? then Some(slot.parse(j)) else None
  }

  /** What a conflict makes of a body: the value for the reducer to start from. */
  function Basis(slot: Slot, w: Option<Wire>): Option<Option<Json>> {
    match w
    case None => Some(slot.default)
    case Some(Undecodable) => None
    case Some(Wire(j)) =>
      if j == Null then Some(slot.default) else if slot.parse(j).Some? then Some(slot.parse(j)) else None
  }

  /** `validateReducerOutput` */
  datatype Validated = Abort | Reject | Accept(value: Json)

  function Validate(slot: Slot, out: Reduced): Validated {
    match out
    case Noop => Abort
    case Invalid => Reject
    case Out(j) => if slot.parse(j).Some? then Accept(slot.parse(j).value) else Reject
  }

  // ---- a client ------------------------------------------------------------------------

  datatype Status = NonInit | Loading | Loaded | Error

  /** A mirror entry; `value` is `undefined` when absent, and an absent etag is `null`. */
  datatype Mirror = Mirror(value: Option<Json>, etag: Option<Etag>, status: Status)

  /** Why a GET runs on the lane. */
  datatype Purpose =
    | Load
    | Reconcile(demote: set<Etag>)                   // an authoritative GET, after which conflict markers are demoted
    | Reload(reducer: Reducer, attempts: int)        // the silent reload of an update from an error status

  /** A GET can throw, answer with an error status, find nothing, or find a body. */
  datatype GetAnswer = Unanswered | Threw | Failed | Absent | Found(etag: Etag, body: Wire)

  /**
   What a write wants: the reducer with the value it was last given, or a clear. `unpaired`: that value had no etag.
   */
  datatype Job = Update(reducer: Reducer, basis: Option<Json>, unpaired: bool) | Clear

  datatype PostAnswer = Pending | Lost | Committed(etag: Option<Etag>) | Refused(current: Option<(Etag, Wire)>)

  /** The operation that holds the contract's lane. */
  datatype Lane =
    | Idle
    | Getting(purpose: Purpose, prior: Status, answer: GetAnswer)
    | Posting(job: Job, body: Json, ifMatch: Option<Etag>, attempts: int, recovered: bool, conflicted: bool,
        reply: PostAnswer)
    | Recovering(job: Job, attempts: int, answer: GetAnswer)

  /** `echo` maps the CIDs of own writes to whether a conflict preceded them. */
  datatype Client = Client(mirror: Mirror, lane: Lane, echo: map<Etag, bool>)

  const FRESH_CLIENT := Client(Mirror(None, None, NonInit), Idle, map[])

  /** The mirror after a GET that answered: 404, a cleared slot, a valid value, or something that fails validation. */
  function Fetched(slot: Slot, m: Mirror, a: GetAnswer, failed: Status, keepStatus: bool): Mirror {
    match a
    case Absent => Mirror(None, None, if keepStatus then m.status else NonInit)
    case Found(etag, body) =>
      (match Reads(slot, body)
       case None => m.(status := failed)
       case Some(value) =>
         Mirror(value, Some(etag), if keepStatus then m.status else if value.None? then NonInit else Loaded))
    case _ => m.(status := failed)
  }

  /** `computeSeedValue` */
  function Seed(slot: Slot, m: Mirror, reloadRan: bool): Option<Json> {
    if (reloadRan || m.status != Error) && m.value.Some? then m.value else slot.default
  }

  /** The reducer has been given `basis`; the write goes on with its output, or the lane is free again. */
  function Reduce(slot: Slot, reducer: Reducer, basis: Option<Json>, unpaired: bool, ifMatch: Option<Etag>,
                  attempts: int, recovered: bool, conflicted: bool): Lane
  {
    match Validate(slot, reducer(basis))
    case Accept(v) => Posting(Update(reducer, basis, unpaired), v, ifMatch, attempts, recovered, conflicted, Pending)
    case _ => Idle
  }

  /** The first attempt of an update: seeded from the mirror, guarded by the mirror's etag. */
  function Begin(slot: Slot, c: Client, reducer: Reducer, attempts: int, reloadRan: bool): Client {
    var basis := Seed(slot, c.mirror, reloadRan);
    var unpaired := c.mirror.etag.None? && basis != slot.default;
    c.(lane := Reduce(slot, reducer, basis, unpaired, c.mirror.etag, attempts, false, false))
  }

  /** A later attempt: from what the server holds now, guarded by the etag it came with. */
  function Resolve(slot: Slot, job: Job, current: Option<(Etag, Wire)>, attempts: int, recovered: bool): Lane {
    var ifMatch := if current.Some? then Some(current.value.0) else None;
    match job
    case Clear => Posting(Clear, Null, ifMatch, attempts, recovered, true, Pending)
    case Update(reducer, _, _) =>
      match Basis(slot, if current.Some? then Some(current.value.1) else None)
      case None => Idle
      case Some(basis) => Reduce(slot, reducer, basis, false, ifMatch, attempts, recovered, true)
  }

  function Demoted(echo: map<Etag, bool>, which: set<Etag>): map<Etag, bool> {
    map e | e in echo :: echo[e] && e !in which
  }

  function ConflictMarkers(echo: map<Etag, bool>): set<Etag> { set e | e in echo && echo[e] }

  /** The client takes in the answer to its GET. */
  function HandleGet(slot: Slot, c: Client): Client
    requires c.lane.Getting?
  {
    var a := c.lane.answer;
    match c.lane.purpose
    case Load => c.(mirror := Fetched(slot, c.mirror, a, Error, false), lane := Idle)
    case Reconcile(demote) =>
      c.(mirror := Fetched(slot, c.mirror, a, c.lane.prior, false), lane := Idle, echo := Demoted(c.echo, demote))
    case Reload(reducer, attempts) =>
      Begin(slot, c.(mirror := Fetched(slot, c.mirror, a, c.mirror.status, true)), reducer, attempts, true)
  }

  /** The client takes in the answer to its POST; an abort after the commit leaves the mirror alone. */
  function HandlePost(slot: Slot, c: Client, aborted: bool): Client
    requires c.lane.Posting?
  {
    var l := c.lane;
    match l.reply
    case Committed(etag) =>
      var echo := if etag.Some? then c.echo[etag.value := l.conflicted] else c.echo;
      var mirror := if aborted then c.mirror
                    else if l.job.Clear? then Mirror(None, etag, NonInit) else Mirror(Some(l.body), etag, Loaded);
      Client(mirror, Idle, echo)
    case Refused(current) =>
      if l.attempts - 1 <= 0 || aborted then c.(lane := Idle)
      else if current.None? && !l.recovered then c.(lane := Recovering(l.job, l.attempts - 1, Unanswered))
      else c.(lane := Resolve(slot, l.job, current, l.attempts - 1, l.recovered))
    case _ => c.(lane := Idle)
  }

  function HandleRecovery(slot: Slot, c: Client): Client
    requires c.lane.Recovering?
  {
    if c.lane.answer.Threw? then c.(lane := Idle) else
    var current := if c.lane.answer.Found? then Some((c.lane.answer.etag, c.lane.answer.body)) else None;
    c.(lane := Resolve(slot, c.lane.job, current, c.lane.attempts, true))
  }

  /** A GET starts; the status shows it, except where it would only flicker. */
  function StartGet(c: Client, purpose: Purpose): Client {
    var quiet := purpose.Reload? || (purpose.Reconcile? && c.mirror.status == Loaded);
    c.(mirror := if quiet then c.mirror else c.mirror.(status := Loading),
        lane := Getting(purpose, c.mirror.status, Unanswered))
  }

  /** `_handleRemote`: a frame from pubsub, with the CID of its body or without. */
  function HandleRemote(slot: Slot, c: Client, cid: Option<Etag>, body: Wire): Client {
    if cid.Some? && cid.value in c.echo then
      (if c.echo[cid.value] then c else c.(echo := c.echo - {cid.value}))
    else if cid.Some? && ConflictMarkers(c.echo) != {} then StartGet(c, Reconcile(ConflictMarkers(c.echo)))
    else if cid.None? && c.mirror.etag.Some? then StartGet(c, Reconcile(c.echo.Keys))
    else
      match Reads(slot, body)
      case None => c.(mirror := c.mirror.(status := Error))
      case Some(value) => c.(mirror := Mirror(value, cid, if value.None? then NonInit else Loaded))
  }

  /** A client's entry for the slot, whose fields the handlers write; the lane says which of them may run. */
  class SlotEntry {
    const slot: Slot
    var value: Option<Json>
    var etag: Option<Etag>
    var status: Status
    var lane: Lane
    var echoCIDs: map<Etag, bool>

    ghost function Value(): Client
      reads this
    {
      Client(Mirror(value, etag, status), lane, echoCIDs)
    }

    constructor (slot: Slot)
      ensures this.slot == slot && Value() == FRESH_CLIENT
    {
      this.slot := slot;
      value, etag, status, lane, echoCIDs := None, None, NonInit, Idle, map[];
    }

    /** The pubsub handler: suppresses own echoes, falls back to a GET, or applies the frame with its CID. */
    method OnFrame(cid: Option<Etag>, body: Wire)
      requires lane.Idle?
      modifies this
      ensures Value() == HandleRemote(slot, old(Value()), cid, body)
    {
      if cid.Some? {
        if cid.value in echoCIDs {
          if !echoCIDs[cid.value] { echoCIDs := echoCIDs - {cid.value}; }
          return;
        }
        var markers := ConflictMarkers(echoCIDs);
        if markers != {} {
          Fetch(Reconcile(markers));
          return;
        }
      } else if etag.Some? {
        Fetch(Reconcile(echoCIDs.Keys));
        return;
      }
      match Reads(slot, body)
      case None => status := Error;
      case Some(read) =>
        value, etag := read, cid;
        status := if read.None? then NonInit else Loaded;
    }

    /** A GET starts on the lane. */
    method Fetch(purpose: Purpose)
      requires lane.Idle?
      modifies this
      ensures Value() == StartGet(old(Value()), purpose)
    {
      var prior := status;
      if !purpose.Reload? && !(purpose.Reconcile? && status == Loaded) { status := Loading; }
      lane := Getting(purpose, prior, Unanswered);
    }

    /** The answer to a load or to an authoritative GET is taken in. */
    method OnLoaded()
      requires lane.Getting? && !lane.purpose.Reload?
      modifies this
      ensures Value() == HandleGet(slot, old(Value()))
    {
      var failed := if lane.purpose.Load? then Error else lane.prior;
      match lane.answer {
        case Absent => value, etag, status := None, None, NonInit;
        case Found(found, body) =>
          match Reads(slot, body) {
            case None => status := failed;
            case Some(read) =>
              value, etag := read, Some(found);
              status := if read.None? then NonInit else Loaded;
          }
        case _ => status := failed;
      }
      if lane.purpose.Reconcile? { echoCIDs := Demoted(echoCIDs, lane.purpose.demote); }
      lane := Idle;
    }

    /** A write has been committed: its echo is expected before anything else, and then the mirror follows. */
    method OnCommitted(aborted: bool)
      requires lane.Posting? && lane.reply.Committed?
      modifies this
      ensures Value() == HandlePost(slot, old(Value()), aborted)
    {
      if lane.reply.etag.Some? { echoCIDs := echoCIDs[lane.reply.etag.value := lane.conflicted]; }
      if !aborted {
        etag := lane.reply.etag;
        if lane.job.Clear? {
          value, status := None, NonInit;
        } else {
          value, status := Some(lane.body), Loaded;
        }
      }
      lane := Idle;
    }
  }

  // ---- the system ---------------------------------------------------------------------------

  /** A value committed by `update`: who did it, what the server held just before, and whether the seed had no etag. */
  datatype Commit = Commit(author: nat, value: Json, reducer: Reducer, before: Option<Wire>, unpaired: bool)

  /** The register of the server, every body it ever stored, the clients, and the commits so far. */
  datatype World = World(register: Option<Etag>, bodies: map<Etag, Wire>, clients: map<nat, Client>,
                         commits: seq<Commit>)

  datatype Fate = Reached | Refuse | LostBefore | LostAfter

  datatype Action =
    | StartLoad(c: nat)
    | StartUpdate(c: nat, reducer: Reducer, attempts: int)
    | StartClear(c: nat, attempts: int)
    | ServeGet(c: nat, failure: Option<GetAnswer>)
    | TakeGet(c: nat)
    | ServePost(c: nat, etag: Etag, fate: Fate, withEtag: bool)
    | TakePost(c: nat, aborted: bool)
    | Frame(c: nat, cid: Option<Etag>, body: Wire)
    | ExpireEcho(c: nat, own: Etag)
    | OtherWrite(etag: Etag, body: Wire)    // by a client outside this protocol
    | OtherDelete

  /** `if-match` holds: the current etag, or no key at all. */
  predicate Matches(w: World, ifMatch: Option<Etag>) { w.register == ifMatch }

  function Current(w: World): Option<(Etag, Wire)>
    requires w.register.Some? ==> w.register.value in w.bodies
  {
    if w.register.Some? then Some((w.register.value, w.bodies[w.register.value])) else None
  }

  /** A CID names one body for ever. */
  predicate Names(w: World, etag: Etag, body: Wire) { etag in w.bodies ==> w.bodies[etag] == body }

  /** The lane of a client is where the action finds it. */
  predicate Ready(w: World, l: Lane, a: Action) {
    if a.ServeGet? then
      && (l.Getting? || l.Recovering?) && l.answer.Unanswered?
      && (a.failure.Some? ==> a.failure.value in {Threw, Failed})
    else if a.TakeGet? then (l.Getting? || l.Recovering?) && !l.answer.Unanswered?
    else if a.ServePost? then
      && l.Posting? && l.reply.Pending? && Names(w, a.etag, Wire(l.body))
      && (a.fate.LostAfter? ==> Matches(w, l.ifMatch))
    else if a.TakePost? then l.Posting? && !l.reply.Pending?
    else if a.Frame? then l.Idle? && (a.cid.Some? ==> a.cid.value in w.bodies && w.bodies[a.cid.value] == a.body)
    else a.ExpireEcho? || l.Idle?
  }

  predicate Enabled(w: World, a: Action) {
    if a.OtherWrite? then Names(w, a.etag, a.body)
    else if a.OtherDelete? then true
    else a.c in w.clients && Ready(w, w.clients[a.c].lane, a)
  }

  function Answer(w: World, failure: Option<GetAnswer>): GetAnswer
    requires w.register.Some? ==> w.register.value in w.bodies
  {
    if failure.Some? then failure.value
    else if w.register.None? then Absent
    else Found(w.register.value, w.bodies[w.register.value])
  }

  /** The step of one client, where it does not touch the server. */
  function ClientStep(slot: Slot, w: World, c: Client, a: Action): Client
    requires !a.OtherWrite? && !a.OtherDelete? && !a.ServePost?
    requires a.TakeGet? ==> c.lane.Getting? || c.lane.Recovering?
    requires a.ServeGet? ==> c.lane.Getting? || c.lane.Recovering?
    requires a.TakePost? ==> c.lane.Posting?
    requires w.register.Some? ==> w.register.value in w.bodies
  {
    match a
    case StartLoad(_) => StartGet(c, Load)
    case StartUpdate(_, reducer, attempts) =>
      if c.mirror.status == Error && c.mirror.value.Some? then StartGet(c, Reload(reducer, attempts))
      else Begin(slot, c, reducer, attempts, false)
    case StartClear(_, attempts) => c.(lane := Posting(Clear, Null, c.mirror.etag, attempts, false, false, Pending))
    case ServeGet(_, failure) => c.(lane := c.lane.(answer := Answer(w, failure)))
    case TakeGet(_) => if c.lane.Getting? then HandleGet(slot, c) else HandleRecovery(slot, c)
    case TakePost(_, aborted) => HandlePost(slot, c, aborted)
    case Frame(_, cid, body) => HandleRemote(slot, c, cid, body)
    case ExpireEcho(_, cid) => c.(echo := c.echo - {cid})
  }

  /** The server takes a POST: the compare-and-swap, and an answer that may get lost. */
  function Serve(w: World, a: Action): World
    requires Enabled(w, a) && a.ServePost? && (w.register.Some? ==> w.register.value in w.bodies)
  {
    var c := w.clients[a.c];
    var l := c.lane;
    var accepted := Matches(w, l.ifMatch) && (a.fate.Reached? || a.fate.LostAfter?);
    var reply := if a.fate.LostBefore? || a.fate.LostAfter? then Lost
                 else if accepted then Committed(if a.withEtag then Some(a.etag) else None)
                 else Refused(Current(w));
    var w1 := w.(clients := w.clients[a.c := c.(lane := l.(reply := reply))]);
    if !accepted then w1
    else
      var before := if w.register.Some? then Some(w.bodies[w.register.value]) else None;
      w1.(register := Some(a.etag), bodies := w.bodies[a.etag := Wire(l.body)],
          commits := if l.job.Update? then w.commits + [Commit(a.c, l.body, l.job.reducer, before, l.job.unpaired)]
                     else w.commits)
  }

  function Next(slot: Slot, w: World, a: Action): World
    requires Enabled(w, a) && (w.register.Some? ==> w.register.value in w.bodies)
  {
    match a
    case OtherWrite(etag, body) => w.(register := Some(etag), bodies := w.bodies[etag := body])
    case OtherDelete => w.(register := None)
    case ServePost(_, _, _, _) => Serve(w, a)
    case _ => w.(clients := w.clients[a.c := ClientStep(slot, w, w.clients[a.c], a)])
  }

  // ---- the invariant ----------------------------------------------------------------------------

  /** The mirror pairing: an etag names a body whose validated form is the mirror value. */
  predicate Paired(slot: Slot, bodies: map<Etag, Wire>, m: Mirror) {
    m.etag.Some? ==> m.etag.value in bodies && Reads(slot, bodies[m.etag.value]) == Some(m.value)
  }

  predicate Known(bodies: map<Etag, Wire>, etag: Etag, body: Wire) { etag in bodies && bodies[etag] == body }

  predicate AnswerOk(bodies: map<Etag, Wire>, a: GetAnswer) { a.Found? ==> Known(bodies, a.etag, a.body) }

  /**
   A write in progress: its body is the validated output on its basis, and the precondition it sends goes with the
   basis.
   */
  predicate JobOk(slot: Slot, bodies: map<Etag, Wire>, job: Job, body: Json, ifMatch: Option<Etag>) {
    match job
    case Clear => body == Null
    case Update(reducer, basis, unpaired) =>
      && Validate(slot, reducer(basis)) == Accept(body)
      && (match ifMatch
          case Some(e) => e in bodies && Basis(slot, Some(bodies[e])) == Some(basis) && !unpaired
          case None => unpaired || basis == slot.default)
  }

  predicate LaneOk(slot: Slot, bodies: map<Etag, Wire>, l: Lane) {
    match l
    case Idle => true
    case Getting(_, _, answer) => AnswerOk(bodies, answer)
    case Recovering(_, _, answer) => AnswerOk(bodies, answer)
    case Posting(job, body, ifMatch, _, _, _, reply) =>
      && (reply.Pending? ==> JobOk(slot, bodies, job, body, ifMatch))
      && (job.Clear? ==> body == Null)
      && (job.Update? ==> slot.parse(body) == Some(body))
      && (reply.Committed? && reply.etag.Some? ==> Known(bodies, reply.etag.value, Wire(body)))
      && (reply.Refused? && reply.current.Some? ==> Known(bodies, reply.current.value.0, reply.current.value.1))
  }

  /** A slot reported as loaded has a value, and one reported as not initialised has none. */
  predicate StatusOk(value: Option<Json>, status: Status) {
    (status.Loaded? ==> value.Some?) && (status.NonInit? ==> value.None?)
  }

  /** A mirror value has passed validation, and passes it again as it is. */
  predicate Settled(slot: Slot, value: Option<Json>) { value.Some? ==> slot.parse(value.value) == value }

  predicate ClientOk(slot: Slot, bodies: map<Etag, Wire>, c: Client) {
    && Paired(slot, bodies, c.mirror) && LaneOk(slot, bodies, c.lane)
    && Settled(slot, c.mirror.value)
    && StatusOk(c.mirror.value, c.mirror.status)
    && (c.lane.Getting? ==>
      StatusOk(c.mirror.value, c.lane.prior) && (c.lane.purpose.Reload? ==> c.mirror.status == Error))
  }

  /** No lost update: the committed value is the validated output of the reducer on what the server held just before. */
  predicate Lossless(slot: Slot, k: Commit) {
    Basis(slot, k.before).Some? && Validate(slot, k.reducer(Basis(slot, k.before).value)) == Accept(k.value)
  }

  /** The one exception started from a seed that had no etag, and replaced nothing. */
  predicate NothingLost(slot: Slot, k: Commit) {
    slot.parse(k.value) == Some(k.value) && if k.unpaired then k.before.None? else Lossless(slot, k)
  }

  predicate Inv(slot: Slot, w: World) {
    && (w.register.Some? ==> w.register.value in w.bodies)
    && (forall c <- w.clients :: ClientOk(slot, w.bodies, w.clients[c]))
    && (forall i | 0 <= i < |w.commits| :: NothingLost(slot, w.commits[i]))
  }

  // ---- preserved by every step ----------------------------------------------------------------------

  lemma ReduceOk(slot: Slot, bodies: map<Etag, Wire>, reducer: Reducer, basis: Option<Json>, unpaired: bool,
                 ifMatch: Option<Etag>, attempts: int, recovered: bool, conflicted: bool)
    requires slot.Lawful()
    requires match ifMatch
      case Some(e) => e in bodies && Basis(slot, Some(bodies[e])) == Some(basis) && !unpaired
      case None => unpaired || basis == slot.default
    ensures LaneOk(slot, bodies, Reduce(slot, reducer, basis, unpaired, ifMatch, attempts, recovered, conflicted))
    ensures !Reduce(slot, reducer, basis, unpaired, ifMatch, attempts, recovered, conflicted).Getting?
  {
  }

  lemma FetchedOk(slot: Slot, bodies: map<Etag, Wire>, m: Mirror, a: GetAnswer, failed: Status, keepStatus: bool)
    requires Paired(slot, bodies, m) && AnswerOk(bodies, a) && StatusOk(m.value, m.status) && StatusOk(m.value, failed)
    ensures Paired(slot, bodies, Fetched(slot, m, a, failed, keepStatus))
    ensures keepStatus && m.status.Error? && failed.Error? ==> Fetched(slot, m, a, failed, keepStatus).status.Error?
    ensures keepStatus ==> m.status.Error? ==> StatusOk(Fetched(slot, m, a, failed, keepStatus).value, Error)
    ensures !keepStatus ==>
      StatusOk(Fetched(slot, m, a, failed, keepStatus).value, Fetched(slot, m, a, failed, keepStatus).status)
    ensures slot.Lawful() && Settled(slot, m.value) ==> Settled(slot, Fetched(slot, m, a, failed, keepStatus).value)
  {
    if a.Found? { ReadsSettled(slot, a.body); }
  }

  lemma ReadsSettled(slot: Slot, w: Wire)
    ensures slot.Lawful() && Reads(slot, w).Some? ==> Settled(slot, Reads(slot, w).value)
  {
  }

  /** The seed of a first attempt is what the etag it will send names: the heart of the matter. */
  lemma BeginOk(slot: Slot, bodies: map<Etag, Wire>, c: Client, reducer: Reducer, attempts: int, reloadRan: bool)
    requires slot.Lawful() && Paired(slot, bodies, c.mirror) && StatusOk(c.mirror.value, c.mirror.status)
    requires Settled(slot, c.mirror.value)
    requires reloadRan || c.mirror.status != Error || c.mirror.value.None?
    ensures ClientOk(slot, bodies, Begin(slot, c, reducer, attempts, reloadRan))
  {
    hide Reduce, LaneOk;
    var basis := Seed(slot, c.mirror, reloadRan);
    ReduceOk(slot, bodies, reducer, basis, c.mirror.etag.None? && basis != slot.default, c.mirror.etag, attempts,
        false, false);
  }

  lemma ResolveOk(slot: Slot, bodies: map<Etag, Wire>, job: Job, current: Option<(Etag, Wire)>, attempts: int,
                  recovered: bool)
    requires slot.Lawful() && (current.Some? ==> Known(bodies, current.value.0, current.value.1))
    ensures LaneOk(slot, bodies, Resolve(slot, job, current, attempts, recovered))
    ensures !Resolve(slot, job, current, attempts, recovered).Getting?
  {
    hide Reduce, LaneOk;
    var ifMatch := if current.Some? then Some(current.value.0) else None;
    var basis := Basis(slot, if current.Some? then Some(current.value.1) else None);
    if job.Update? && basis.Some? {
      ReduceOk(slot, bodies, job.reducer, basis.value, false, ifMatch, attempts, recovered, true);
    }
    SimpleLanesOk(slot, bodies, ifMatch, attempts, recovered);
  }

  lemma SimpleLanesOk(slot: Slot, bodies: map<Etag, Wire>, ifMatch: Option<Etag>, attempts: int, recovered: bool)
    ensures LaneOk(slot, bodies, Idle)
    ensures LaneOk(slot, bodies, Posting(Clear, Null, ifMatch, attempts, recovered, true, Pending))
  {
  }

  lemma HandleGetOk(slot: Slot, bodies: map<Etag, Wire>, c: Client)
    requires slot.Lawful() && ClientOk(slot, bodies, c) && c.lane.Getting?
    ensures ClientOk(slot, bodies, HandleGet(slot, c))
  {
    hide Fetched, Begin, Paired;
    var keep := c.lane.purpose.Reload?;
    var failed := if c.lane.purpose.Load? then Error else if keep then c.mirror.status else c.lane.prior;
    var m := Fetched(slot, c.mirror, c.lane.answer, failed, keep);
    FetchedOk(slot, bodies, c.mirror, c.lane.answer, failed, keep);
    if keep {
      BeginOk(slot, bodies, c.(mirror := m), c.lane.purpose.reducer, c.lane.purpose.attempts, true);
    }
  }

  lemma HandlePostOk(slot: Slot, bodies: map<Etag, Wire>, c: Client, aborted: bool)
    requires slot.Lawful() && ClientOk(slot, bodies, c) && c.lane.Posting?
    ensures ClientOk(slot, bodies, HandlePost(slot, c, aborted))
  {
    hide Resolve;
    var l := c.lane;
    if l.reply.Refused? {
      ResolveOk(slot, bodies, l.job, l.reply.current, l.attempts - 1, l.recovered);
    }
  }

  lemma HandleRemoteOk(slot: Slot, bodies: map<Etag, Wire>, c: Client, cid: Option<Etag>, body: Wire)
    requires slot.Lawful() && ClientOk(slot, bodies, c) && c.lane.Idle?
    requires cid.Some? ==> Known(bodies, cid.value, body)
    ensures ClientOk(slot, bodies, HandleRemote(slot, c, cid, body))
  {
    hide Reads;
    ReadsSettled(slot, body);
  }

  /** No step of a client by itself breaks its pairing or its plans. */
  lemma ClientStepOk(slot: Slot, w: World, a: Action)
    requires slot.Lawful() && Inv(slot, w) && Enabled(w, a) && !a.OtherWrite? && !a.OtherDelete? && !a.ServePost?
    ensures ClientOk(slot, w.bodies, ClientStep(slot, w, w.clients[a.c], a))
  {
    hide HandleGet, HandlePost, HandleRemote, HandleRecovery, Begin;
    var c := w.clients[a.c];
    assert ClientOk(slot, w.bodies, c);
    match a
    case StartUpdate(_, reducer, attempts) =>
      if !(c.mirror.status == Error && c.mirror.value.Some?) { BeginOk(slot, w.bodies, c, reducer, attempts, false); }
    case TakeGet(_) =>
      if c.lane.Getting? { HandleGetOk(slot, w.bodies, c); } else { HandleRecoveryOk(slot, w.bodies, c); }
    case TakePost(_, aborted) => HandlePostOk(slot, w.bodies, c, aborted);
    case Frame(_, cid, body) => HandleRemoteOk(slot, w.bodies, c, cid, body);
    case _ =>
  }

  lemma HandleRecoveryOk(slot: Slot, bodies: map<Etag, Wire>, c: Client)
    requires slot.Lawful() && ClientOk(slot, bodies, c) && c.lane.Recovering?
    ensures ClientOk(slot, bodies, HandleRecovery(slot, c))
  {
    hide Resolve;
    var current := if c.lane.answer.Found? then Some((c.lane.answer.etag, c.lane.answer.body)) else None;
    ResolveOk(slot, bodies, c.lane.job, current, c.lane.attempts, true);
  }

  predicate Grows(bodies: map<Etag, Wire>, bodies': map<Etag, Wire>) {
    forall e <- bodies :: e in bodies' && bodies'[e] == bodies[e]
  }

  /** What the server stores stays, so other clients are not disturbed. */
  lemma GrowsOk(slot: Slot, bodies: map<Etag, Wire>, bodies': map<Etag, Wire>, c: Client)
    requires Grows(bodies, bodies') && ClientOk(slot, bodies, c)
    ensures ClientOk(slot, bodies', c)
  {
  }

  /** The compare-and-swap commits only what was reduced from what it replaces. */
  lemma CommitLosesNothing(slot: Slot, w: World, author: nat, l: Lane)
    requires Inv(slot, w) && l.Posting? && l.reply.Pending? && LaneOk(slot, w.bodies, l) && l.job.Update?
    requires Matches(w, l.ifMatch)
    ensures var before := if w.register.Some? then Some(w.bodies[w.register.value]) else None;
      NothingLost(slot, Commit(author, l.body, l.job.reducer, before, l.job.unpaired))
  {
  }

  lemma ServeOk(slot: Slot, w: World, a: Action)
    requires slot.Lawful() && Inv(slot, w) && Enabled(w, a) && a.ServePost?
    ensures Inv(slot, Serve(w, a))
  {
    hide NothingLost, Paired;
    var w', l := Serve(w, a), w.clients[a.c].lane;
    assert ClientOk(slot, w.bodies, w.clients[a.c]);
    assert Grows(w.bodies, w'.bodies);
    forall c | c in w'.clients ensures ClientOk(slot, w'.bodies, w'.clients[c]) {
      assert ClientOk(slot, w.bodies, w.clients[c]);
      GrowsOk(slot, w.bodies, w'.bodies, w.clients[c]);
    }
    if l.job.Update? && Matches(w, l.ifMatch) { CommitLosesNothing(slot, w, a.c, l); }
  }

  lemma NextOk(slot: Slot, w: World, a: Action)
    requires slot.Lawful() && Inv(slot, w) && Enabled(w, a)
    ensures Inv(slot, Next(slot, w, a))
  {
    hide NothingLost, ClientOk, Serve, ClientStep;
    var w' := Next(slot, w, a);
    if a.ServePost? {
      ServeOk(slot, w, a);
    } else if a.OtherWrite? || a.OtherDelete? {
      assert Grows(w.bodies, w'.bodies);
      forall c | c in w'.clients ensures ClientOk(slot, w'.bodies, w'.clients[c]) {
        GrowsOk(slot, w.bodies, w'.bodies, w.clients[c]);
      }
    } else {
      ClientStepOk(slot, w, a);
    }
  }

  // ---- every run -----------------------------------------------------------------------------------

  /** A world before anything happened: fresh clients, and a register that may or may not hold something. */
  ghost predicate Initial(w: World) {
    && (w.register.Some? ==> w.register.value in w.bodies)
    && (forall c <- w.clients :: w.clients[c] == FRESH_CLIENT)
    && w.commits == []
  }

  ghost predicate Run(slot: Slot, worlds: seq<World>, actions: seq<Action>) {
    && |worlds| == |actions| + 1
    && (worlds[0].register.Some? ==> worlds[0].register.value in worlds[0].bodies)
    && forall i | 0 <= i < |actions| :: StepOk(slot, worlds[i], actions[i], worlds[i + 1])
  }

  ghost predicate StepOk(slot: Slot, w: World, a: Action, w': World) {
    && Enabled(w, a)
    && (w.register.Some? ==> w.register.value in w.bodies)
    && w' == Next(slot, w, a)
  }

  lemma {:induction false} RunInv(slot: Slot, worlds: seq<World>, actions: seq<Action>, i: nat)
    requires slot.Lawful() && Run(slot, worlds, actions) && Initial(worlds[0]) && i < |worlds|
    ensures Inv(slot, worlds[i])
  {
    hide Inv, StepOk;
    if i == 0 {
      InitialInv(slot, worlds[0]);
    } else {
      RunInv(slot, worlds, actions, i - 1);
      assert StepOk(slot, worlds[i - 1], actions[i - 1], worlds[i]);
      StepKeepsInv(slot, worlds[i - 1], actions[i - 1], worlds[i]);
    }
  }

  lemma InitialInv(slot: Slot, w: World)
    requires Initial(w)
    ensures Inv(slot, w)
  {
    forall c | c in w.clients ensures ClientOk(slot, w.bodies, w.clients[c]) {
      assert w.clients[c] == FRESH_CLIENT;
    }
  }

  lemma StepKeepsInv(slot: Slot, w: World, a: Action, w': World)
    requires slot.Lawful() && Inv(slot, w) && StepOk(slot, w, a, w')
    ensures Inv(slot, w')
  {
    hide Inv, Next;
    NextOk(slot, w, a);
  }

  /**
   For any number of clients and every interleaving of loads, frames (lost, repeated, out of order, without a CID),
   failed requests, updates, clears and writes by others: every value that `update` commits is the validated output of
   its reducer on what the server held immediately before, with the default for nothing or a cleared slot. The one
   exception is an update that started from a mirror with a value but no etag, and such an update only ever commits
   where the server held nothing.
   */
  lemma NoLostUpdates(slot: Slot, worlds: seq<World>, actions: seq<Action>, i: nat, k: nat)
    requires slot.Lawful() && Run(slot, worlds, actions) && Initial(worlds[0]) && i < |worlds|
    requires k < |worlds[i].commits|
    ensures var commit := worlds[i].commits[k];
      if commit.unpaired then commit.before.None? else Lossless(slot, commit)
  {
    hide Run;
    RunInv(slot, worlds, actions, i);
    assert NothingLost(slot, worlds[i].commits[k]);
  }

  /**
   In every reachable state of every client, an etag in the mirror names a body whose validated form is the mirror
   value, and the status tells whether there is one.
   */
  lemma MirrorsArePaired(slot: Slot, worlds: seq<World>, actions: seq<Action>, i: nat, c: nat)
    requires slot.Lawful() && Run(slot, worlds, actions) && Initial(worlds[0]) && i < |worlds| && c in worlds[i].clients
    ensures var m := worlds[i].clients[c].mirror;
      && (m.etag.Some? ==>
        m.etag.value in worlds[i].bodies && Reads(slot, worlds[i].bodies[m.etag.value]) == Some(m.value))
      && (m.status.Loaded? ==> m.value.Some?) && (m.status.NonInit? ==> m.value.None?)
  {
    hide Run;
    RunInv(slot, worlds, actions, i);
    assert ClientOk(slot, worlds[i].bodies, worlds[i].clients[c]);
  }

  // ---- which updates are safe ----------------------------------------------------------------------

  /** The action starts something new on the lane of client `c`. */
  predicate Begins(a: Action, c: nat) {
    (a.StartLoad? || a.StartUpdate? || a.StartClear? || a.Frame?) && a.c == c
  }

  /** An update of client `c` that starts in `w`, and whatever else happens while it runs and after it. */
  ghost predicate UpdateRun(slot: Slot, w: World, c: nat, worlds: seq<World>, actions: seq<Action>) {
    && Run(slot, worlds, actions) && worlds[0] == w
    && actions != [] && actions[0].StartUpdate? && actions[0].c == c
    && forall i | 1 <= i < |actions| :: !Begins(actions[i], c)
  }

  /** What client `c` committed since there were `n` commits lost nothing. */
  predicate LosslessSince(slot: Slot, commits: seq<Commit>, n: nat, c: nat) {
    forall k | n <= k < |commits| && commits[k].author == c :: Lossless(slot, commits[k])
  }

  /** Whatever its reducer, an update of client `c` that starts now loses nothing, whatever happens meanwhile. */
  ghost predicate UpdateIsSafe(slot: Slot, w: World, c: nat) {
    forall worlds: seq<World>, actions: seq<Action> | UpdateRun(slot, w, c, worlds, actions) ::
      LosslessSince(slot, worlds[|actions|].commits, |w.commits|, c)
  }

  /**
   A mirror to start from safely: its seed goes with its etag, or there is neither etag nor anything but the default.
   */
  predicate SafeMirror(slot: Slot, m: Mirror) { m.etag.Some? || m.value.None? || m.value == slot.default }

  predicate SafeClient(slot: Slot, c: Client) {
    match c.lane
    case Getting(purpose, _, _) => purpose.Reload? && SafeMirror(slot, c.mirror)
    case Posting(job, _, _, _, _, _, reply) => reply.Pending? && job.Update? ==> !job.unpaired
    case _ => true
  }

  predicate PairedSince(commits: seq<Commit>, n: nat, c: nat) {
    forall k | n <= k < |commits| && commits[k].author == c :: !commits[k].unpaired
  }

  lemma BeginSafe(slot: Slot, c: Client, reducer: Reducer, attempts: int, reloadRan: bool)
    requires SafeMirror(slot, c.mirror)
    ensures SafeClient(slot, Begin(slot, c, reducer, attempts, reloadRan))
  {
    hide Validate;
  }

  lemma FetchedSafe(slot: Slot, m: Mirror, a: GetAnswer, failed: Status, keepStatus: bool)
    requires SafeMirror(slot, m)
    ensures SafeMirror(slot, Fetched(slot, m, a, failed, keepStatus))
  {
    hide Reads;
  }

  lemma ClientStepSafe(slot: Slot, w: World, c: Client, a: Action)
    requires (w.register.Some? ==> w.register.value in w.bodies) && Ready(w, c.lane, a)
    requires !a.OtherWrite? && !a.OtherDelete? && !a.ServePost? && SafeClient(slot, c)
    requires if a.StartUpdate? then SafeMirror(slot, c.mirror) else !Begins(a, a.c)
    ensures SafeClient(slot, ClientStep(slot, w, c, a))
  {
    hide Fetched, Begin, Basis, Validate, Reads;
    if a.StartUpdate? {
      if !(c.mirror.status == Error && c.mirror.value.Some?) { BeginSafe(slot, c, a.reducer, a.attempts, false); }
    } else if a.TakeGet? && c.lane.Getting? {
      var m := Fetched(slot, c.mirror, c.lane.answer, c.mirror.status, true);
      FetchedSafe(slot, c.mirror, c.lane.answer, c.mirror.status, true);
      BeginSafe(slot, c.(mirror := m), c.lane.purpose.reducer, c.lane.purpose.attempts, true);
    }
  }

  lemma StepSafe(slot: Slot, w: World, a: Action, w': World, n: nat, c: nat)
    requires StepOk(slot, w, a, w') && c in w.clients && SafeClient(slot, w.clients[c]) && PairedSince(w.commits, n, c)
    requires Begins(a, c) ==> a.StartUpdate? && SafeMirror(slot, w.clients[c].mirror)
    ensures c in w'.clients && SafeClient(slot, w'.clients[c]) && PairedSince(w'.commits, n, c)
  {
    hide ClientStep, SafeMirror;
    if !a.OtherWrite? && !a.OtherDelete? && !a.ServePost? && a.c == c { ClientStepSafe(slot, w, w.clients[c], a); }
  }

  lemma {:induction false} UpdateRunSafe(slot: Slot, w: World, c: nat, worlds: seq<World>, actions: seq<Action>, i: nat)
    requires UpdateRun(slot, w, c, worlds, actions) && c in w.clients && w.clients[c].lane.Idle?
    requires SafeMirror(slot, w.clients[c].mirror) && i < |worlds|
    ensures c in worlds[i].clients && SafeClient(slot, worlds[i].clients[c])
    ensures PairedSince(worlds[i].commits, |w.commits|, c)
  {
    hide StepOk, SafeMirror;
    if i > 0 {
      UpdateRunSafe(slot, w, c, worlds, actions, i - 1);
      assert StepOk(slot, worlds[i - 1], actions[i - 1], worlds[i]);
      StepSafe(slot, worlds[i - 1], actions[i - 1], worlds[i], |w.commits|, c);
    }
  }

  lemma {:induction false} RunKeepsInv(slot: Slot, worlds: seq<World>, actions: seq<Action>, i: nat)
    requires slot.Lawful() && Run(slot, worlds, actions) && Inv(slot, worlds[0]) && i < |worlds|
    ensures Inv(slot, worlds[i])
  {
    hide Inv, StepOk;
    if i > 0 {
      RunKeepsInv(slot, worlds, actions, i - 1);
      assert StepOk(slot, worlds[i - 1], actions[i - 1], worlds[i]);
      StepKeepsInv(slot, worlds[i - 1], actions[i - 1], worlds[i]);
    }
  }

  lemma SafeMirrorSuffices(slot: Slot, w: World, c: nat)
    requires slot.Lawful() && Inv(slot, w) && c in w.clients && w.clients[c].lane.Idle?
    requires SafeMirror(slot, w.clients[c].mirror)
    ensures UpdateIsSafe(slot, w, c)
  {
    hide SafeMirror, SafeClient, ClientOk, Lossless;
    forall worlds: seq<World>, actions: seq<Action> | UpdateRun(slot, w, c, worlds, actions)
      ensures LosslessSince(slot, worlds[|actions|].commits, |w.commits|, c)
    {
      UpdateRunSafe(slot, w, c, worlds, actions, |actions|);
      RunKeepsInv(slot, worlds, actions, |actions|);
      var commits := worlds[|actions|].commits;
      forall k | |w.commits| <= k < |commits| && commits[k].author == c ensures Lossless(slot, commits[k]) {
        assert NothingLost(slot, commits[k]);
      }
    }
  }

  // an update that starts from any other mirror can lose what a reducer would have made of the default

  /** Keeps the value `v`, and makes nothing of anything else. */
  function KeepsOnly(v: Json): Reducer { (basis: Option<Json>) => if basis == Some(v) then Out(v) else Invalid }

  /** There is always an etag that names nothing yet. */
  lemma {:induction false} UnusedAbove(used: set<Etag>) returns (bound: Etag)
    ensures forall e <- used :: e < bound
  {
    if used == {} {
      bound := 0;
    } else {
      var e :| e in used;
      var below := UnusedAbove(used - {e});
      bound := if e < below then below else e + 1;
      assert forall e' <- used :: e' == e || e' in used - {e};
    }
  }

  /** The client has reduced its mirror, and sends the outcome as the first write ever. */
  function SendingOwn(c: Client, v: Json): Client {
    c.(lane := Posting(Update(KeepsOnly(v), Some(v), true), v, None, 1, false, false, Pending))
  }

  /** The client's mirror holds the value `v`, which is not the default, without an etag. */
  predicate Unpaired(slot: Slot, c: Client, v: Json) {
    c.mirror.etag.None? && c.mirror.value == Some(v) && slot.default != Some(v) && slot.parse(v) == Some(v)
  }

  lemma OwnBegins(slot: Slot, c: Client, v: Json, reloadRan: bool)
    requires Unpaired(slot, c, v) && (reloadRan || c.mirror.status != Error)
    ensures Begin(slot, c, KeepsOnly(v), 1, reloadRan) == SendingOwn(c, v)
  {
  }

  /** The world with another state of one client. */
  function With(w: World, c: nat, client: Client): World { w.(clients := w.clients[c := client]) }

  /** From an error status the update reloads first; when that fails too, it starts from the mirror after all. */
  lemma OwnReloads(slot: Slot, w: World, c: nat, v: Json) returns (worlds: seq<World>, actions: seq<Action>)
    requires c in w.clients && w.clients[c].lane.Idle? && Unpaired(slot, w.clients[c], v)
    requires w.register.Some? ==> w.register.value in w.bodies
    ensures UpdateRun(slot, w, c, worlds, actions) && worlds[|actions|] == With(w, c, SendingOwn(w.clients[c], v))
  {
    hide Begin, SendingOwn;
    var client := w.clients[c];
    var start := StartUpdate(c, KeepsOnly(v), 1);
    var sending := With(w, c, SendingOwn(client, v));
    if client.mirror.status == Error {
      var getting := client.(lane := Getting(Reload(KeepsOnly(v), 1), Error, Unanswered));
      var answered := client.(lane := Getting(Reload(KeepsOnly(v), 1), Error, Failed));
      OwnBegins(slot, answered, v, true);
      assert Begin(slot, answered, KeepsOnly(v), 1, true) == SendingOwn(client, v) by {
        SendingFrom(client, answered, v);
      }
      var w1, w2 := With(w, c, getting), With(w, c, answered);
      assert StepOk(slot, w, start, w1);
      assert StepOk(slot, w1, ServeGet(c, Some(Failed)), w2);
      assert StepOk(slot, w2, TakeGet(c), sending);
      worlds, actions := [w, w1, w2, sending], [start, ServeGet(c, Some(Failed)), TakeGet(c)];
    } else {
      OwnBegins(slot, client, v, false);
      assert StepOk(slot, w, start, sending);
      worlds, actions := [w, sending], [start];
    }
  }

  lemma SendingFrom(c: Client, c': Client, v: Json)
    requires c' == c.(lane := c'.lane)
    ensures SendingOwn(c', v) == SendingOwn(c, v)
  {
  }

  lemma Extended(slot: Slot, w: World, c: nat, worlds: seq<World>, actions: seq<Action>, a: Action, w': World)
    requires UpdateRun(slot, w, c, worlds, actions) && StepOk(slot, worlds[|actions|], a, w') && !Begins(a, c)
    ensures UpdateRun(slot, w, c, worlds + [w'], actions + [a]) && (worlds + [w'])[|actions + [a]|] == w'
  {
    hide StepOk;
    var worlds', actions' := worlds + [w'], actions + [a];
    forall i | 0 <= i < |actions'| ensures StepOk(slot, worlds'[i], actions'[i], worlds'[i + 1]) {
      if i < |actions| { assert StepOk(slot, worlds[i], actions[i], worlds[i + 1]); }
    }
  }

  /** The server loses what it holds, and takes the write for the first one. */
  lemma OwnIsCommitted(slot: Slot, w: World, c: nat, v: Json) returns (worlds: seq<World>, actions: seq<Action>)
    requires c in w.clients && w.clients[c].lane.Idle? && Unpaired(slot, w.clients[c], v)
    requires w.register.Some? ==> w.register.value in w.bodies
    ensures UpdateRun(slot, w, c, worlds, actions)
    ensures worlds[|actions|].commits == w.commits + [Commit(c, v, KeepsOnly(v), None, true)]
  {
    hide StepOk;
    worlds, actions := OwnReloads(slot, w, c, v);
    var sending := worlds[|actions|];
    var lost := sending.(register := None);
    var etag := UnusedAbove(sending.bodies.Keys);
    assert StepOk(slot, sending, OtherDelete, lost) by { DeletedStep(slot, sending); }
    Extended(slot, w, c, worlds, actions, OtherDelete, lost);
    worlds, actions := worlds + [lost], actions + [OtherDelete];
    var post := ServePost(c, etag, Reached, true);
    ServedStep(slot, lost, post);
    Extended(slot, w, c, worlds, actions, post, Serve(lost, post));
    worlds, actions := worlds + [Serve(lost, post)], actions + [post];
  }

  lemma DeletedStep(slot: Slot, w: World)
    requires w.register.Some? ==> w.register.value in w.bodies
    ensures StepOk(slot, w, OtherDelete, w.(register := None))
  {
  }

  lemma ServedStep(slot: Slot, w: World, a: Action)
    requires Enabled(w, a) && a.ServePost? && w.register.None?
    ensures StepOk(slot, w, a, Serve(w, a))
  {
  }

  lemma OtherMirrorsDoNot(slot: Slot, w: World, c: nat)
    requires Inv(slot, w) && c in w.clients && w.clients[c].lane.Idle? && !SafeMirror(slot, w.clients[c].mirror)
    ensures !UpdateIsSafe(slot, w, c)
  {
    assert ClientOk(slot, w.bodies, w.clients[c]);
    var v := w.clients[c].mirror.value.value;
    var worlds, actions := OwnIsCommitted(slot, w, c, v);
    var k := Commit(c, v, KeepsOnly(v), None, true);
    assert worlds[|actions|].commits[|w.commits|] == k;
    assert !Lossless(slot, k);
  }

  /**
   When the exception can arise: in every reachable state, an update that a client starts is safe for every reducer and
   every continuation if and only if its mirror has an etag, or has no value but the default.
   */
  lemma UpdateIsSafeIff(slot: Slot, worlds: seq<World>, actions: seq<Action>, i: nat, c: nat)
    requires slot.Lawful() && Run(slot, worlds, actions) && Initial(worlds[0]) && i < |worlds|
    requires c in worlds[i].clients && worlds[i].clients[c].lane.Idle?
    ensures UpdateIsSafe(slot, worlds[i], c) <==> SafeMirror(slot, worlds[i].clients[c].mirror)
  {
    hide Run, UpdateIsSafe, SafeMirror;
    RunInv(slot, worlds, actions, i);
    if SafeMirror(slot, worlds[i].clients[c].mirror) {
      SafeMirrorSuffices(slot, worlds[i], c);
    } else {
      OtherMirrorsDoNot(slot, worlds[i], c);
    }
  }

  // ---- updates compose -------------------------------------------------------------------------------

  /** Nobody clears, and nobody writes from outside. */
  predicate UpdatesOnly(a: Action) { !a.StartClear? && !a.OtherWrite? && !a.OtherDelete? }

  /** No clear is on the lane. */
  predicate Updater(c: Client) {
    match c.lane
    case Posting(job, _, _, _, _, _, _) => job.Update?
    case Recovering(job, _, _) => job.Update?
    case _ => true
  }

  /** Each commit replaced the one before it, the first of them what the server held at the start. */
  predicate Linked(start: Option<Wire>, commits: seq<Commit>) {
    forall k | 0 <= k < |commits| :: commits[k].before == Before(start, commits, k)
  }

  function Before(start: Option<Wire>, commits: seq<Commit>, k: nat): Option<Wire>
    requires k <= |commits|
  {
    if k == 0 then start else Some(Wire(commits[k - 1].value))
  }

  /** What the server holds. */
  function Stored(w: World): Option<Wire> {
    if w.register.Some? && w.register.value in w.bodies then Some(w.bodies[w.register.value]) else None
  }

  predicate OnlyUpdates(start: Option<Wire>, w: World) {
    && (forall c <- w.clients :: Updater(w.clients[c]))
    && Stored(w) == Before(start, w.commits, |w.commits|) && Linked(start, w.commits)
  }

  lemma ClientOnlyUpdates(slot: Slot, w: World, c: Client, a: Action)
    requires w.register.Some? ==> w.register.value in w.bodies
    requires Ready(w, c.lane, a) && UpdatesOnly(a) && !a.ServePost?
    requires Updater(c)
    ensures Updater(ClientStep(slot, w, c, a))
  {
    hide Reads, Basis, Validate;
  }

  lemma LinkedGrows(start: Option<Wire>, commits: seq<Commit>, k: Commit)
    requires Linked(start, commits) && k.before == Before(start, commits, |commits|)
    ensures Linked(start, commits + [k])
  {
    hide Before;
    var more := commits + [k];
    forall i | 0 <= i < |more| ensures more[i].before == Before(start, more, i) {
      BeforeGrows(start, commits, k, i);
      if i < |commits| { assert more[i] == commits[i]; }
    }
  }

  lemma BeforeGrows(start: Option<Wire>, commits: seq<Commit>, k: Commit, i: nat)
    requires i <= |commits|
    ensures Before(start, commits + [k], i) == Before(start, commits, i)
  {
  }

  lemma ServeOnlyUpdates(slot: Slot, start: Option<Wire>, w: World, a: Action)
    requires Inv(slot, w) && OnlyUpdates(start, w) && Enabled(w, a) && a.ServePost?
    ensures OnlyUpdates(start, Serve(w, a))
  {
    hide NothingLost, ClientOk, Linked;
    var w', c := Serve(w, a), w.clients[a.c];
    assert Updater(c);
    assert Updater(w'.clients[a.c]);
    if Matches(w, c.lane.ifMatch) && (a.fate.Reached? || a.fate.LostAfter?) {
      LinkedGrows(start, w.commits, w'.commits[|w.commits|]);
    }
  }

  lemma NextOnlyUpdates(slot: Slot, start: Option<Wire>, w: World, a: Action)
    requires Inv(slot, w) && OnlyUpdates(start, w) && Enabled(w, a) && UpdatesOnly(a)
    ensures OnlyUpdates(start, Next(slot, w, a))
  {
    hide ClientStep, NothingLost, Serve, Updater, Linked;
    if a.ServePost? {
      ServeOnlyUpdates(slot, start, w, a);
    } else {
      ClientOnlyUpdates(slot, w, w.clients[a.c], a);
    }
  }

  lemma {:induction false} RunOnlyUpdates(slot: Slot, worlds: seq<World>, actions: seq<Action>, i: nat)
    requires slot.Lawful() && Run(slot, worlds, actions) && Initial(worlds[0]) && i < |worlds|
    requires forall a <- actions :: UpdatesOnly(a)
    ensures OnlyUpdates(Stored(worlds[0]), worlds[i])
  {
    hide OnlyUpdates, StepOk, UpdatesOnly, Stored;
    if i == 0 {
      InitialOnlyUpdates(slot, worlds[0]);
    } else {
      RunOnlyUpdates(slot, worlds, actions, i - 1);
      RunInv(slot, worlds, actions, i - 1);
      assert StepOk(slot, worlds[i - 1], actions[i - 1], worlds[i]) && actions[i - 1] in actions;
      StepOnlyUpdates(slot, Stored(worlds[0]), worlds[i - 1], actions[i - 1], worlds[i]);
    }
  }

  lemma InitialOnlyUpdates(slot: Slot, w: World)
    requires Initial(w)
    ensures OnlyUpdates(Stored(w), w)
  {
    forall c | c in w.clients ensures Updater(w.clients[c]) {
      assert w.clients[c] == FRESH_CLIENT;
    }
  }

  lemma StepOnlyUpdates(slot: Slot, start: Option<Wire>, w: World, a: Action, w': World)
    requires Inv(slot, w) && OnlyUpdates(start, w) && StepOk(slot, w, a, w') && UpdatesOnly(a)
    ensures OnlyUpdates(start, w')
  {
    hide OnlyUpdates, Inv, UpdatesOnly, Next;
    NextOnlyUpdates(slot, start, w, a);
  }

  /** The value after a sequence of commits, one reducer after the other. */
  function Composed(slot: Slot, start: Option<Json>, commits: seq<Commit>): Option<Json> {
    if commits == [] then start
    else
      match Validate(slot, commits[|commits| - 1].reducer(Composed(slot, start, commits[..|commits| - 1])))
      case Accept(v) => Some(v)
      case _ => None
  }

  /** Each of a run of linked commits starts from the one before it. */
  lemma {:induction false} LinkedComposes(slot: Slot, start: Option<Wire>, commits: seq<Commit>, from: Option<Json>,
                                          i: nat, n: nat)
    requires slot.Lawful() && Linked(start, commits) && i <= n <= |commits|
    requires forall k | i <= k < |commits| :: Lossless(slot, commits[k])
    requires i < |commits| ==> Basis(slot, Before(start, commits, i)) == Some(from)
    ensures Composed(slot, from, commits[i..n]) == if n == i then from else Some(commits[n - 1].value)
  {
    hide Lossless, Basis, Linked, Before, Validate;
    if n > i {
      LinkedComposes(slot, start, commits, from, i, n - 1);
      var part := commits[i..n];
      assert part[..|part| - 1] == commits[i..n - 1] && part[|part| - 1] == commits[n - 1];
      if n - 1 > i { CommittedIsStable(slot, commits[n - 2]); }
      LinkedAt(start, commits, n - 1);
      CommitComputes(slot, commits[n - 1]);
    }
  }

  lemma LinkedAt(start: Option<Wire>, commits: seq<Commit>, k: nat)
    requires Linked(start, commits) && k < |commits|
    ensures commits[k].before == Before(start, commits, k)
    ensures k > 0 ==> commits[k].before == Some(Wire(commits[k - 1].value))
  {
  }

  lemma CommitComputes(slot: Slot, k: Commit)
    requires Lossless(slot, k)
    ensures Basis(slot, k.before).Some? && Validate(slot, k.reducer(Basis(slot, k.before).value)) == Accept(k.value)
  {
  }

  /** A committed value reads back as itself. */
  lemma CommittedIsStable(slot: Slot, k: Commit)
    requires slot.Lawful() && Lossless(slot, k)
    ensures Basis(slot, Some(Wire(k.value))) == Some(Some(k.value))
  {
  }

  /** Only the first commit of all can have replaced nothing. */
  lemma OnlyFirstUnpaired(slot: Slot, start: Option<Wire>, w: World, k: nat)
    requires Inv(slot, w) && Linked(start, w.commits) && k < |w.commits|
    ensures if w.commits[k].unpaired then k == 0 && start.None? else Lossless(slot, w.commits[k])
  {
    hide ClientOk, Lossless;
    assert NothingLost(slot, w.commits[k]);
  }

  /** What the server holds is the composition of the commits from `from` on, starting with what that one replaced. */
  lemma CommitsCompose(slot: Slot, start: Option<Wire>, w: World, i: nat, from: Option<Json>)
    requires slot.Lawful() && Inv(slot, w) && OnlyUpdates(start, w) && i <= |w.commits| && w.commits != []
    requires forall k | i <= k < |w.commits| :: !w.commits[k].unpaired
    requires i < |w.commits| ==> Basis(slot, Before(start, w.commits, i)) == Some(from)
    requires i == |w.commits| ==> from == Some(w.commits[i - 1].value)
    ensures Stored(w).Some? && Stored(w).value.Wire?
    ensures Composed(slot, from, w.commits[i..]) == Some(Stored(w).value.json)
  {
    hide Inv, Linked, Lossless, Basis, Composed;
    var commits := w.commits;
    forall k | i <= k < |commits| ensures Lossless(slot, commits[k]) { OnlyFirstUnpaired(slot, start, w, k); }
    LinkedComposes(slot, start, commits, from, i, |commits|);
    assert commits[i..|commits|] == commits[i..];
  }

  /**
   When clients only update, in any interleaving, the server holds the composition of every committed reducer in the
   order of the commits, starting from what it held at first: concurrent updates never overwrite one another. Only the
   very first commit, where the server held nothing, can be an exception; from it on the same holds.
   */
  lemma UpdatesCompose(slot: Slot, worlds: seq<World>, actions: seq<Action>, i: nat)
    requires slot.Lawful() && Run(slot, worlds, actions) && Initial(worlds[0]) && i < |worlds|
    requires forall a <- actions :: UpdatesOnly(a)
    ensures var start, stored, commits := Stored(worlds[0]), Stored(worlds[i]), worlds[i].commits;
      if commits == [] then stored == start
      else
        && stored.Some? && stored.value.Wire?
        && (if commits[0].unpaired
            then start.None? && Composed(slot, Some(commits[0].value), commits[1..]) == Some(stored.value.json)
            else
              && Basis(slot, start).Some?
              && Composed(slot, Basis(slot, start).value, commits) == Some(stored.value.json))
  {
    hide Run, UpdatesOnly, Lossless, Composed, Inv;
    RunOnlyUpdates(slot, worlds, actions, i);
    RunInv(slot, worlds, actions, i);
    var start, w := Stored(worlds[0]), worlds[i];
    var commits := w.commits;
    if commits != [] {
      forall k | 0 < k < |commits| ensures !commits[k].unpaired && Lossless(slot, commits[k]) {
        OnlyFirstUnpaired(slot, start, w, k);
      }
      OnlyFirstUnpaired(slot, start, w, 0);
      if commits[0].unpaired {
        FirstIsStable(slot, start, w);
        CommitsCompose(slot, start, w, 1, Some(commits[0].value));
      } else {
        CommitComputes(slot, commits[0]);
        CommitsCompose(slot, start, w, 0, Basis(slot, start).value);
        assert commits[0..] == commits;
      }
    }
  }

  /** The commit after the first one read back what the first one wrote. */
  lemma FirstIsStable(slot: Slot, start: Option<Wire>, w: World)
    requires slot.Lawful() && Inv(slot, w) && Linked(start, w.commits) && w.commits != []
    ensures |w.commits| > 1 ==> Basis(slot, Before(start, w.commits, 1)) == Some(Some(w.commits[0].value))
  {
    hide ClientOk;
    if |w.commits| > 1 { OnlyFirstUnpaired(slot, start, w, 1); }
  }

  // ---- the exception is real ---------------------------------------------------------------------------

  /** Keeps a value that is there, and refuses to make one up. */
  function Keep(basis: Option<Json>): Reduced { if basis.None? then Invalid else Out(basis.value) }

  const FRAMED := Client(Mirror(Some(Bool(true)), None, Loaded), Idle, map[])

  function PlainSlot(): Slot { Slot((j: Json) => if j == Null then None else Some(j), None) }

  function Posted(): Client {
    FRAMED.(lane := Posting(Update(Keep, Some(Bool(true)), true), Bool(true), None, 1, false, false, Pending))
  }

  function Only(c: Client): World { World(None, map[], map[0 := c], []) }

  lemma FramedStep()
    ensures StepOk(PlainSlot(), Only(FRESH_CLIENT), Frame(0, None, Wire(Bool(true))), Only(FRAMED))
  {
    assert HandleRemote(PlainSlot(), FRESH_CLIENT, None, Wire(Bool(true))) == FRAMED;
  }

  lemma SeededStep()
    ensures StepOk(PlainSlot(), Only(FRAMED), StartUpdate(0, Keep, 1), Only(Posted()))
  {
    assert Begin(PlainSlot(), FRAMED, Keep, 1, false) == Posted();
  }

  /**
   A frame without a CID leaves a value without an etag. An update then starts from that value, although the server may
   have lost it since: here the committed value is not what the reducer makes of the default.
   */
  lemma UnpairedSeedSurvives() returns (slot: Slot, worlds: seq<World>, actions: seq<Action>)
    ensures slot.Lawful() && Run(slot, worlds, actions) && Initial(worlds[0])
    ensures var w := worlds[|actions|];
      |w.commits| == 1 && w.commits[0].before.None?
      && Validate(slot, w.commits[0].reducer(slot.default)) != Accept(w.commits[0].value)
  {
    hide StepOk, HandleRemote, Begin;
    slot := PlainSlot();
    FramedStep();
    SeededStep();
    var post := ServePost(0, 7, Reached, true);
    var last := Serve(Only(Posted()), post);
    assert StepOk(slot, Only(Posted()), post, last) by { ServedStep(slot, Only(Posted()), post); }
    worlds := [Only(FRESH_CLIENT), Only(FRAMED), Only(Posted()), last];
    actions := [Frame(0, None, Wire(Bool(true))), StartUpdate(0, Keep, 1), post];
  }
}
