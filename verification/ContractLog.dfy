/** The log of one contract as a lightweight client follows it: ordering, hash chain, and replay. */
module ContractLog {
  import opened Wrappers
  import opened ReingestTracker
  import KeyTable

  datatype Op = Single(code: string) | Batch(codes: seq<string>)

  /** The head of a message, and the rest of it; `contractID` is absent exactly in a first message. */
  datatype Message = Message(
    contractID: Option<string>,
    previousHEAD: Option<string>,
    previousKeyOp: Option<string>,
    height: int,
    op: Op,
    body: string)
  {
    predicate IsFirst() { contractID.None? }

    /** A key operation, or a batch with one inside: what the abbreviated chain consists of. */
    predicate IsKeyOp() {
      match op
      case Single(code) => code in KEY_OPS
      case Batch(codes) => exists i | 0 <= i < |codes| :: codes[i] in KEY_OPS
    }
  }

  const KEY_OPS := {"c", "ka", "kd", "ku"}

  /**
   What processing a message against a state gives. A warning keeps the state it left, except that in a first message it
   is an error. `unreadable`: the value of the message fails its signature or its validation.
   */
  datatype Outcome<S> = Done(state: S) | Skipped(unreadable: bool) | Halted
  {
    /** An error that is passed on to the caller of `handleEvent`. */
    predicate Fatal(m: Message) { Halted? || (Skipped? && m.IsFirst()) }

    /** Nothing is appended: `addEntry` has to look into a batch to tell whether it is a key operation. */
    predicate Stops(m: Message) { Fatal(m) || (Skipped? && unreadable && m.op.Batch?) }
  }

  /** Content addressing, and the deterministic effect of a message on the contract's state. */
  datatype System<!S> = System(hash: Message -> string, process: (Option<S>, Message) -> Outcome<S>)
  {
    /** Hashing is injective, and without a state (so without keys) only OP_CONTRACT can be processed. */
    ghost predicate Lawful() {
      && (forall m, m': Message :: hash(m) == hash(m') ==> m == m')
      && (forall m: Message :: process(None, m).Done? ==> m.op == Single("c"))
    }
  }

  datatype Head = Head(hash: string, height: int, previousKeyOp: Option<string>)

  datatype Replica<S> = Replica(head: Option<Head>, state: Option<S>, tracker: seq<Entry>)

  function ContractOf<S>(sys: System<S>, m: Message): string {
    if m.contractID.Some? then m.contractID.value else sys.hash(m)
  }

  /** The checks of `addEntry`, with the head read from the contract's own bookkeeping. */
  predicate Appendable(head: Option<Head>, m: Message) {
    if m.IsFirst() then head.None? && m.height == 0
    else
      && head.Some?
      && m.previousHEAD == Some(head.value.hash)
      && m.previousKeyOp == head.value.previousKeyOp
      && KeyTable.SafeInteger(m.height) && m.height == head.value.height + 1
  }

  function HeadAfter<S>(sys: System<S>, head: Option<Head>, m: Message): Head {
    Head(sys.hash(m), m.height,
         if m.IsKeyOp() then Some(sys.hash(m)) else if head.Some? then head.value.previousKeyOp else None)
  }

  datatype Ordering = Dropped | Gap | InOrder

  /** `checkMessageOrdering` without strict ordering. */
  function Order(head: Option<Head>, m: Message): Ordering {
    if !KeyTable.SafeInteger(m.height) then Dropped
    else if m.IsFirst() then (if head.Some? then Dropped else InOrder)
    else if head.None? || head.value.height >= m.height then Dropped
    else if head.value.height + 1 < m.height then Gap
    else InOrder
  }

  /** The result of processing as `handleEvent` sees it: a first message never meets an existing state. */
  function Mutation<S>(sys: System<S>, state: Option<S>, m: Message): Outcome<S> {
    if m.IsFirst() && state.Some? then Halted else sys.process(state, m)
  }

  /** The message comes from beyond the next height: something before it is missing. */
  predicate Beyond(head: Option<Head>, m: Message) { !m.IsFirst() && head.Some? && m.height > head.value.height + 1 }

  /** The message is the next one: the first where there is none, or the one right above the head. */
  predicate InTurnFor(head: Option<Head>, m: Message) {
    if m.IsFirst() then head.None? else head.Some? && m.height == head.value.height + 1
  }

  /** Processing, then appending: an error that stops the contract leaves the state and head, and so does a bad link. */
  function Apply<S>(sys: System<S>, head: Option<Head>, state: Option<S>, m: Message): (Option<Head>, Option<S>) {
    var outcome := Mutation(sys, state, m);
    if outcome.Stops(m) || !Appendable(head, m) then (head, state)
    else (Some(HeadAfter(sys, head, m)), if outcome.Done? then Some(outcome.state) else state)
  }

  /** One delivery of a message to the client that follows `contractID`; `dirty` says that a re-sync is due. */
  function Deliver<S>(sys: System<S>, contractID: string, r: Replica<S>, m: Message, dirty: bool): Replica<S> {
    if ContractOf(sys, m) != contractID then r
    else
      match Order(r.head, m)
      case Dropped => r
      case Gap =>
        if Tracks(r.tracker, sys.hash(m)) || |r.tracker| >= REINGEST_PER_CONTRACT_CAP then r
        else r.(tracker := r.tracker + [Entry(sys.hash(m), m.height)])
      case InOrder =>
        var tracker := Above(Without(r.tracker, sys.hash(m)), m.height);
        if dirty then r.(tracker := tracker)
        else
          var (head, state) := Apply(sys, r.head, r.state, m);
          Replica(head, state, tracker)
  }

  /** What can happen to a replica: a delivery, or the wipe that precedes a re-sync or follows a release. */
  datatype Event = Delivery(m: Message, dirty: bool) | Wipe

  function Next<S>(sys: System<S>, contractID: string, r: Replica<S>, e: Event): Replica<S> {
    match e
    case Delivery(m, dirty) => Deliver(sys, contractID, r, m, dirty)
    case Wipe => Replica(None, None, [])
  }

  /** The replica after any sequence of deliveries (duplicated, reordered, with gaps, forged) and wipes. */
  function Run<S>(sys: System<S>, contractID: string, events: seq<Event>): Replica<S> {
    if events == [] then Replica(None, None, [])
    else Next(sys, contractID, Run(sys, contractID, events[..|events| - 1]), events[|events| - 1])
  }

  /**
   What a delivery does, on heights alone. Beyond the next height the hash is tracked, once, while there is room; at or
   below the head nothing happens. The message in its turn is taken off the tracker with all that it has overtaken, and
   then, unless a re-sync is due, it is processed against the state: if it can be appended and does not stop the
   contract, it becomes the head, and what it made of the state the state.
   */
  lemma DeliveryByHeight<S>(sys: System<S>, contractID: string, r: Replica<S>, m: Message, dirty: bool)
    requires ContractOf(sys, m) == contractID && -KeyTable.MAX_SAFE_INTEGER <= m.height <= KeyTable.MAX_SAFE_INTEGER
    ensures var r' := Deliver(sys, contractID, r, m, dirty);
      if Beyond(r.head, m) then
        && r'.head == r.head && r'.state == r.state
        && r'.tracker == if (exists e <- r.tracker :: e.hash == sys.hash(m)) || |r.tracker| >= 20 then r.tracker
                         else r.tracker + [Entry(sys.hash(m), m.height)]
      else if !InTurnFor(r.head, m) then r' == r
      else
        && (forall e :: e in r'.tracker <==> e in r.tracker && e.hash != sys.hash(m) && e.height > m.height)
        && (dirty ==> r'.head == r.head && r'.state == r.state)
        && (!dirty ==>
              var outcome := if m.IsFirst() && r.state.Some? then Halted else sys.process(r.state, m);
              var accepted :=
                && m.previousHEAD == (if m.IsFirst() then m.previousHEAD else Some(r.head.value.hash))
                && m.previousKeyOp == (if m.IsFirst() then m.previousKeyOp else r.head.value.previousKeyOp)
                && (m.IsFirst() ==> m.height == 0) && !outcome.Halted? && (outcome.Skipped? ==> !m.IsFirst())
                && (outcome.Skipped? && outcome.unreadable ==> m.op.Single?);
              if !accepted then r'.head == r.head && r'.state == r.state
              else
                && r'.head.Some? && r'.head.value.hash == sys.hash(m) && r'.head.value.height == m.height
                && (if (m.op.Single? && m.op.code in {"c", "ka", "kd", "ku"})
                       || (m.op.Batch? && exists code <- m.op.codes :: code in {"c", "ka", "kd", "ku"})
                    then r'.head.value.previousKeyOp == Some(sys.hash(m))
                    else r.head.Some? ==> r'.head.value.previousKeyOp == r.head.value.previousKeyOp)
                && r'.state == if outcome.Done? then Some(outcome.state) else r.state)
  {
    hide Above, Without;
    KeyOpCodes(m);
    if Tracks(r.tracker, sys.hash(m)) {
      var i :| 0 <= i < |r.tracker| && r.tracker[i].hash == sys.hash(m);
      assert r.tracker[i] in r.tracker;
    }
    WithoutFacts(r.tracker, sys.hash(m));
    AboveFacts(Without(r.tracker, sys.hash(m)), m.height);
  }

  lemma KeyOpCodes(m: Message)
    ensures m.IsKeyOp() <==>
      || (m.op.Single? && m.op.code in {"c", "ka", "kd", "ku"})
      || (m.op.Batch? && exists code <- m.op.codes :: code in {"c", "ka", "kd", "ku"})
  {
    if m.op.Batch? {
      if code :| code in m.op.codes && code in KEY_OPS {
        var i :| 0 <= i < |m.op.codes| && m.op.codes[i] == code;
      }
    }
  }

  // ---- the chain ------------------------------------------------------------------------

  /** The head information of a log. */
  function HeadOf<S>(sys: System<S>, log: seq<Message>): Option<Head> {
    if log == [] then None
    else Some(HeadAfter(sys, HeadOf(sys, log[..|log| - 1]), log[|log| - 1]))
  }

  /** A log in which every message links to the one before: a first message, then heights 1, 2, … by hash. */
  predicate Linked<S>(sys: System<S>, log: seq<Message>) {
    log == [] ||
    (var before, last := log[..|log| - 1], log[|log| - 1];
     && Linked(sys, before)
     && Appendable(HeadOf(sys, before), last))
  }

  /** The fold of the event step over a log: each message processed once, or skipped if it errored. */
  function Fold<S>(sys: System<S>, log: seq<Message>): Option<S> {
    if log == [] then None
    else
      var before, last := log[..|log| - 1], log[|log| - 1];
      var outcome := sys.process(Fold(sys, before), last);
      if outcome.Done? then Some(outcome.state) else Fold(sys, before)
  }

  /** Nothing in the log stops the contract. */
  predicate Processable<S>(sys: System<S>, log: seq<Message>) {
    log == [] ||
    (var before, last := log[..|log| - 1], log[|log| - 1];
     Processable(sys, before) && !sys.process(Fold(sys, before), last).Stops(last))
  }

  lemma {:induction false} LinkedFacts<S>(sys: System<S>, log: seq<Message>)
    requires Linked(sys, log)
    ensures forall i | 0 <= i < |log| :: log[i].height == i && (log[i].IsFirst() <==> i == 0)
    ensures log != [] ==>
      HeadOf(sys, log).value.hash == sys.hash(log[|log| - 1]) && HeadOf(sys, log).value.height == |log| - 1
  {
    if log != [] {
      LinkedFacts(sys, log[..|log| - 1]);
    }
  }

  /** A hash names at most one chain: two linked logs with the same head are the same log. */
  lemma {:induction false} HeadNamesLog<S>(sys: System<S>, log1: seq<Message>, log2: seq<Message>)
    requires sys.Lawful() && Linked(sys, log1) && Linked(sys, log2) && log1 != [] && log2 != []
    requires HeadOf(sys, log1).value.hash == HeadOf(sys, log2).value.hash
    ensures log1 == log2
  {
    LinkedFacts(sys, log1);
    LinkedFacts(sys, log2);
    var n := |log1| - 1;
    assert log1[n] == log2[|log2| - 1] && |log2| == n + 1;
    assert log1 == log1[..n] + [log1[n]] && log2 == log2[..n] + [log2[n]];
    if n > 0 {
      HeadNamesLog(sys, log1[..n], log2[..n]);
    }
  }

  // ---- every reachable replica is the fold of one chain ------------------------------------

  /** The replica holds exactly what a log gives. */
  ghost predicate Follows<S>(sys: System<S>, r: Replica<S>, log: seq<Message>) {
    && Linked(sys, log) && Processable(sys, log)
    && r.head == HeadOf(sys, log) && r.state == Fold(sys, log)
  }

  predicate TrackerSound<S>(r: Replica<S>) {
    if r.head.None? then r.tracker == [] else Sound(r.tracker, r.head.value.height)
  }

  /** The log after one more event. */
  function LogAfter<S>(sys: System<S>, contractID: string, r: Replica<S>, e: Event, log: seq<Message>): seq<Message> {
    match e
    case Wipe => []
    case Delivery(m, dirty) => if Next(sys, contractID, r, e).head != r.head then log + [m] else log
  }

  /** A delivery leaves head and state, or appends the message. */
  lemma DeliverMoves<S>(sys: System<S>, contractID: string, r: Replica<S>, m: Message, dirty: bool)
    ensures var r', outcome := Deliver(sys, contractID, r, m, dirty), Mutation(sys, r.state, m);
      if r'.head == r.head then r'.state == r.state
      else
        && Appendable(r.head, m) && !outcome.Stops(m)
        && r'.head == Some(HeadAfter(sys, r.head, m))
        && r'.state == if outcome.Done? then Some(outcome.state) else r.state
  {
    hide Above, Without, Tracks, Mutation, Outcome.Stops;
  }

  /** A message that can be appended, and does not stop the contract, continues the log. */
  lemma LogGrows<S>(sys: System<S>, log: seq<Message>, m: Message)
    requires Linked(sys, log) && Processable(sys, log)
    requires Appendable(HeadOf(sys, log), m) && !Mutation(sys, Fold(sys, log), m).Stops(m)
    ensures var log', outcome := log + [m], Mutation(sys, Fold(sys, log), m);
      && Linked(sys, log') && Processable(sys, log')
      && HeadOf(sys, log') == Some(HeadAfter(sys, HeadOf(sys, log), m))
      && Fold(sys, log') == if outcome.Done? then Some(outcome.state) else Fold(sys, log)
  {
    hide HeadAfter, Outcome.Stops;
    assert (log + [m])[..|log|] == log;
    HeadOfNonEmpty(sys, log);
    if m.IsFirst() { assert log == []; }
  }

  lemma HeadOfNonEmpty<S>(sys: System<S>, log: seq<Message>)
    ensures HeadOf(sys, log).Some? <==> log != []
  {
  }

  /** So the replica goes on following one log. */
  lemma DeliverExtends<S>(sys: System<S>, contractID: string, r: Replica<S>, m: Message, dirty: bool, log: seq<Message>)
    requires Follows(sys, r, log)
    ensures Follows(sys, Deliver(sys, contractID, r, m, dirty), LogAfter(sys, contractID, r, Delivery(m, dirty), log))
  {
    hide Deliver, Linked, Processable, HeadOf, Fold, Outcome.Stops, Appendable, HeadAfter, Mutation;
    DeliverMoves(sys, contractID, r, m, dirty);
    if Deliver(sys, contractID, r, m, dirty).head != r.head { LogGrows(sys, log, m); }
  }

  lemma PrunedSound(entries: seq<Entry>, hash: string, height: int, processed: int)
    requires Sound(entries, processed)
    ensures var pruned := Above(Without(entries, hash), height);
      Sound(pruned, height) && Sound(pruned, processed)
  {
    hide Distinct;
    WithoutFacts(entries, hash);
    AboveFacts(Without(entries, hash), height);
    var pruned := Above(Without(entries, hash), height);
    forall i | 0 <= i < |pruned| ensures pruned[i].height > height && pruned[i].height > processed {
      assert pruned[i] in pruned;
      assert pruned[i] in entries;
    }
  }

  lemma ApplyHeight<S>(sys: System<S>, head: Option<Head>, state: Option<S>, m: Message)
    ensures var head' := Apply(sys, head, state, m).0;
      head' == head || (head'.Some? && head'.value.height == m.height)
  {
  }

  lemma DeliverKeepsTracker<S>(sys: System<S>, contractID: string, r: Replica<S>, m: Message, dirty: bool)
    requires TrackerSound(r)
    ensures TrackerSound(Deliver(sys, contractID, r, m, dirty))
  {
    hide Apply, Above, Without;
    if ContractOf(sys, m) == contractID {
      match Order(r.head, m)
      case Dropped =>
      case Gap =>
      case InOrder =>
        ApplyHeight(sys, r.head, r.state, m);
        if r.head.Some? {
          hide Sound;
          PrunedSound(r.tracker, sys.hash(m), m.height, r.head.value.height);
        } else {
          WithoutFacts([], sys.hash(m));
          AboveFacts([], m.height);
        }
    }
  }

  /** The log that a run's events left behind. */
  function RunLog<S>(sys: System<S>, contractID: string, events: seq<Event>): seq<Message> {
    if events == [] then []
    else
      var before := events[..|events| - 1];
      LogAfter(sys, contractID, Run(sys, contractID, before), events[|events| - 1], RunLog(sys, contractID, before))
  }

  /**
   After any sequence of events, head, height and state are those of the fold over one hash-linked log, and the gap
   entries have distinct hashes, number at most 20 and lie strictly above the processed height.
   */
  lemma {:induction false} ReplayIsFold<S>(sys: System<S>, contractID: string, events: seq<Event>)
    requires sys.Lawful()
    ensures Follows(sys, Run(sys, contractID, events), RunLog(sys, contractID, events))
    ensures TrackerSound(Run(sys, contractID, events))
  {
    if events != [] {
      var before, e := events[..|events| - 1], events[|events| - 1];
      ReplayIsFold(sys, contractID, before);
      var r := Run(sys, contractID, before);
      if e.Delivery? {
        DeliverExtends(sys, contractID, r, e.m, e.dirty, RunLog(sys, contractID, before));
        DeliverKeepsTracker(sys, contractID, r, e.m, e.dirty);
      }
    }
  }

  /** Two clients that reach the same HEAD, by whatever deliveries, hold the same height, state and key-op pointer. */
  lemma SameHeadSameState<S>(sys: System<S>, contractID: string, events1: seq<Event>, events2: seq<Event>)
    requires sys.Lawful()
    requires Run(sys, contractID, events1).head.Some? && Run(sys, contractID, events2).head.Some?
    requires Run(sys, contractID, events1).head.value.hash == Run(sys, contractID, events2).head.value.hash
    ensures Run(sys, contractID, events1).head == Run(sys, contractID, events2).head
    ensures Run(sys, contractID, events1).state == Run(sys, contractID, events2).state
  {
    ReplayIsFold(sys, contractID, events1);
    ReplayIsFold(sys, contractID, events2);
    HeadNamesLog(sys, RunLog(sys, contractID, events1), RunLog(sys, contractID, events2));
  }

  /** No message is applied twice: the messages of a log are pairwise distinct. */
  lemma NoRepeats<S>(sys: System<S>, log: seq<Message>, i: nat, j: nat)
    requires Linked(sys, log) && i < j < |log|
    ensures log[i] != log[j]
  {
    LinkedFacts(sys, log);
  }

  // ---- progress on a server's log -------------------------------------------------------------

  /** How far a log can be processed: up to the first message that stops the contract. */
  function Stall<S>(sys: System<S>, log: seq<Message>): (n: nat)
    ensures n <= |log|
  {
    if log == [] then 0
    else
      var before, last := log[..|log| - 1], log[|log| - 1];
      var n := Stall(sys, before);
      if n < |before| || sys.process(Fold(sys, before), last).Stops(last) then n else n + 1
  }

  /** The message at the stall stops the contract, and those before it do not. */
  lemma {:induction false} StallFacts<S>(sys: System<S>, log: seq<Message>)
    ensures var n := Stall(sys, log);
      && Processable(sys, log[..n])
      && (n < |log| ==> sys.process(Fold(sys, log[..n]), log[n]).Stops(log[n]))
  {
    if log != [] {
      var before := log[..|log| - 1];
      StallFacts(sys, before);
      var n := Stall(sys, before);
      assert before[..|before|] == before && log[..|log|] == log;
      assert log[..n] == before[..n];
    }
  }

  /**
   Where a client that can get no further than `stall` stands after the given messages of the log were delivered in the
   given order, starting from `k`.
   */
  function Reached(k: nat, stall: nat, deliveries: seq<nat>): nat {
    if deliveries == [] then k
    else
      var before := Reached(k, stall, deliveries[..|deliveries| - 1]);
      if deliveries[|deliveries| - 1] == before && before < stall then before + 1 else before
  }

  function Deliveries(log: seq<Message>, indices: seq<nat>): seq<Event>
    requires forall i | 0 <= i < |indices| :: indices[i] < |log|
  {
    seq(|indices|, i requires 0 <= i < |indices| => Delivery(log[indices[i]], false))
  }

  /** All messages of the log belong to the contract that its first message opens. */
  predicate OfContract<S>(sys: System<S>, contractID: string, log: seq<Message>) {
    forall i | 0 <= i < |log| :: ContractOf(sys, log[i]) == contractID && KeyTable.SafeInteger(log[i].height)
  }

  lemma {:induction false} PrefixLinked<S>(sys: System<S>, log: seq<Message>, k: nat)
    requires Linked(sys, log) && k <= |log|
    ensures Linked(sys, log[..k])
  {
    if k < |log| {
      assert log[..|log| - 1][..k] == log[..k];
      PrefixLinked(sys, log[..|log| - 1], k);
    } else {
      assert log[..k] == log;
    }
  }

  lemma {:induction false} PrefixProcessable<S>(sys: System<S>, log: seq<Message>, k: nat)
    requires Processable(sys, log) && k <= |log|
    ensures Processable(sys, log[..k])
  {
    if k < |log| {
      assert log[..|log| - 1][..k] == log[..k];
      PrefixProcessable(sys, log[..|log| - 1], k);
    } else {
      assert log[..k] == log;
    }
  }

  lemma OutOfTurn<S>(sys: System<S>, contractID: string, r: Replica<S>, m: Message)
    requires !Order(r.head, m).InOrder?
    ensures Deliver(sys, contractID, r, m, false).head == r.head
    ensures Deliver(sys, contractID, r, m, false).state == r.state
  {
  }

  /** A message that stops the contract leaves it where it is, however often it is delivered. */
  lemma Stopped<S>(sys: System<S>, contractID: string, r: Replica<S>, m: Message)
    requires sys.process(r.state, m).Stops(m)
    ensures Deliver(sys, contractID, r, m, false).head == r.head
    ensures Deliver(sys, contractID, r, m, false).state == r.state
  {
    hide Above, Without, Order;
  }

  lemma InTurn<S>(sys: System<S>, contractID: string, r: Replica<S>, log: seq<Message>)
    requires Linked(sys, log) && Processable(sys, log) && log != [] && Follows(sys, r, log[..|log| - 1])
    requires ContractOf(sys, log[|log| - 1]) == contractID && Order(r.head, log[|log| - 1]).InOrder?
    ensures Follows(sys, Deliver(sys, contractID, r, log[|log| - 1], false), log)
  {
    hide Above, Without, Order;
  }

  lemma DeliverFromLog<S>(sys: System<S>, contractID: string, r: Replica<S>, log: seq<Message>, k: nat, n: nat)
    requires Linked(sys, log) && OfContract(sys, contractID, log)
    requires k <= Stall(sys, log) && n < |log| && Follows(sys, r, log[..k])
    ensures var k' := if n == k && k < Stall(sys, log) then k + 1 else k;
      Follows(sys, Deliver(sys, contractID, r, log[n], false), log[..k'])
  {
    hide Linked, Processable, Deliver, HeadOf, Fold, Stall, Outcome.Stops;
    StallFacts(sys, log);
    PrefixLinked(sys, log, k);
    LinkedFacts(sys, log);
    LinkedFacts(sys, log[..k]);
    HeadOfNonEmpty(sys, log[..k]);
    if n == k && k < Stall(sys, log) {
      PrefixLinked(sys, log, k + 1);
      assert log[..Stall(sys, log)][..k + 1] == log[..k + 1];
      PrefixProcessable(sys, log[..Stall(sys, log)], k + 1);
      assert log[..k + 1][..k] == log[..k];
      InTurn(sys, contractID, r, log[..k + 1]);
    } else if n == k {
      Stopped(sys, contractID, r, log[n]);
    } else {
      OutOfTurn(sys, contractID, r, log[n]);
    }
  }

  /**
   Deliveries drawn from a server's log, in any order and with any repetition, take the client exactly as far as the
   messages that arrive in their turn, but never past one that stops the contract: duplicates, messages from beyond a
   gap and messages that fail neither help nor do harm.
   */
  lemma {:induction false} ReplayReaches<S>(sys: System<S>, contractID: string, log: seq<Message>, indices: seq<nat>)
    requires sys.Lawful() && Linked(sys, log) && OfContract(sys, contractID, log)
    requires forall i | 0 <= i < |indices| :: indices[i] < |log|
    ensures Reached(0, Stall(sys, log), indices) <= Stall(sys, log)
    ensures Follows(sys, Run(sys, contractID, Deliveries(log, indices)), log[..Reached(0, Stall(sys, log), indices)])
  {
    hide Stall;
    if indices == [] {
      assert log[..0] == [];
    } else {
      var before, last := indices[..|indices| - 1], indices[|indices| - 1];
      ReplayReaches(sys, contractID, log, before);
      var events := Deliveries(log, indices);
      assert events[..|events| - 1] == Deliveries(log, before);
      var r := Run(sys, contractID, Deliveries(log, before));
      DeliverFromLog(sys, contractID, r, log, Reached(0, Stall(sys, log), before), last);
    }
  }

  // ---- the chain of key operations ---------------------------------------------------------------

  /** The key operations of a log, newest first. */
  function KeyOpsOf(log: seq<Message>): seq<Message> {
    if log == [] then []
    else (if log[|log| - 1].IsKeyOp() then [log[|log| - 1]] else []) + KeyOpsOf(log[..|log| - 1])
  }

  /** A walk along previousKeyOp: each message has the hash named before it, and the last one opens the contract. */
  predicate Walk<S>(sys: System<S>, from: Option<string>, path: seq<Message>)
    decreases |path|
  {
    && path != [] && from == Some(sys.hash(path[0]))
    && if path[0].IsFirst() then |path| == 1 else Walk(sys, path[0].previousKeyOp, path[1..])
  }

  /** Only OP_CONTRACT opens a log. */
  lemma {:induction false} OpensWithContract<S>(sys: System<S>, log: seq<Message>)
    requires sys.Lawful() && Linked(sys, log) && Processable(sys, log) && log != []
    ensures log[0].op == Single("c")
    decreases |log|
  {
    if |log| > 1 {
      OpensWithContract(sys, log[..|log| - 1]);
    } else {
      assert log[..0] == [];
    }
  }

  /**
   Following previousKeyOp from the stored head visits the key operations of the log and nothing else, newest first, and
   ends at OP_CONTRACT: the walk exists, and there is no other.
   */
  lemma {:induction false} KeyOpChain<S>(sys: System<S>, log: seq<Message>, path: seq<Message>)
    requires sys.Lawful() && Linked(sys, log) && Processable(sys, log) && log != []
    ensures Walk(sys, HeadOf(sys, log).value.previousKeyOp, path) <==> path == KeyOpsOf(log)
    ensures KeyOpsOf(log) != [] && KeyOpsOf(log)[|KeyOpsOf(log)| - 1] == log[0] && log[0].op == Single("c")
    decreases |log|
  {
    hide Fold, Outcome.Stops;
    LinkedFacts(sys, log);
    OpensWithContract(sys, log);
    var n := |log| - 1;
    var before, last := log[..n], log[n];
    if n == 0 {
      assert before == [] && KeyOpsOf(log) == [last] + [];
    } else {
      KeyOpChain(sys, before, path);
      if last.IsKeyOp() {
        assert KeyOpsOf(log) == [last] + KeyOpsOf(before);
        assert KeyOpsOf(log)[1..] == KeyOpsOf(before);
        if path != [] {
          KeyOpChain(sys, before, path[1..]);
          assert path == [path[0]] + path[1..];
        }
      } else {
        assert KeyOpsOf(log) == [] + KeyOpsOf(before);
      }
    }
  }
}
