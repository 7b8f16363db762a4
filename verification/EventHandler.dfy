/** How a client handles incoming events in place, proved against the steps of the contract log. */
module EventHandler {
  import opened Wrappers
  import opened ReingestTracker
  import opened ContractLog
  import KeyTable

  datatype Verdict = Proceed | Ignore | Throw

  /** The events for which `handleEvent` throws to its caller. */
  predicate Throws<S>(sys: System<S>, contractID: string, r: Replica<S>, known: bool, m: Message, dirty: bool) {
    || ContractOf(sys, m) != contractID
    || (!m.IsFirst() && !known)
    || !KeyTable.SafeInteger(m.height)
    || (Beyond(r.head, m) && (Tracks(r.tracker, sys.hash(m)) || |r.tracker| >= REINGEST_PER_CONTRACT_CAP))
    || (InTurnFor(r.head, m) && !dirty && Mutation(sys, r.state, m).Fatal(m))
  }

  /** The root state of a lightweight client: per contract, its bookkeeping row and its state. */
  class Client<!S> {
    const sys: System<S>
    const tracker: Tracker
    const acceptAllMessages: bool
    var pending: set<string>                   // contracts being synced for the first time
    var subscriptionSet: set<string>
    var contracts: map<string, Option<Head>>   // a row can be there without a HEAD, while a re-sync is on
    var states: map<string, Option<S>>         // and so can an emptied state

    ghost predicate Valid()
      reads this, tracker
    {
      && tracker.Valid()
      && states.Keys == contracts.Keys
      && forall id <- contracts :: contracts[id].None? ==> states[id].None?
    }

    function HeadInfo(contractID: string): Option<Head>
      reads this
    {
      if contractID in contracts then contracts[contractID] else None
    }

    /** Whether the client expects to hear from a contract at all. */
    predicate Expects(contractID: string)
      reads this
    {
      acceptAllMessages || contractID in pending || contractID in subscriptionSet
    }

    function StateOf(contractID: string): Option<S>
      reads this
    {
      if contractID in states then states[contractID] else None
    }

    ghost function Value(contractID: string): Replica<S>
      reads this, tracker
    {
      Replica(HeadInfo(contractID), StateOf(contractID), tracker.Entries(contractID))
    }

    constructor (sys: System<S>, acceptAllMessages: bool)
      ensures Valid() && this.sys == sys && this.acceptAllMessages == acceptAllMessages && fresh(tracker)
      ensures pending == {} && subscriptionSet == {}
      ensures forall id :: Value(id) == Replica(None, None, [])
    {
      this.sys, this.acceptAllMessages := sys, acceptAllMessages;
      tracker := new Tracker();
      contracts, states := map[], map[];
      pending, subscriptionSet := {}, {};
    }

    /** A sync of a contract that is not subscribed to yet makes its events expected. */
    method Expect(contractID: string)
      modifies this`pending
      ensures Expects(contractID)
      ensures pending == old(pending) + if contractID in subscriptionSet then {} else {contractID}
    {
      if contractID !in subscriptionSet { pending := pending + {contractID}; }
    }

    /** `addEntry` of a lightweight client stores nothing: it only checks the entry against the head. */
    method AddEntry(contractID: string, m: Message) returns (ok: bool)
      ensures ok == Appendable(HeadInfo(contractID), m)
    {
      var head := HeadInfo(contractID);
      if !m.IsFirst() {
        if head.None? { return false; }
        if m.previousHEAD != Some(head.value.hash) {
          return false;
        } else if m.previousKeyOp != head.value.previousKeyOp {
          return false;
        } else if !KeyTable.SafeInteger(m.height) || m.height != head.value.height + 1 {
          return false;
        }
      } else {
        if head.Some? {
          return false;
        } else if m.height != 0 {
          return false;
        }
      }
      return true;
    }

    method CheckMessageOrdering(contractID: string, m: Message) returns (v: Verdict)
      requires Valid()
      modifies tracker
      ensures Valid()
      ensures v.Proceed? <==> KeyTable.SafeInteger(m.height) && InTurnFor(HeadInfo(contractID), m)
      ensures v.Throw? <==>
        || !KeyTable.SafeInteger(m.height)
        || (Beyond(HeadInfo(contractID), m)
            && (Tracks(old(tracker.Entries(contractID)), sys.hash(m))
                || |old(tracker.Entries(contractID))| >= REINGEST_PER_CONTRACT_CAP))
      ensures tracker.Entries(contractID) ==
        if v.Proceed? then Above(Without(old(tracker.Entries(contractID)), sys.hash(m)), m.height)
        else if v.Ignore? && Beyond(HeadInfo(contractID), m)
        then old(tracker.Entries(contractID)) + [Entry(sys.hash(m), m.height)]
        else old(tracker.Entries(contractID))
      ensures forall id :: id != contractID ==> tracker.Entries(id) == old(tracker.Entries(id))
    {
      var latest := HeadInfo(contractID);
      if !KeyTable.SafeInteger(m.height) { return Throw; }
      if (if m.IsFirst() then latest.Some? else !(latest.Some? && latest.value.height < m.height)) { return Ignore; }
      if latest.Some? && latest.value.height + 1 < m.height {
        var note := tracker.NoteFutureEvent(contractID, sys.hash(m), m.height);
        return if note.Added? then Ignore else Throw;
      }
      var _ := tracker.NoteReingestSuccess(contractID, sys.hash(m));
      var _ := tracker.PruneStaleEntries(contractID, m.height);
      return Proceed;
    }

    /** `applyProcessResult`: an entry that cannot be appended changes nothing, and its error is not passed on. */
    method ApplyProcessResult(contractID: string, m: Message, outcome: Outcome<S>)
      requires Valid() && !outcome.Fatal(m)
      requires !m.IsFirst() ==> contractID in contracts
      modifies this
      ensures Valid()
      ensures if outcome.Stops(m) || !Appendable(old(HeadInfo(contractID)), m)
        then
          && contracts == old(contracts) && states == old(states)
          && pending == old(pending) && subscriptionSet == old(subscriptionSet)
        else
          && contracts == old(contracts)[contractID := Some(HeadAfter(sys, old(HeadInfo(contractID)), m))]
          && states ==
            old(states)[contractID := if outcome.Done? then Some(outcome.state) else old(StateOf(contractID))]
          && subscriptionSet == old(subscriptionSet) + {contractID}
          && pending == old(pending) - if contractID in old(subscriptionSet) then {} else {contractID}
    {
      hide Appendable, Message.IsKeyOp, Tracks;
      var ok := AddEntry(contractID, m);
      // to record the entry, a batch is searched for key operations, which fails if it cannot be read
      if !ok || (m.op.Batch? && outcome.Skipped? && outcome.unreadable) { return; }
      if outcome.Done? {
        states := states[contractID := Some(outcome.state)];
      }
      var previous := HeadInfo(contractID);
      var keyOp :=
        if m.IsKeyOp() then Some(sys.hash(m)) else if previous.Some? then previous.value.previousKeyOp else None;
      contracts := contracts[contractID := Some(Head(sys.hash(m), m.height, keyOp))];
      if contractID !in subscriptionSet {
        pending, subscriptionSet := pending - {contractID}, subscriptionSet + {contractID};
      }
    }

    /**
     One event: nothing if the contract is not expected, and else exactly the step of the log for its contract; nothing
     for any other contract. The first event that moves the head turns the expectation into a subscription.
     */
    method HandleEvent(contractID: string, m: Message, dirty: bool) returns (thrown: bool)
      requires Valid()
      modifies this, tracker
      ensures Valid()
      ensures Value(contractID) ==
        if old(Expects(contractID)) then Deliver(sys, contractID, old(Value(contractID)), m, dirty)
        else old(Value(contractID))
      ensures forall id :: id != contractID ==> Value(id) == old(Value(id))
      ensures thrown <==>
        old(Expects(contractID))
          && Throws(sys, contractID, old(Value(contractID)), old(contractID in contracts), m, dirty)
      ensures var moved := HeadInfo(contractID) != old(HeadInfo(contractID));
        && subscriptionSet == old(subscriptionSet) + (if moved then {contractID} else {})
        && pending == old(pending) - (if moved && contractID !in old(subscriptionSet) then {contractID} else {})
    {
      hide Appendable, HeadAfter, Above, Without;
      if !Expects(contractID) { return false; }
      if ContractOf(sys, m) != contractID { return true; }
      if !m.IsFirst() && (contractID !in contracts || contractID !in states) { return true; }
      var verdict := CheckMessageOrdering(contractID, m);
      if !verdict.Proceed? { return verdict.Throw?; }
      if dirty { return false; }
      var outcome := Mutation(sys, StateOf(contractID), m);
      if outcome.Halted? || (outcome.Skipped? && m.IsFirst()) { return true; }
      if Appendable(HeadInfo(contractID), m) { HeadMoves(sys, HeadInfo(contractID), m); }
      ApplyProcessResult(contractID, m, outcome);
      return false;
    }

    /**
     The wipe that precedes a re-sync (the row stays) or follows a release (it goes); a row without a type is left
     alone.
     */
    method RemoveImmediately(contractID: string, resync: bool)
      requires Valid()
      modifies this, tracker
      ensures Valid()
      ensures Value(contractID) == Next(sys, contractID, old(Value(contractID)), Wipe)
      ensures contractID in contracts <==> old(contractID in contracts) && (resync || old(HeadInfo(contractID)).None?)
      ensures forall id :: id != contractID ==> Value(id) == old(Value(id))
      ensures pending == old(pending)
      ensures subscriptionSet == old(subscriptionSet) - if old(HeadInfo(contractID)).None? then {} else {contractID}
    {
      tracker.ClearForContract(contractID);
      if HeadInfo(contractID).None? { return; }
      if resync {
        contracts, states := contracts[contractID := None], states[contractID := None];
      } else {
        contracts, states := contracts - {contractID}, states - {contractID};
      }
      subscriptionSet := subscriptionSet - {contractID};
    }
  }

  lemma HeadMoves<S>(sys: System<S>, head: Option<Head>, m: Message)
    requires Appendable(head, m)
    ensures Some(HeadAfter(sys, head, m)) != head
  {
  }
}
