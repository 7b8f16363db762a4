/** The coalescing flush of active filters to pubsub, interleaved with changes of the index at every await. */
module KvFilter {
  import opened Wrappers
  import KvIndex

  type Filters = map<string, set<string>>

  /**
   The flush machinery. `microtasks` counts the flushes queued and not begun; `sent` is what pubsub was last handed,
   contract by contract, and is absent before the client is connected.
   */
  datatype State = State(
    filters: Filters,         // kvActiveFilters
    dirty: set<string>,       // kvFilterDirty
    retry: set<string>,       // kvFilterRetry
    microtasks: nat,
    inFlight: bool,           // kvFlushInFlight
    timer: bool,              // kvFilterRetryTimer
    sent: Option<Filters>)

  const INITIAL := State(map[], {}, {}, 0, false, false, None)

  /** What can happen, between any two awaits. */
  datatype Action =
    | ChangeIndex(filters: Filters, dirty: set<string>, released: set<string>)   // a selector that keeps the index
    | Microtask                           // a queued flush begins, unless one is running
    | Turn(id: string, fails: bool)       // the running flush hands one filter over, or fails to
    | Finish                              // the running flush finds nothing more to do
    | Timer                               // the retry timer fires
    | Connect                             // a pubsub client is created and seeded from the active filters
    | Unsubscribe(id: string)             // pubsub forgets the filter of a contract that has been let go

  predicate Enabled(s: State, a: Action) {
    match a
    case ChangeIndex(filters, dirty, released) =>
      && s.dirty <= dirty && released !! filters.Keys
      && forall id <- filters :: id in dirty || (id in s.filters && filters[id] == s.filters[id])
    case Microtask => s.microtasks > 0
    case Turn(id, _) => s.inFlight && id in s.dirty
    case Finish => s.inFlight && s.dirty == {}
    case Timer => s.timer
    case Connect => true
    case Unsubscribe(id) => id !in s.filters
  }

  /** `setKvFilter`, where no filter at all removes the entry. */
  function Handed(s: State, id: string): Option<Filters> {
    if s.sent.None? then None
    else if id in s.filters then Some(s.sent.value[id := s.filters[id]])
    else Some(s.sent.value - {id})
  }

  function Next(s: State, a: Action): State
    requires Enabled(s, a)
  {
    match a
    case ChangeIndex(filters, dirty, released) =>
      s.(filters := filters, dirty := dirty, retry := s.retry - released,
         microtasks := if s.dirty == {} && dirty != {} then s.microtasks + 1 else s.microtasks)
    case Microtask => s.(microtasks := s.microtasks - 1, inFlight := true)
    case Turn(id, fails) =>
      if fails then s.(dirty := s.dirty - {id}, retry := s.retry + {id}, timer := s.timer || s.retry == {})
      else s.(dirty := s.dirty - {id}, sent := Handed(s, id))
    case Finish => s.(inFlight := false)
    case Timer =>
      if s.retry == {} then s.(timer := false)
      else s.(timer := false, dirty := s.dirty + s.retry, retry := {}, inFlight := true)
    case Connect => s.(sent := Some(s.filters))
    case Unsubscribe(id) => s.(sent := Handed(s, id))
  }

  /** A turn hands pubsub the filter of its contract, or takes away the one it had if the contract has none now. */
  lemma TurnHandsOver(s: State, id: string, other: string)
    requires Enabled(s, Turn(id, false)) && s.sent.Some?
    ensures var s' := Next(s, Turn(id, false));
      && s'.sent.Some? && s'.dirty == s.dirty - {id} && s'.filters == s.filters && s'.retry == s.retry
      && (id in s'.sent.value <==> id in s.filters) && (id in s.filters ==> s'.sent.value[id] == s.filters[id])
      && (other != id ==> (other in s'.sent.value <==> other in s.sent.value))
      && (other != id && other in s.sent.value ==> s'.sent.value[other] == s.sent.value[other])
  {
  }

  /** A turn that fails changes nothing at pubsub, and has the contract tried again. */
  lemma FailedTurnRetries(s: State, id: string)
    requires Enabled(s, Turn(id, true)) && Inv(s)
    ensures var s' := Next(s, Turn(id, true));
      s'.sent == s.sent && id in s'.retry && id !in s'.dirty && s'.timer
  {
  }

  /** Pubsub has exactly the filter of this contract. */
  predicate UpToDate(s: State, id: string) {
    s.sent.Some? && id in s.sent.value && id in s.filters && s.sent.value[id] == s.filters[id]
  }

  predicate Inv(s: State) {
    && (s.sent.Some? ==> forall id <- s.filters :: UpToDate(s, id) || id in s.dirty || id in s.retry)
    && (s.dirty != {} ==> s.microtasks > 0 || s.inFlight)
    && (s.retry != {} ==> s.timer)
  }

  lemma NextKeepsInv(s: State, a: Action)
    requires Inv(s) && Enabled(s, a)
    ensures Inv(Next(s, a))
  {
    var s' := Next(s, a);
    if s'.sent.Some? && !a.Connect? {
      forall id | id in s'.filters ensures UpToDate(s', id) || id in s'.dirty || id in s'.retry {
        if id in s.filters { assert UpToDate(s, id) || id in s.dirty || id in s.retry; }
      }
    }
  }

  /** The selectors of the index change filters only in this way. */
  lemma IndexChangesAreEnabled(s: State, ix: KvIndex.Index, ix': KvIndex.Index, released: set<string>)
    requires s.filters == ix.filters && s.dirty == ix.dirty && KvIndex.Tracked(ix, ix') && released !! ix'.filters.Keys
    ensures Enabled(s, ChangeIndex(ix'.filters, ix'.dirty, released))
  {
  }

  /** A run: every action enabled where it happens. */
  predicate Run(states: seq<State>, actions: seq<Action>) {
    && |states| == |actions| + 1
    && forall i | 0 <= i < |actions| :: Enabled(states[i], actions[i]) && states[i + 1] == Next(states[i], actions[i])
  }

  /**
   Under every interleaving: once connected, every contract with a filter entry either had exactly that set handed to
   pubsub last, or is marked dirty or for retry; a non-empty dirty set has a flush queued or running, and a non-empty
   retry set an armed timer.
   */
  lemma {:induction false} FiltersConverge(states: seq<State>, actions: seq<Action>, i: nat)
    requires Run(states, actions) && states[0] == INITIAL && i < |states|
    ensures Inv(states[i])
  {
    if i > 0 {
      FiltersConverge(states, actions, i - 1);
      assert Enabled(states[i - 1], actions[i - 1]);
      NextKeepsInv(states[i - 1], actions[i - 1]);
    }
  }

  /** Nothing is queued, running or armed. */
  predicate Quiescent(s: State) { s.microtasks == 0 && !s.inFlight && !s.timer }

  lemma QuiescentIsConverged(states: seq<State>, actions: seq<Action>, i: nat)
    requires Run(states, actions) && states[0] == INITIAL && i < |states|
    requires Quiescent(states[i]) && states[i].sent.Some?
    ensures forall id <- states[i].filters :: UpToDate(states[i], id)
  {
    FiltersConverge(states, actions, i);
  }

  // ---- and quiescence is reached -----------------------------------------------------------

  /** A step of the machinery itself that does not fail. */
  predicate Drives(a: Action) { a.Microtask? || (a.Turn? && !a.fails) || a.Finish? || a.Timer? }

  function Work(s: State): nat {
    4 * |s.retry| + 2 * |s.dirty| + 2 * s.microtasks + (if s.timer then 2 else 0) + (if s.inFlight then 1 else 0)
  }

  lemma DriveLessens(s: State, a: Action)
    requires Enabled(s, a) && Drives(a)
    ensures Work(Next(s, a)) < Work(s) && Next(s, a).filters == s.filters
  {
    if a.Timer? { UnionSize(s.dirty, s.retry); }
  }

  lemma {:induction false} UnionSize(a: set<string>, b: set<string>)
    ensures |a + b| <= |a| + |b|
    decreases |b|
  {
    if x :| x in b {
      UnionSize(a, b - {x});
      assert a + b == (a + (b - {x})) + {x};
    } else {
      assert a + b == a;
    }
  }

  /** Unless everything is quiet, some step of the machinery can be taken. */
  lemma DriveExists(s: State) returns (a: Action)
    requires !Quiescent(s)
    ensures Drives(a) && Enabled(s, a)
  {
    if s.microtasks > 0 {
      a := Microtask;
    } else if s.timer {
      a := Timer;
    } else if id :| id in s.dirty {
      a := Turn(id, false);
    } else {
      a := Finish;
    }
  }

  /**
   While nothing changes and nothing fails, the machinery comes to rest within a number of steps bounded by the work
   pending, whatever the order of the steps; connected, it then has handed every filter over.
   */
  lemma {:induction false} FlushTerminates(states: seq<State>, actions: seq<Action>)
    requires Run(states, actions) && forall a <- actions :: Drives(a)
    ensures |actions| + Work(states[|actions|]) <= Work(states[0])
    ensures states[|actions|].filters == states[0].filters
  {
    if actions != [] {
      var n := |actions| - 1;
      FlushTerminates(states[..n + 1], actions[..n]);
      assert actions[n] in actions && Enabled(states[n], actions[n]);
      DriveLessens(states[n], actions[n]);
    }
  }

  // ---- the same in place ------------------------------------------------------------------------

  class FilterPump {
    var kvActiveFilters: Filters
    var kvFilterDirty: set<string>
    var kvFilterRetry: set<string>
    var microtasks: nat
    var kvFlushInFlight: bool
    var timer: bool
    var pubsub: Option<Filters>

    ghost function Value(): State
      reads this
    {
      State(kvActiveFilters, kvFilterDirty, kvFilterRetry, microtasks, kvFlushInFlight, timer, pubsub)
    }

    constructor ()
      ensures Value() == INITIAL
    {
      kvActiveFilters, kvFilterDirty, kvFilterRetry, microtasks, kvFlushInFlight, timer, pubsub :=
        map[], {}, {}, 0, false, false, None;
    }

    /** `queueFilterFlush`, for a contract whose filter has just been set. */
    method QueueFilterFlush(id: string, filter: set<string>)
      modifies this
      ensures Enabled(old(Value()), ChangeIndex(old(kvActiveFilters)[id := filter], old(kvFilterDirty) + {id}, {}))
      ensures Value() ==
        Next(old(Value()), ChangeIndex(old(kvActiveFilters)[id := filter], old(kvFilterDirty) + {id}, {}))
    {
      kvActiveFilters := kvActiveFilters[id := filter];
      var wasEmpty := kvFilterDirty == {};
      kvFilterDirty := kvFilterDirty + {id};
      if wasEmpty { microtasks := microtasks + 1; }
      assert kvFilterRetry - {} == kvFilterRetry;
    }

    /** `scheduleFilterRetry`: one timer for all contracts that failed. */
    method ScheduleFilterRetry(id: string)
      modifies this`kvFilterRetry, this`timer
      ensures kvFilterRetry == old(kvFilterRetry) + {id} && timer == (old(timer) || old(kvFilterRetry) == {})
    {
      var wasEmpty := kvFilterRetry == {};
      kvFilterRetry := kvFilterRetry + {id};
      if !wasEmpty { return; }
      if timer { return; }
      timer := true;
    }

    /** One turn of the draining loop: hands a filter over, or puts the contract aside for a retry. */
    method FlushOne(id: string, fails: bool)
      requires kvFlushInFlight && id in kvFilterDirty
      modifies this`kvFilterDirty, this`kvFilterRetry, this`timer, this`pubsub
      ensures Value() == Next(old(Value()), Turn(id, fails))
    {
      kvFilterDirty := kvFilterDirty - {id};
      if fails {
        ScheduleFilterRetry(id);
      } else if pubsub.Some? {
        pubsub := Some(if id in kvActiveFilters then pubsub.value[id := kvActiveFilters[id]] else pubsub.value - {id});
      }
    }

    /**
     The stretch of the draining loop up to its next await, or to its end: failures are put aside without awaiting.
     Afterwards the loop either awaits with one more filter handed over, or is over with nothing dirty.
     */
    method DrainUntilAwait(fails: string -> bool) returns (handed: Option<string>)
      requires kvFlushInFlight && Inv(Value())
      modifies this
      ensures Inv(Value()) && kvActiveFilters == old(kvActiveFilters) && kvFlushInFlight == handed.Some?
      ensures handed.None? ==>
        kvFilterDirty == {} && kvFilterRetry == old(kvFilterRetry) + old(kvFilterDirty) && pubsub == old(pubsub)
      ensures handed.Some? ==>
        && handed.value in old(kvFilterDirty) - kvFilterDirty && pubsub == Handed(old(Value()), handed.value)
        && kvFilterRetry + kvFilterDirty + {handed.value} == old(kvFilterRetry) + old(kvFilterDirty)
    {
      hide Inv;
      while kvFilterDirty != {}
        invariant Inv(Value()) && kvFlushInFlight && kvActiveFilters == old(kvActiveFilters) && pubsub == old(pubsub)
        invariant kvFilterDirty <= old(kvFilterDirty)
        invariant kvFilterRetry + kvFilterDirty == old(kvFilterRetry) + old(kvFilterDirty)
        decreases kvFilterDirty
      {
        var id :| id in kvFilterDirty;
        NextKeepsInv(Value(), Turn(id, fails(id)));
        FlushOne(id, fails(id));
        if !fails(id) { return Some(id); }
      }
      NextKeepsInv(Value(), Finish);
      kvFlushInFlight := false;
      return None;
    }
  }
}
