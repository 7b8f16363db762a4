/** The write loop of `chelonia/kv/set`: compare-and-swap with a bounded number of retries. */
module KvSet {
  import opened Wrappers

  /**
   What a body turns out to be: absent, not parsable, from a height ahead of the client, or a value that may not decode.
   */
  datatype Body<D> = NoBody | Malformed | Ahead | Value(decoded: Option<D>)

  datatype Reply<D> = NetworkError | Reply(status: int, etag: Option<string>, body: Body<D>)
  {
    predicate Ok() { Reply? && 200 <= status <= 299 }

    predicate Conflicting() { Reply? && (status == 409 || status == 412) }
  }

  datatype Request<D> = Post(data: D, ifMatch: string) | InitialGet | RecoveryGet

  /**
   What the conflict handler is shown. `currentData` is `None` without a value, and a failed decode otherwise shows.
   */
  datatype Conflict<D> = Conflict(status: int, etag: Option<string>, currentValue: Option<Option<D>>)

  datatype Answer<D> = Throws | Decline | Retry(data: D, etag: Option<string>)

  /** What happened, in order. */
  datatype Event<D> = Sent(request: Request<D>, reply: Reply<D>) | Asked(conflict: Conflict<D>, answer: Answer<D>)

  datatype Failure<D> =
    | Thrown                  // by the network, by the handler, or for an unusable response
    | Aborted
    | HandlerRequired
    | MaxAttempts(currentData: Option<D>, etag: Option<string>)

  datatype Outcome<D> = Written(etag: Option<string>) | Declined | Failed(failure: Failure<D>)

  const ABSENT := "\"\""

  /** The `if-match` header: without an etag the key must not exist. */
  function Header(ifMatch: Option<string>): string {
    if ifMatch.Some? && ifMatch.value != "" then ifMatch.value else ABSENT
  }

  /** The reply is one from which the call takes a value, if it has one. */
  predicate Usable<D>(e: Event<D>) {
    e.Sent? && e.reply.Reply? && (e.reply.Ok() || (e.reply.Conflicting() && !e.request.RecoveryGet?))
  }

  /** The value and the etag that an event recovers. */
  function ValueIn<D>(e: Event<D>): Option<Option<D>> {
    if Usable(e) && e.reply.body.Value? then Some(e.reply.body.decoded) else None
  }

  function EtagIn<D>(e: Event<D>): Option<string> {
    if e.Sent? && e.reply.Reply? && (e.request.RecoveryGet? ==> e.reply.Ok() && !e.reply.body.Malformed?)
    then e.reply.etag
    else None
  }

  function LastValue<D>(log: seq<Event<D>>): Option<Option<D>> {
    if log == [] then None
    else if ValueIn(log[|log| - 1]).Some? then ValueIn(log[|log| - 1])
    else LastValue(log[..|log| - 1])
  }

  function LastEtag<D>(log: seq<Event<D>>): Option<string> {
    if log == [] then None
    else if EtagIn(log[|log| - 1]).Some? then EtagIn(log[|log| - 1])
    else LastEtag(log[..|log| - 1])
  }

  function Posts<D>(log: seq<Event<D>>): nat {
    if log == [] then 0
    else Posts(log[..|log| - 1]) + if log[|log| - 1].Sent? && log[|log| - 1].request.Post? then 1 else 0
  }

  function RecoveryGets<D>(log: seq<Event<D>>): nat {
    if log == [] then 0
    else RecoveryGets(log[..|log| - 1]) + if log[|log| - 1].Sent? && log[|log| - 1].request.RecoveryGet? then 1 else 0
  }

  function InitialGets<D>(log: seq<Event<D>>): nat {
    if log == [] then 0
    else InitialGets(log[..|log| - 1]) + if log[|log| - 1].Sent? && log[|log| - 1].request.InitialGet? then 1 else 0
  }

  lemma Appended<D>(log: seq<Event<D>>, e: Event<D>)
    ensures LastValue(log + [e]) == if ValueIn(e).Some? then ValueIn(e) else LastValue(log)
    ensures LastEtag(log + [e]) == if EtagIn(e).Some? then EtagIn(e) else LastEtag(log)
    ensures Posts(log + [e]) == Posts(log) + if e.Sent? && e.request.Post? then 1 else 0
    ensures RecoveryGets(log + [e]) == RecoveryGets(log) + if e.Sent? && e.request.RecoveryGet? then 1 else 0
    ensures InitialGets(log + [e]) == InitialGets(log) + if e.Sent? && e.request.InitialGet? then 1 else 0
  {
    assert (log + [e])[..|log + [e]| - 1] == log;
  }

  /**
   What the handler must be shown after the reply at the end of a log (to the request, or to the recovery GET after it).
   */
  ghost predicate Shown<D>(log: seq<Event<D>>, c: Conflict<D>) {
    && log != [] && log[|log| - 1].Sent?
    && var last := log[|log| - 1];
       var n := if last.request.RecoveryGet? then |log| - 2 else |log| - 1;
       && n >= 0 && log[n].Sent? && !log[n].request.RecoveryGet? && log[n].reply.Reply?
       && c.status == log[n].reply.status
       && c.etag == EtagIn(last)
       && c.currentValue == ValueIn(last)
  }

  /** A conflict came with neither an etag nor a value, and no recovery GET has been made yet. */
  predicate NeedsRecovery<D>(log: seq<Event<D>>) {
    && log != [] && log[|log| - 1].Sent?
    && var last := log[|log| - 1];
       && !last.request.RecoveryGet? && last.reply.Conflicting() && last.reply.etag.None? && !last.reply.body.Value?
       && RecoveryGets(log) == 0
  }

  /**
   After an answer of the handler there is only the POST it asks for, and such an answer is the only thing a POST can
   follow. The handler is shown what was recovered, and a recovery GET is made exactly where one is needed.
   */
  ghost predicate Justified<D>(before: seq<Event<D>>, e: Event<D>) {
    && (before != [] && before[|before| - 1].Asked? ==>
          var answer := before[|before| - 1].answer;
          answer.Retry? && e.Sent? && e.request == Post(answer.data, Header(answer.etag)))
    && (e.Sent? && e.request.Post? && before != [] ==> before[|before| - 1].Asked?)
    && (e.Sent? && e.request.InitialGet? ==> before == [])
    && (e.Sent? && e.request.RecoveryGet? ==> NeedsRecovery(before))
    && (e.Asked? ==> Shown(before, e.conflict) && !NeedsRecovery(before))
  }

  ghost predicate Faithful<D>(log: seq<Event<D>>) {
    forall i | 0 <= i < |log| :: Justified(log[..i], log[i])
  }

  lemma FaithfulGrows<D>(log: seq<Event<D>>, e: Event<D>)
    requires Faithful(log) && Justified(log, e)
    ensures Faithful(log + [e])
  {
    hide Justified;
    var log' := log + [e];
    forall i | 0 <= i < |log'| ensures Justified(log'[..i], log'[i]) {
      assert log'[..i] == log[..i];
      assert i == |log| ==> log[..i] == log;
    }
  }

  /** A reply from which `resolveData` cannot go on. */
  predicate Unusable<D>(reply: Reply<D>)
    requires reply.Reply?
  {
    if reply.Ok() || reply.Conflicting() then reply.body.Malformed? else reply.status != 404 && reply.status != 410
  }

  /** A recovery GET that throws. */
  predicate RecoveryFails<D>(reply: Reply<D>) { reply.NetworkError? || (reply.Ok() && reply.body.Malformed?) }

  function Max(a: int, b: int): int { if a < b then b else a }

  datatype Resolution = Again | Break | Raise

  /** One call, against arbitrary replies of the server and an arbitrary conflict handler. */
  class Call<D> {
    const net: nat -> Reply<D>                        // the reply to the n-th event
    const onconflict: (Conflict<D>, nat) -> Answer<D>  // what the handler makes of a conflict at the n-th event
    const hasOnconflict: bool
    const aborted: nat -> bool                        // the caller's signal, at the n-th event
    var data: Option<D>
    var ifMatch: Option<string>
    var currentValue: Option<Option<D>>
    var lastRecoveredValue: Option<Option<D>>
    var conflictEtag: Option<string>
    var recoveryGetAttempted: bool
    var log: seq<Event<D>>

    constructor (net: nat -> Reply<D>, onconflict: (Conflict<D>, nat) -> Answer<D>, hasOnconflict: bool,
                 aborted: nat -> bool,
                 data: Option<D>, ifMatch: Option<string>)
      ensures this.data == data && this.ifMatch == ifMatch && log == []
      ensures Tracking()
    {
      this.net, this.onconflict, this.hasOnconflict, this.aborted := net, onconflict, hasOnconflict, aborted;
      this.data, this.ifMatch := data, ifMatch;
      currentValue, lastRecoveredValue, conflictEtag, recoveryGetAttempted, log := None, None, None, false, [];
    }

    /** The variables hold what the log says. */
    ghost predicate Tracking()
      reads this
    {
      && lastRecoveredValue == LastValue(log)
      && conflictEtag == LastEtag(log)
      && RecoveryGets(log) == (if recoveryGetAttempted then 1 else 0)
      && Faithful(log)
    }

    method Fetch(request: Request<D>) returns (reply: Reply<D>)
      requires Faithful(log) && Justified(log, Sent(request, NetworkError))
      modifies this`log
      ensures log == old(log) + [Sent(request, reply)] && Faithful(log)
    {
      reply := net(|log|);
      FaithfulGrows(log, Sent(request, reply));
      log := log + [Sent(request, reply)];
    }

    /** Takes what a reply offers; false if its body cannot be used. */
    method TakeBody(body: Body<D>) returns (ok: bool)
      modifies this`currentValue, this`lastRecoveredValue
      ensures ok == !body.Malformed?
      ensures currentValue == if body.Value? then Some(body.decoded) else old(currentValue)
      ensures lastRecoveredValue == if body.Value? then Some(body.decoded) else old(lastRecoveredValue)
    {
      if body.Malformed? { return false; }
      if body.Value? {
        currentValue := Some(body.decoded);
        lastRecoveredValue := currentValue;
      }
      return true;
    }

    /** The start of `resolveData`: what the reply itself offers. */
    method TakeReply(response: Reply<D>) returns (ok: bool)
      requires response.Reply? && log != [] && log[|log| - 1].Sent? && log[|log| - 1].reply == response
      requires !log[|log| - 1].request.RecoveryGet?
      requires lastRecoveredValue == LastValue(log[..|log| - 1]) && conflictEtag == LastEtag(log[..|log| - 1])
      modifies this`currentValue, this`lastRecoveredValue, this`conflictEtag
      ensures lastRecoveredValue == LastValue(log) && conflictEtag == LastEtag(log)
      ensures currentValue == ValueIn(log[|log| - 1])
      ensures currentValue.Some? ==> currentValue == lastRecoveredValue
      ensures ok <==> !Unusable(response)
    {
      ghost var before := log[..|log| - 1];
      assert log == before + [log[|log| - 1]];
      Appended(before, log[|log| - 1]);
      currentValue := None;
      if response.etag.Some? { conflictEtag := response.etag; }
      if response.Ok() || response.Conflicting() {
        ok := TakeBody(response.body);
      } else {
        ok := response.status == 404 || response.status == 410;
      }
    }

    /** The recovery GET: at most one in a call. A body that cannot be used loses the header as well. */
    method TakeRecoveryGet() returns (etag: Option<string>, ok: bool)
      requires Tracking() && !recoveryGetAttempted && currentValue.None? && NeedsRecovery(log)
      modifies this`currentValue, this`lastRecoveredValue, this`conflictEtag, this`recoveryGetAttempted, this`log
      ensures Tracking() && recoveryGetAttempted
      ensures |log| == |old(log)| + 1 && log[..|old(log)|] == old(log)
      ensures log[|old(log)|].Sent? && log[|old(log)|].request.RecoveryGet?
      ensures etag == EtagIn(log[|old(log)|]) && currentValue == ValueIn(log[|old(log)|])
      ensures currentValue.Some? ==> currentValue == lastRecoveredValue
      ensures ok <==> !RecoveryFails(log[|old(log)|].reply)
    {
      hide Faithful;
      recoveryGetAttempted := true;
      ghost var before := log;
      var reply := Fetch(RecoveryGet);
      Appended(before, Sent(RecoveryGet, reply));
      etag, ok := None, reply.Reply?;
      if reply.Ok() {
        ok := TakeBody(reply.body);
        if ok {
          etag := reply.etag;
          if etag.Some? { conflictEtag := etag; }
        }
      }
    }

    /** `resolveData` up to the handler: what the reply offers, or failing that what a recovery GET offers. */
    method Recover(response: Reply<D>) returns (etag: Option<string>, ok: bool)
      requires response.Reply? && log != [] && log[|log| - 1].Sent? && log[|log| - 1].reply == response
      requires !log[|log| - 1].request.RecoveryGet?
      requires lastRecoveredValue == LastValue(log[..|log| - 1]) && conflictEtag == LastEtag(log[..|log| - 1])
      requires RecoveryGets(log) == (if recoveryGetAttempted then 1 else 0) && Faithful(log)
      modifies this`currentValue, this`lastRecoveredValue, this`conflictEtag, this`recoveryGetAttempted, this`log
      ensures Tracking()
      ensures old(log) <= log && Posts(log) == Posts(old(log)) && InitialGets(log) == InitialGets(old(log))
      ensures currentValue.Some? ==> currentValue == lastRecoveredValue
      ensures ok ==> Shown(log, Conflict(response.status, etag, currentValue)) && !NeedsRecovery(log)
      ensures log != old(log) ==> log[|log| - 1].Sent? && log[|log| - 1].request.RecoveryGet?
      ensures !ok ==> if log == old(log) then Unusable(response) else RecoveryFails(log[|log| - 1].reply)
    {
      hide Faithful, LastValue, LastEtag, RecoveryGets, Posts, InitialGets;
      etag := response.etag;
      ok := TakeReply(response);
      if ok && !recoveryGetAttempted && etag.None? && currentValue.None? && response.Conflicting() {
        ghost var before := log;
        etag, ok := TakeRecoveryGet();
        assert log == before + [log[|before|]];
        Appended(before, log[|before|]);
      }
    }

    /** The whole of `resolveData` when the handler is to be called. */
    method ResolveData(response: Reply<D>) returns (resolution: Resolution)
      requires response.Reply? && log != [] && log[|log| - 1].Sent? && log[|log| - 1].reply == response
      requires !log[|log| - 1].request.RecoveryGet?
      requires lastRecoveredValue == LastValue(log[..|log| - 1]) && conflictEtag == LastEtag(log[..|log| - 1])
      requires RecoveryGets(log) == (if recoveryGetAttempted then 1 else 0) && Faithful(log)
      modifies this
      ensures Tracking()
      ensures old(log) <= log && Posts(log) == Posts(old(log)) && InitialGets(log) == InitialGets(old(log))
      ensures resolution.Again? ==>
        data.Some? && log != [] && Justified(log, Sent(Post(data.value, Header(ifMatch)), NetworkError))
      ensures data.None? ==> !resolution.Again?
      ensures var last := log[|log| - 1];
        match resolution
        case Again => last.Asked? && last.answer.Retry?
        case Break => last.Asked? && last.answer.Decline?
        case Raise =>
          || (last.Asked? && last.answer.Throws?)
          || (log == old(log) && Unusable(response))
          || (last.Sent? && last.request.RecoveryGet? && RecoveryFails(last.reply))
    {
      hide Faithful, LastValue, LastEtag, RecoveryGets, Posts, InitialGets, Shown;
      var etag, ok := Recover(response);
      if !ok { return Raise; }
      var conflict := Conflict(response.status, etag, currentValue);
      var answer := onconflict(conflict, |log|);
      FaithfulGrows(log, Asked(conflict, answer));
      Appended(log, Asked(conflict, answer));
      log := log + [Asked(conflict, answer)];
      match answer
      case Throws => return Raise;
      case Decline => return Break;
      case Retry(d, e) =>
        data, ifMatch := Some(d), e;
        return Again;
    }

    /**
     How a call ends is decided by the last thing that happened: by the reply to a POST, by the answer of the handler,
     or by a GET that cannot be used. `exhausted` says that the POST was the last one allowed.
     */
    ghost predicate EndsAs(outcome: Outcome<D>, exhausted: bool)
      reads this
    {
      if log == [] then outcome == Failed(HandlerRequired) && !hasOnconflict
      else if log[|log| - 1].Asked? then
        || (log[|log| - 1].answer.Decline? && outcome == Declined)
        || (log[|log| - 1].answer.Throws? && outcome == Failed(Thrown))
      else
        var request, reply := log[|log| - 1].request, log[|log| - 1].reply;
        match request
        case Post(_, _) =>
          if reply.Ok() then outcome == Written(reply.etag)
          else if !reply.Conflicting() then outcome == Failed(Thrown)
          else if exhausted then outcome.Failed? && outcome.failure.MaxAttempts?
          else if aborted(|log|) then outcome == Failed(Aborted)
          else outcome == Failed(Thrown) && (!hasOnconflict || Unusable(reply))
        case InitialGet => outcome == Failed(Thrown) && (reply.NetworkError? || Unusable(reply))
        case RecoveryGet =>
          if exhausted then outcome.Failed? && outcome.failure.MaxAttempts?
          else outcome == Failed(Thrown) && RecoveryFails(reply)
    }

    /** When attempts run out, the last value and the last etag that any reply gave are reported. */
    ghost predicate Reports(outcome: Outcome<D>)
      reads this
    {
      outcome.Failed? && outcome.failure.MaxAttempts? ==>
        && Posts(log) > 0 && outcome.failure.etag == LastEtag(log)
        && outcome.failure.currentData == DataOf(LastValue(log))
    }

    /** The handler has just asked for another POST, which the variables hold. */
    ghost predicate Retrying()
      reads this
    {
      && Tracking() && log != [] && log[|log| - 1].Asked? && log[|log| - 1].answer.Retry?
      && data.Some? && Justified(log, Sent(Post(data.value, Header(ifMatch)), NetworkError))
    }

    /** Without data: what is there is fetched, and the handler makes data of it. */
    method FetchFirst() returns (outcome: Option<Outcome<D>>)
      requires log == [] && Tracking() && data.None?
      modifies this
      ensures Faithful(log) && RecoveryGets(log) <= 1 && Posts(log) == 0
      ensures InitialGets(log) == if hasOnconflict then 1 else 0
      ensures outcome.None? ==> Retrying()
      ensures outcome.Some? ==> EndsAs(outcome.value, false) && Reports(outcome.value)
      ensures outcome.Some? ==> !(outcome.value.Failed? && outcome.value.failure.MaxAttempts?)
    {
      hide Faithful, LastValue, LastEtag, RecoveryGets, Posts, InitialGets;
      EmptyCounts<D>();
      if !hasOnconflict { return Some(Failed(HandlerRequired)); }
      ghost var before := log;
      var response := Fetch(InitialGet);
      Appended(before, Sent(InitialGet, response));
      if response.NetworkError? { return Some(Failed(Thrown)); }
      var resolution := ResolveData(response);
      if resolution.Raise? { return Some(Failed(Thrown)); }
      if resolution.Break? { return Some(Declined); }
      return None;
    }

    /** One POST, and after a conflict with attempts left the handler. */
    method Attempt(attempts: int) returns (outcome: Option<Outcome<D>>)
      requires Tracking() && data.Some? && Justified(log, Sent(Post(data.value, Header(ifMatch)), NetworkError))
      modifies this
      ensures Faithful(log) && RecoveryGets(log) <= 1
      ensures Posts(log) == Posts(old(log)) + 1 && InitialGets(log) == InitialGets(old(log))
      ensures |log| > |old(log)| && old(log) <= log && log[|old(log)|].Sent?
      ensures log[|old(log)|].request == Post(old(data).value, Header(old(ifMatch)))
      ensures outcome.None? ==> attempts > 1 && Retrying()
      ensures outcome.Some? ==> EndsAs(outcome.value, attempts <= 1) && Reports(outcome.value)
      ensures outcome.Some? && outcome.value.Failed? && outcome.value.failure.MaxAttempts? ==> attempts <= 1
    {
      hide Faithful, Justified, LastValue, LastEtag, RecoveryGets, Posts, InitialGets;
      ghost var before := log;
      var request := Post(data.value, Header(ifMatch));
      var response := Fetch(request);
      Appended(before, Sent(request, response));
      if response.NetworkError? { return Some(Failed(Thrown)); }
      if response.Ok() { return Some(Written(response.etag)); }
      if !response.Conflicting() { return Some(Failed(Thrown)); }
      if attempts - 1 <= 0 {
        var _, _ := Recover(response);
        var reported := if currentValue.Some? then currentValue else lastRecoveredValue;
        return Some(Failed(MaxAttempts(DataOf(reported), conflictEtag)));
      }
      if aborted(|log|) { return Some(Failed(Aborted)); }
      if !hasOnconflict { return Some(Failed(Thrown)); }
      var resolution := ResolveData(response);
      if resolution.Raise? { return Some(Failed(Thrown)); }
      if resolution.Break? { return Some(Declined); }
      return None;
    }

    /**
     The call. It ends after at most `max(1, maxAttempts)` POSTs, one recovery GET and, without data to begin with, one
     initial GET, and as the last thing that happened says: so an answer of the handler to try again is always followed
     by the POST it asks for.
     */
    method Run(maxAttempts: Option<int>) returns (outcome: Outcome<D>)
      requires log == [] && Tracking()
      modifies this
      ensures Faithful(log)
      ensures Posts(log) <= Max(1, AttemptsOf(maxAttempts))
      ensures RecoveryGets(log) <= 1
      ensures InitialGets(log) == if old(data).None? && hasOnconflict then 1 else 0
      ensures old(data).Some? ==>
        log != [] && log[0].Sent? && log[0].request == Post(old(data).value, Header(old(ifMatch)))
      ensures EndsAs(outcome, Posts(log) == Max(1, AttemptsOf(maxAttempts)))
      ensures outcome.Failed? && outcome.failure.MaxAttempts? ==> Posts(log) == Max(1, AttemptsOf(maxAttempts))
      ensures Reports(outcome)
    {
      hide Faithful, Justified, LastValue, LastEtag, RecoveryGets, Posts, InitialGets, Shown, NeedsRecovery;
      EmptyCounts<D>();
      var attempts := AttemptsOf(maxAttempts);
      while true
        invariant Tracking() && (if log == [] then data == old(data) && ifMatch == old(ifMatch) else Retrying())
        invariant Posts(log) == AttemptsOf(maxAttempts) - attempts && (Posts(log) > 0 ==> attempts >= 1)
        invariant log != [] ==> InitialGets(log) == if old(data).None? && hasOnconflict then 1 else 0
        invariant old(data).Some? && log != [] ==>
          log[0].Sent? && log[0].request == Post(old(data).value, Header(old(ifMatch)))
        decreases attempts, if data.None? then 1 else 0
      {
        if data.None? {
          var first := FetchFirst();
          if first.Some? { return first.value; }
          continue;
        }
        if log == [] { FirstIsJustified(Post(data.value, Header(ifMatch))); }
        var result := Attempt(attempts);
        if result.Some? { return result.value; }
        attempts := attempts - 1;
      }
    }
  }

  /** `maxAttempts ?? 3` */
  function AttemptsOf(maxAttempts: Option<int>): int { if maxAttempts.Some? then maxAttempts.value else 3 }

  /** The decoded value, if there is one and it decodes. */
  function DataOf<D>(value: Option<Option<D>>): Option<D> { if value.Some? then value.value else None }

  lemma EmptyCounts<D>()
    ensures Posts<D>([]) == 0 && RecoveryGets<D>([]) == 0 && InitialGets<D>([]) == 0
  {
  }

  /** A write is guarded by the etag it is given, and otherwise by there being no key. */
  lemma HeaderGuards(etag: string)
    ensures Header(None) == "\"\"" && Header(Some("")) == "\"\"" && (etag != "" ==> Header(Some(etag)) == etag)
  {
  }

  /** In a log that does not end with it, an answer to try again is followed by the POST it asks for. */
  lemma RetryIsPosted<D>(log: seq<Event<D>>, i: nat)
    requires Faithful(log) && i + 1 < |log| && log[i].Asked?
    ensures log[i].answer.Retry?
    ensures log[i + 1].Sent? && log[i + 1].request == Post(log[i].answer.data, Header(log[i].answer.etag))
  {
    assert Justified(log[..i + 1], log[i + 1]);
    assert log[..i + 1][i] == log[i];
  }

  lemma FirstIsJustified<D>(request: Request<D>)
    requires !request.RecoveryGet?
    ensures Justified<D>([], Sent(request, NetworkError))
  {
  }
}
