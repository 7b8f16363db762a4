/** What the operations on one KV slot achieve: the values they post, store and show, said on values and etags alone. */
module KvEffects {
  import opened Wrappers
  import opened Json
  import opened KvSlot

  /** The value a reducer gives for `basis`, validated; `None` when it gives none, or none that is valid. */
  function Produced(slot: Slot, reducer: Reducer, basis: Option<Json>): Option<Json> {
    match reducer(basis)
    case Out(j) => slot.parse(j)
    case _ => None
  }

  /** The server holds `basis` for a reducer: a valid value, or nothing or a cleared slot and the default. */
  predicate Offers(slot: Slot, w: World, basis: Option<Json>) {
    if w.register.None? then basis == slot.default
    else
      && w.register.value in w.bodies && w.bodies[w.register.value].Wire?
      && var j := w.bodies[w.register.value].json;
         if j == Null then basis == slot.default else slot.parse(j).Some? && basis == slot.parse(j)
  }

  /** What the server holds fails validation: it cannot be decoded, or it is no clear and does not parse. */
  predicate Unreadable(slot: Slot, w: World) {
    && w.register.Some? && w.register.value in w.bodies
    && var body := w.bodies[w.register.value];
       body.Undecodable? || (body.json != Null && slot.parse(body.json).None?)
  }

  predicate Sound(w: World) { w.register.Some? ==> w.register.value in w.bodies }

  /** The lane of a client that is about to write `v`, the output of `reducer` on `basis`. */
  ghost predicate Sends(l: Lane, reducer: Reducer, basis: Option<Json>, v: Json, ifMatch: Option<Etag>, attempts: int) {
    && l.Posting? && l.job.Update? && l.job.reducer == reducer && l.job.basis == basis
    && l.body == v && l.ifMatch == ifMatch && l.attempts == attempts && l.reply.Pending?
  }

  /** The lane goes on with what the reducer makes of `basis`, or is free if that is nothing. */
  ghost predicate GoesOn(slot: Slot, l: Lane, reducer: Reducer, basis: Option<Json>, ifMatch: Option<Etag>,
                         attempts: int)
  {
    match Produced(slot, reducer, basis)
    case None => l.Idle?
    case Some(v) => Sends(l, reducer, basis, v, ifMatch, attempts)
  }

  /** Two steps one after the other. */
  ghost predicate TwoSteps(slot: Slot, w: World, a1: Action, a2: Action, w': World) {
    && Enabled(w, a1) && Sound(w)
    && var mid := Next(slot, w, a1);
       Enabled(mid, a2) && Sound(mid) && w' == Next(slot, mid, a2)
  }

  /** The world after a list of actions, if each of them is enabled where it comes. */
  function After(slot: Slot, w: World, actions: seq<Action>): Option<World>
    decreases |actions|
  {
    if actions == [] then Some(w)
    else if Sound(w) && Enabled(w, actions[0]) then After(slot, Next(slot, w, actions[0]), actions[1..])
    else None
  }

  lemma AfterFirst(slot: Slot, w: World, a: Action, more: seq<Action>)
    ensures After(slot, w, [a] + more) ==
      if Sound(w) && Enabled(w, a) then After(slot, Next(slot, w, a), more) else None
  {
    hide Next, Enabled, Sound;
    assert ([a] + more)[1..] == more;
  }

  lemma AfterTwo(slot: Slot, w: World, a1: Action, a2: Action, mid: World, more: seq<Action>)
    ensures TwoSteps(slot, w, a1, a2, mid) ==> After(slot, w, [a1, a2] + more) == After(slot, mid, more)
  {
    hide Next, Enabled, After;
    assert [a1, a2] + more == [a1] + ([a2] + more);
    AfterFirst(slot, w, a1, [a2] + more);
    if TwoSteps(slot, w, a1, a2, mid) { AfterFirst(slot, Next(slot, w, a1), a2, more); }
  }

  lemma AfterThree(slot: Slot, w: World, a: Action, a1: Action, a2: Action, mid: World, more: seq<Action>)
    ensures Sound(w) && Enabled(w, a) && TwoSteps(slot, Next(slot, w, a), a1, a2, mid) ==>
      After(slot, w, [a, a1, a2] + more) == After(slot, mid, more)
  {
    hide Next, Enabled, After, TwoSteps;
    assert [a, a1, a2] + more == [a] + ([a1, a2] + more);
    AfterFirst(slot, w, a, [a1, a2] + more);
    if Sound(w) && Enabled(w, a) { AfterTwo(slot, Next(slot, w, a), a1, a2, mid, more); }
  }

  /** What an update starts from: the value of the mirror, or the default where there is none. */
  function Seeded(slot: Slot, m: Mirror): Option<Json> { if m.value.Some? then m.value else slot.default }

  // ---- an update ---------------------------------------------------------------------------

  /**
   An update starts from the value of the mirror, or from the default where there is none: it sends what the reducer
   makes of it, guarded by the etag of the mirror, or nothing.
   */
  lemma UpdateStarts(slot: Slot, w: World, c: nat, reducer: Reducer, attempts: int)
    requires Sound(w) && c in w.clients && w.clients[c].lane.Idle? && w.clients[c].mirror.status != Error
    ensures Enabled(w, StartUpdate(c, reducer, attempts))
    ensures var client, w' := w.clients[c], Next(slot, w, StartUpdate(c, reducer, attempts));
      && c in w'.clients && w' == With(w, c, client.(lane := w'.clients[c].lane))
      && GoesOn(slot, w'.clients[c].lane, reducer, Seeded(slot, client.mirror), client.mirror.etag, attempts)
  {
  }

  /** From an error status with a value it first reloads, and starts from a valid answer. */
  lemma UpdateReloads(slot: Slot, w: World, c: nat, reducer: Reducer, attempts: int)
    requires Sound(w) && c in w.clients && w.clients[c].lane.Idle?
    requires w.clients[c].mirror.status == Error && w.clients[c].mirror.value.Some?
    ensures var a := StartUpdate(c, reducer, attempts);
      Enabled(w, a)
        && Next(slot, w, a) == With(w, c, w.clients[c].(lane := Getting(Reload(reducer, attempts), Error, Unanswered)))
  {
  }

  lemma ReloadPosts(slot: Slot, w: World, c: nat, basis: Option<Json>) returns (w': World)
    requires Sound(w) && c in w.clients && Offers(slot, w, basis) && slot.Lawful()
    requires w.clients[c].lane.Getting? && w.clients[c].lane.purpose.Reload? && w.clients[c].lane.answer.Unanswered?
    ensures TwoSteps(slot, w, ServeGet(c, None), TakeGet(c), w')
    ensures var purpose := w.clients[c].lane.purpose;
      && c in w'.clients && w' == With(w, c, w'.clients[c]) && w'.clients[c].mirror.etag == w.register
      && GoesOn(slot, w'.clients[c].lane, purpose.reducer, basis, w.register, purpose.attempts)
  {
    var mid := Next(slot, w, ServeGet(c, None));
    w' := Next(slot, mid, TakeGet(c));
    assert w'.clients == w.clients[c := w'.clients[c]];
  }

  /** When the reload finds nothing valid, the update starts from the mirror after all. */
  lemma FailedReloadPosts(slot: Slot, w: World, c: nat, failure: Option<GetAnswer>) returns (w': World)
    requires Sound(w) && c in w.clients && w.clients[c].mirror.value.Some?
    requires w.clients[c].lane.Getting? && w.clients[c].lane.purpose.Reload? && w.clients[c].lane.answer.Unanswered?
    requires if failure.Some? then failure.value in {Threw, Failed} else Unreadable(slot, w)
    ensures TwoSteps(slot, w, ServeGet(c, failure), TakeGet(c), w')
    ensures var client, purpose := w.clients[c], w.clients[c].lane.purpose;
      && c in w'.clients && w' == With(w, c, client.(lane := w'.clients[c].lane))
      && GoesOn(slot, w'.clients[c].lane, purpose.reducer, client.mirror.value, client.mirror.etag, purpose.attempts)
  {
    var mid := Next(slot, w, ServeGet(c, failure));
    w' := Next(slot, mid, TakeGet(c));
    assert w'.clients == w.clients[c := w'.clients[c]];
  }

  /** A write whose guard holds is stored, and the mirror then holds it with its etag. */
  lemma PostIsStored(slot: Slot, w: World, c: nat, etag: Etag) returns (w': World)
    requires Sound(w) && c in w.clients && w.clients[c].lane.Posting? && w.clients[c].lane.reply.Pending?
    requires w.clients[c].lane.ifMatch == w.register && Names(w, etag, Wire(w.clients[c].lane.body))
    ensures TwoSteps(slot, w, ServePost(c, etag, Reached, true), TakePost(c, false), w')
    ensures w'.register == Some(etag) && w'.bodies == w.bodies[etag := Wire(w.clients[c].lane.body)]
    ensures c in w'.clients && w'.clients == w.clients[c := w'.clients[c]] && w'.clients[c].lane.Idle?
    ensures var l := w.clients[c].lane;
      && w'.clients[c].mirror == (if l.job.Clear? then Mirror(None, Some(etag), NonInit)
                                  else Mirror(Some(l.body), Some(etag), Loaded))
      && (if l.job.Clear? then w'.commits == w.commits
          else
            && |w'.commits| == |w.commits| + 1 && w'.commits[..|w.commits|] == w.commits
            && w'.commits[|w.commits|].author == c && w'.commits[|w.commits|].value == l.body)
  {
    var mid := Next(slot, w, ServePost(c, etag, Reached, true));
    w' := Next(slot, mid, TakePost(c, false));
    assert w'.clients == w.clients[c := w'.clients[c]];
  }

  /** A refused write with attempts left goes on from what the server holds, with its etag. */
  lemma RefusedPostsAgain(slot: Slot, w: World, c: nat, etag: Etag, basis: Option<Json>) returns (w': World)
    requires Sound(w) && c in w.clients && w.clients[c].lane.Posting? && w.clients[c].lane.reply.Pending?
    requires w.clients[c].lane.job.Update? && w.clients[c].lane.attempts > 1
    requires w.clients[c].lane.ifMatch != w.register && Names(w, etag, Wire(w.clients[c].lane.body))
    requires (w.register.Some? || w.clients[c].lane.recovered) && Offers(slot, w, basis)
    ensures TwoSteps(slot, w, ServePost(c, etag, Reached, true), TakePost(c, false), w')
    ensures c in w'.clients && w' == With(w, c, w.clients[c].(lane := w'.clients[c].lane))
    ensures var l := w.clients[c].lane;
      GoesOn(slot, w'.clients[c].lane, l.job.reducer, basis, w.register, l.attempts - 1)
  {
    var mid := Next(slot, w, ServePost(c, etag, Reached, true));
    w' := Next(slot, mid, TakePost(c, false));
    assert w'.clients == w.clients[c := w'.clients[c]];
  }

  /** A refusal that says nothing of what the server holds makes the client ask once, and then go on from the answer. */
  lemma RefusedAsks(slot: Slot, w: World, c: nat, etag: Etag) returns (w': World)
    requires Sound(w) && c in w.clients && w.clients[c].lane.Posting? && w.clients[c].lane.reply.Pending?
    requires w.clients[c].lane.ifMatch != None == w.register && Names(w, etag, Wire(w.clients[c].lane.body))
    requires w.clients[c].lane.attempts > 1 && !w.clients[c].lane.recovered
    ensures TwoSteps(slot, w, ServePost(c, etag, Reached, true), TakePost(c, false), w')
    ensures var l := w.clients[c].lane;
      w' == With(w, c, w.clients[c].(lane := Recovering(l.job, l.attempts - 1, Unanswered)))
  {
    var mid := Next(slot, w, ServePost(c, etag, Reached, true));
    w' := Next(slot, mid, TakePost(c, false));
    assert w'.clients == w.clients[c := w'.clients[c]];
  }

  lemma RecoveryPosts(slot: Slot, w: World, c: nat, basis: Option<Json>) returns (w': World)
    requires Sound(w) && c in w.clients && Offers(slot, w, basis)
    requires w.clients[c].lane.Recovering? && w.clients[c].lane.job.Update? && w.clients[c].lane.answer.Unanswered?
    ensures TwoSteps(slot, w, ServeGet(c, None), TakeGet(c), w')
    ensures c in w'.clients && w' == With(w, c, w.clients[c].(lane := w'.clients[c].lane))
    ensures var l := w.clients[c].lane;
      GoesOn(slot, w'.clients[c].lane, l.job.reducer, basis, w.register, l.attempts)
  {
    var mid := Next(slot, w, ServeGet(c, None));
    w' := Next(slot, mid, TakeGet(c));
    assert w'.clients == w.clients[c := w'.clients[c]];
  }

  /** What fails validation on the server ends the update without a write. */
  lemma RefusedByUnreadable(slot: Slot, w: World, c: nat, etag: Etag) returns (w': World)
    requires Sound(w) && c in w.clients && w.clients[c].lane.Posting? && w.clients[c].lane.reply.Pending?
    requires w.clients[c].lane.job.Update? && w.clients[c].lane.ifMatch != w.register && Unreadable(slot, w)
    requires Names(w, etag, Wire(w.clients[c].lane.body))
    ensures TwoSteps(slot, w, ServePost(c, etag, Reached, true), TakePost(c, false), w')
    ensures w' == With(w, c, w.clients[c].(lane := Idle))
  {
    var mid := Next(slot, w, ServePost(c, etag, Reached, true));
    w' := Next(slot, mid, TakePost(c, false));
    assert w'.clients == w.clients[c := w'.clients[c]];
  }

  /** A refusal on the last attempt frees the lane, and leaves everything else. */
  lemma LastRefusalGivesUp(slot: Slot, w: World, c: nat, etag: Etag) returns (w': World)
    requires Sound(w) && c in w.clients && w.clients[c].lane.Posting? && w.clients[c].lane.reply.Pending?
    requires w.clients[c].lane.ifMatch != w.register && w.clients[c].lane.attempts <= 1
    requires Names(w, etag, Wire(w.clients[c].lane.body))
    ensures TwoSteps(slot, w, ServePost(c, etag, Reached, true), TakePost(c, false), w')
    ensures w' == With(w, c, w.clients[c].(lane := Idle))
  {
    var mid := Next(slot, w, ServePost(c, etag, Reached, true));
    w' := Next(slot, mid, TakePost(c, false));
    assert w'.clients == w.clients[c := w'.clients[c]];
  }

  /** The client has stored `v` under `etag`: the server and its mirror say so, and there is one more commit. */
  ghost predicate Wrote(w: World, c: nat, v: Json, etag: Etag, w': World) {
    && w'.register == Some(etag) && etag in w'.bodies && w'.bodies[etag] == Wire(v)
    && c in w'.clients && w'.clients[c].mirror == Mirror(Some(v), Some(etag), Loaded) && w'.clients[c].lane.Idle?
    && |w'.commits| == |w.commits| + 1 && w'.commits[..|w.commits|] == w.commits && w'.commits[|w.commits|].value == v
  }

  /**
   An update from a mirror that is up to date writes what the reducer makes of the mirror's value, validated: it is in
   the register and in the mirror when it is done. When the reducer makes nothing of it, nothing happens at all.
   */
  lemma UpdateWrites(slot: Slot, w: World, c: nat, reducer: Reducer, attempts: int, etag: Etag)
    requires Sound(w) && c in w.clients && w.clients[c].lane.Idle? && w.clients[c].mirror.status != Error
    requires w.clients[c].mirror.etag == w.register
    requires Fits(w, etag, Produced(slot, reducer, Seeded(slot, w.clients[c].mirror)))
    ensures var v, start :=
      Produced(slot, reducer, Seeded(slot, w.clients[c].mirror)), StartUpdate(c, reducer, attempts);
      if v.None? then After(slot, w, [start]) == Some(w)
      else
        var after := After(slot, w, [start, ServePost(c, etag, Reached, true), TakePost(c, false)]);
        after.Some? && Wrote(w, c, v.value, etag, after.value)
  {
    hide Next, Enabled, After;
    UpdateStarts(slot, w, c, reducer, attempts);
    var start, post, take := StartUpdate(c, reducer, attempts), ServePost(c, etag, Reached, true), TakePost(c, false);
    var w1 := Next(slot, w, start);
    if w1.clients[c].lane.Idle? {
      assert w1.clients == w.clients;
      AfterFirst(slot, w, start, []);
      AfterNothing(slot, w);
      assert [start] + [] == [start];
    } else {
      var w' := PostIsStored(slot, w1, c, etag);
      AfterThree(slot, w, start, post, take, w', []);
      AfterNothing(slot, w');
      assert [start, post, take] + [] == [start, post, take];
    }
  }

  lemma AfterNothing(slot: Slot, w: World)
    ensures After(slot, w, []) == Some(w)
  {
  }

  /** The etag can stand for the body of this value: it names nothing else. */
  predicate Fits(w: World, etag: Etag, v: Option<Json>) { v.Some? ==> Names(w, etag, Wire(v.value)) }

  /**
   An update from a mirror that is not is refused, and then writes what the reducer makes of what the server holds, with
   its etag as the guard, if nobody else comes first.
   */
  lemma StaleUpdateWrites(slot: Slot, w: World, c: nat, reducer: Reducer, attempts: int, basis: Option<Json>,
                          refused: Etag, etag: Etag)
    requires Sound(w) && c in w.clients && w.clients[c].lane.Idle? && w.clients[c].mirror.status != Error
    requires w.clients[c].mirror.etag != w.register && w.register.Some? && Offers(slot, w, basis) && attempts > 1
    requires Produced(slot, reducer, Seeded(slot, w.clients[c].mirror)).Some? && Produced(slot, reducer, basis).Some?
    requires Fits(w, refused, Produced(slot, reducer, Seeded(slot, w.clients[c].mirror)))
    requires Fits(w, etag, Produced(slot, reducer, basis))
    ensures var start, post := StartUpdate(c, reducer, attempts), ServePost(c, refused, Reached, true);
      var again, take := ServePost(c, etag, Reached, true), TakePost(c, false);
      var after := After(slot, w, [start, post, take, again, take]);
      after.Some? && Wrote(w, c, Produced(slot, reducer, basis).value, etag, after.value)
  {
    hide Next, Enabled, After;
    UpdateStarts(slot, w, c, reducer, attempts);
    var start, post := StartUpdate(c, reducer, attempts), ServePost(c, refused, Reached, true);
    var again, take := ServePost(c, etag, Reached, true), TakePost(c, false);
    var mid := RefusedPostsAgain(slot, Next(slot, w, start), c, refused, basis);
    var w' := PostIsStored(slot, mid, c, etag);
    AfterThree(slot, w, start, post, take, mid, [again, take]);
    AfterTwo(slot, mid, again, take, w', []);
    AfterNothing(slot, w');
    assert [again, take] + [] == [again, take]
      && [start, post, take] + [again, take] == [start, post, take, again, take];
  }

  /** A clear from a mirror that is up to date stores the clear sentinel, and empties the mirror. */
  lemma ClearEmpties(slot: Slot, w: World, c: nat, attempts: int, etag: Etag)
    requires Sound(w) && c in w.clients && w.clients[c].lane.Idle?
    requires w.clients[c].mirror.etag == w.register && Fits(w, etag, Some(Null))
    ensures var after :=
      After(slot, w, [StartClear(c, attempts), ServePost(c, etag, Reached, true), TakePost(c, false)]);
      && after.Some? && after.value.register == Some(etag) && etag in after.value.bodies
      && after.value.bodies[etag] == Wire(Null) && after.value.commits == w.commits && c in after.value.clients
      && after.value.clients[c].mirror == Mirror(None, Some(etag), NonInit) && after.value.clients[c].lane.Idle?
  {
    hide After;
    var start, post, take := StartClear(c, attempts), ServePost(c, etag, Reached, true), TakePost(c, false);
    var w' := PostIsStored(slot, Next(slot, w, start), c, etag);
    AfterThree(slot, w, start, post, take, w', []);
    AfterNothing(slot, w');
    assert [start, post, take] + [] == [start, post, take];
  }

  /** A refused clear with attempts left clears what the server holds, by its etag, whatever it is. */
  lemma RefusedClearsAgain(slot: Slot, w: World, c: nat, etag: Etag) returns (w': World)
    requires Sound(w) && c in w.clients && w.clients[c].lane.Posting? && w.clients[c].lane.reply.Pending?
    requires w.clients[c].lane.job.Clear? && w.clients[c].lane.attempts > 1 && w.register.Some?
    requires w.clients[c].lane.ifMatch != w.register && Names(w, etag, Wire(w.clients[c].lane.body))
    ensures TwoSteps(slot, w, ServePost(c, etag, Reached, true), TakePost(c, false), w')
    ensures c in w'.clients && w' == With(w, c, w.clients[c].(lane := w'.clients[c].lane))
    ensures var l, l' := w.clients[c].lane, w'.clients[c].lane;
      l'.Posting? && l'.job.Clear? && l'.body == Null && l'.ifMatch == w.register && l'.attempts == l.attempts - 1
        && l'.reply.Pending?
  {
    var mid := Next(slot, w, ServePost(c, etag, Reached, true));
    w' := Next(slot, mid, TakePost(c, false));
    assert w'.clients == w.clients[c := w'.clients[c]];
  }
}
