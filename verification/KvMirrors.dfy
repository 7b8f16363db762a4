/** What a KV mirror shows after loads, frames and commits, said on values and etags alone. */
module KvMirrors {
  import opened Wrappers
  import opened Json
  import opened KvSlot
  import opened KvEffects

  /**
   The mirror shows a body: its validated form with its etag, nothing for a clear, and an error, with what was there,
   else.
   */
  predicate Shows(slot: Slot, before: Mirror, body: Wire, etag: Option<Etag>, failed: Status, after: Mirror) {
    if body.Wire? && body.json == Null then after == Mirror(None, etag, NonInit)
    else if body.Wire? && slot.parse(body.json).Some? then after == Mirror(slot.parse(body.json), etag, Loaded)
    else after == Mirror(before.value, before.etag, failed)
  }

  /** A GET is under way that only refreshes the mirror. */
  predicate Fetching(l: Lane) { l.Getting? && !l.purpose.Reload? && l.answer.Unanswered? }

  /** A load starts with a GET, and shows it. */
  lemma LoadAsks(slot: Slot, w: World, c: nat)
    requires Sound(w) && c in w.clients && w.clients[c].lane.Idle?
    ensures Enabled(w, StartLoad(c))
    ensures var m := w.clients[c].mirror;
      Next(slot, w, StartLoad(c)) ==
      With(w, c, w.clients[c].(mirror := m.(status := Loading), lane := Getting(Load, m.status, Unanswered)))
  {
  }

  /** An answered GET makes the mirror show what the server holds, and a failed one leaves its value and etag. */
  lemma GetShows(slot: Slot, w: World, c: nat, failure: Option<GetAnswer>) returns (w': World)
    requires Sound(w) && c in w.clients && Fetching(w.clients[c].lane)
    requires failure.Some? ==> failure.value in {Threw, Failed}
    ensures TwoSteps(slot, w, ServeGet(c, failure), TakeGet(c), w')
    ensures c in w'.clients && w' == With(w, c, w'.clients[c]) && w'.clients[c].lane.Idle?
    ensures var l, before, after := w.clients[c].lane, w.clients[c].mirror, w'.clients[c].mirror;
      var failed := if l.purpose.Load? then Error else l.prior;
      if failure.Some? then after == before.(status := failed)
      else if w.register.None? then after == Mirror(None, None, NonInit)
      else Shows(slot, before, w.bodies[w.register.value], w.register, failed, after)
    ensures var purpose, echo, echo' := w.clients[c].lane.purpose, w.clients[c].echo, w'.clients[c].echo;
      && echo'.Keys == echo.Keys
      && forall e <- echo :: echo'[e] == (echo[e] && !(purpose.Reconcile? && e in purpose.demote))
  {
    var mid := Next(slot, w, ServeGet(c, failure));
    w' := Next(slot, mid, TakeGet(c));
    assert w'.clients == w.clients[c := w'.clients[c]];
  }

  /**
   A frame. One with the CID of an own write is an echo, passed over once, or for good if a conflict preceded the write.
   One with another CID is shown with that CID, unless a conflict is remembered; then, and for a frame without a CID
   where an etag is held, the server is asked. A frame without a CID is shown without an etag where none is held.
   */
  lemma FrameShows(slot: Slot, w: World, c: nat, cid: Option<Etag>, body: Wire)
    requires Sound(w) && c in w.clients && w.clients[c].lane.Idle?
    requires cid.Some? ==> cid.value in w.bodies && w.bodies[cid.value] == body
    ensures Enabled(w, Frame(c, cid, body))
    ensures var client, w' := w.clients[c], Next(slot, w, Frame(c, cid, body));
      && c in w'.clients && w' == With(w, c, w'.clients[c])
      && var client' := w'.clients[c];
         if cid.Some? && cid.value in client.echo then
           client' == client.(echo := if client.echo[cid.value] then client.echo else client.echo - {cid.value})
         else if (cid.Some? && exists e <- client.echo :: client.echo[e])
           || (cid.None? && client.mirror.etag.Some?) then
           && Fetching(client'.lane) && client'.lane.purpose.Reconcile? && client'.lane.prior == client.mirror.status
           && client'.mirror == client.mirror.(status := if client.mirror.status == Loaded then Loaded else Loading)
           && client'.echo == client.echo
           && client'.lane.purpose.demote == (if cid.None? then client.echo.Keys else ConflictMarkers(client.echo))
         else
           && Shows(slot, client.mirror, body, cid, Error, client'.mirror)
           && client'.lane.Idle? && client'.echo == client.echo
  {
    var echo := w.clients[c].echo;
    assert ConflictMarkers(echo) == {} <==> !exists e <- echo :: echo[e] by {
      if e :| e in echo && echo[e] { assert e in ConflictMarkers(echo); }
    }
  }

  /** A write that was committed is remembered as an echo to come, with whether a conflict preceded it. */
  lemma CommitExpectsEcho(slot: Slot, w: World, c: nat, aborted: bool)
    requires Sound(w) && c in w.clients && w.clients[c].lane.Posting? && w.clients[c].lane.reply.Committed?
    ensures Enabled(w, TakePost(c, aborted))
    ensures var client, client' := w.clients[c], Next(slot, w, TakePost(c, aborted)).clients[c];
      && (client.lane.reply.etag.Some? ==>
            client'.echo == client.echo[client.lane.reply.etag.value := client.lane.conflicted])
      && (client.lane.reply.etag.None? ==> client'.echo == client.echo)
      && (aborted ==> client'.mirror == client.mirror) && client'.lane.Idle?
  {
  }

  /**
   A lost answer frees the lane, whatever the server did, and the echo of a write is forgotten when its time is up.
   */
  lemma LostFrees(slot: Slot, w: World, c: nat, aborted: bool)
    requires Sound(w) && c in w.clients && w.clients[c].lane.Posting? && w.clients[c].lane.reply.Lost?
    ensures Enabled(w, TakePost(c, aborted))
    ensures Next(slot, w, TakePost(c, aborted)) == With(w, c, w.clients[c].(lane := Idle))
  {
  }

  lemma EchoExpires(slot: Slot, w: World, c: nat, own: Etag, e: Etag)
    requires Sound(w) && c in w.clients
    ensures Enabled(w, ExpireEcho(c, own))
    ensures var client, w' := w.clients[c], Next(slot, w, ExpireEcho(c, own));
      && c in w'.clients && w' == With(w, c, client.(echo := w'.clients[c].echo))
      && (e in w'.clients[c].echo <==> e in client.echo && e != own)
      && (e in client.echo && e != own ==> w'.clients[c].echo[e] == client.echo[e])
  {
  }
}
