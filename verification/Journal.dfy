/** The self-trimming journal of snapshots and patches, and the claim that it always rebuilds the redacted state. */
module Journal {
  import opened Wrappers
  import opened Json
  import opened Pointer
  import opened Patches
  import opened Diff
  import opened Redaction

  datatype EventInfo = EventInfo(hash: string, height: nat, opType: string, description: Option<string>)

  datatype ErrorInfo = ErrorInfo(name: string, message: string)

  datatype Entry =
    | Snapshot(info: EventInfo, state: Json, error: Option<ErrorInfo>)
    | PatchEntry(info: EventInfo, patch: seq<Patch>, error: Option<ErrorInfo>)

  datatype Config = Config(
    enabled: bool,
    snapshotInterval: int,
    contractIDs: set<string>,   // empty: every contract
    redactions: seq<Redaction>)
  {
    predicate Records(contractID: string) { enabled && (contractIDs == {} || contractID in contractIDs) }
  }

  /** `reconstruct`: no journal, the state, or ChelErrorJournalCorrupt with the index of the entry that failed. */
  datatype Rebuilt = NoJournal | Rebuilt(state: Json) | Corrupt(entryIndex: nat)

  // ---- the window -------------------------------------------------------

  /** Index of the last snapshot, or -1. */
  function LastSnapshot(entries: seq<Entry>): (i: int)
    ensures -1 <= i < |entries|
    ensures i >= 0 ==> entries[i].Snapshot?
    ensures forall j | i < j < |entries| :: entries[j].PatchEntry?
  {
    if entries == [] then -1
    else if entries[|entries| - 1].Snapshot? then |entries| - 1
    else LastSnapshot(entries[..|entries| - 1])
  }

  method IndexOfLastSnapshot(entries: seq<Entry>) returns (r: int)
    ensures r == LastSnapshot(entries)
  {
    var i := |entries| - 1;
    while i >= 0
      invariant -1 <= i < |entries|
      invariant forall j | i < j < |entries| :: entries[j].PatchEntry?
    {
      if entries[i].Snapshot? {
        return i;
      }
      i := i - 1;
    }
    return -1;
  }

  function PatchesSinceSnapshot(entries: seq<Entry>): nat { |entries| - 1 - LastSnapshot(entries) }

  /** The entries after the push and the boundary snapshot, before trimming. */
  function Pushed(entries: seq<Entry>, entry: Entry, interval: int, post: Option<Json>): seq<Entry> {
    var es := entries + [entry];
    if post.Some? && entry.PatchEntry? && PatchesSinceSnapshot(es) >= interval
    then es + [Snapshot(entry.info, post.value, entry.error)]
    else es
  }

  function Appended(entries: seq<Entry>, entry: Entry, interval: int, post: Option<Json>): seq<Entry> {
    var es := Pushed(entries, entry, interval, post);
    if |es| > 2 * interval && LastSnapshot(es) > 0 then es[LastSnapshot(es)..] else es
  }

  method AppendAndTrim(entries: seq<Entry>, entry: Entry, interval: int, post: Option<Json>) returns (r: seq<Entry>)
    ensures r == Appended(entries, entry, interval, post)
  {
    r := entries + [entry];
    if post.Some? && entry.PatchEntry? {
      var last := IndexOfLastSnapshot(r);
      if |r| - 1 - last >= interval {
        r := r + [Snapshot(entry.info, post.value, entry.error)];
      }
    }
    if |r| > 2 * interval {
      var last := IndexOfLastSnapshot(r);
      if last > 0 {
        r := r[last..];
      }
    }
  }

  /** What a journal with snapshot interval X looks like after an append. */
  predicate Window(entries: seq<Entry>, interval: int) {
    && entries != [] && entries[0].Snapshot?
    && PatchesSinceSnapshot(entries) < interval
    && |entries| <= 2 * interval
  }

  /** Whatever the window was, one append with a positive interval brings it within that interval's bounds. */
  lemma AppendedWindow(entries: seq<Entry>, entry: Entry, interval: int, state: Json)
    requires interval > 0 && entries != [] && entries[0].Snapshot? && entry.PatchEntry?
    ensures Window(Appended(entries, entry, interval, Some(state)), interval)
  {
    var es := Pushed(entries, entry, interval, Some(state));
    assert es[0] == entries[0];
    if |es| > 2 * interval && LastSnapshot(es) > 0 {
      SuffixSnapshot(es);
    }
  }

  lemma SuffixSnapshot(es: seq<Entry>)
    requires LastSnapshot(es) >= 0
    ensures LastSnapshot(es[LastSnapshot(es)..]) == 0
  {
    var t := es[LastSnapshot(es)..];
    assert t[0] == es[LastSnapshot(es)];
    forall j | 0 < j < |t| ensures t[j].PatchEntry? { assert t[j] == es[LastSnapshot(es) + j]; }
  }

  /** Appending never loses the error of an event: the last entry still carries it. */
  lemma AppendedKeepsError(entries: seq<Entry>, entry: Entry, interval: int, state: Json)
    requires interval > 0 && entries != [] && entries[0].Snapshot? && entry.PatchEntry?
    ensures var r := Appended(entries, entry, interval, Some(state));
            r != [] && r[|r| - 1].info == entry.info && r[|r| - 1].error == entry.error
  {
    var es := Pushed(entries, entry, interval, Some(state));
    assert es[|es| - 1].info == entry.info && es[|es| - 1].error == entry.error;
    if |es| > 2 * interval && LastSnapshot(es) > 0 {
      var t := es[LastSnapshot(es)..];
      assert t[|t| - 1] == es[|es| - 1];
    }
  }

  // ---- reconstruction ---------------------------------------------------

  /** The patches of `entries[start + 1..]` applied in order, skipping anything that is not a patch. */
  function Replay(state: Json, entries: seq<Entry>, start: nat): Rebuilt
    requires start < |entries|
  {
    var n := |entries| - 1;
    if n == start then Rebuilt.Rebuilt(state)
    else
      match Replay(state, entries[..n], start)
      case Rebuilt(s) =>
        if entries[n].Snapshot? then Rebuilt.Rebuilt(s)
        else
          (match ApplyAll(s, entries[n].patch)
           case Ok(next) => Rebuilt.Rebuilt(next)
           case Err(_) => Corrupt(n))
      case other => other
  }

  function Reconstructed(entries: seq<Entry>): Rebuilt {
    var start := LastSnapshot(entries);
    if start < 0 then NoJournal else Replay(entries[start].state, entries, start)
  }

  method Reconstruct(journal: Option<seq<Entry>>) returns (r: Rebuilt)
    ensures r == if journal.None? then NoJournal else Reconstructed(journal.value)
  {
    hide ApplyAll, LastSnapshot;
    if journal.None? || journal.value == [] {
      return NoJournal;
    }
    var entries := journal.value;
    var start := IndexOfLastSnapshot(entries);
    if start < 0 {
      return NoJournal;
    }
    var state := entries[start].state;
    for i := start + 1 to |entries|
      invariant Replay(entries[start].state, entries[..i], start) == Rebuilt.Rebuilt(state)
    {
      assert entries[..i + 1][..i] == entries[..i];
      if entries[i].PatchEntry? {
        var next := DefaultApplyPatch(state, entries[i].patch);
        if next.Err? {
          ReplayStops(entries[start].state, entries, start, i + 1);
          return Corrupt(i);
        }
        state := next.value;
      }
    }
    assert entries[..|entries|] == entries;
    return Rebuilt.Rebuilt(state);
  }

  lemma {:induction false} ReplayStops(state: Json, entries: seq<Entry>, start: nat, n: nat)
    requires start < n <= |entries| && Replay(state, entries[..n], start).Corrupt?
    ensures Replay(state, entries, start) == Replay(state, entries[..n], start)
    decreases |entries|
  {
    if n == |entries| {
      assert entries[..n] == entries;
    } else {
      assert entries[..|entries| - 1][..n] == entries[..n];
      ReplayStops(state, entries[..|entries| - 1], start, n);
    }
  }

  /** Dropping entries before the starting snapshot does not change the replay. */
  lemma {:induction false} ReplayShift(state: Json, entries: seq<Entry>, start: nat, cut: nat)
    requires cut <= start < |entries| && Replay(state, entries, start).Rebuilt?
    ensures Replay(state, entries[cut..], start - cut) == Replay(state, entries, start)
    decreases |entries|
  {
    var n := |entries| - 1;
    if n > start {
      assert entries[..n][cut..] == entries[cut..][..n - cut];
      assert Replay(state, entries[..n], start).Rebuilt?;
      ReplayShift(state, entries[..n], start, cut);
    }
  }

  lemma PushPatchRebuilds(entries: seq<Entry>, entry: Entry, s: Json, next: Json)
    requires entry.PatchEntry? && Reconstructed(entries) == Rebuilt.Rebuilt(s) && ApplyAll(s, entry.patch) == Ok(next)
    ensures Reconstructed(entries + [entry]) == Rebuilt.Rebuilt(next)
  {
    assert (entries + [entry])[..|entries|] == entries;
  }

  /** Pushing a patch that is right for the rebuilt state, with any interval and any trim, rebuilds the new state. */
  lemma AppendedRebuilds(entries: seq<Entry>, entry: Entry, interval: int, s: Json, next: Json)
    requires entry.PatchEntry? && Reconstructed(entries) == Rebuilt.Rebuilt(s) && ApplyAll(s, entry.patch) == Ok(next)
    ensures Reconstructed(Appended(entries, entry, interval, Some(next))) == Rebuilt.Rebuilt(next)
  {
    PushPatchRebuilds(entries, entry, s, next);
    var es := Pushed(entries, entry, interval, Some(next));
    assert Reconstructed(es) == Rebuilt.Rebuilt(next);
    var last := LastSnapshot(es);
    if |es| > 2 * interval && last > 0 {
      ReplayShift(es[last].state, es, last, last);
      SuffixSnapshot(es);
    }
  }

  predicate EndsInSnapshot(entries: seq<Entry>) { entries != [] && entries[|entries| - 1].Snapshot? }

  /**
   An append that ends in a snapshot rebuilds the state given, whatever the journal held before; any other adds one
   patch to those since the last snapshot, and stays below the interval.
   */
  lemma AppendedRenews(entries: seq<Entry>, entry: Entry, interval: int, state: Json)
    requires entry.PatchEntry?
    ensures var r := Appended(entries, entry, interval, Some(state));
      if EndsInSnapshot(r) then Reconstructed(r) == Rebuilt.Rebuilt(state)
      else PatchesSinceSnapshot(r) == PatchesSinceSnapshot(entries) + 1 && PatchesSinceSnapshot(r) < interval
  {
    var es := Pushed(entries, entry, interval, Some(state));
    assert (entries + [entry])[..|entries|] == entries;
    if |es| > 2 * interval && LastSnapshot(es) > 0 { SuffixSnapshot(es); }
  }

  // ---- recording --------------------------------------------------------

  /** How `recordEvent` treats an arriving event, from the last entry's hash and height alone. */
  datatype Arrival = Duplicate | Reseed | Extend

  function Classify(entries: seq<Entry>, hash: string, height: nat): Arrival {
    if entries == [] then Reseed
    else
      var last := entries[|entries| - 1].info;
      if last.hash == hash && height == last.height then Duplicate
      else if height < last.height || height > last.height + 1 then Reseed
      else Extend
  }

  /** The redacted projection that the journal stands for; an undefined state counts as null. */
  function Projection(state: Option<Json>, redactions: seq<Redaction>, name: string): Json {
    match state
    case Some(s) => ApplyRedactions(s, redactions, name)
    case None => Null
  }

  /** An errored event is recorded with an empty patch, any other with a diff of the redacted states. */
  ghost predicate GoodPatch(before: Option<Json>, after: Json, errored: bool, patch: seq<Patch>) {
    if errored then patch == []
    else Rebuilds(before, after, patch) && (before.Some? ==> PrintsDiff(before.value, after, patch))
  }

  function RedactedBefore(state: Option<Json>, redactions: seq<Redaction>, name: string): Option<Json> {
    match state
    case Some(s) => Some(ApplyRedactions(s, redactions, name))
    case None => None
  }

  datatype Event = Event(info: EventInfo, before: Option<Json>, after: Option<Json>, errored: bool,
                         error: Option<ErrorInfo>)
  {
    function ErrorDetail(): Option<ErrorInfo> { if errored then error else None }
  }

  /** The journal before and after one `recordEvent`. */
  ghost predicate Records(old_: Option<seq<Entry>>, new_: Option<seq<Entry>>, cfg: Config, contractID: string,
                          name: string, e: Event)
  {
    var entries := if old_.Some? then old_.value else [];
    var after := Projection(e.after, cfg.redactions, name);
    if !cfg.Records(contractID) then new_ == old_
    else
      match Classify(entries, e.info.hash, e.info.height)
      case Duplicate => new_ == old_
      case Reseed => new_ == Some([Snapshot(e.info, after, e.ErrorDetail())])
      case Extend => Extends(entries, new_, cfg, name, e)
  }

  ghost predicate Extends(entries: seq<Entry>, new_: Option<seq<Entry>>, cfg: Config, name: string, e: Event) {
    var after := Projection(e.after, cfg.redactions, name);
    exists patch | GoodPatch(RedactedBefore(e.before, cfg.redactions, name), after, e.errored, patch) ::
      new_ == Some(Appended(entries, PatchEntry(e.info, patch, e.ErrorDetail()), cfg.snapshotInterval, Some(after)))
  }

  /** The bookkeeping entry `state.contracts[contractID]`, which carries `_journal`. */
  class ContractMeta {
    const contractID: string
    const contractName: string
    var journal: Option<seq<Entry>>

    constructor (contractID: string, contractName: string)
      ensures this.contractID == contractID && this.contractName == contractName && journal == None
    {
      this.contractID := contractID;
      this.contractName := contractName;
      journal := None;
    }

    method RecordEvent(cfg: Config, e: Event)
      modifies this
      ensures Records(old(journal), journal, cfg, contractID, contractName, e)
    {
      if !cfg.Records(contractID) {
        return;
      }
      var existing := if journal.Some? then journal.value else [];
      if existing != [] {
        var last := existing[|existing| - 1].info;
        if last.hash == e.info.hash && e.info.height == last.height {
          return;
        }
      }
      var isResync := existing != [] &&
        (e.info.height < existing[|existing| - 1].info.height
          || e.info.height > existing[|existing| - 1].info.height + 1);
      var after := Projection(e.after, cfg.redactions, contractName);
      if existing == [] || isResync {
        journal := Some([Snapshot(e.info, after, e.ErrorDetail())]);
        return;
      }
      var patch: seq<Patch> := [];
      if !e.errored {
        patch := DefaultDiff(RedactedBefore(e.before, cfg.redactions, contractName), Some(after));
      }
      assert GoodPatch(RedactedBefore(e.before, cfg.redactions, contractName), after, e.errored, patch);
      var next := AppendAndTrim(existing, PatchEntry(e.info, patch, e.ErrorDetail()), cfg.snapshotInterval,
          Some(after));
      journal := Some(next);
    }
  }

  // ---- faithfulness -----------------------------------------------------

  /** The journal rebuilds exactly the projection of `state`. */
  predicate Faithful(journal: Option<seq<Entry>>, state: Option<Json>, redactions: seq<Redaction>, name: string) {
    journal.Some? && Reconstructed(journal.value) == Rebuilt.Rebuilt(Projection(state, redactions, name))
  }

  /** Applying a good patch to the projection of the state before gives the projection of the state after. */
  lemma GoodPatchApplies(before: Option<Json>, after: Option<Json>, redactions: seq<Redaction>, name: string,
                         errored: bool, patch: seq<Patch>)
    requires errored ==> after == before
    requires GoodPatch(RedactedBefore(before, redactions, name), Projection(after, redactions, name), errored, patch)
    ensures ApplyAll(Projection(before, redactions, name), patch) == Ok(Projection(after, redactions, name))
  {
    if !errored && before.None? {
      WholeValue(Projection(before, redactions, name), Projection(after, redactions, name), Add);
    }
  }

  /**
   One recorded event, in full generality. A first, backwards or gapped event makes the journal faithful whatever it
   held before; an event that extends a faithful journal keeps it faithful; a duplicate of the last entry is ignored, so
   the journal is faithful afterwards if and only if the redelivered event left the projection as it was.
   */
  lemma RecordFaithful(old_: Option<seq<Entry>>, new_: Option<seq<Entry>>, cfg: Config, contractID: string,
                       name: string, e: Event)
    requires cfg.Records(contractID) && Records(old_, new_, cfg, contractID, name, e)
    requires e.errored ==> e.after == e.before
    requires old_.Some? ==> old_.value != []
    requires old_.Some? && Classify(old_.value, e.info.hash, e.info.height) != Reseed ==>
      Faithful(old_, e.before, cfg.redactions, name)
    ensures Faithful(new_, e.after, cfg.redactions, name) <==>
      !(old_.Some? && Classify(old_.value, e.info.hash, e.info.height).Duplicate?
        && Projection(e.after, cfg.redactions, name) != Projection(e.before, cfg.redactions, name))
  {
    var entries := if old_.Some? then old_.value else [];
    var before, after := Projection(e.before, cfg.redactions, name), Projection(e.after, cfg.redactions, name);
    match Classify(entries, e.info.hash, e.info.height)
    case Duplicate =>
    case Reseed =>
    case Extend =>
      var patch :| GoodPatch(RedactedBefore(e.before, cfg.redactions, name), after, e.errored, patch)
        && new_ == Some(Appended(entries, PatchEntry(e.info, patch, e.ErrorDetail()), cfg.snapshotInterval,
            Some(after)));
      GoodPatchApplies(e.before, e.after, cfg.redactions, name, e.errored, patch);
      AppendedRebuilds(entries, PatchEntry(e.info, patch, e.ErrorDetail()), cfg.snapshotInterval, before, after);
  }

  /**
   One call of the recorder in a chain of events: whatever its hash and height, it starts from the state left before it.
   */
  ghost predicate Recorded(js: seq<Option<seq<Entry>>>, es: seq<Event>, cfgs: seq<Config>, id: string, name: string,
                           i: nat)
    requires i < |es| && |js| == |es| + 1 && |cfgs| == |es|
  {
    var e := es[i];
    && cfgs[i].Records(id)
    && Records(js[i], js[i + 1], cfgs[i], id, name, e)
    && (e.errored ==> e.after == e.before)
    && (i > 0 ==> e.before == es[i - 1].after)
    && (js[i].Some? && js[i].value != [] && Classify(js[i].value, e.info.hash, e.info.height).Duplicate? ==>
          Projection(e.after, cfgs[i].redactions, name) == Projection(e.before, cfgs[i].redactions, name))
  }

  /** Event `i` was recorded with a snapshot. */
  predicate Renewed(js: seq<Option<seq<Entry>>>, es: seq<Event>, i: nat)
    requires i < |es| && |js| == |es| + 1
  {
    && js[i + 1].Some? && EndsInSnapshot(js[i + 1].value)
    && (js[i].Some? && js[i].value != [] ==> !Classify(js[i].value, es[i].info.hash, es[i].info.height).Duplicate?)
  }

  /** The redactions that event `i` is recorded under see the state before it as those of the event before did. */
  predicate Unchanged(es: seq<Event>, cfgs: seq<Config>, name: string, i: nat)
    requires 0 < i < |es| == |cfgs|
  {
    Projection(es[i].before, cfgs[i].redactions, name) == Projection(es[i].before, cfgs[i - 1].redactions, name)
  }

  /** Since the last snapshot no change of redactions has changed what is seen of the state. */
  predicate Steady(js: seq<Option<seq<Entry>>>, es: seq<Event>, cfgs: seq<Config>, name: string, n: nat)
    requires n < |es| && |js| == |es| + 1 && |cfgs| == |es|
  {
    Renewed(js, es, n) || (n > 0 && Steady(js, es, cfgs, name, n - 1) && Unchanged(es, cfgs, name, n))
  }

  /**
   After any sequence of recorded events, successful, errored, redelivered, going backwards or leaving gaps, across any
   number of trims and with any settings changed between calls, `reconstruct` returns the redaction of the current
   state, as long as no change of redactions since the last snapshot changed what they show of the state of that moment.
   Just before an event, the journal agrees with the redactions in force if and only if they did not.
   */
  lemma {:induction false} RecordedRunIsFaithful(js: seq<Option<seq<Entry>>>, es: seq<Event>, cfgs: seq<Config>,
                                                 id: string, name: string, n: nat)
    requires |js| == |es| + 1 && |cfgs| == |es| && js[0] == None && n < |es|
    requires forall i | 0 <= i < |es| :: Recorded(js, es, cfgs, id, name, i)
    ensures Steady(js, es, cfgs, name, n) ==> Faithful(js[n + 1], es[n].after, cfgs[n].redactions, name)
    ensures n > 0 && Steady(js, es, cfgs, name, n - 1) ==>
      (Faithful(js[n], es[n].before, cfgs[n].redactions, name) <==> Unchanged(es, cfgs, name, n))
  {
    hide Records, Projection, Config.Records, Renewed;
    assert Recorded(js, es, cfgs, id, name, n);
    if n > 0 { RecordedRunIsFaithful(js, es, cfgs, id, name, n - 1); }
    if Steady(js, es, cfgs, name, n) {
      if Renewed(js, es, n) {
        RenewedFaithful(js, es, cfgs, id, name, n);
      } else {
        RecordFaithful(js[n], js[n + 1], cfgs[n], id, name, es[n]);
      }
    }
  }

  lemma RenewedFaithful(js: seq<Option<seq<Entry>>>, es: seq<Event>, cfgs: seq<Config>, id: string, name: string,
                        n: nat)
    requires |js| == |es| + 1 && |cfgs| == |es| && n < |es|
    requires Recorded(js, es, cfgs, id, name, n) && Renewed(js, es, n)
    ensures Faithful(js[n + 1], es[n].after, cfgs[n].redactions, name)
  {
    hide Projection;
    RecordRenews(js[n], js[n + 1], cfgs[n], id, name, es[n]);
  }

  /**
   An event recorded with a snapshot makes the journal faithful, whatever it held before and under whatever redactions.
   */
  lemma RecordRenews(old_: Option<seq<Entry>>, new_: Option<seq<Entry>>, cfg: Config, contractID: string, name: string,
                     e: Event)
    requires cfg.Records(contractID) && Records(old_, new_, cfg, contractID, name, e)
    ensures var entries := if old_.Some? then old_.value else [];
      !Classify(entries, e.info.hash, e.info.height).Duplicate? ==>
        new_.Some?
        && (if EndsInSnapshot(new_.value) then Faithful(new_, e.after, cfg.redactions, name)
            else PatchesSinceSnapshot(new_.value) == PatchesSinceSnapshot(entries) + 1
                 && PatchesSinceSnapshot(new_.value) < cfg.snapshotInterval)
  {
    hide Projection, PatchesSinceSnapshot, Appended;
    var entries := if old_.Some? then old_.value else [];
    if Classify(entries, e.info.hash, e.info.height).Extend? {
      var after := Projection(e.after, cfg.redactions, name);
      var patch :| GoodPatch(RedactedBefore(e.before, cfg.redactions, name), after, e.errored, patch)
        && new_ == Some(Appended(entries, PatchEntry(e.info, patch, e.ErrorDetail()), cfg.snapshotInterval,
            Some(after)));
      AppendedRenews(entries, PatchEntry(e.info, patch, e.ErrorDetail()), cfg.snapshotInterval, after);
    }
  }

  /**
   What becomes of the entries there were. Nothing is recorded for a contract that is not asked for. A redelivery of the
   last event leaves them. The event after it, or another event of the same height, is added as a patch with the error
   it had, and a snapshot after it exactly when there are as many patches as the interval; the entries before the last
   snapshot go only when there are more than twice as many. Any other event starts over.
   */
  lemma RecordKeepsHistory(old_: Option<seq<Entry>>, new_: Option<seq<Entry>>, cfg: Config, contractID: string,
                           name: string, e: Event)
    requires Records(old_, new_, cfg, contractID, name, e)
    ensures var error := if e.errored then e.error else None;
      if !cfg.enabled || (cfg.contractIDs != {} && contractID !in cfg.contractIDs) then new_ == old_
      else if old_.None? || old_.value == [] then StartsOver(new_, e.info, error)
      else
        var entries := old_.value;
        var last := entries[|entries| - 1].info;
        if e.info.hash == last.hash && e.info.height == last.height then new_ == old_
        else if e.info.height == last.height || e.info.height == last.height + 1 then
          new_.Some? && Continues(entries, new_.value, cfg.snapshotInterval, e.info, error)
        else StartsOver(new_, e.info, error)
  {
    hide Projection, RedactedBefore, LastSnapshot, Appended, Continues;
    var entries := if old_.Some? then old_.value else [];
    if cfg.Records(contractID) && entries != [] && Classify(entries, e.info.hash, e.info.height).Extend? {
      var after := Projection(e.after, cfg.redactions, name);
      var patch :| GoodPatch(RedactedBefore(e.before, cfg.redactions, name), after, e.errored, patch)
        && new_ == Some(Appended(entries, PatchEntry(e.info, patch, e.ErrorDetail()), cfg.snapshotInterval,
            Some(after)));
      AppendedContinues(entries, PatchEntry(e.info, patch, e.ErrorDetail()), cfg.snapshotInterval, after);
    }
  }

  predicate StartsOver(journal: Option<seq<Entry>>, info: EventInfo, error: Option<ErrorInfo>) {
    && journal.Some? && |journal.value| == 1 && journal.value[0].Snapshot?
    && journal.value[0].info == info && journal.value[0].error == error
  }

  /** A patch follows the entries, and a snapshot the patch if it is due; the start goes if that makes too many. */
  predicate Continues(entries: seq<Entry>, r: seq<Entry>, interval: int, info: EventInfo, error: Option<ErrorInfo>) {
    var due := PatchesSinceSnapshot(entries) + 1 >= interval;
    var n := |entries| + if due then 2 else 1;
    && r != [] && r[|r| - 1].info == info && r[|r| - 1].error == error && (r[|r| - 1].Snapshot? <==> due)
    && (n <= 2 * interval ==> |r| == n && entries < r && r[|entries|].PatchEntry?)
    && (n > 2 * interval && LastSnapshot(entries) >= 0 ==> r[0].Snapshot? && LastSnapshot(r) == 0)
  }

  lemma LastAfter(entries: seq<Entry>, entry: Entry)
    ensures LastSnapshot(entries + [entry]) == if entry.Snapshot? then |entries| else LastSnapshot(entries)
  {
    assert (entries + [entry])[..|entries|] == entries;
  }

  lemma AppendedContinues(entries: seq<Entry>, entry: Entry, interval: int, state: Json)
    requires entry.PatchEntry?
    ensures Continues(entries, Appended(entries, entry, interval, Some(state)), interval, entry.info, entry.error)
  {
    hide LastSnapshot;
    var es := Pushed(entries, entry, interval, Some(state));
    LastAfter(entries, entry);
    LastAfter(entries + [entry], Snapshot(entry.info, state, entry.error));
    assert es[..|entries|] == entries && es[|entries|] == entry;
    if |es| > 2 * interval && LastSnapshot(es) > 0 {
      SuffixSnapshot(es);
      var t := es[LastSnapshot(es)..];
      assert t[|t| - 1] == es[|es| - 1];
    }
  }

  // ---- every run --------------------------------------------------------

  /**
   One contract as the event loop drives it. `recorded` is the state at the last event the journal took in, and
   `drifted` says that a change of redactions has changed what is seen of that state since the journal last got a
   snapshot.
   */
  datatype World = World(live: Option<Json>, height: Option<nat>, journal: Option<seq<Entry>>, recorded: Option<Json>,
                         redactions: seq<Redaction>, drifted: bool)

  datatype Step =
    /** `applyProcessResult` for the next event of the chain, under whatever journal settings hold at that moment. */
    | Handle(hash: string, opType: string, description: Option<string>, after: Option<Json>, errored: bool,
             error: Option<ErrorInfo>, enabled: bool, interval: int, contractIDs: set<string>)
    /** `chelonia/configure` with other redactions, which leaves the journal as it is. */
    | Configure(redactions: seq<Redaction>)
    /** `removeImmediately`: the state and the whole bookkeeping entry go, and the journal with them. */
    | Remove
    /** `journal/clear` */
    | Clear

  const EMPTY_WORLD := World(None, None, None, None, [], false)

  function NextHeight(w: World): nat { if w.height.Some? then w.height.value + 1 else 0 }

  function ConfigOf(w: World, step: Step): Config
    requires step.Handle?
  {
    Config(step.enabled, step.interval, step.contractIDs, w.redactions)
  }

  function EventOf(w: World, step: Step): Event
    requires step.Handle?
  {
    var info := EventInfo(step.hash, NextHeight(w), step.opType, step.description);
    Event(info, w.live, if step.errored then w.live else step.after, step.errored, step.error)
  }

  /** The step is an event that the journal takes in. */
  predicate Takes(w: World, step: Step, id: string) { step.Handle? && ConfigOf(w, step).Records(id) }

  ghost predicate StepOf(w: World, step: Step, w': World, id: string, name: string) {
    match step
    case Handle(_, _, _, _, errored, _, _, _, _) =>
      var e := EventOf(w, step);
      && (errored ==> w.height.Some?)   // an error in the first message is rethrown and nothing is recorded
      && w'.live == e.after && w'.height == Some(NextHeight(w)) && w'.redactions == w.redactions
      && Records(w.journal, w'.journal, ConfigOf(w, step), id, name, e)
      && w'.recorded == (if Takes(w, step, id) then e.after else w.recorded)
      && w'.drifted == (w.drifted && !(Takes(w, step, id) && w'.journal.Some? && EndsInSnapshot(w'.journal.value)))
    case Configure(redactions) =>
      var same := Projection(w.recorded, redactions, name) == Projection(w.recorded, w.redactions, name);
      w' == w.(redactions := redactions, drifted := w.drifted || (w.journal.Some? && !same))
    case Remove => w' == EMPTY_WORLD.(redactions := w.redactions)
    case Clear => w' == w.(journal := None, drifted := false)
  }

  ghost predicate Run(ws: seq<World>, steps: seq<Step>, id: string, name: string) {
    && |ws| == |steps| + 1 && ws[0] == EMPTY_WORLD
    && forall i | 0 <= i < |steps| :: StepOf(ws[i], steps[i], ws[i + 1], id, name)
  }

  function JournalHeight(entries: seq<Entry>): nat
    requires entries != []
  {
    entries[|entries| - 1].info.height
  }

  predicate WorldInv(w: World, name: string) {
    if w.journal.None? then !w.drifted
    else
      && w.journal.value != [] && w.journal.value[0].Snapshot?
      && w.height.Some? && JournalHeight(w.journal.value) <= w.height.value
      && (!w.drifted ==> Faithful(w.journal, w.recorded, w.redactions, name))
      && (JournalHeight(w.journal.value) == w.height.value ==> w.recorded == w.live)
  }

  lemma AppendedShape(entries: seq<Entry>, entry: Entry, interval: int, state: Json)
    requires entries != [] && entries[0].Snapshot? && entry.PatchEntry?
    ensures var r := Appended(entries, entry, interval, Some(state));
            r != [] && r[0].Snapshot? && r[|r| - 1].info == entry.info
  {
    var es := Pushed(entries, entry, interval, Some(state));
    if |es| > 2 * interval && LastSnapshot(es) > 0 {
      var t := es[LastSnapshot(es)..];
      assert t[|t| - 1] == es[|es| - 1];
    }
  }

  lemma ExtendedShape(entries: seq<Entry>, new_: Option<seq<Entry>>, cfg: Config, name: string, e: Event)
    requires entries != [] && entries[0].Snapshot? && Extends(entries, new_, cfg, name, e)
    ensures new_.Some? && new_.value != [] && new_.value[0].Snapshot? && JournalHeight(new_.value) == e.info.height
    ensures cfg.snapshotInterval > 0 ==> Window(new_.value, cfg.snapshotInterval)
  {
    hide Appended, Window, ApplyRedactions;
    var after := Projection(e.after, cfg.redactions, name);
    var patch :| GoodPatch(RedactedBefore(e.before, cfg.redactions, name), after, e.errored, patch)
      && new_ == Some(Appended(entries, PatchEntry(e.info, patch, e.ErrorDetail()), cfg.snapshotInterval, Some(after)));
    AppendedShape(entries, PatchEntry(e.info, patch, e.ErrorDetail()), cfg.snapshotInterval, after);
    if cfg.snapshotInterval > 0 {
      AppendedWindow(entries, PatchEntry(e.info, patch, e.ErrorDetail()), cfg.snapshotInterval, after);
    }
  }

  lemma StepKeepsInv(w: World, step: Step, w': World, id: string, name: string)
    requires WorldInv(w, name) && StepOf(w, step, w', id, name)
    ensures WorldInv(w', name)
    ensures Takes(w, step, id) ==> w'.journal.Some? && w'.recorded == w'.live
  {
    hide Reconstructed, Projection, Extends, Window, PatchesSinceSnapshot;
    if Takes(w, step, id) {
      var cfg, e := ConfigOf(w, step), EventOf(w, step);
      RecordRenews(w.journal, w'.journal, cfg, id, name, e);
      if !w.drifted { RecordFaithful(w.journal, w'.journal, cfg, id, name, e); }
      if w.journal.Some? && Classify(w.journal.value, e.info.hash, e.info.height).Extend? {
        ExtendedShape(w.journal.value, w'.journal, cfg, name, e);
      }
    }
  }

  lemma {:induction false} RunKeepsInv(ws: seq<World>, steps: seq<Step>, id: string, name: string, n: nat)
    requires Run(ws, steps, id, name) && n < |ws|
    ensures WorldInv(ws[n], name)
  {
    hide StepOf, WorldInv;
    if n == 0 {
      EmptyInv(name);
    } else {
      RunKeepsInv(ws, steps, id, name, n - 1);
      assert StepOf(ws[n - 1], steps[n - 1], ws[n], id, name);
      StepKeepsInv(ws[n - 1], steps[n - 1], ws[n], id, name);
    }
  }

  lemma EmptyInv(name: string)
    ensures WorldInv(EMPTY_WORLD, name)
  {
  }

  /**
   Over every run of events, removals, clears and changes of redactions, with the journal switched on and off, filtered
   and re-tuned at will: as long as it has not drifted, an existing journal rebuilds exactly what the redactions in
   force show of the state at the last recorded event, and right after a recorded event of the live state; it is never
   corrupt. An event recorded with a snapshot does so whatever came before.
   */
  lemma JournalIsFaithful(ws: seq<World>, steps: seq<Step>, id: string, name: string, n: nat)
    requires Run(ws, steps, id, name) && n < |steps|
    ensures var w := ws[n + 1];
      && (w.journal.Some? && !w.drifted ==> Faithful(w.journal, w.recorded, w.redactions, name))
      && (Takes(ws[n], steps[n], id) ==>
            w.journal.Some?
              && (!w.drifted || EndsInSnapshot(w.journal.value) ==> Faithful(w.journal, w.live, w.redactions, name)))
  {
    hide WorldInv;
    RunKeepsInv(ws, steps, id, name, n + 1);
    RunKeepsInv(ws, steps, id, name, n);
    StepKeepsInv(ws[n], steps[n], ws[n + 1], id, name);
    InvFaithful(ws[n + 1], name);
    assert StepOf(ws[n], steps[n], ws[n + 1], id, name);
  }

  /**
   So what comes out of a journal that has not drifted is redacted: right after a recorded event, a place that one
   directive leads to holds its redactor's answer to the live value, or the sentinel, and a place that none touches the
   live value.
   */
  lemma RebuiltIsRedacted(ws: seq<World>, steps: seq<Step>, id: string, name: string, n: nat, path: seq<string>)
    requires Run(ws, steps, id, name) && n < |steps| && Takes(ws[n], steps[n], id) && !ws[n + 1].drifted
    requires Canonical(path) && ws[n + 1].live.Some?
    ensures ws[n + 1].journal.Some? && Reconstructed(ws[n + 1].journal.value).Rebuilt?
    ensures var w := ws[n + 1];
      var rebuilt, live := Reconstructed(w.journal.value).state, Get(w.live.value, path);
      && ((forall d <- w.redactions :: Spares(d, path)) ==> Get(rebuilt, path) == live)
      && forall i | 0 <= i < |w.redactions| && OnlyDirects(w.redactions, i, path) && live.Some? ::
           var answer := w.redactions[i].redact(live.value, path, name);
           Get(rebuilt, path) == Some(if answer.Some? then answer.value else Str(REDACTION_ERROR_SENTINEL))
  {
    hide StepOf, Takes, Reconstructed, ApplyRedactions, Get, Spares, Canonical, OnlyDirects;
    JournalIsFaithful(ws, steps, id, name, n);
    var w := ws[n + 1];
    var live := Get(w.live.value, path);
    if forall d <- w.redactions :: Spares(d, path) { SparedByAll(w.live.value, w.redactions, name, path); }
    forall i | 0 <= i < |w.redactions| && OnlyDirects(w.redactions, i, path) && live.Some?
      ensures
        var answer := w.redactions[i].redact(live.value, path, name);
        Get(ApplyRedactions(w.live.value, w.redactions, name), path) ==
        Some(if answer.Some? then answer.value else Str(REDACTION_ERROR_SENTINEL))
    {
      RedactedByOne(w.live.value, w.redactions, name, i, path);
    }
  }

  /** Of the directives only this one touches the place, and it leads there. */
  predicate OnlyDirects(redactions: seq<Redaction>, i: nat, path: seq<string>)
    requires i < |redactions|
  {
    Directs(redactions[i], path) && forall j | 0 <= j < |redactions| && j != i :: Spares(redactions[j], path)
  }

  lemma RedactedByOne(state: Json, redactions: seq<Redaction>, name: string, i: nat, path: seq<string>)
    requires i < |redactions| && OnlyDirects(redactions, i, path) && Canonical(path) && Get(state, path).Some?
    ensures var answer := redactions[i].redact(Get(state, path).value, path, name);
      Get(ApplyRedactions(state, redactions, name), path) ==
      Some(if answer.Some? then answer.value else Str(REDACTION_ERROR_SENTINEL))
  {
    FirstRedactionSelected(state, redactions, name, i, path);
  }

  lemma SparedByAll(state: Json, redactions: seq<Redaction>, name: string, path: seq<string>)
    requires Canonical(path) && forall d <- redactions :: Spares(d, path)
    ensures Get(ApplyRedactions(state, redactions, name), path) == Get(state, path)
  {
    forall d | d in redactions ensures ParseDottedPath(d.path) == [] || Disjoint(ParseDottedPath(d.path), path) {
      assert Spares(d, path);
    }
    RedactionsKeepOthers(state, redactions, name, path);
  }

  lemma InvFaithful(w: World, name: string)
    requires WorldInv(w, name)
    ensures w.journal.Some? && !w.drifted ==> Faithful(w.journal, w.recorded, w.redactions, name)
  {
  }

  /**
   A change of redactions leaves a faithful journal faithful if and only if they show the recorded state as before.
   */
  lemma ConfigureKeepsFaithIff(ws: seq<World>, steps: seq<Step>, id: string, name: string, n: nat)
    requires Run(ws, steps, id, name) && n < |steps| && steps[n].Configure? && ws[n].journal.Some? && !ws[n].drifted
    ensures var w, w' := ws[n], ws[n + 1];
      Faithful(w'.journal, w'.recorded, w'.redactions, name) <==>
      Projection(w.recorded, w'.redactions, name) == Projection(w.recorded, w.redactions, name)
  {
    hide Reconstructed, Projection;
    RunKeepsInv(ws, steps, id, name, n);
    assert StepOf(ws[n], steps[n], ws[n + 1], id, name);
  }

  /** How many of the steps from `m` to `n` the journal takes in. */
  function Taken(ws: seq<World>, steps: seq<Step>, id: string, m: nat, n: nat): nat
    requires m <= n <= |steps| && |ws| == |steps| + 1
  {
    if n == m then 0 else Taken(ws, steps, id, m, n - 1) + if Takes(ws[n - 1], steps[n - 1], id) then 1 else 0
  }

  /** From `m` to `n` the redactions stay, and the interval is positive and at most `interval`. */
  predicate Calm(ws: seq<World>, steps: seq<Step>, id: string, interval: nat, m: nat, n: nat)
    requires m <= n <= |steps| && |ws| == |steps| + 1
  {
    forall i | m <= i < n :: !steps[i].Configure? && (Takes(ws[i], steps[i], id) ==> 0 < steps[i].interval <= interval)
  }

  /** A journal that is still adrift after so many recorded events has had no snapshot for as many. */
  predicate Adrift(w: World, interval: nat, taken: nat) {
    w.drifted ==> w.journal.Some? && taken <= PatchesSinceSnapshot(w.journal.value) && (taken > 0 ==> taken < interval)
  }

  lemma StepAdrift(w: World, step: Step, w': World, id: string, name: string, interval: nat, taken: nat)
    requires WorldInv(w, name) && StepOf(w, step, w', id, name) && !step.Configure?
    requires Takes(w, step, id) ==> 0 < step.interval <= interval
    requires Adrift(w, interval, taken)
    ensures Adrift(w', interval, taken + if Takes(w, step, id) then 1 else 0)
  {
    hide Projection, Extends, PatchesSinceSnapshot, Faithful;
    if Takes(w, step, id) { RecordRenews(w.journal, w'.journal, ConfigOf(w, step), id, name, EventOf(w, step)); }
  }

  lemma {:induction false} StillAdrift(ws: seq<World>, steps: seq<Step>, id: string, name: string, interval: nat,
                                       m: nat, n: nat)
    requires Run(ws, steps, id, name) && m <= n <= |steps| && Calm(ws, steps, id, interval, m, n)
    ensures Adrift(ws[n], interval, Taken(ws, steps, id, m, n))
  {
    hide StepOf, Takes, WorldInv, Adrift;
    if n == m {
      RunKeepsInv(ws, steps, id, name, n);
      NothingTaken(ws[n], name, interval);
    } else {
      StillAdrift(ws, steps, id, name, interval, m, n - 1);
      RunKeepsInv(ws, steps, id, name, n - 1);
      assert StepOf(ws[n - 1], steps[n - 1], ws[n], id, name);
      StepAdrift(ws[n - 1], steps[n - 1], ws[n], id, name, interval, Taken(ws, steps, id, m, n - 1));
    }
  }

  lemma NothingTaken(w: World, name: string, interval: nat)
    requires WorldInv(w, name)
    ensures Adrift(w, interval, 0)
  {
  }

  /**
   A journal heals by itself: however redactions were changed before, once as many events have been recorded as the
   interval allows patches, it is faithful again.
   */
  lemma JournalHeals(ws: seq<World>, steps: seq<Step>, id: string, name: string, interval: nat, m: nat, n: nat)
    requires Run(ws, steps, id, name) && m <= n <= |steps| && Calm(ws, steps, id, interval, m, n)
    requires 0 < interval <= Taken(ws, steps, id, m, n)
    ensures !ws[n].drifted
    ensures ws[n].journal.Some? ==> Faithful(ws[n].journal, ws[n].recorded, ws[n].redactions, name)
  {
    hide Faithful, Takes, Calm;
    StillAdrift(ws, steps, id, name, interval, m, n);
    RunKeepsInv(ws, steps, id, name, n);
  }

  /** And with a positive interval the recorded journal is within the bounds of that interval, drifted or not. */
  lemma JournalIsBounded(ws: seq<World>, steps: seq<Step>, id: string, name: string, n: nat)
    requires Run(ws, steps, id, name) && n < |steps| && Takes(ws[n], steps[n], id) && steps[n].interval > 0
    ensures ws[n + 1].journal.Some? && Window(ws[n + 1].journal.value, steps[n].interval)
  {
    hide Extends, Projection, Faithful, Reconstructed;
    var w, step := ws[n], steps[n];
    RunKeepsInv(ws, steps, id, name, n);
    assert StepOf(w, step, ws[n + 1], id, name);
    var cfg, e := ConfigOf(w, step), EventOf(w, step);
    if w.journal.Some? && Classify(w.journal.value, e.info.hash, e.info.height).Extend? {
      ExtendedShape(w.journal.value, ws[n + 1].journal, cfg, name, e);
    }
  }

  // ---- what a change of redactions can do ------------------------------------

  /** Hides whatever stands at the key `a`. */
  function HideA(): seq<Redaction> {
    [Redaction("a", (value: Json, path: seq<string>, name: string) => Some(Str("x")))]
  }

  function Inside(n: real): Json { Obj(map["a" := Obj(map["p" := Num(n)])]) }

  const HIDDEN := Obj(map["a" := Str("x")])

  lemma HidesInside(n: real, name: string)
    ensures ApplyRedactions(Inside(n), HideA(), name) == HIDDEN
    ensures ApplyRedactions(Inside(n), [], name) == Inside(n)
  {
    var r := HideA();
    assert r[..0] == [] && ApplyRedactions(Inside(n), r[..0], name) == Inside(n);
    assert ParseDottedPath("a") == ["a"] by { SplitsNothing(); }
    assert Walk(Inside(n), ["a"], r[0].redact, [], name) == HIDDEN;
  }

  lemma SplitsNothing()
    ensures Split("a", '.') == ["a"]
  {
  }

  /**
   A minimal edit from the one state to the other sits inside what was hidden, where the hidden state has no place.
   */
  lemma MinimalInside(m: real, n: real, e: Edit)
    requires m != n && Minimal(Inside(m), Inside(n), e)
    ensures ApplyEdit(HIDDEN, e).Err?
  {
    if |e.segs| > 1 {
      assert !e.op.OtherOp? && (e.op.Remove? || e.value.Some?);
      assert ApplyAt(Str("x"), e.segs[1..], e.op, e.value).Err?;
    } else if e.segs == ["a"] {
      GetKey(Inside(m).fields, "a");
      GetKey(Inside(n).fields, "a");
    }
  }

  lemma PatchFails(m: real, n: real, patch: seq<Patch>)
    requires m != n && PrintsDiff(Inside(m), Inside(n), patch)
    ensures ApplyAll(HIDDEN, patch).Err?
  {
    hide Minimal, ApplyEdit;
    var d :| patch == ToPatches(d) && IsDiff(Inside(m), Inside(n), d);
    StatesDiffer(m, n);
    var first := d[..1];
    assert d[0] in d && first == [d[0]] && first[..0] == [];
    MinimalInside(m, n, d[0]);
    ApplyPrinted(HIDDEN, first);
    assert patch[..1] == ToPatches(first);
    ApplyAllStopsAtError(HIDDEN, patch, 1);
  }

  lemma StatesDiffer(m: real, n: real)
    requires m != n
    ensures Inside(m) != Inside(n)
  {
    assert Inside(m).fields["a"].fields["p"] != Inside(n).fields["a"].fields["p"];
  }

  /**
   A journal seeded while `a` is hidden, and continued with the redaction gone: the patch of the next event reaches into
   what the snapshot hides, and reconstruction reports corruption.
   */
  method RedactionChangeCorrupts() returns (r: Rebuilt)
    ensures r == Corrupt(1)
  {
    hide ApplyAll, ApplyRedactions, PrintsDiff, Rebuilds;
    var meta := new ContractMeta("id", "name");
    var first, second := EventInfo("h0", 0, "OP_CONTRACT", None), EventInfo("h1", 1, "OP_ACTION_UNENCRYPTED", None);
    HidesInside(1.0, "name");
    HidesInside(2.0, "name");
    meta.RecordEvent(Config(true, 50, {}, HideA()), Event(first, None, Some(Inside(1.0)), false, None));
    var snapshot := Snapshot(first, HIDDEN, None);
    assert meta.journal == Some([snapshot]);
    var cfg := Config(true, 50, {}, []);
    ghost var e := Event(second, Some(Inside(1.0)), Some(Inside(2.0)), false, None);
    meta.RecordEvent(cfg, Event(second, Some(Inside(1.0)), Some(Inside(2.0)), false, None));
    ghost var patch :| GoodPatch(Some(Inside(1.0)), Inside(2.0), false, patch)
      && meta.journal == Some(Appended([snapshot], PatchEntry(second, patch, None), 50, Some(Inside(2.0))));
    PatchFails(1.0, 2.0, patch);
    OnePatch(snapshot, PatchEntry(second, patch, None), Inside(2.0));
    r := Reconstruct(meta.journal);
  }

  lemma OnePatch(snapshot: Entry, entry: Entry, after: Json)
    requires snapshot.Snapshot? && entry.PatchEntry? && ApplyAll(snapshot.state, entry.patch).Err?
    ensures Reconstructed(Appended([snapshot], entry, 50, Some(after))) == Corrupt(1)
  {
    hide ApplyAll;
    var es := [snapshot, entry];
    assert [snapshot] + [entry] == es && es[..1] == [snapshot];
    assert LastSnapshot(es) == 0 && Replay(snapshot.state, [snapshot], 0) == Rebuilt.Rebuilt(snapshot.state);
    assert Replay(snapshot.state, es, 0) == Corrupt(1);
    assert Appended([snapshot], entry, 50, Some(after)) == es;
  }
}
