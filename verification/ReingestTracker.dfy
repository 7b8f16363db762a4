/** Which events from beyond a gap were seen, per contract. */
module ReingestTracker {
  datatype Entry = Entry(hash: string, height: int)

  const REINGEST_PER_CONTRACT_CAP := 20

  predicate Tracks(entries: seq<Entry>, hash: string) { exists i | 0 <= i < |entries| :: entries[i].hash == hash }

  /** The entries for other hashes, in order. */
  function Without(entries: seq<Entry>, hash: string): seq<Entry> {
    if entries == [] then []
    else
      var before, last := entries[..|entries| - 1], entries[|entries| - 1];
      Without(before, hash) + if last.hash == hash then [] else [last]
  }

  /** The entries strictly above `height`, in order. */
  function Above(entries: seq<Entry>, height: int): seq<Entry> {
    if entries == [] then []
    else
      var before, last := entries[..|entries| - 1], entries[|entries| - 1];
      Above(before, height) + if last.height <= height then [] else [last]
  }

  predicate Distinct(entries: seq<Entry>) {
    forall i, j | 0 <= i < j < |entries| :: entries[i].hash != entries[j].hash
  }

  /** Distinct hashes, within the cap, strictly above the processed height. */
  predicate Sound(entries: seq<Entry>, height: int) {
    && Distinct(entries)
    && |entries| <= REINGEST_PER_CONTRACT_CAP
    && (forall i | 0 <= i < |entries| :: entries[i].height > height)
  }

  lemma {:induction false} WithoutFacts(entries: seq<Entry>, hash: string)
    ensures |Without(entries, hash)| <= |entries|
    ensures forall e :: e in Without(entries, hash) <==> e in entries && e.hash != hash
    ensures Distinct(entries) ==> Distinct(Without(entries, hash))
  {
    if entries != [] {
      var n := |entries| - 1;
      WithoutFacts(entries[..n], hash);
      assert entries == entries[..n] + [entries[n]];
      var w := Without(entries[..n], hash);
      if Distinct(entries) && entries[n].hash != hash {
        assert Distinct(entries[..n]);
        forall i, j | 0 <= i < j < |w| + 1 ensures (w + [entries[n]])[i].hash != (w + [entries[n]])[j].hash {
          assert w[i] in entries[..n];
        }
      }
    }
  }

  lemma {:induction false} WithoutUntracked(entries: seq<Entry>, hash: string)
    requires forall i | 0 <= i < |entries| :: entries[i].hash != hash
    ensures Without(entries, hash) == entries
  {
    if entries != [] {
      WithoutUntracked(entries[..|entries| - 1], hash);
    }
  }

  /** Of distinct hashes, only the entry at `i` goes. */
  lemma {:induction false} WithoutAt(entries: seq<Entry>, i: nat)
    requires Distinct(entries) && i < |entries|
    ensures Without(entries, entries[i].hash) == entries[..i] + entries[i + 1..]
  {
    var n := |entries| - 1;
    if i == n {
      WithoutUntracked(entries[..n], entries[n].hash);
    } else {
      WithoutAt(entries[..n], i);
      assert entries[..i] + entries[i + 1..] == entries[..n][..i] + entries[..n][i + 1..] + [entries[n]];
    }
  }

  lemma {:induction false} AboveFacts(entries: seq<Entry>, height: int)
    ensures |Above(entries, height)| <= |entries|
    ensures forall e :: e in Above(entries, height) <==> e in entries && e.height > height
    ensures Distinct(entries) ==> Distinct(Above(entries, height))
  {
    if entries != [] {
      var n := |entries| - 1;
      AboveFacts(entries[..n], height);
      assert entries == entries[..n] + [entries[n]];
      var a := Above(entries[..n], height);
      if Distinct(entries) && entries[n].height > height {
        assert Distinct(entries[..n]);
        forall i, j | 0 <= i < j < |a| + 1 ensures (a + [entries[n]])[i].hash != (a + [entries[n]])[j].hash {
          assert a[i] in entries[..n];
        }
      }
    }
  }

  datatype Note = Added | Duplicate | Overflow

  /** The module-level map of per-contract sets; a set lists its entries in the order they were added. */
  class Tracker {
    var trackers: map<string, seq<Entry>>

    ghost predicate Valid()
      reads this
    {
      forall id <- trackers :: trackers[id] != [] && Distinct(trackers[id])
        && |trackers[id]| <= REINGEST_PER_CONTRACT_CAP
    }

    function Entries(contractID: string): seq<Entry>
      reads this
    {
      if contractID in trackers then trackers[contractID] else []
    }

    constructor ()
      ensures Valid() && trackers == map[]
    {
      trackers := map[];
    }

    /** Adds a hash that is new while there is room; every other contract's entries stay as they are. */
    method NoteFutureEvent(contractID: string, hash: string, height: int) returns (note: Note)
      requires Valid()
      modifies this
      ensures Valid()
      ensures note.Duplicate? <==> Tracks(old(Entries(contractID)), hash)
      ensures note.Overflow? <==>
        !Tracks(old(Entries(contractID)), hash) && |old(Entries(contractID))| >= REINGEST_PER_CONTRACT_CAP
      ensures Entries(contractID) == old(Entries(contractID)) + if note.Added? then [Entry(hash, height)] else []
      ensures forall id :: id != contractID ==> Entries(id) == old(Entries(id))
    {
      var s := if contractID in trackers then trackers[contractID] else [];
      for i := 0 to |s|
        invariant forall j | 0 <= j < i :: s[j].hash != hash
      {
        if s[i].hash == hash { return Duplicate; }
      }
      if |s| >= REINGEST_PER_CONTRACT_CAP { return Overflow; }
      trackers := trackers[contractID := s + [Entry(hash, height)]];
      return Added;
    }

    /** Forgets a hash, and reports whether it was there. */
    method NoteReingestSuccess(contractID: string, hash: string) returns (found: bool)
      requires Valid()
      modifies this
      ensures Valid()
      ensures found == Tracks(old(Entries(contractID)), hash)
      ensures Entries(contractID) == Without(old(Entries(contractID)), hash)
      ensures forall id :: id != contractID ==> Entries(id) == old(Entries(id))
    {
      if contractID !in trackers { return false; }
      var s := trackers[contractID];
      WithoutFacts(s, hash);
      for i := 0 to |s|
        invariant forall j | 0 <= j < i :: s[j].hash != hash
      {
        if s[i].hash == hash {
          WithoutAt(s, i);
          var rest := s[..i] + s[i + 1..];
          if rest == [] { trackers := trackers - {contractID}; } else { trackers := trackers[contractID := rest]; }
          return true;
        }
      }
      WithoutUntracked(s, hash);
      return false;
    }

    /** Drops what the processed height has reached, and counts it. */
    method PruneStaleEntries(contractID: string, processedHeight: int) returns (pruned: nat)
      requires Valid()
      modifies this
      ensures Valid()
      ensures Entries(contractID) == Above(old(Entries(contractID)), processedHeight)
      ensures pruned == |old(Entries(contractID))| - |Entries(contractID)|
      ensures forall id :: id != contractID ==> Entries(id) == old(Entries(id))
    {
      if contractID !in trackers { return 0; }
      var s := trackers[contractID];
      var kept: seq<Entry> := [];
      pruned := 0;
      for i := 0 to |s|
        invariant kept == Above(s[..i], processedHeight) && pruned == i - |kept|
      {
        assert s[..i + 1][..i] == s[..i];
        if s[i].height <= processedHeight { pruned := pruned + 1; } else { kept := kept + [s[i]]; }
      }
      assert s[..|s|] == s;
      AboveFacts(s, processedHeight);
      if kept == [] { trackers := trackers - {contractID}; } else { trackers := trackers[contractID := kept]; }
    }

    method ClearForContract(contractID: string)
      requires Valid()
      modifies this
      ensures Valid() && Entries(contractID) == []
      ensures forall id :: id != contractID ==> Entries(id) == old(Entries(id))
    {
      trackers := trackers - {contractID};
    }
  }
}
