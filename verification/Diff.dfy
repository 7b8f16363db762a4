/** The structural diff: `diffInto` pushing patches onto a list, proved to be undone by the applier. */
module Diff {
  import opened Wrappers
  import opened Json
  import opened Pointer
  import opened Patches

  /** The `out` array that `diffInto` pushes onto. */
  class PatchList {
    var items: seq<Patch>

    constructor ()
      ensures items == []
    {
      items := [];
    }

    /** Pushes one patch; `base` and `d` say what the list holds already. */
    method Push(segments: seq<string>, e: Edit, ghost base: seq<Patch>, ghost d: seq<Edit>)
      requires items == base + ToPatches(Under(segments, d))
      modifies this
      ensures items == base + ToPatches(Under(segments, d + [e]))
    {
      items := items + [Patch(e.op, SegmentsToPointer(segments + e.segs), e.value)];
      PrintedConcat(segments, d, [e]);
      assert ToPatches(Under(segments, [e])) == [Patch(e.op, SegmentsToPointer(segments + e.segs), e.value)];
    }
  }

  predicate SameShape(b: Json, a: Json) { (b.Arr? && a.Arr?) || (b.Obj? && a.Obj?) }

  /** An edit sits exactly where the two values differ, and no higher than it has to. */
  predicate Minimal(b: Json, a: Json, e: Edit) {
    match e.op
    case Add => Get(b, e.segs).None? && e.value.Some? && Get(a, e.segs) == e.value
    case Remove => Get(b, e.segs).Some? && Get(a, e.segs).None?
    case Replace =>
      && Get(b, e.segs).Some? && e.value.Some? && Get(a, e.segs) == e.value
      && Get(b, e.segs) != e.value && !SameShape(Get(b, e.segs).value, e.value.value)
    case OtherOp(_) => false
  }

  /** What a diff promises: it applies, it gives `a`, it is empty only for equal values, and it is minimal. */
  predicate IsDiff(b: Json, a: Json, d: seq<Edit>) {
    && ApplyEdits(b, d) == Ok(a)
    && (d == [] <==> b == a)
    && Framable(d)
    && (forall e <- d :: Minimal(b, a, e))
  }

  /** Minimal edits strictly inside the value. */
  predicate Below(b: Json, a: Json, d: seq<Edit>) {
    forall e <- d :: e.segs != [] && Minimal(b, a, e)
  }

  // ---- proof steps ------------------------------------------------------

  lemma PrintedConcat(prefix: seq<string>, d1: seq<Edit>, d2: seq<Edit>)
    ensures ToPatches(Under(prefix, d1 + d2)) == ToPatches(Under(prefix, d1)) + ToPatches(Under(prefix, d2))
  {
    assert Under(prefix, d1 + d2) == Under(prefix, d1) + Under(prefix, d2);
  }

  /** The patches of a recursive call, pushed one level down, continue the list of the level above. */
  lemma Nested(base: seq<Patch>, prefix: seq<string>, key: string, d: seq<Edit>, inner: seq<Edit>)
    ensures base + ToPatches(Under(prefix, d)) + ToPatches(Under(prefix + [key], inner))
         == base + ToPatches(Under(prefix, d + Under([key], inner)))
  {
    UnderUnder(prefix, key, inner);
    PrintedConcat(prefix, d, Under([key], inner));
  }

  lemma NothingYet(base: seq<Patch>, prefix: seq<string>)
    ensures base + ToPatches(Under(prefix, [])) == base
  {
  }

  lemma UnderUnder(prefix: seq<string>, key: string, d: seq<Edit>)
    ensures Under(prefix + [key], d) == Under(prefix, Under([key], d))
  {
    forall i | 0 <= i < |d|
      ensures Under(prefix + [key], d)[i] == Under(prefix, Under([key], d))[i]
    {
      assert prefix + [key] + d[i].segs == prefix + ([key] + d[i].segs);
    }
  }

  lemma UnderMembers(key: string, d: seq<Edit>, e: Edit)
    requires e in Under([key], d)
    ensures exists i :: 0 <= i < |d| && e == Prefixed([key], d[i]) && d[i] in d
  {
    var i :| 0 <= i < |Under([key], d)| && Under([key], d)[i] == e;
    assert e == Prefixed([key], d[i]);
  }

  /** A diff of one element, moved under its index, is part of a diff of the arrays. */
  lemma ElementEdits(bs: seq<Json>, as_: seq<Json>, i: nat, d: seq<Edit>)
    requires i < |bs| && i < |as_| && IsDiff(bs[i], as_[i], d)
    ensures Below(Arr(bs), Arr(as_), Under([PrintIndex(i)], d))
    ensures Under([PrintIndex(i)], d) == [] <==> bs[i] == as_[i]
  {
    ParsePrintIndex(i);
    forall e | e in Under([PrintIndex(i)], d) ensures e.segs != [] && Minimal(Arr(bs), Arr(as_), e) {
      UnderMembers(PrintIndex(i), d, e);
      var j :| 0 <= j < |d| && e == Prefixed([PrintIndex(i)], d[j]) && d[j] in d;
      assert e.segs[1..] == d[j].segs;
    }
  }

  lemma PropertyEdits(b: map<string, Json>, a: map<string, Json>, k: string, d: seq<Edit>)
    requires k in b && k in a && IsDiff(b[k], a[k], d)
    ensures Below(Obj(b), Obj(a), Under([k], d))
  {
    forall e | e in Under([k], d) ensures e.segs != [] && Minimal(Obj(b), Obj(a), e) {
      UnderMembers(k, d, e);
      var j :| 0 <= j < |d| && e == Prefixed([k], d[j]) && d[j] in d;
      assert e.segs[1..] == d[j].segs;
    }
  }

  lemma ElementStep(bs: seq<Json>, as_: seq<Json>, i: nat, done: seq<Edit>, d: seq<Edit>)
    requires i < |bs| && i < |as_| && IsDiff(bs[i], as_[i], d)
    requires ApplyEdits(Arr(bs), done) == Ok(Arr(as_[..i] + bs[i..]))
    ensures ApplyEdits(Arr(bs), done + Under([PrintIndex(i)], d)) == Ok(Arr(as_[..i + 1] + bs[i + 1..]))
  {
    var xs := as_[..i] + bs[i..];
    ApplyEditsConcat(Arr(bs), done, Under([PrintIndex(i)], d));
    FrameArr(xs, i, d);
    assert xs[i := as_[i]] == as_[..i + 1] + bs[i + 1..];
  }

  /** One turn of the loop over the shared indices. */
  lemma SharedStep(bs: seq<Json>, as_: seq<Json>, i: nat, done: seq<Edit>, d: seq<Edit>)
    requires i < |bs| && i < |as_| && IsDiff(bs[i], as_[i], d)
    requires ApplyEdits(Arr(bs), done) == Ok(Arr(as_[..i] + bs[i..]))
    requires Below(Arr(bs), Arr(as_), done) && (done == [] <==> as_[..i] == bs[..i])
    ensures ApplyEdits(Arr(bs), done + Under([PrintIndex(i)], d)) == Ok(Arr(as_[..i + 1] + bs[i + 1..]))
    ensures Below(Arr(bs), Arr(as_), done + Under([PrintIndex(i)], d))
    ensures done + Under([PrintIndex(i)], d) == [] <==> as_[..i + 1] == bs[..i + 1]
  {
    hide *;
    ElementStep(bs, as_, i, done, d);
    ElementEdits(bs, as_, i, d);
    BelowConcat(Arr(bs), Arr(as_), done, Under([PrintIndex(i)], d));
    assert as_[..i + 1] == as_[..i] + [as_[i]] && bs[..i + 1] == bs[..i] + [bs[i]];
  }

  lemma BelowConcat(b: Json, a: Json, d1: seq<Edit>, d2: seq<Edit>)
    requires Below(b, a, d1) && Below(b, a, d2)
    ensures Below(b, a, d1 + d2)
  {
  }

  lemma BelowNone(b: Json, a: Json)
    ensures Below(b, a, [])
  {
  }

  lemma WholeDiff(b: Json, a: Json, d: seq<Edit>)
    requires ApplyEdits(b, d) == Ok(a) && Below(b, a, d) && (d == [] <==> b == a)
    ensures IsDiff(b, a, d)
  {
  }

  lemma ApplyNone(b: Json)
    ensures ApplyEdits(b, []) == Ok(b)
  {
  }

  lemma ApplySnoc(b: Json, done: seq<Edit>, e: Edit)
    requires ApplyEdits(b, done).Ok?
    ensures ApplyEdits(b, done + [e]) == ApplyEdit(ApplyEdits(b, done).value, e)
  {
    assert (done + [e])[..|done + [e]| - 1] == done;
  }

  lemma GetIndex(xs: seq<Json>, i: nat)
    ensures Get(Arr(xs), [PrintIndex(i)]) == if i < |xs| then Some(xs[i]) else None
  {
    ParsePrintIndex(i);
    assert [PrintIndex(i)][1..] == [];
  }

  lemma GetKey(m: map<string, Json>, k: string)
    ensures Get(Obj(m), [k]) == if k in m then Some(m[k]) else None
  {
    assert [k][1..] == [];
  }

  lemma AppendStep(b: Json, xs: seq<Json>, v: Json, done: seq<Edit>)
    requires ApplyEdits(b, done) == Ok(Arr(xs))
    ensures ApplyEdits(b, done + [Edit(Add, [PrintIndex(|xs|)], Some(v))]) == Ok(Arr(xs + [v]))
  {
    ApplySnoc(b, done, Edit(Add, [PrintIndex(|xs|)], Some(v)));
    ParsePrintIndex(|xs|);
    NotDash(|xs|);
    assert xs[..|xs|] + [v] + xs[|xs|..] == xs + [v];
  }

  lemma DropStep(b: Json, xs: seq<Json>, i: nat, done: seq<Edit>)
    requires |xs| == i + 1 && ApplyEdits(b, done) == Ok(Arr(xs))
    ensures ApplyEdits(b, done + [Edit(Remove, [PrintIndex(i)], None)]) == Ok(Arr(xs[..i]))
  {
    ApplySnoc(b, done, Edit(Remove, [PrintIndex(i)], None));
    DropLast(xs, i);
  }

  lemma DropLast(xs: seq<Json>, i: nat)
    requires |xs| == i + 1
    ensures ApplyEdit(Arr(xs), Edit(Remove, [PrintIndex(i)], None)) == Ok(Arr(xs[..i]))
  {
    var last := PrintIndex(i);
    ParsePrintIndex(i);
    NotDash(i);
    assert xs[i + 1..] == [] && xs[..i] + [] == xs[..i];
  }

  /** The object part-way through the second loop: shared keys, with the ones in `done` already rewritten. */
  function Mix(b: map<string, Json>, a: map<string, Json>, done: set<string>): map<string, Json>
    requires done <= a.Keys
  {
    map k | k in b.Keys * a.Keys + done :: if k in done then a[k] else b[k]
  }

  lemma MixNone(b: map<string, Json>, a: map<string, Json>, gone: set<string>)
    requires gone == b.Keys - a.Keys
    ensures b - gone == Mix(b, a, {})
  {
  }

  lemma MixAll(b: map<string, Json>, a: map<string, Json>)
    ensures Mix(b, a, a.Keys) == a
  {
  }

  lemma MixWith(b: map<string, Json>, a: map<string, Json>, done: set<string>, k: string)
    requires done <= a.Keys && k in a
    ensures Mix(b, a, done)[k := a[k]] == Mix(b, a, done + {k})
  {
  }

  lemma MixShared(b: map<string, Json>, a: map<string, Json>, done: set<string>, k: string)
    requires done <= a.Keys && k in b && k in a && k !in done
    ensures k in Mix(b, a, done) && Mix(b, a, done)[k] == b[k]
  {
  }

  /** One turn of the second loop, for a key on both sides. */
  lemma PropertyStep(b: map<string, Json>, a: map<string, Json>, done: set<string>, k: string, prev: seq<Edit>,
                     d: seq<Edit>)
    requires done <= a.Keys && k in b && k in a && k !in done && IsDiff(b[k], a[k], d)
    requires ApplyEdits(Obj(b), prev) == Ok(Obj(Mix(b, a, done))) && Below(Obj(b), Obj(a), prev)
    ensures ApplyEdits(Obj(b), prev + Under([k], d)) == Ok(Obj(Mix(b, a, done + {k})))
    ensures Below(Obj(b), Obj(a), prev + Under([k], d))
    ensures Under([k], d) == [] <==> b[k] == a[k]
  {
    hide Mix, Get;
    ApplyEditsConcat(Obj(b), prev, Under([k], d));
    MixShared(b, a, done, k);
    FrameObj(Mix(b, a, done), k, d);
    MixWith(b, a, done, k);
    PropertyEdits(b, a, k, d);
  }

  /** One turn of the second loop, for a key only `after` has. */
  lemma AddKeyStep(b: map<string, Json>, a: map<string, Json>, done: set<string>, k: string, prev: seq<Edit>)
    requires done <= a.Keys && k !in b && k in a
    requires ApplyEdits(Obj(b), prev) == Ok(Obj(Mix(b, a, done))) && Below(Obj(b), Obj(a), prev)
    ensures ApplyEdits(Obj(b), prev + [Edit(Add, [k], Some(a[k]))]) == Ok(Obj(Mix(b, a, done + {k})))
    ensures Below(Obj(b), Obj(a), prev + [Edit(Add, [k], Some(a[k]))])
  {
    hide Mix, Get, ApplyEdits;
    ApplySnoc(Obj(b), prev, Edit(Add, [k], Some(a[k])));
    AddsKey(Mix(b, a, done), k, a[k]);
    MixWith(b, a, done, k);
    GetKey(b, k);
    GetKey(a, k);
  }

  lemma AddsKey(m: map<string, Json>, k: string, v: Json)
    ensures ApplyEdit(Obj(m), Edit(Add, [k], Some(v))) == Ok(Obj(m[k := v]))
  {
  }

  /** One turn of the first loop, for a key that `after` does not have. */
  lemma RemoveKeyStep(b: map<string, Json>, a: map<string, Json>, gone: set<string>, k: string, prev: seq<Edit>)
    requires k in b && k !in gone && k !in a
    requires ApplyEdits(Obj(b), prev) == Ok(Obj(b - gone)) && Below(Obj(b), Obj(a), prev)
    ensures ApplyEdits(Obj(b), prev + [Edit(Remove, [k], None)]) == Ok(Obj(b - (gone + {k})))
    ensures Below(Obj(b), Obj(a), prev + [Edit(Remove, [k], None)])
  {
    hide Get, ApplyEdits;
    ApplySnoc(Obj(b), prev, Edit(Remove, [k], None));
    RemovesKey(b - gone, k);
    assert b - gone - {k} == b - (gone + {k});
    GetKey(b, k);
    GetKey(a, k);
  }

  lemma RemovesKey(m: map<string, Json>, k: string)
    requires k in m
    ensures ApplyEdit(Obj(m), Edit(Remove, [k], None)) == Ok(Obj(m - {k}))
  {
  }

  // ---- the algorithm ----------------------------------------------------

  /** `Object.keys`: every key once, in some order. */
  method KeysOf(m: map<string, Json>) returns (ks: seq<string>)
    ensures forall k :: k in ks <==> k in m
    ensures forall i, j | 0 <= i < j < |ks| :: ks[i] != ks[j]
  {
    ks := [];
    var rest := m.Keys;
    while rest != {}
      invariant rest <= m.Keys
      invariant forall k :: k in m <==> k in ks || k in rest
      invariant forall k <- ks :: k !in rest
      invariant forall i, j | 0 <= i < j < |ks| :: ks[i] != ks[j]
    {
      var k :| k in rest;
      ks := ks + [k];
      rest := rest - {k};
    }
  }

  /** Between values of different shapes the diff is empty, or one replacement of the whole. */
  lemma ReplaceDiff(b: Json, a: Json)
    requires !SameShape(b, a)
    ensures IsDiff(b, a, if b == a then [] else [Edit(Replace, [], Some(a))])
  {
    var d := [Edit(Replace, [], Some(a))];
    assert d[..0] == [] && ApplyEdits(b, []) == Ok(b);
  }

  method DiffInto(before: Json, after: Json, segments: seq<string>, out: PatchList) returns (ghost d: seq<Edit>)
    modifies out
    ensures out.items == old(out.items) + ToPatches(Under(segments, d))
    ensures IsDiff(before, after, d)
    decreases before, 2
  {
    hide IsDiff;
    if !SameShape(before, after) {
      ReplaceDiff(before, after);
      // A primitive on either side, or different containers: replace the whole value unless it is the same primitive.
      if before == after {
        return [];
      }
      ghost var base := out.items;
      assert base == base + ToPatches(Under(segments, []));
      out.Push(segments, Edit(Replace, [], Some(after)), base, []);
      d := [Edit(Replace, [], Some(after))];
      assert [] + d == d;
    } else if before.Arr? {
      d := DiffArrays(before, after, segments, out);
    } else {
      d := DiffObjects(before, after, segments, out);
    }
  }

  method DiffArrays(before: Json, after: Json, segments: seq<string>, out: PatchList) returns (ghost d: seq<Edit>)
    requires before.Arr? && after.Arr?
    modifies out
    ensures out.items == old(out.items) + ToPatches(Under(segments, d))
    ensures IsDiff(before, after, d)
    decreases before, 1
  {
    hide *;
    var bs, as_ := before.items, after.items;
    var minLen := if |bs| < |as_| then |bs| else |as_|;
    ghost var base := out.items;
    d := DiffShared(before, after, minLen, segments, out);
    if |as_| > |bs| {
      assert as_[..|bs|] + bs[|bs|..] == as_[..|bs|];
      d := AppendRest(bs, as_, segments, out, base, d);
    } else if |bs| > |as_| {
      assert as_[..|as_|] + bs[|as_|..] == as_ + bs[|as_|..];
      d := DropRest(bs, as_, segments, out, base, d);
    } else {
      assert as_[..minLen] == as_ && bs[..minLen] == bs && as_[..minLen] + bs[minLen..] == as_;
    }
    WholeDiff(before, after, d);
  }

  /** The loop over the indices both arrays have. */
  method DiffShared(before: Json, after: Json, minLen: nat, segments: seq<string>, out: PatchList)
    returns (ghost d: seq<Edit>)
    requires before.Arr? && after.Arr? && minLen <= |before.items| && minLen <= |after.items|
    modifies out
    ensures out.items == old(out.items) + ToPatches(Under(segments, d))
    ensures ApplyEdits(before, d) == Ok(Arr(after.items[..minLen] + before.items[minLen..]))
    ensures d == [] <==> after.items[..minLen] == before.items[..minLen]
    ensures Below(before, after, d)
    decreases before, 0
  {
    hide *;
    var bs, as_ := before.items, after.items;
    d := [];
    ghost var base := out.items;
    assert before == Arr(bs) && after == Arr(as_) && as_[..0] + bs[0..] == bs;
    ApplyNone(before);
    BelowNone(before, after);
    NothingYet(base, segments);
    for i := 0 to minLen
      invariant out.items == base + ToPatches(Under(segments, d))
      invariant ApplyEdits(before, d) == Ok(Arr(as_[..i] + bs[i..]))
      invariant d == [] <==> as_[..i] == bs[..i]
      invariant Below(before, after, d)
    {
      ghost var e := DiffInto(bs[i], as_[i], segments + [PrintIndex(i)], out);
      SharedStep(bs, as_, i, d, e);
      Nested(base, segments, PrintIndex(i), d, e);
      d := d + Under([PrintIndex(i)], e);
    }
  }

  method AppendRest(bs: seq<Json>, as_: seq<Json>, segments: seq<string>, out: PatchList, ghost base: seq<Patch>,
                    ghost d0: seq<Edit>)
    returns (ghost d: seq<Edit>)
    requires |bs| < |as_| && out.items == base + ToPatches(Under(segments, d0))
    requires ApplyEdits(Arr(bs), d0) == Ok(Arr(as_[..|bs|])) && Below(Arr(bs), Arr(as_), d0)
    modifies out
    ensures out.items == base + ToPatches(Under(segments, d)) && d != []
    ensures ApplyEdits(Arr(bs), d) == Ok(Arr(as_)) && Below(Arr(bs), Arr(as_), d)
  {
    d := d0;
    for i := |bs| to |as_|
      invariant out.items == base + ToPatches(Under(segments, d))
      invariant ApplyEdits(Arr(bs), d) == Ok(Arr(as_[..i]))
      invariant i > |bs| ==> d != []
      invariant Below(Arr(bs), Arr(as_), d)
    {
      var e := Edit(Add, [PrintIndex(i)], Some(as_[i]));
      AppendStep(Arr(bs), as_[..i], as_[i], d);
      assert as_[..i + 1] == as_[..i] + [as_[i]];
      GetIndex(bs, i);
      GetIndex(as_, i);
      out.Push(segments, e, base, d);
      d := d + [e];
    }
    assert as_[..|as_|] == as_;
  }

  /** From the tail down, so that the remaining indices stay valid. */
  method DropRest(bs: seq<Json>, as_: seq<Json>, segments: seq<string>, out: PatchList, ghost base: seq<Patch>,
                  ghost d0: seq<Edit>)
    returns (ghost d: seq<Edit>)
    requires |as_| < |bs| && out.items == base + ToPatches(Under(segments, d0))
    requires ApplyEdits(Arr(bs), d0) == Ok(Arr(as_ + bs[|as_|..])) && Below(Arr(bs), Arr(as_), d0)
    modifies out
    ensures out.items == base + ToPatches(Under(segments, d)) && d != []
    ensures ApplyEdits(Arr(bs), d) == Ok(Arr(as_)) && Below(Arr(bs), Arr(as_), d)
  {
    d := d0;
    var i := |bs|;
    assert bs[|as_|..] == bs[|as_|..i];
    while i > |as_|
      invariant |as_| <= i <= |bs|
      invariant out.items == base + ToPatches(Under(segments, d))
      invariant ApplyEdits(Arr(bs), d) == Ok(Arr(as_ + bs[|as_|..i]))
      invariant i < |bs| ==> d != []
      invariant Below(Arr(bs), Arr(as_), d)
    {
      i := i - 1;
      var e := Edit(Remove, [PrintIndex(i)], None);
      DropStep(Arr(bs), as_ + bs[|as_|..i + 1], i, d);
      assert (as_ + bs[|as_|..i + 1])[..i] == as_ + bs[|as_|..i];
      GetIndex(bs, i);
      GetIndex(as_, i);
      out.Push(segments, e, base, d);
      d := d + [e];
    }
    assert as_ + bs[|as_|..|as_|] == as_;
  }

  /** First loop over objects: remove the keys that `after` does not have. */
  method DropMissing(b: map<string, Json>, a: map<string, Json>, segments: seq<string>, out: PatchList)
    returns (ghost d: seq<Edit>)
    modifies out
    ensures out.items == old(out.items) + ToPatches(Under(segments, d))
    ensures ApplyEdits(Obj(b), d) == Ok(Obj(Mix(b, a, {})))
    ensures d == [] <==> b.Keys <= a.Keys
    ensures Below(Obj(b), Obj(a), d)
  {
    hide *;
    var keys := KeysOf(b);
    d := [];
    ghost var base := out.items;
    NothingYet(base, segments);
    BelowNone(Obj(b), Obj(a));
    ghost var gone: set<string> := {};
    assert b - gone == b;
    ApplyNone(Obj(b));
    for i := 0 to |keys|
      invariant gone == set k | k in keys[..i] && k !in a
      invariant out.items == base + ToPatches(Under(segments, d))
      invariant ApplyEdits(Obj(b), d) == Ok(Obj(b - gone))
      invariant d == [] <==> gone == {}
      invariant Below(Obj(b), Obj(a), d)
    {
      var k := keys[i];
      assert keys[..i + 1] == keys[..i] + [k] && k in b;
      if k !in a {
        var e := Edit(Remove, [k], None);
        RemoveKeyStep(b, a, gone, k, d);
        out.Push(segments, e, base, d);
        d := d + [e];
        gone := gone + {k};
      }
    }
    assert gone == b.Keys - a.Keys;
    MixNone(b, a, gone);
  }

  method DiffObjects(before: Json, after: Json, segments: seq<string>, out: PatchList) returns (ghost d: seq<Edit>)
    requires before.Obj? && after.Obj?
    modifies out
    ensures out.items == old(out.items) + ToPatches(Under(segments, d))
    ensures IsDiff(before, after, d)
    decreases before, 0
  {
    hide *;
    var b, a := before.fields, after.fields;
    ghost var base := out.items;
    d := DropMissing(b, a, segments, out);
    var keys := KeysOf(a);
    ghost var done: set<string> := {};
    for i := 0 to |keys|
      invariant done == (set k | k in keys[..i]) && done <= a.Keys
      invariant out.items == base + ToPatches(Under(segments, d))
      invariant ApplyEdits(before, d) == Ok(Obj(Mix(b, a, done)))
      invariant d == [] <==> b.Keys <= a.Keys && forall k <- done :: k in b && b[k] == a[k]
      invariant Below(before, after, d)
    {
      var k := keys[i];
      assert keys[..i + 1] == keys[..i] + [k] && k in a;
      if k !in b {
        var e := Edit(Add, [k], Some(a[k]));
        AddKeyStep(b, a, done, k, d);
        out.Push(segments, e, base, d);
        d := d + [e];
      } else {
        ghost var inner := DiffInto(b[k], a[k], segments + [k], out);
        PropertyStep(b, a, done, k, d, inner);
        Nested(base, segments, k, d, inner);
        d := d + Under([k], inner);
      }
      done := done + {k};
    }
    assert done == a.Keys;
    MixAll(b, a);
    WholeDiff(before, after, d);
  }

  /** What `defaultDiff` promises the journal: on the value it was taken from, the patches apply and rebuild `after`. */
  predicate Rebuilds(before: Option<Json>, after: Json, patches: seq<Patch>) {
    match before
    case Some(b) => ApplyAll(b, patches) == Ok(after) && (patches == [] <==> b == after)
    case None => patches == [Patch(Add, "", Some(after))]
  }

  /** The patches are the printed form of a diff. */
  ghost predicate PrintsDiff(b: Json, a: Json, patches: seq<Patch>) {
    exists d :: patches == ToPatches(d) && IsDiff(b, a, d)
  }

  method DiffValues(b: Json, a: Json) returns (patches: seq<Patch>)
    ensures PrintsDiff(b, a, patches) && Rebuilds(Some(b), a, patches)
  {
    var out := new PatchList();
    ghost var d := DiffInto(b, a, [], out);
    assert Under([], d) == d by {
      forall i | 0 <= i < |d| ensures Under([], d)[i] == d[i] { assert [] + d[i].segs == d[i].segs; }
    }
    ApplyPrinted(b, d);
    patches := out.items;
    assert patches == ToPatches(d);
  }

  /** `defaultDiff(before, after)`, where None is `undefined`. */
  method DefaultDiff(before: Option<Json>, after: Option<Json>) returns (patches: seq<Patch>)
    ensures after.Some? ==> Rebuilds(before, after.value, patches)
    ensures after.None? ==> patches == if before.None? then [] else [Patch(Replace, "", Some(Null))]
    ensures before.Some? && after.Some? ==> PrintsDiff(before.value, after.value, patches)
  {
    if before.None? && after.None? {
      patches := [];
    } else if before.None? {
      patches := [Patch(Add, "", after)];
    } else if after.None? {
      patches := [Patch(Replace, "", Some(Null))];
    } else {
      patches := DiffValues(before.value, after.value);
    }
  }

  /** Whole-value patches rebuild the new value on any state. */
  lemma WholeValue(root: Json, after: Json, op: Op)
    requires op.Add? || op.Replace?
    ensures ApplyAll(root, [Patch(op, "", Some(after))]) == Ok(after)
  {
    var ps := [Patch(op, "", Some(after))];
    assert ps[..0] == [];
  }
}
