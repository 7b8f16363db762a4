/** The patch applier: the add/remove/replace subset of RFC 6902 sections 4.1 to 4.3. */
module Patches {
  import opened Wrappers
  import opened Json
  import opened Pointer

  datatype Op = Add | Replace | Remove | OtherOp(name: string)

  /** A patch as it is stored in the journal: the path is still a JSON Pointer string. */
  datatype Patch = Patch(op: Op, path: string, value: Option<Json>)

  /** A patch whose path has been split into segments. */
  datatype Edit = Edit(op: Op, segs: seq<string>, value: Option<Json>)

  datatype PatchError =
    | BadPointer
    | UnsupportedOp
    | MissingValue
    | RootRemove
    | NotContainer
    | BadIndex
    | DashNotAllowed
    | OutOfBounds
    | MissingKey

  type Applied = Result<Json, PatchError>

  /** The patch at its target: `parent` is the container, `last` the final segment. */
  function ApplyLeaf(parent: Json, last: string, op: Op, value: Option<Json>): Applied
    requires parent.Container()
    requires op.Add? || op.Replace? || op.Remove?
    requires op.Remove? || value.Some?
  {
    match parent
    case Arr(xs) =>
      var dash := last == "-";
      var parsed := ParseIndex(last);
      if !dash && parsed.None? then Err(BadIndex)
      else
        var idx := if dash then |xs| else parsed.value;
        if op.Add? then
          if !dash && idx > |xs| then Err(OutOfBounds)
          else Ok(Arr(xs[..idx] + [value.value] + xs[idx..]))
        else if dash then Err(DashNotAllowed)
        else if idx >= |xs| then Err(OutOfBounds)
        else if op.Replace? then Ok(Arr(xs[idx := value.value]))
        else Ok(Arr(xs[..idx] + xs[idx + 1..]))
    case Obj(m) =>
      if op.Add? then Ok(Obj(m[last := value.value]))
      else if last !in m then Err(MissingKey)
      else if op.Replace? then Ok(Obj(m[last := value.value]))
      else Ok(Obj(m - {last}))
  }

  /** Walks to the parent one own property or index at a time, then rebuilds the spine. */
  function ApplyAt(v: Json, segs: seq<string>, op: Op, value: Option<Json>): Applied
    requires segs != []
    requires op.Add? || op.Replace? || op.Remove?
    requires op.Remove? || value.Some?
  {
    if !v.Container() then Err(NotContainer)
    else if |segs| == 1 then ApplyLeaf(v, segs[0], op, value)
    else
      match v
      case Arr(xs) =>
        var idx := ParseIndex(segs[0]);
        if idx.None? || idx.value >= |xs| then Err(NotContainer)
        else
          (match ApplyAt(xs[idx.value], segs[1..], op, value)
           case Ok(child) => Ok(Arr(xs[idx.value := child]))
           case Err(e) => Err(e))
      case Obj(m) =>
        if segs[0] !in m then Err(NotContainer)
        else
          (match ApplyAt(m[segs[0]], segs[1..], op, value)
           case Ok(child) => Ok(Obj(m[segs[0] := child]))
           case Err(e) => Err(e))
  }

  function ApplyEdit(root: Json, e: Edit): Applied {
    if e.op.OtherOp? then Err(UnsupportedOp)
    else if !e.op.Remove? && e.value.None? then Err(MissingValue)
    else if e.segs == [] then
      if e.op.Remove? then Err(RootRemove) else Ok(e.value.value)
    else ApplyAt(root, e.segs, e.op, e.value)
  }

  function ApplyOne(root: Json, p: Patch): Applied {
    match PointerToSegments(p.path)
    case None => Err(BadPointer)
    case Some(segs) => ApplyEdit(root, Edit(p.op, segs, p.value))
  }

  /** All patches in order; the first failure is the result. */
  function ApplyAll(state: Json, patches: seq<Patch>): Applied {
    if patches == [] then Ok(state)
    else
      match ApplyAll(state, patches[..|patches| - 1])
      case Err(e) => Err(e)
      case Ok(s) => ApplyOne(s, patches[|patches| - 1])
  }

  method DefaultApplyPatch(state: Json, patches: seq<Patch>) returns (r: Applied)
    ensures r == ApplyAll(state, patches)
  {
    var current := state;
    for i := 0 to |patches|
      invariant ApplyAll(state, patches[..i]) == Ok(current)
    {
      assert patches[..i + 1][..i] == patches[..i];
      var next := ApplyOne(current, patches[i]);
      if next.Err? {
        ApplyAllStopsAtError(state, patches, i + 1);
        return next;
      }
      current := next.value;
    }
    assert patches[..|patches|] == patches;
    return Ok(current);
  }

  lemma {:induction false} ApplyAllStopsAtError(state: Json, patches: seq<Patch>, n: nat)
    requires n <= |patches| && ApplyAll(state, patches[..n]).Err?
    ensures ApplyAll(state, patches) == ApplyAll(state, patches[..n])
    decreases |patches|
  {
    if n == |patches| {
      assert patches[..n] == patches;
    } else {
      assert patches[..|patches| - 1][..n] == patches[..n];
      ApplyAllStopsAtError(state, patches[..|patches| - 1], n);
    }
  }

  // ---- reference semantics --------------------------------------------

  /** The value a list of segments points at. */
  function Get(v: Json, segs: seq<string>): Option<Json> {
    if segs == [] then Some(v)
    else
      match v
      case Arr(xs) =>
        var idx := ParseIndex(segs[0]);
        if idx.Some? && idx.value < |xs| then Get(xs[idx.value], segs[1..]) else None
      case Obj(m) => if segs[0] in m then Get(m[segs[0]], segs[1..]) else None
      case _ => None
  }

  /** RFC 6902: the parent of the target exists and is a container, and the target suits the operation. */
  predicate Applicable(root: Json, e: Edit) {
    && !e.op.OtherOp?
    && (e.op.Remove? || e.value.Some?)
    && (e.segs == [] ==> !e.op.Remove?)
    && (e.segs != [] ==>
      var last := e.segs[|e.segs| - 1];
      match Get(root, e.segs[..|e.segs| - 1])
      case Some(Arr(xs)) =>
        if e.op.Add? then last == "-" || (ParseIndex(last).Some? && ParseIndex(last).value <= |xs|)
        else ParseIndex(last).Some? && ParseIndex(last).value < |xs|
      case Some(Obj(m)) => e.op.Add? || last in m
      case _ => false)
  }

  /** A patch is rejected exactly when RFC 6902 makes it an error. */
  lemma {:induction false} ApplyOkIffApplicable(root: Json, e: Edit)
    ensures ApplyEdit(root, e).Ok? <==> Applicable(root, e)
    decreases |e.segs|
  {
    if e.segs != [] && !e.op.OtherOp? && (e.op.Remove? || e.value.Some?) {
      assert ParseIndex("-").None? by { assert "-"[0] in "-" && !Digit("-"[0]); }
      if |e.segs| == 1 {
        assert e.segs[..|e.segs| - 1] == [];
      } else {
        var rest := e.segs[1..];
        assert e.segs[..|e.segs| - 1][1..] == rest[..|rest| - 1];
        if root.Arr? && ParseIndex(e.segs[0]).Some? && ParseIndex(e.segs[0]).value < |root.items| {
          ApplyOkIffApplicable(root.items[ParseIndex(e.segs[0]).value], e.(segs := rest));
        } else if root.Obj? && e.segs[0] in root.fields {
          ApplyOkIffApplicable(root.fields[e.segs[0]], e.(segs := rest));
        }
      }
    }
  }

  /**
   RFC 6902 on arrays: `add` inserts before the index (`-` is the end), `remove` closes the gap, `replace` keeps the
   rest.
   */
  predicate ArrayEdited(xs: seq<Json>, last: string, op: Op, value: Option<Json>, ys: seq<Json>) {
    var i := if last == "-" then |xs| else if ParseIndex(last).Some? then ParseIndex(last).value else 0;
    match op
    case Add => i < |ys| == |xs| + 1 && Some(ys[i]) == value && ys[..i] == xs[..i] && ys[i + 1..] == xs[i..]
    case Remove => i < |xs| == |ys| + 1 && ys[..i] == xs[..i] && ys[i..] == xs[i + 1..]
    case Replace => i < |xs| == |ys| && Some(ys[i]) == value && ys[..i] == xs[..i] && ys[i + 1..] == xs[i + 1..]
    case OtherOp(_) => false
  }

  /** The container a patch acts on: an array is shifted, and of an object no other property changes. */
  predicate Edited(before: Json, after: Json, last: string, op: Op, value: Option<Json>) {
    match (before, after)
    case (Arr(xs), Arr(ys)) => ArrayEdited(xs, last, op, value, ys)
    case (Obj(m), Obj(m')) =>
      m' - {last} == m - {last} && if op.Remove? then last !in m' else last in m' && Some(m'[last]) == value
    case _ => false
  }

  lemma LeafEdited(root: Json, e: Edit)
    requires |e.segs| == 1 && ApplyEdit(root, e).Ok?
    ensures Edited(root, ApplyEdit(root, e).value, e.segs[0], e.op, e.value)
    ensures !e.op.Remove? && e.segs[0] != "-" ==> Get(ApplyEdit(root, e).value, e.segs) == e.value
  {
    assert e.segs[1..] == [];
    assert ParseIndex("-").None? by { assert "-"[0] in "-" && !Digit("-"[0]); }
  }

  /**
   After a successful add or replace the target reads back as the value, and the container it is in is edited as RFC
   6902 says, a removal included.
   */
  lemma {:induction false} ApplyReadsBack(root: Json, e: Edit)
    requires ApplyEdit(root, e).Ok?
    ensures e.op.Replace? || (e.op.Add? && (e.segs == [] || e.segs[|e.segs| - 1] != "-")) ==>
      Get(ApplyEdit(root, e).value, e.segs) == e.value
    ensures e.segs != [] ==>
      var last, parent := e.segs[|e.segs| - 1], e.segs[..|e.segs| - 1];
      var before, after := Get(root, parent), Get(ApplyEdit(root, e).value, parent);
      before.Some? && after.Some? && Edited(before.value, after.value, last, e.op, e.value)
    decreases |e.segs|
  {
    hide Edited, ApplyLeaf;
    ApplyOkIffApplicable(root, e);
    if |e.segs| == 1 {
      LeafEdited(root, e);
      assert e.segs[..|e.segs| - 1] == [];
      if e.op.Replace? && e.segs[0] == "-" { NoLeafWithoutIndex(root, e); }
    } else if |e.segs| > 1 {
      var rest := e.segs[1..];
      assert e.segs[..|e.segs| - 1][1..] == rest[..|rest| - 1];
      if root.Arr? {
        ApplyReadsBack(root.items[ParseIndex(e.segs[0]).value], e.(segs := rest));
      } else {
        ApplyReadsBack(root.fields[e.segs[0]], e.(segs := rest));
      }
    }
  }

  /** `-` names no element: only an add can use it. */
  lemma NoLeafWithoutIndex(root: Json, e: Edit)
    requires |e.segs| == 1 && ApplyEdit(root, e).Ok? && e.op.Replace? && e.segs[0] == "-"
    ensures root.Obj? && Get(ApplyEdit(root, e).value, e.segs) == e.value
  {
    assert e.segs[1..] == [];
  }

  // ---- edit lists and framing -----------------------------------------

  function ApplyEdits(state: Json, d: seq<Edit>): Applied {
    if d == [] then Ok(state)
    else
      match ApplyEdits(state, d[..|d| - 1])
      case Err(e) => Err(e)
      case Ok(s) => ApplyEdit(s, d[|d| - 1])
  }

  function ToPatch(e: Edit): Patch { Patch(e.op, SegmentsToPointer(e.segs), e.value) }

  function ToPatches(d: seq<Edit>): seq<Patch> {
    seq(|d|, i requires 0 <= i < |d| => ToPatch(d[i]))
  }

  /** The same edit, for a tree in which the value sits under `prefix`. */
  function Prefixed(prefix: seq<string>, e: Edit): Edit { e.(segs := prefix + e.segs) }

  function Under(prefix: seq<string>, d: seq<Edit>): seq<Edit> {
    seq(|d|, i requires 0 <= i < |d| => Prefixed(prefix, d[i]))
  }

  /** Printing the paths and parsing them again does not change what a list of edits does. */
  lemma {:induction false} ApplyPrinted(state: Json, d: seq<Edit>)
    ensures ApplyAll(state, ToPatches(d)) == ApplyEdits(state, d)
  {
    if d != [] {
      var n := |d| - 1;
      assert ToPatches(d)[..n] == ToPatches(d[..n]);
      ApplyPrinted(state, d[..n]);
      PointerRoundTrip(d[n].segs);
      assert Edit(d[n].op, d[n].segs, d[n].value) == d[n];
    }
  }

  lemma {:induction false} ApplyEditsConcat(state: Json, d1: seq<Edit>, d2: seq<Edit>)
    requires ApplyEdits(state, d1).Ok?
    ensures ApplyEdits(state, d1 + d2) == ApplyEdits(ApplyEdits(state, d1).value, d2)
  {
    if d2 == [] {
      assert d1 + d2 == d1;
    } else {
      var n := |d2| - 1;
      ApplyEditsConcat(state, d1, d2[..n]);
      assert (d1 + d2)[..|d1 + d2| - 1] == d1 + d2[..n];
    }
  }

  /** The only whole-value operation that means the same at the root and under a key is `replace`. */
  predicate Framable(d: seq<Edit>) {
    forall e <- d :: e.segs == [] ==> e.op.Replace?
  }

  lemma FrameElement(xs: seq<Json>, i: nat, e: Edit)
    requires i < |xs| && ApplyEdit(xs[i], e).Ok? && (e.segs == [] ==> e.op.Replace?)
    ensures ApplyEdit(Arr(xs), Prefixed([PrintIndex(i)], e)) == Ok(Arr(xs[i := ApplyEdit(xs[i], e).value]))
  {
    ParsePrintIndex(i);
    NotDash(i);
    assert Prefixed([PrintIndex(i)], e).segs[1..] == e.segs;
  }

  /** Edits of an element, printed under its index, act on that element and on nothing else in the array. */
  lemma {:induction false} FrameArr(xs: seq<Json>, i: nat, d: seq<Edit>)
    requires i < |xs| && Framable(d) && ApplyEdits(xs[i], d).Ok?
    ensures ApplyEdits(Arr(xs), Under([PrintIndex(i)], d)) == Ok(Arr(xs[i := ApplyEdits(xs[i], d).value]))
  {
    hide ApplyEdit;
    if d == [] {
      assert xs[i := xs[i]] == xs;
    } else {
      var n, key := |d| - 1, PrintIndex(i);
      FrameArr(xs, i, d[..n]);
      assert Under([key], d)[..n] == Under([key], d[..n]);
      assert d[n] in d;
      var ys := xs[i := ApplyEdits(xs[i], d[..n]).value];
      FrameElement(ys, i, d[n]);
      assert ys[i := ApplyEdits(xs[i], d).value] == xs[i := ApplyEdits(xs[i], d).value];
    }
  }

  lemma NotDash(i: nat)
    ensures PrintIndex(i) != "-"
  {
    assert PrintIndex(i)[0] in PrintIndex(i) && !Digit('-');
  }

  /** Edits of a property, printed under its key, act on that property and on nothing else in the object. */
  lemma {:induction false} FrameObj(m: map<string, Json>, k: string, d: seq<Edit>)
    requires k in m && Framable(d) && ApplyEdits(m[k], d).Ok?
    ensures ApplyEdits(Obj(m), Under([k], d)) == Ok(Obj(m[k := ApplyEdits(m[k], d).value]))
  {
    if d == [] {
      assert m[k := m[k]] == m;
    } else {
      var n := |d| - 1;
      FrameObj(m, k, d[..n]);
      assert Under([k], d)[..n] == Under([k], d[..n]);
      var e := d[n];
      assert e in d;
      assert Prefixed([k], e).segs[1..] == e.segs;
      var mid := ApplyEdits(m[k], d[..n]).value;
      var after := ApplyEdit(mid, e).value;
      assert m[k := mid][k := after] == m[k := after];
    }
  }
}
