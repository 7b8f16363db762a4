/** Redaction of a state before it is journalled: dotted paths with `*` globs, and user redactors that may throw. */
module Redaction {
  import opened Wrappers
  import opened Json
  import opened Pointer
  import opened Patches

  /** (value, resolved path, contract name) to the replacement; None when the redactor throws. */
  type Redactor = (Json, seq<string>, string) -> Option<Json>

  datatype Redaction = Redaction(path: string, redact: Redactor)

  const REDACTION_ERROR_SENTINEL := "[REDACTION_ERROR]"

  function ParseDottedPath(path: string): seq<string> {
    if path == "" then [] else Split(path, '.')
  }

  function Replacement(redact: Redactor, value: Json, path: seq<string>, name: string): Json {
    match redact(value, path, name)
    case Some(v) => v
    case None => Str(REDACTION_ERROR_SENTINEL)
  }

  predicate Matches(glob: string, key: string) { glob == "*" || glob == key }

  /** `walkAndRedact` on a value: every own key or index that the first glob selects is redacted or walked into. */
  function Walk(v: Json, globs: seq<string>, redact: Redactor, resolved: seq<string>, name: string): Json
    requires globs != []
    decreases |globs|, 1
  {
    match v
    case Obj(m) =>
      Obj(map k | k in m :: if Matches(globs[0], k) then Visit(m[k], globs, redact, resolved + [k], name) else m[k])
    case Arr(xs) =>
      Arr(seq(|xs|, i requires 0 <= i < |xs| =>
        if Matches(globs[0], PrintIndex(i)) then Visit(xs[i], globs, redact, resolved + [PrintIndex(i)], name)
        else xs[i]))
    case _ => v
  }

  function Visit(v: Json, globs: seq<string>, redact: Redactor, path: seq<string>, name: string): Json
    requires globs != []
    decreases |globs|, 0
  {
    if |globs| == 1 then Replacement(redact, v, path, name)
    else Walk(v, globs[1..], redact, path, name)
  }

  function ApplyRedactions(state: Json, redactions: seq<Redaction>, name: string): Json {
    if redactions == [] then state
    else
      var done := ApplyRedactions(state, redactions[..|redactions| - 1], name);
      var r := redactions[|redactions| - 1];
      var globs := ParseDottedPath(r.path);
      if globs == [] then done else Walk(done, globs, r.redact, [], name)
  }

  // ---- what redaction touches -----------------------------------------

  /** Array positions are written the way `String(i)` writes them. */
  predicate Canonical(path: seq<string>) {
    forall s <- path :: ParseIndex(s).Some? ==> s == PrintIndex(ParseIndex(s).value)
  }

  /** Neither path leads to, or through, a place the globs select. */
  predicate Disjoint(globs: seq<string>, path: seq<string>) {
    exists i :: 0 <= i < |globs| && i < |path| && !Matches(globs[i], path[i])
  }

  predicate Selected(globs: seq<string>, path: seq<string>) {
    |globs| == |path| && forall i | 0 <= i < |globs| :: Matches(globs[i], path[i])
  }

  /** A location that no glob leads to is left exactly as it was. */
  lemma {:induction false} WalkKeepsOthers(v: Json, globs: seq<string>, redact: Redactor, resolved: seq<string>,
                                           name: string, path: seq<string>)
    requires globs != [] && Canonical(path) && Disjoint(globs, path)
    ensures Get(Walk(v, globs, redact, resolved, name), path) == Get(v, path)
    decreases |globs|
  {
    var key := path[0];
    assert key in path;
    if Matches(globs[0], key) {
      var i :| 0 <= i < |globs| && i < |path| && !Matches(globs[i], path[i]);
      assert globs[i] == globs[1..][i - 1] && path[i] == path[1..][i - 1];
      assert Canonical(path[1..]);
      match v
      case Obj(m) =>
        if key in m {
          WalkKeepsOthers(m[key], globs[1..], redact, resolved + [key], name, path[1..]);
        }
      case Arr(xs) =>
        if ParseIndex(key).Some? && ParseIndex(key).value < |xs| {
          WalkKeepsOthers(xs[ParseIndex(key).value], globs[1..], redact, resolved + [key], name, path[1..]);
        }
      case _ =>
    }
  }

  /** A location the globs select holds what the redactor returned for it, or the sentinel if it threw. */
  lemma {:induction false} WalkRedactsSelected(v: Json, globs: seq<string>, redact: Redactor, resolved: seq<string>,
                                               name: string, path: seq<string>)
    requires globs != [] && Canonical(path) && Selected(globs, path) && Get(v, path).Some?
    ensures Get(Walk(v, globs, redact, resolved, name), path)
         == Some(Replacement(redact, Get(v, path).value, resolved + path, name))
    decreases |globs|
  {
    var key := path[0];
    assert key in path && Matches(globs[0], key);
    if |globs| == 1 {
      assert path[1..] == [] && resolved + path == resolved + [key];
    } else {
      assert forall i | 0 <= i < |globs| - 1 :: globs[1..][i] == globs[i + 1] && path[1..][i] == path[i + 1];
      assert resolved + [key] + path[1..] == resolved + path;
      assert Canonical(path[1..]) && Selected(globs[1..], path[1..]);
      if v.Obj? {
        WalkRedactsSelected(v.fields[key], globs[1..], redact, resolved + [key], name, path[1..]);
      } else {
        WalkRedactsSelected(v.items[ParseIndex(key).value], globs[1..], redact, resolved + [key], name, path[1..]);
      }
    }
  }

  /** A whole list of redactions leaves alone every location that none of them selects. */
  lemma {:induction false} RedactionsKeepOthers(state: Json, redactions: seq<Redaction>, name: string,
                                                path: seq<string>)
    requires Canonical(path)
    requires forall r <- redactions :: ParseDottedPath(r.path) == [] || Disjoint(ParseDottedPath(r.path), path)
    ensures Get(ApplyRedactions(state, redactions, name), path) == Get(state, path)
  {
    if redactions != [] {
      var n := |redactions| - 1;
      var r := redactions[n];
      assert r in redactions;
      RedactionsKeepOthers(state, redactions[..n], name, path);
      if ParseDottedPath(r.path) != [] {
        WalkKeepsOthers(ApplyRedactions(state, redactions[..n], name), ParseDottedPath(r.path), r.redact, [], name,
            path);
      }
    }
  }

  /**
   Joining segments without a dot and parsing the path gives them back; only a lone empty one reads as no path at all.
   */
  lemma ParseJoined(segments: seq<string>)
    requires segments != [] && forall s <- segments :: '.' !in s
    ensures ParseDottedPath(Join(segments, '.')) == if segments == [""] then [] else segments
    ensures ParseDottedPath("") == []
  {
    SplitJoin(segments, '.');
  }

  /** And every path is the join of what it parses to. */
  lemma JoinParsed(path: string)
    ensures if path == "" then ParseDottedPath(path) == []
            else ParseDottedPath(path) != [] && Join(ParseDottedPath(path), '.') == path
  {
    JoinSplit(path, '.');
  }

  /** The directive leads to exactly this place. */
  predicate Directs(r: Redaction, path: seq<string>) {
    ParseDottedPath(r.path) != [] && Selected(ParseDottedPath(r.path), path)
  }

  /** The directive does not touch this place, nor anything on the way to it or below it. */
  predicate Spares(r: Redaction, path: seq<string>) {
    ParseDottedPath(r.path) == [] || Disjoint(ParseDottedPath(r.path), path)
  }

  lemma LastRedaction(state: Json, redactions: seq<Redaction>, name: string)
    requires redactions != []
    ensures var n := |redactions| - 1;
      var done, globs := ApplyRedactions(state, redactions[..n], name), ParseDottedPath(redactions[n].path);
      ApplyRedactions(state, redactions, name) ==
      if globs == [] then done else Walk(done, globs, redactions[n].redact, [], name)
  {
    hide Walk;
  }

  /**
   In a list of directives the last that leads to a place decides what stands there: the answer of its redactor to what
   the directives before it left, or the sentinel if it throws.
   */
  lemma {:induction false} RedactionsRedactSelected(state: Json, redactions: seq<Redaction>, name: string, i: nat,
                                                    path: seq<string>)
    requires i < |redactions| && Canonical(path) && Directs(redactions[i], path)
    requires forall j | i < j < |redactions| :: Spares(redactions[j], path)
    requires Get(ApplyRedactions(state, redactions[..i], name), path).Some?
    ensures var found := Get(ApplyRedactions(state, redactions[..i], name), path).value;
      var answer := redactions[i].redact(found, path, name);
      Get(ApplyRedactions(state, redactions, name), path) ==
      Some(if answer.Some? then answer.value else Str(REDACTION_ERROR_SENTINEL))
    decreases |redactions|
  {
    hide ApplyRedactions, Walk, Get, Disjoint, Selected, ParseDottedPath, Canonical;
    var n := |redactions| - 1;
    var before, globs := redactions[..n], ParseDottedPath(redactions[n].path);
    LastRedaction(state, redactions, name);
    var done := ApplyRedactions(state, before, name);
    if i == n {
      WalkRedactsSelected(done, globs, redactions[n].redact, [], name, path);
      assert [] + path == path;
    } else {
      assert before[..i] == redactions[..i];
      RedactionsRedactSelected(state, before, name, i, path);
      if globs != [] { WalkKeepsOthers(done, globs, redactions[n].redact, [], name, path); }
    }
  }

  /** A directive on a place that nothing before it touches answers to the value of the state itself. */
  lemma FirstRedactionSelected(state: Json, redactions: seq<Redaction>, name: string, i: nat, path: seq<string>)
    requires i < |redactions| && Canonical(path) && Directs(redactions[i], path) && Get(state, path).Some?
    requires forall j | 0 <= j < |redactions| && j != i :: Spares(redactions[j], path)
    ensures var answer := redactions[i].redact(Get(state, path).value, path, name);
      Get(ApplyRedactions(state, redactions, name), path) ==
      Some(if answer.Some? then answer.value else Str(REDACTION_ERROR_SENTINEL))
  {
    forall r | r in redactions[..i] ensures Spares(r, path) {
      var j :| 0 <= j < i && redactions[..i][j] == r;
    }
    RedactionsKeepOthers(state, redactions[..i], name, path);
    RedactionsRedactSelected(state, redactions, name, i, path);
  }
}
