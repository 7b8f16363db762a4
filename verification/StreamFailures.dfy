/** What the reader of `eventsAfter` makes of responses that are not what was asked for. */
module StreamFailures {
  import opened Wrappers
  import opened EventStream

  // ---- an element that must not be there ------------------------------------------------------

  /** The event is not the one the request asked to start with: another height, or another hash where one is known. */
  predicate WrongStart(r: Reader, e: Event) {
    e.height != r.sinceHeight || (r.sinceHash.Some? && r.sinceHash.value != e.hash)
  }

  /** Element `k` of the response cannot be accepted: it does not decode, is one too many, or is a wrong first event. */
  predicate Unacceptable(cfg: Config, r: Reader, tokens: seq<string>, k: nat)
    requires k < |tokens|
  {
    || cfg.parse(tokens[k]).None?
    || r.requestLimit == Some(r.count + k)
    || (r.count + k == 0 && WrongStart(r, cfg.parse(tokens[k]).value))
  }

  /** A reader that has such an element in its buffer stops there. */
  lemma StopsThere(cfg: Config, r: Reader, a: string, y: string, rest: seq<string>, tokens: seq<string>)
    requires r.phase.Events? && FirstDelim(r.buffer) < |r.buffer| && tokens != []
    requires Elements(a, tokens) && Partway(r.buffer, r.chunks, a, y, rest) && Unacceptable(cfg, r, tokens, 0)
    ensures Collect(cfg, r) == ([], Failed)
  {
    hide Elements, Partway, Trim, FirstDelim, AfterDelim;
    BufferedElement(r, a, y, rest, tokens);
    CollectStep(cfg, r);
  }

  /**
   An array with an element that cannot be accepted: the events before it are delivered, and the stream fails. So it
   does at once when the first event has not the height asked for, or not the hash. Nothing after the element matters,
   nor does how the response is cut.
   */
  lemma RejectedElement(cfg: Config, r: Reader, arr: string, trailing: string, tokens: seq<string>, k: nat)
    requires r.phase.ReadNewResponse? && r.buffer == "" && Flatten(r.chunks) == arr + trailing && IsArray(arr, tokens)
    requires k < |tokens| && Answers(cfg, r, tokens[..k]) && Unacceptable(cfg, r, tokens, k)
    ensures Collect(cfg, r) == (Decoded(cfg, tokens[..k]), Failed)
  {
    hide Collect, Elements, Trim, FirstDelim, Partway;
    assert arr != "" by { assert TrimStart("") == ""; }
    var y, rest := CutAt(r.chunks, arr, trailing);
    var r1, a1, y1 := OpenArray(cfg, r, arr, y, rest, tokens);
    var r2, a2, y2 := Consume(cfg, r1, a1, y1, rest, tokens, k);
    assert tokens[k..][0] == tokens[k];
    StopsThere(cfg, r2, a2, y2, rest, tokens[k..]);
    assert Decoded(cfg, tokens[..k]) + [] == Decoded(cfg, tokens[..k]);
  }

  /** The first case on its own: a response that starts elsewhere gives nothing but the error. */
  lemma WrongStartFails(cfg: Config, r: Reader, arr: string, trailing: string, tokens: seq<string>, e: Event)
    requires r.phase.ReadNewResponse? && r.buffer == "" && r.count == 0 && r.requestCount > 0
    requires r.requestLimit.Some? ==> r.requestLimit.value >= 0
    requires Flatten(r.chunks) == arr + trailing && IsArray(arr, tokens) && tokens != []
    requires cfg.parse(tokens[0]) == Some(e)
    requires e.height != r.sinceHeight || (r.sinceHash.Some? && e.hash != r.sinceHash.value)
    ensures Collect(cfg, r) == ([], Failed)
  {
    hide Collect, IsArray;
    RejectedElement(cfg, r, arr, trailing, tokens, 0);
  }

  /** A request asks for no more than the limit of the call, or the default one, and than what is left of it. */
  lemma FetchAsks(cfg: Config, r: Reader)
    requires r.phase.Fetch? && r.responses != [] && r.responses[0].Body?
    ensures var r' := StepOf(cfg, r).next;
      && StepOf(cfg, r) == Move(r', []) && r'.phase.ReadNewResponse? && r'.count == 0
      && r' == r.(phase := r'.phase, count := r'.count, requestCount := r.requestCount + 1,
          requestLimit := r'.requestLimit,
                  latestHeight := r.responses[0].latestHeight, chunks := r.responses[0].chunks,
                  responses := r.responses[1..])
      && var limit := if cfg.limit.Some? then cfg.limit else cfg.maxEvents;
         && (r'.requestLimit.Some? <==> limit.Some? || r.remaining.Some?)
         && (r'.requestLimit.Some? ==>
               && (limit.Some? ==> r'.requestLimit.value <= limit.value)
               && (r.remaining.Some? ==> r'.requestLimit.value <= r.remaining.value)
               && (r'.requestLimit == limit || r'.requestLimit == r.remaining))
  {
  }

  /**
   A stream whose first response starts at another height than asked for, or with another hash, is an error at once.
   */
  lemma WrongStreamFails(cfg: Config, sinceHeight: nat, sinceHash: Option<string>, response: Response,
                         more: seq<Response>, arr: string, trailing: string, tokens: seq<string>, e: Event)
    requires response.Body? && Flatten(response.chunks) == arr + trailing && IsArray(arr, tokens) && tokens != []
    requires cfg.parse(tokens[0]) == Some(e)
    requires e.height != sinceHeight || (sinceHash.Some? && e.hash != sinceHash.value)
    ensures Collect(cfg, Start(cfg, sinceHeight, sinceHash, [response] + more)) == ([], Failed)
  {
    hide Collect, IsArray;
    var start := Start(cfg, sinceHeight, sinceHash, [response] + more);
    FetchAsks(cfg, start);
    var r := StepOf(cfg, start).next;
    StepTo(cfg, start, r);
    WrongStartFails(cfg, r, arr, trailing, tokens, e);
  }

  // ---- responses that are no array ---------------------------------------------------------------

  /** A refused request, or none to answer, fails. */
  lemma RefusedFails(cfg: Config, r: Reader)
    requires r.phase.Fetch? && (r.responses == [] || r.responses[0].Refused?)
    ensures Collect(cfg, r) == ([], Failed)
  {
    CollectStep(cfg, r);
  }

  /** So a response that leaves events to be had, and is followed by a refusal, gives its events and then the error. */
  lemma RefusedAfterPage(cfg: Config, r: Reader, arr: string, tokens: seq<string>)
    requires r.phase.ReadNewResponse? && r.buffer == "" && tokens != []
    requires WellFormed(Flatten(r.chunks), arr, tokens) && Answers(cfg, r, tokens)
    requires !UpToDate(AfterArray(cfg, r, tokens))
    requires r.responses == [] || r.responses[0].Refused?
    ensures Collect(cfg, r) == (Decoded(cfg, tokens), Failed)
  {
    hide Collect, WellFormed;
    WellFormedDelivered(cfg, r, arr, tokens);
    var after := AfterArray(cfg, r, tokens);
    StepTo(cfg, after, after.(phase := Fetch));
    RefusedFails(cfg, after.(phase := Fetch));
    assert Decoded(cfg, tokens) + [] == Decoded(cfg, tokens);
  }

  /** A response of white space only ends the stream, with an error unless there is nothing to be had. */
  lemma {:induction false} BlankResponse(cfg: Config, r: Reader)
    requires r.phase.ReadNewResponse? && r.buffer == "" && AllWs(Flatten(r.chunks))
    ensures Collect(cfg, r) == ([], if UpToDate(r) then Closed else Failed)
    decreases |r.chunks|
  {
    hide Trim, Collect, AllWs;
    CollectStep(cfg, r);
    if r.chunks != [] {
      AllWsParts(r.chunks[0], Flatten(r.chunks[1..]));
      TrimWs(r.chunks[0]);
      assert r.buffer + "" == "";
      BlankResponse(cfg, r.(chunks := r.chunks[1..]));
      assert [] + Collect(cfg, r.(chunks := r.chunks[1..])).0 == [];
    }
  }

  /** A response that starts with anything but a bracket fails. */
  lemma {:induction false} NoBracketFails(cfg: Config, r: Reader, w: string, text: string)
    requires r.phase.ReadNewResponse? && r.buffer == "" && Flatten(r.chunks) == w + text
    requires AllWs(w) && text != "" && !IsWs(text[0]) && text[0] != '['
    ensures Collect(cfg, r) == ([], Failed)
    decreases |r.chunks|
  {
    hide Collect, IsWs;
    var c, rest := r.chunks[0], r.chunks[1..];
    var all := w + text;
    assert c == all[..|c|] && Flatten(rest) == all[|c|..];
    CollectStep(cfg, r);
    if |c| <= |w| {
      assert c == w[..|c|] && Flatten(rest) == w[|c|..] + text;
      TrimWs(c);
      assert r.buffer + Trim(c) == "";
      NoBracketFails(cfg, r.(chunks := rest), w[|c|..], text);
      assert [] + Collect(cfg, r.(chunks := rest)).0 == [];
    } else {
      assert c == w + text[..|c| - |w|];
      TrimStartAdds(w, text[..|c| - |w|]);
      var w1, w2 := TrimSplit(c);
      assert TrimStart(c)[0] == text[0];
      assert Trim(c) != "" by { TrimWs(c); assert c[|w|] == text[0]; }
      assert Trim(c)[0] == text[0] by { var u := TrimEndSplit(TrimStart(c)); }
      assert r.buffer + Trim(c) == Trim(c);
    }
  }

  // ---- an array that is cut off --------------------------------------------------------------------

  function Commas(s: string): nat {
    if s == "" then 0 else Commas(s[..|s| - 1]) + if s[|s| - 1] == ',' then 1 else 0
  }

  /** Nothing but white space follows the last comma, or the start where there is none. */
  predicate BlankEnd(s: string) {
    s == "" || s[|s| - 1] == ',' || (IsWs(s[|s| - 1]) && BlankEnd(s[..|s| - 1]))
  }

  lemma {:induction false} WsDropped(x: string, w: string, y: string)
    requires AllWs(w)
    ensures Commas(x + w + y) == Commas(x + y) && (BlankEnd(x + w + y) <==> BlankEnd(x + y))
    decreases |y|, |w|
  {
    hide IsWs;
    if y != "" {
      var n := |y| - 1;
      assert (x + w + y)[..|x + w + y| - 1] == x + w + y[..n] && (x + y)[..|x + y| - 1] == x + y[..n];
      WsDropped(x, w, y[..n]);
    } else if w != "" {
      var n := |w| - 1;
      assert x + w + y == x + w && x + y == x && (x + w)[..|x + w| - 1] == x + w[..n];
      assert x + w[..n] + y == x + w[..n];
      CommaIsNotWs();
      WsDropped(x, w[..n], y);
    } else {
      assert x + w + y == x + y;
    }
  }

  lemma CommaIsNotWs()
    ensures !IsWs(',')
  {
  }

  lemma {:induction false} NoCommas(s: string)
    requires NoDelim(s)
    ensures Commas(s) == 0 && (BlankEnd(s) <==> AllWs(s))
  {
    hide IsWs;
    if s != "" {
      NoCommas(s[..|s| - 1]);
      assert s == s[..|s| - 1] + [s[|s| - 1]];
    }
  }

  lemma {:induction false} CommaPassed(head: string, tail: string)
    requires NoDelim(head)
    ensures Commas(head + "," + tail) == 1 + Commas(tail) && (BlankEnd(head + "," + tail) <==> BlankEnd(tail))
    decreases |tail|
  {
    hide IsWs;
    if tail != "" {
      var n := |tail| - 1;
      var s := head + "," + tail;
      assert s[..|s| - 1] == head + "," + tail[..n];
      CommaPassed(head, tail[..n]);
    } else {
      var s := head + ",";
      assert head + "," + tail == s && s[..|s| - 1] == head;
      NoCommas(head);
    }
  }

  /** Buffer and chunks are the start of the elements `a`, and not all of them. */
  predicate CutOff(r: Reader, a: string) { r.buffer + Flatten(r.chunks) < a }

  /** The buffer never ends in white space. */
  predicate Solid(s: string) { s == "" || !IsWs(s[|s| - 1]) }

  lemma TrimStartSolid(s: string)
    requires Solid(s)
    ensures Solid(TrimStart(s))
  {
    var w := TrimStartSplit(s);
  }

  /**
   How far a reader gets in what it will have of the elements: the complete ones are delivered, and the rest stays.
   */
  lemma {:induction false} ReadsUpTo(cfg: Config, r: Reader, a: string, tokens: seq<string>)
    returns (k: nat, left: string)
    requires r.phase.Events? || (r.phase.Read? && FirstDelim(r.buffer) == |r.buffer|)
    requires Elements(a, tokens) && CutOff(r, a) && Solid(r.buffer)
    requires Commas(r.buffer + Flatten(r.chunks)) <= |tokens|
    requires Answers(cfg, r, tokens[..Commas(r.buffer + Flatten(r.chunks))])
    ensures k == Commas(r.buffer + Flatten(r.chunks)) && (left == "" <==> BlankEnd(r.buffer + Flatten(r.chunks)))
    ensures Delivers(cfg, r, tokens[..k], Advanced(cfg, r, tokens, k).(phase := Read, buffer := left, chunks := []))
    decreases |r.chunks|, |r.buffer|, Rank(r.phase)
  {
    hide Elements, Trim, FirstDelim, TrimStart, Delivers, Collect, Solid, Commas, BlankEnd;
    var text, i := r.buffer + Flatten(r.chunks), FirstDelim(r.buffer);
    k := Commas(text);
    if i < |r.buffer| {
      left := ReadsOne(cfg, r, a, tokens, i);
    } else if r.phase.Events? {
      var next := r.(phase := Read);
      k, left := ReadsUpTo(cfg, next, a, tokens);
      DeliversLater(cfg, r, next, tokens[..k],
          Advanced(cfg, r, tokens, k).(phase := Read, buffer := left, chunks := []));
    } else if r.chunks != [] {
      var next, a' := ReadOnCut(cfg, r, a, tokens);
      k, left := ReadsUpTo(cfg, next, a', tokens);
      DeliversLater(cfg, r, next, tokens[..k],
          Advanced(cfg, r, tokens, k).(phase := Read, buffer := left, chunks := []));
    } else {
      left := r.buffer;
      assert text == r.buffer;
      NoDelimLeft(r.buffer);
      assert tokens[..0] == [];
      DeliversNothing(cfg, r);
    }
  }

  lemma NoDelimLeft(s: string)
    requires FirstDelim(s) == |s| && Solid(s)
    ensures Commas(s) == 0 && (s == "" <==> BlankEnd(s))
  {
    NoCommas(s);
    if s != "" { assert !IsWs(s[|s| - 1]); }
  }

  lemma ReadOnCut(cfg: Config, r: Reader, a: string, tokens: seq<string>) returns (next: Reader, a': string)
    requires r.phase.Read? && FirstDelim(r.buffer) == |r.buffer| && r.chunks != []
    requires Elements(a, tokens) && CutOff(r, a) && Solid(r.buffer)
    ensures StepOf(cfg, r) == Move(next, []) && Elements(a', tokens) && CutOff(next, a') && Solid(next.buffer)
    ensures next == r.(phase := next.phase, buffer := next.buffer, chunks := next.chunks) && |next.chunks| < |r.chunks|
    ensures next.phase.Events? || (next.phase.Read? && FirstDelim(next.buffer) == |next.buffer|)
    ensures var text, text' := r.buffer + Flatten(r.chunks), next.buffer + Flatten(next.chunks);
      Commas(text') == Commas(text) && (BlankEnd(text') <==> BlankEnd(text))
  {
    hide Elements, Trim, Commas, BlankEnd, IsWs, FirstDelim;
    var c, rest := r.chunks[0], Flatten(r.chunks[1..]);
    var w1, w2 := TrimSplit(c);
    var t := Trim(c);
    var text := r.buffer + Flatten(r.chunks);
    var more := a[|text|..];
    assert text == r.buffer + (w1 + t + w2 + rest) && a == text + more;
    AroundDropped(r.buffer, w1, t, w2, rest, more, tokens);
    a' := r.buffer + t + rest + more;
    next := StepOf(cfg, r).next;
    FirstDelimEmpty();
    assert next.buffer == r.buffer + t && next.chunks == r.chunks[1..];
    SolidAfter(r.buffer, t);
  }

  lemma FirstDelimEmpty()
    ensures FirstDelim("") == 0
  {
  }

  lemma SolidAfter(s: string, t: string)
    requires Solid(s) && Solid(t)
    ensures Solid(s + t)
  {
    assert t == "" ==> s + t == s;
  }

  /** Leaving out the white space around a chunk. */
  lemma AroundDropped(x: string, w1: string, t: string, w2: string, rest: string, more: string, tokens: seq<string>)
    requires Elements(x + (w1 + t + w2 + rest) + more, tokens) && AllWs(w1) && AllWs(w2)
    ensures Elements(x + t + rest + more, tokens)
    ensures var text, text' := x + (w1 + t + w2 + rest), x + t + rest;
      Commas(text') == Commas(text) && (BlankEnd(text') <==> BlankEnd(text))
  {
    hide Elements, Commas, BlankEnd, AllWs;
    assert x + (w1 + t + w2 + rest) + more == x + w1 + (t + w2 + rest + more);
    DropAllWs(x, w1, t + w2 + rest + more, tokens);
    assert x + (t + w2 + rest + more) == (x + t) + w2 + (rest + more);
    DropAllWs(x + t, w2, rest + more, tokens);
    assert (x + t) + (rest + more) == x + t + rest + more;
    assert x + (w1 + t + w2 + rest) == x + w1 + (t + w2 + rest);
    WsDropped(x, w1, t + w2 + rest);
    assert x + (t + w2 + rest) == (x + t) + w2 + rest;
    WsDropped(x + t, w2, rest);
  }

  /** A complete element in the buffer. */
  lemma {:induction false} ReadsOne(cfg: Config, r: Reader, a: string, tokens: seq<string>, i: nat)
    returns (left: string)
    requires r.phase.Events? && i == FirstDelim(r.buffer) < |r.buffer|
    requires Elements(a, tokens) && CutOff(r, a) && Solid(r.buffer)
    requires Commas(r.buffer + Flatten(r.chunks)) <= |tokens|
    requires Answers(cfg, r, tokens[..Commas(r.buffer + Flatten(r.chunks))])
    ensures left == "" <==> BlankEnd(r.buffer + Flatten(r.chunks))
    ensures var k := Commas(r.buffer + Flatten(r.chunks));
      Delivers(cfg, r, tokens[..k], Advanced(cfg, r, tokens, k).(phase := Read, buffer := left, chunks := []))
    decreases |r.chunks|, |r.buffer|, 0
  {
    hide Elements, Trim, FirstDelim, TrimStart, Delivers, Collect, Solid, Commas, BlankEnd;
    var text := r.buffer + Flatten(r.chunks);
    var k, good := Commas(text), tokens[..Commas(text)];
    var a' := CutElement(r, a, tokens);
    var e := cfg.parse(good[0]).value;
    var r1 := r.(current := Some(e), count := r.count + 1,
                 remaining := if r.remaining.Some? then Some(r.remaining.value - 1) else None);
    var next := AfterDelim(r1, i).value;
    assert StepOf(cfg, r) == Move(next, [e]);
    TrimShrinks(r.buffer[i + 1..]);
    assert tokens[1..][..k - 1] == good[1..];
    var k';
    k', left := ReadsUpTo(cfg, next, a', tokens[1..]);
    DeliversFirst(cfg, r, next, good, Advanced(cfg, r, tokens, k).(phase := Read, buffer := left, chunks := []));
  }

  /** The first element is complete; what follows its comma is the rest of the elements, still cut off. */
  lemma CutElement(r: Reader, a: string, tokens: seq<string>) returns (a': string)
    requires FirstDelim(r.buffer) < |r.buffer| && Elements(a, tokens) && CutOff(r, a) && Solid(r.buffer)
    ensures var i := FirstDelim(r.buffer);
      && |tokens| > 1 && Trim(r.buffer[..i]) == tokens[0] != "" && r.buffer[i] == ','
      && var buffer := TrimStart(r.buffer[i + 1..]);
         var text, text' := r.buffer + Flatten(r.chunks), buffer + Flatten(r.chunks);
         && Elements(a', tokens[1..]) && text' < a' && Solid(buffer)
         && Commas(text) == 1 + Commas(text') && (BlankEnd(text) <==> BlankEnd(text'))
  {
    hide Elements, Trim, Commas, BlankEnd, IsWs, FirstDelim;
    var i, rest := FirstDelim(r.buffer), Flatten(r.chunks);
    var text, tail := r.buffer + rest, r.buffer[i + 1..];
    var more := a[|text|..];
    assert a == r.buffer + (rest + more);
    CutHead(r.buffer, rest, more, tokens);
    var w, buffer := SkipCut(tail, rest, more, tokens[1..]);
    a' := buffer + rest + more;
    assert buffer + rest < a';
  }

  /** A delimiter in the buffer is a comma, as there is more to come. */
  lemma CutHead(buffer: string, rest: string, more: string, tokens: seq<string>)
    requires FirstDelim(buffer) < |buffer| && Elements(buffer + (rest + more), tokens) && more != ""
    ensures var i := FirstDelim(buffer);
      && |tokens| > 1 && Trim(buffer[..i]) == tokens[0] != "" && buffer[i] == ','
      && Elements(buffer[i + 1..] + rest + more, tokens[1..])
      && Commas(buffer + rest) == 1 + Commas(buffer[i + 1..] + rest)
      && (BlankEnd(buffer + rest) <==> BlankEnd(buffer[i + 1..] + rest))
  {
    hide Elements, Trim, Commas, BlankEnd, IsWs, FirstDelim;
    var i, a := FirstDelim(buffer), buffer + (rest + more);
    SameFirstDelim(buffer, rest + more);
    ElementsHead(a, tokens);
    ElementsTail(a, tokens);
    assert a[i] == buffer[i] && a[..i] == buffer[..i] && a[i + 1..] == buffer[i + 1..] + rest + more;
    assert buffer + rest == buffer[..i] + "," + (buffer[i + 1..] + rest);
    CommaPassed(buffer[..i], buffer[i + 1..] + rest);
  }

  /** White space after the comma is passed over. */
  lemma SkipCut(tail: string, rest: string, more: string, tokens: seq<string>) returns (w: string, buffer: string)
    requires Elements(tail + rest + more, tokens) && Solid(tail)
    ensures buffer == TrimStart(tail) && Elements(buffer + rest + more, tokens) && Solid(buffer)
    ensures Commas(tail + rest) == Commas(buffer + rest) && (BlankEnd(tail + rest) <==> BlankEnd(buffer + rest))
  {
    hide Elements, Commas, BlankEnd, IsWs;
    w := TrimStartSplit(tail);
    buffer := TrimStart(tail);
    TrimStartSolid(tail);
    assert tail + rest + more == "" + w + (buffer + rest + more);
    DropAllWs("", w, buffer + rest + more, tokens);
    assert "" + (buffer + rest + more) == buffer + rest + more;
    assert tail + rest == "" + w + (buffer + rest) && "" + (buffer + rest) == buffer + rest;
    WsDropped("", w, buffer + rest);
  }

  /** The reader gets inside the bracket. */
  lemma {:induction false} OpenCut(cfg: Config, r: Reader, w: string, inside: string, a: string, tokens: seq<string>)
    returns (r': Reader, a': string)
    requires r.phase.ReadNewResponse? && r.buffer == "" && Flatten(r.chunks) == w + "[" + inside && AllWs(w)
    requires Elements(a, tokens) && inside < a
    ensures Collect(cfg, r) == Collect(cfg, r') && r' == r.(phase := Events, buffer := r'.buffer, chunks := r'.chunks)
    ensures Elements(a', tokens) && CutOff(r', a') && Solid(r'.buffer)
    ensures var text := r'.buffer + Flatten(r'.chunks);
      Commas(text) == Commas(inside) && (BlankEnd(text) <==> BlankEnd(inside))
    decreases |r.chunks|
  {
    hide Elements, Trim, Commas, BlankEnd, IsWs, Collect;
    var c, rest := r.chunks[0], r.chunks[1..];
    var all := w + "[" + inside;
    assert c == all[..|c|] && Flatten(rest) == all[|c|..];
    if |c| <= |w| {
      assert c == w[..|c|] && Flatten(rest) == w[|c|..] + "[" + inside;
      TrimWs(c);
      assert r.buffer + Trim(c) == "";
      r' := r.(chunks := rest);
      StepTo(cfg, r, r');
      r', a' := OpenCut(cfg, r', w[|c|..], inside, a, tokens);
    } else {
      r', a' := OpenCutHere(cfg, r, w, inside, a, tokens);
    }
  }

  lemma OpenCutHere(cfg: Config, r: Reader, w: string, inside: string, a: string, tokens: seq<string>)
    returns (r': Reader, a': string)
    requires r.phase.ReadNewResponse? && r.buffer == "" && Flatten(r.chunks) == w + "[" + inside && AllWs(w)
    requires Elements(a, tokens) && inside < a && r.chunks != [] && |w| < |r.chunks[0]|
    ensures Collect(cfg, r) == Collect(cfg, r') && r' == r.(phase := Events, buffer := r'.buffer, chunks := r'.chunks)
    ensures Elements(a', tokens) && CutOff(r', a') && Solid(r'.buffer)
    ensures var text := r'.buffer + Flatten(r'.chunks);
      Commas(text) == Commas(inside) && (BlankEnd(text) <==> BlankEnd(inside))
  {
    hide Elements, Trim, Commas, BlankEnd, IsWs, Collect;
    var c, rest := r.chunks[0], Flatten(r.chunks[1..]);
    var all := w + "[" + inside;
    assert c == all[..|c|] && rest == all[|c|..];
    var c' := inside[..|c| - |w| - 1];
    assert c == w + "[" + c' && inside == c' + rest;
    var t, w2 := OpeningTrim(w, c');
    r' := r.(phase := Events, buffer := t, chunks := r.chunks[1..]);
    assert StepOf(cfg, r) == Move(r', []) by { assert r.buffer + Trim(c) == "[" + t && ("[" + t)[1..] == t; }
    StepTo(cfg, r, r');
    var more := a[|inside|..];
    assert a == t + w2 + (rest + more);
    DropAllWs(t, w2, rest + more, tokens);
    a' := t + (rest + more);
    assert a' == (t + rest) + more;
    assert inside == t + w2 + rest;
    WsDropped(t, w2, rest);
  }

  lemma OpeningTrim(w: string, c: string) returns (t: string, w2: string)
    requires AllWs(w)
    ensures Trim(w + "[" + c) == "[" + t && c == t + w2 && AllWs(w2) && Solid(t)
  {
    hide IsWs;
    BracketIsNotWs();
    assert w + "[" + c == w + ("[" + c);
    TrimStartAdds(w, "[" + c);
    w2 := TrimEndSplit(c);
    t := TrimEnd(c);
    assert "[" + c == ("[" + t) + w2;
    TrimEndAdds("[" + t, w2);
  }

  /**
   An array that is cut off before its bracket: the events of the complete elements are delivered. If that is all that
   was asked for, or the stream was up to date before, it closes without noticing. Else a beginning of another element
   is an error; but when nothing follows the last comma, or the opening bracket, the same request is made again, so that
   its events come a second time.
   */
  lemma ResponseCutOff(cfg: Config, r: Reader, w: string, inside: string, a: string, tokens: seq<string>)
    requires r.phase.ReadNewResponse? && r.buffer == "" && Flatten(r.chunks) == w + "[" + inside && AllWs(w)
    requires Elements(a, tokens) && inside < a
    requires Commas(inside) <= |tokens| && Answers(cfg, r, tokens[..Commas(inside)])
    ensures var k := Commas(inside);
      var after := Advanced(cfg, r, tokens, k).(phase := Read, buffer := "", chunks := []);
      if UpToDate(after) then Collect(cfg, r) == (Decoded(cfg, tokens[..k]), Closed)
      else if !BlankEnd(inside) then Collect(cfg, r) == (Decoded(cfg, tokens[..k]), Failed)
      else Delivers(cfg, r, tokens[..k], after.(phase := Fetch))
  {
    hide Elements, Collect, Commas, BlankEnd, CutOff, Solid;
    var r1, a1 := OpenCut(cfg, r, w, inside, a, tokens);
    var k, left := ReadsUpTo(cfg, r1, a1, tokens);
    var after := Advanced(cfg, r, tokens, k).(phase := Read, buffer := left, chunks := []);
    assert Delivers(cfg, r, tokens[..k], after);
    CollectStep(cfg, after);
    if !UpToDate(after) && left == "" { StepTo(cfg, after, after.(phase := Fetch)); }
    assert Decoded(cfg, tokens[..k]) + [] == Decoded(cfg, tokens[..k]);
  }
}
