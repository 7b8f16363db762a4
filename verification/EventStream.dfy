/** The incremental reader of `eventsAfter`: a JSON array of events arriving in arbitrary chunks. */
module EventStream {
  import opened Wrappers

  datatype Event = Event(hash: string, height: int, body: string)

  datatype Phase = Fetch | ReadEos | ReadNewResponse | Read | Events | Eod

  /** A response as the reader sees it: refused (or without a usable latest height), or a body arriving in chunks. */
  datatype Response = Refused | Body(latestHeight: int, chunks: seq<string>)

  /** What a call fixes: how one array element is decoded, the limit asked for, and the default request size. */
  datatype Config = Config(parse: string -> Option<Event>, limit: Option<nat>, maxEvents: Option<nat>)

  /** The variables of the closure, and the input still to come. `None` stands for an infinite number of events. */
  datatype Reader = Reader(
    phase: Phase,
    buffer: string,
    count: nat,
    sinceHeight: int,
    sinceHash: Option<string>,
    remaining: Option<int>,
    requestLimit: Option<int>,
    requestCount: nat,
    latestHeight: int,
    current: Option<Event>,
    chunks: seq<string>,
    responses: seq<Response>)

  function Start(cfg: Config, sinceHeight: nat, sinceHash: Option<string>, responses: seq<Response>): Reader {
    Reader(Fetch, "", 0, sinceHeight, sinceHash, cfg.limit, None, 0, 0, None, [], responses)
  }

  // ---- text ----------------------------------------------------------------------------

  /** White space as `trim` knows it. */
  predicate IsWs(c: char) {
    || c in {'\t', '\U{B}', '\U{C}', '\n', '\r', ' ', '\U{A0}', '\U{1680}', '\U{2028}', '\U{2029}', '\U{202F}',
        '\U{205F}', '\U{3000}', '\U{FEFF}'}
    || '\U{2000}' <= c <= '\U{200A}'
  }

  predicate AllWs(s: string) { forall i | 0 <= i < |s| :: IsWs(s[i]) }

  predicate NoWs(s: string) { forall i | 0 <= i < |s| :: !IsWs(s[i]) }

  function TrimStart(s: string): string { if s != "" && IsWs(s[0]) then TrimStart(s[1..]) else s }

  function TrimEnd(s: string): string { if s != "" && IsWs(s[|s| - 1]) then TrimEnd(s[..|s| - 1]) else s }

  function Trim(s: string): string { TrimEnd(TrimStart(s)) }

  predicate IsDelim(c: char) { c == ',' || c == ']' }

  /** Index of the first `,` or `]`, or the length when there is none. */
  function FirstDelim(s: string): (i: nat)
    ensures i <= |s|
    ensures forall j | 0 <= j < i :: !IsDelim(s[j])
    ensures i < |s| ==> IsDelim(s[i])
  {
    if s == "" || IsDelim(s[0]) then 0 else 1 + FirstDelim(s[1..])
  }

  function Flatten(chunks: seq<string>): string {
    if chunks == [] then "" else chunks[0] + Flatten(chunks[1..])
  }

  // ---- one step of the loop ----------------------------------------------------------------

  datatype Ending = Closed | Failed

  datatype Step = Move(next: Reader, out: seq<Event>) | Stop(ending: Ending)

  function Least(a: Option<int>, b: Option<int>): Option<int> {
    if a.None? then b else if b.None? then a else if a.value < b.value then a else b
  }

  /** Nothing is left to ask for: the limit is used up, or the latest event has been reached. */
  predicate UpToDate(r: Reader) { r.remaining == Some(0) || r.sinceHeight >= r.latestHeight }

  function FetchStep(cfg: Config, r: Reader): Step {
    if r.responses == [] || r.responses[0].Refused? then Stop(Failed)
    else
      Move(r.(phase := ReadNewResponse, count := 0, requestCount := r.requestCount + 1,
              requestLimit := Least(if cfg.limit.Some? then cfg.limit else cfg.maxEvents, r.remaining),
              latestHeight := r.responses[0].latestHeight, chunks := r.responses[0].chunks,
              responses := r.responses[1..]),
           [])
  }

  function ReadStep(r: Reader): Step {
    if r.chunks == [] then
      if UpToDate(r) then Stop(Closed)
      else if r.phase.ReadNewResponse? || r.buffer != "" then Stop(Failed)
      else Move(r.(phase := Fetch), [])
    else
      var buffer := r.buffer + Trim(r.chunks[0]);
      var rest := r.chunks[1..];
      if buffer == "" then Move(r.(chunks := rest), [])
      else if r.phase.ReadNewResponse? then
        if buffer[0] != '[' then Stop(Failed)
        else Move(r.(phase := Events, buffer := buffer[1..], chunks := rest), [])
      else if r.phase.ReadEos? then Stop(Failed)
      else Move(r.(phase := Events, buffer := buffer, chunks := rest), [])
  }

  /** The first event of a response must be the one asked for. */
  predicate Expected(r: Reader, e: Event) {
    r.count == 0 ==> e.height == r.sinceHeight && (r.sinceHash.Some? ==> r.sinceHash.value == e.hash)
  }

  /** What is left of the buffer after the delimiter at `i`, and where the loop goes from there. */
  function AfterDelim(r: Reader, i: nat): Option<Reader>
    requires i < |r.buffer|
  {
    if r.buffer[i] == ']' then
      var buffer := Trim(r.buffer[i + 1..]);
      match r.current
      case Some(e) => Some(r.(phase := ReadEos, buffer := buffer, sinceHeight := e.height, sinceHash := Some(e.hash)))
      case None => Some(r.(phase := Eod, buffer := buffer))
    else if r.current.Some? then Some(r.(buffer := TrimStart(r.buffer[i + 1..])))
    else None
  }

  function EventsStep(cfg: Config, r: Reader): Step {
    var i := FirstDelim(r.buffer);
    if i == |r.buffer| then Move(r.(phase := Read), [])
    else
      var token := Trim(r.buffer[..i]);
      if token == "" then
        match AfterDelim(r, i)
        case Some(next) => Move(next, [])
        case None => Stop(Failed)
      else if r.requestLimit == Some(r.count) then Stop(Failed)
      else
        match cfg.parse(token)
        case None => Stop(Failed)
        case Some(e) =>
          if !Expected(r, e) then Stop(Failed)
          else
            // the source means to drop the first event of a later response here, but its request count is never zero
            var delivered := r.count != 0 || r.requestCount != 0;
            var r1 := r.(current := Some(e), count := r.count + 1,
                         remaining :=
                           if delivered && r.remaining.Some? then Some(r.remaining.value - 1) else r.remaining);
            match AfterDelim(r1, i)
            case Some(next) => Move(next, if delivered then [e] else [])
            case None => Stop(Failed)
  }

  function StepOf(cfg: Config, r: Reader): Step {
    match r.phase
    case Fetch => FetchStep(cfg, r)
    case Events => EventsStep(cfg, r)
    case Eod => Stop(if UpToDate(r) then Closed else Failed)
    case _ => ReadStep(r)
  }

  function Rank(phase: Phase): nat {
    match phase
    case Events => 2
    case Fetch => 0
    case _ => 1
  }

  lemma {:induction false} TrimShrinks(s: string)
    ensures |TrimStart(s)| <= |s| && |Trim(s)| <= |s|
  {
    TrimStartShrinks(s);
    TrimEndShrinks(TrimStart(s));
  }

  lemma {:induction false} TrimStartShrinks(s: string)
    ensures |TrimStart(s)| <= |s|
  {
    if s != "" && IsWs(s[0]) { TrimStartShrinks(s[1..]); }
  }

  lemma {:induction false} TrimEndShrinks(s: string)
    ensures |TrimEnd(s)| <= |s|
  {
    if s != "" && IsWs(s[|s| - 1]) { TrimEndShrinks(s[..|s| - 1]); }
  }

  /** Every step uses up input, or buffer, or leads towards reading more. */
  lemma StepDecreases(cfg: Config, r: Reader)
    ensures StepOf(cfg, r).Move? ==>
      var n := StepOf(cfg, r).next;
      (|r.responses|, |r.chunks|, |r.buffer|, Rank(r.phase)
       decreases to |n.responses|, |n.chunks|, |n.buffer|, Rank(n.phase))
  {
    if r.phase.Events? {
      var i := FirstDelim(r.buffer);
      if i < |r.buffer| {
        TrimShrinks(r.buffer[i + 1..]);
      }
    }
  }

  /** Everything the stream delivers from here on, and how it ends. */
  function Collect(cfg: Config, r: Reader): (seq<Event>, Ending)
    decreases |r.responses|, |r.chunks|, |r.buffer|, Rank(r.phase)
  {
    StepDecreases(cfg, r);
    match StepOf(cfg, r)
    case Stop(ending) => ([], ending)
    case Move(next, out) =>
      var (events, ending) := Collect(cfg, next);
      (out + events, ending)
  }

  // ---- never more than asked for -------------------------------------------------------

  function LimitOf(cfg: Config): Option<int> { if cfg.limit.Some? then cfg.limit else cfg.maxEvents }

  /** While a response is read, what was asked for is no more than what remains plus what this response gave. */
  predicate Budgeted(r: Reader) {
    && (r.remaining.Some? ==> r.remaining.value >= 0)
    && (!r.phase.Fetch? ==>
          && r.requestCount > 0
          && (r.requestLimit.Some? ==> r.count <= r.requestLimit.value)
          && (r.remaining.Some? ==> r.requestLimit.Some? && r.requestLimit.value <= r.remaining.value + r.count))
  }

  /** One step keeps the budget, and takes from what remains exactly what it delivers. */
  lemma StepBudgeted(cfg: Config, r: Reader)
    requires Budgeted(r) && StepOf(cfg, r).Move?
    ensures var s := StepOf(cfg, r);
      && Budgeted(s.next)
      && s.next.remaining == if r.remaining.Some? then Some(r.remaining.value - |s.out|) else None
  {
    hide FirstDelim, Trim, TrimStart;
  }

  /** Over any run, whatever the server sends, no more events are delivered than remain to be. */
  lemma {:induction false} WithinLimit(cfg: Config, r: Reader)
    requires Budgeted(r) && r.remaining.Some?
    ensures |Collect(cfg, r).0| <= r.remaining.value
    decreases |r.responses|, |r.chunks|, |r.buffer|, Rank(r.phase)
  {
    hide StepOf, Budgeted;
    BudgetNonNegative(r);
    if StepOf(cfg, r).Move? {
      StepDecreases(cfg, r);
      StepBudgeted(cfg, r);
      WithinLimit(cfg, StepOf(cfg, r).next);
    }
  }

  lemma BudgetNonNegative(r: Reader)
    requires Budgeted(r)
    ensures r.remaining.Some? ==> r.remaining.value >= 0
  {
  }

  lemma NeverExceedsLimit(cfg: Config, sinceHeight: nat, sinceHash: Option<string>, responses: seq<Response>)
    requires cfg.limit.Some?
    ensures |Collect(cfg, Start(cfg, sinceHeight, sinceHash, responses)).0| <= cfg.limit.value
  {
    WithinLimit(cfg, Start(cfg, sinceHeight, sinceHash, responses));
  }

  // ---- well-formed responses ------------------------------------------------------------------

  /**
   The elements of an array from inside its bracket on: tokens without white space, separated by commas, up to `]`.
   */
  predicate Elements(s: string, tokens: seq<string>)
    decreases |tokens|
  {
    var i := FirstDelim(s);
    && i < |s|
    && (if tokens == [] then AllWs(s[..i]) else tokens[0] != "" && NoWs(tokens[0]) && Trim(s[..i]) == tokens[0])
    && (if |tokens| <= 1 then s[i] == ']' && i + 1 == |s| else s[i] == ',' && Elements(s[i + 1..], tokens[1..]))
  }

  /** The text of an array: white space, `[`, the elements, `]`. */
  predicate IsArray(s: string, tokens: seq<string>) {
    TrimStart(s) != "" && TrimStart(s)[0] == '[' && Elements(TrimStart(s)[1..], tokens)
  }

  // what trimming does

  lemma {:induction false} TrimStartAdds(w: string, t: string)
    requires AllWs(w) && (t == "" || !IsWs(t[0]))
    ensures TrimStart(w + t) == t
  {
    if w != "" {
      assert (w + t)[1..] == w[1..] + t;
      TrimStartAdds(w[1..], t);
    } else {
      assert w + t == t;
    }
  }

  lemma {:induction false} TrimEndAdds(t: string, w: string)
    requires AllWs(w) && (t == "" || !IsWs(t[|t| - 1]))
    ensures TrimEnd(t + w) == t
  {
    if w != "" {
      assert (t + w)[..|t + w| - 1] == t + w[..|w| - 1];
      TrimEndAdds(t, w[..|w| - 1]);
    } else {
      assert t + w == t;
    }
  }

  /** A string is its trimmed form between two stretches of white space. */
  lemma {:induction false} TrimStartSplit(s: string) returns (w: string)
    ensures AllWs(w) && s == w + TrimStart(s) && (TrimStart(s) != "" ==> !IsWs(TrimStart(s)[0]))
  {
    if s != "" && IsWs(s[0]) {
      var w' := TrimStartSplit(s[1..]);
      w := [s[0]] + w';
    } else {
      w := "";
    }
  }

  lemma {:induction false} TrimEndSplit(s: string) returns (w: string)
    ensures AllWs(w) && s == TrimEnd(s) + w && (TrimEnd(s) != "" ==> !IsWs(TrimEnd(s)[|TrimEnd(s)| - 1]))
  {
    if s != "" && IsWs(s[|s| - 1]) {
      var w' := TrimEndSplit(s[..|s| - 1]);
      w := w' + [s[|s| - 1]];
    } else {
      w := "";
    }
  }

  lemma TrimSplit(s: string) returns (w1: string, w2: string)
    ensures AllWs(w1) && AllWs(w2) && s == w1 + Trim(s) + w2
    ensures Trim(s) != "" ==> !IsWs(Trim(s)[0]) && !IsWs(Trim(s)[|Trim(s)| - 1])
  {
    w1 := TrimStartSplit(s);
    w2 := TrimEndSplit(TrimStart(s));
    var t := Trim(s);
    assert TrimStart(s) == t + w2;
    assert t != "" ==> t[0] == TrimStart(s)[0];
  }

  lemma TrimOf(w1: string, t: string, w2: string)
    requires AllWs(w1) && AllWs(w2) && t != "" && !IsWs(t[0]) && !IsWs(t[|t| - 1])
    ensures Trim(w1 + t + w2) == t
  {
    assert w1 + t + w2 == w1 + (t + w2);
    TrimStartAdds(w1, t + w2);
    TrimEndAdds(t, w2);
  }

  /** Only white space trims to nothing. */
  lemma TrimWs(s: string)
    ensures Trim(s) == "" <==> AllWs(s)
    ensures AllWs(s) ==> TrimStart(s) == ""
  {
    if AllWs(s) {
      assert s + "" == s;
      TrimStartAdds(s, "");
    } else {
      var w1, w2 := TrimSplit(s);
    }
  }

  /** White space at the end makes no difference to a trimmed string. */
  lemma TrimIgnoresEnd(s: string, w: string)
    requires AllWs(w)
    ensures Trim(s + w) == Trim(s)
  {
    hide Trim;
    var w1, w2 := TrimSplit(s);
    if Trim(s) == "" {
      TrimWs(s + w);
    } else {
      assert s + w == w1 + Trim(s) + (w2 + w);
      TrimOf(w1, Trim(s), w2 + w);
    }
  }

  lemma FirstDelimAt(s: string, i: nat)
    requires i < |s| && IsDelim(s[i]) && forall j | 0 <= j < i :: !IsDelim(s[j])
    ensures FirstDelim(s) == i
  {
  }

  predicate NoDelim(s: string) { forall i | 0 <= i < |s| :: !IsDelim(s[i]) }

  lemma FirstDelimAfter(before: string, tail: string)
    requires NoDelim(before) && tail != "" && IsDelim(tail[0])
    ensures FirstDelim(before + tail) == |before|
  {
    FirstDelimAt(before + tail, |before|);
  }

  /** What stands before a delimiter can be replaced by anything that reads the same. */
  lemma ReplaceBefore(before: string, before': string, tail: string, tokens: seq<string>)
    requires NoDelim(before) && NoDelim(before') && tail != "" && IsDelim(tail[0])
    requires Elements(before + tail, tokens)
    requires if tokens == [] then AllWs(before') else Trim(before') == tokens[0]
    ensures Elements(before' + tail, tokens)
  {
    hide Trim, FirstDelim, AllWs, NoDelim, IsDelim;
    FirstDelimAfter(before, tail);
    FirstDelimAfter(before', tail);
    assert (before + tail)[|before|] == tail[0] == (before' + tail)[|before'|];
    assert (before + tail)[|before| + 1..] == tail[1..] == (before' + tail)[|before'| + 1..];
    assert (before' + tail)[..|before'|] == before';
  }

  /** Leaving out a white-space character changes nothing: it can only stand between tokens and delimiters. */
  lemma {:induction false} DropWs(s: string, p: nat, tokens: seq<string>)
    requires Elements(s, tokens) && p < |s| && IsWs(s[p])
    ensures Elements(s[..p] + s[p + 1..], tokens)
    decreases |tokens|, 1
  {
    hide Elements;
    var i := FirstDelim(s);
    assert i < |s| by { ElementsHead(s, tokens); }
    assert IsDelim(s[i]);
    if p < i { DropWsBefore(s, p, tokens); } else { DropWsAfter(s, p, tokens); }
  }

  lemma ElementsHead(s: string, tokens: seq<string>)
    requires Elements(s, tokens)
    ensures FirstDelim(s) < |s|
    ensures if tokens == [] then AllWs(s[..FirstDelim(s)])
            else Trim(s[..FirstDelim(s)]) == tokens[0] && tokens[0] != "" && NoWs(tokens[0])
  {
    hide Trim;
  }

  lemma ElementsTail(s: string, tokens: seq<string>)
    requires Elements(s, tokens) && FirstDelim(s) < |s|
    ensures var i := FirstDelim(s);
      if |tokens| <= 1 then s[i] == ']' && i + 1 == |s| else s[i] == ',' && Elements(s[i + 1..], tokens[1..])
  {
    hide Trim, AllWs, FirstDelim;
  }

  /** The elements end with their bracket. */
  lemma {:induction false} ElementsEnd(s: string, tokens: seq<string>)
    requires Elements(s, tokens)
    ensures s != "" && s[|s| - 1] == ']'
    decreases |tokens|
  {
    hide Elements, Trim;
    ElementsHead(s, tokens);
    ElementsTail(s, tokens);
    if |tokens| > 1 { ElementsEnd(s[FirstDelim(s) + 1..], tokens[1..]); }
  }

  lemma DropWsBefore(s: string, p: nat, tokens: seq<string>)
    requires Elements(s, tokens) && p < FirstDelim(s) && IsWs(s[p])
    ensures Elements(s[..p] + s[p + 1..], tokens)
  {
    hide Trim, Elements;
    ElementsHead(s, tokens);
    var i := FirstDelim(s);
    var before, tail := s[..i], s[i..];
    var before' := before[..p] + before[p + 1..];
    assert s == before + tail && s[..p] + s[p + 1..] == before' + tail;
    if tokens != [] { DropWsTrim(before, p, tokens[0]); }
    ReplaceBefore(before, before', tail, tokens);
  }

  lemma {:induction false} DropWsAfter(s: string, p: nat, tokens: seq<string>)
    requires Elements(s, tokens) && FirstDelim(s) < p < |s| && IsWs(s[p])
    ensures Elements(s[..p] + s[p + 1..], tokens)
    decreases |tokens|, 0
  {
    hide Elements, FirstDelim, IsWs, AllWs;
    var i := FirstDelim(s);
    var head, rest, q := s[..i + 1], s[i + 1..], p - i - 1;
    var rest' := rest[..q] + rest[q + 1..];
    assert s == head + rest && s[..p] + s[p + 1..] == head + rest' && rest[q] == s[p];
    ElementsTail(s, tokens);
    DropWs(rest, q, tokens[1..]);
    DelimEnds(s, i);
    ReplaceAfter(head, rest, rest', tokens);
  }

  lemma DelimEnds(s: string, i: nat)
    requires i == FirstDelim(s) < |s|
    ensures FirstDelim(s[..i + 1]) == i
  {
    FirstDelimAt(s[..i + 1], i);
  }

  /** What stands after the first delimiter can be replaced by what completes the elements. */
  lemma ReplaceAfter(head: string, rest: string, rest': string, tokens: seq<string>)
    requires head != "" && FirstDelim(head) == |head| - 1 && Elements(head + rest, tokens)
    requires |tokens| > 1 && Elements(rest', tokens[1..])
    ensures Elements(head + rest', tokens)
  {
    hide Trim, FirstDelim, AllWs, NoWs;
    var i := |head| - 1;
    SameFirstDelim(head, rest);
    SameFirstDelim(head, rest');
    assert (head + rest)[..i] == head[..i] == (head + rest')[..i] && (head + rest)[i] == (head + rest')[i];
    assert (head + rest')[i + 1..] == rest';
  }

  lemma SameFirstDelim(buffer: string, more: string)
    requires FirstDelim(buffer) < |buffer|
    ensures FirstDelim(buffer + more) == FirstDelim(buffer)
  {
    FirstDelimAt(buffer + more, FirstDelim(buffer));
  }

  lemma WsAround(w1: string, t: string, w2: string, p: nat)
    requires AllWs(w1) && AllWs(w2) && NoWs(t) && p < |w1 + t + w2|
    ensures IsWs((w1 + t + w2)[p]) <==> p < |w1| || |w1 + t| <= p
  {
  }

  lemma DropWsTrim(u: string, p: nat, t: string)
    requires p < |u| && IsWs(u[p]) && Trim(u) == t && t != "" && NoWs(t)
    ensures Trim(u[..p] + u[p + 1..]) == t
  {
    hide Trim;
    var w1, w2 := TrimSplit(u);
    var n := |w1|;
    var u' := u[..p] + u[p + 1..];
    if p < n {
      var w := w1[..p] + w1[p + 1..];
      assert u' == w + t + w2;
      TrimOf(w, t, w2);
    } else {
      WsAround(w1, t, w2, p);
      var q := p - n - |t|;
      var w := w2[..q] + w2[q + 1..];
      assert u[p] == w2[q];
      assert u' == w1 + t + w;
      TrimOf(w1, t, w);
    }
  }

  /** The same for a stretch of white space. */
  lemma {:induction false} DropAllWs(a: string, w: string, b: string, tokens: seq<string>)
    requires Elements(a + w + b, tokens) && AllWs(w)
    ensures Elements(a + b, tokens)
    decreases |w|
  {
    hide Elements;
    if w == "" {
      assert a + w + b == a + b;
    } else {
      var s := a + w + b;
      DropWs(s, |a|, tokens);
      assert s[..|a|] + s[|a| + 1..] == a + w[1..] + b;
      DropAllWs(a, w[1..], b, tokens);
    }
  }

  // ---- how a text is cut ----------------------------------------------------------------------

  /**
   The chunks start with the text `m`: the chunk that completes it goes on with `y`, and then come the chunks `rest`.
   */
  predicate Cut(chunks: seq<string>, m: string, y: string, rest: seq<string>) {
    && chunks != [] && m != ""
    && if |chunks[0]| < |m| then chunks[0] == m[..|chunks[0]|] && Cut(chunks[1..], m[|chunks[0]|..], y, rest)
       else chunks[0] == m + y && chunks[1..] == rest
  }

  /** The chunk that completes the text `m` is the last one: those before it are not enough. */
  predicate LastCompletes(chunks: seq<string>, m: string) {
    chunks != [] && |Flatten(chunks[..|chunks| - 1])| < |m|
  }

  /** Every text cut into chunks is cut somewhere after its start `m`. */
  lemma {:induction false} CutAt(chunks: seq<string>, m: string, trailing: string)
    returns (y: string, rest: seq<string>)
    requires m != "" && Flatten(chunks) == m + trailing
    ensures Cut(chunks, m, y, rest) && trailing == y + Flatten(rest)
    ensures LastCompletes(chunks, m) <==> rest == []
    decreases |chunks|
  {
    var c, more := chunks[0], chunks[1..];
    var all := m + trailing;
    assert c == all[..|c|] && Flatten(more) == all[|c|..];
    if |c| < |m| {
      var m' := m[|c|..];
      assert Flatten(more) == m' + trailing;
      y, rest := CutAt(more, m', trailing);
      assert chunks[..|chunks| - 1][1..] == more[..|more| - 1];
    } else {
      y, rest := c[|m|..], more;
      assert c == m + y;
      assert trailing == y + Flatten(rest);
      if rest != [] { assert chunks[..|chunks| - 1][0] == c; }
    }
  }

  /**
   Buffer and chunks are the text `a`, then `y`, then the chunks `rest`: either `a` is still being read, or the buffer
   holds all of it and `y`.
   */
  predicate Partway(buffer: string, chunks: seq<string>, a: string, y: string, rest: seq<string>) {
    if |buffer| < |a| then buffer == a[..|buffer|] && Cut(chunks, a[|buffer|..], y, rest)
    else buffer == a + y && chunks == rest
  }

  /**
   Reading on: leaving out the white space `w1` and `w2` around a chunk touches the elements and what follows in white
   space only.
   */
  lemma TakeChunk(buffer: string, chunks: seq<string>, a: string, y: string, rest: seq<string>, tokens: seq<string>,
                  w1: string, t: string, w2: string)
    returns (a': string, y': string)
    requires |buffer| < |a| && Partway(buffer, chunks, a, y, rest) && Elements(a, tokens)
    requires chunks[0] == w1 + t + w2 && AllWs(w1) && AllWs(w2)
    ensures Elements(a', tokens) && Trim(y') == Trim(y) && Partway(buffer + t, chunks[1..], a', y', rest)
  {
    hide Elements, Trim;
    var c, m := chunks[0], a[|buffer|..];
    if |c| < |m| {
      var m' := m[|c|..];
      assert a == buffer + w1 + (t + w2 + m');
      DropAllWs(buffer, w1, t + w2 + m', tokens);
      assert buffer + (t + w2 + m') == (buffer + t) + w2 + m';
      DropAllWs(buffer + t, w2, m', tokens);
      a', y' := buffer + t + m', y;
      assert a'[..|buffer + t|] == buffer + t && a'[|buffer + t|..] == m';
    } else {
      ElementsEnd(a, tokens);
      BracketIsNotWs();
      assert c[|m| - 1] == ']';
      assert |w1| < |m| && |w2| <= |y| by { CoreAround(w1, t, w2, |m| - 1); }
      var m' := m[|w1|..];
      a', y' := buffer + m', y[..|y| - |w2|];
      SplitCore(w1, t, w2, m, y);
      TrimIgnoresEnd(y', w2);
      assert a == buffer + m == buffer + w1 + m';
      DropAllWs(buffer, w1, m', tokens);
      assert buffer + t == a' + y';
    }
  }

  lemma SplitCore(w1: string, t: string, w2: string, m: string, y: string)
    requires w1 + t + w2 == m + y && |w1| <= |m| && |w2| <= |y|
    ensures var m', y' := m[|w1|..], y[..|y| - |w2|]; m == w1 + m' && y == y' + w2 && t == m' + y'
  {
    var m', y' := m[|w1|..], y[..|y| - |w2|];
    assert w1 == (m + y)[..|w1|] == m[..|w1|];
    assert w2 == (m + y)[|m + y| - |w2|..] == y[|y| - |w2|..];
    assert t == (m + y)[|w1|..|m + y| - |w2|] == m' + y';
  }

  lemma BracketIsNotWs()
    ensures !IsWs(']') && !IsWs('[')
  {
  }

  /** A character that is not white space stands between the white space around it. */
  lemma CoreAround(w1: string, t: string, w2: string, p: nat)
    requires AllWs(w1) && AllWs(w2) && p < |w1 + t + w2| && !IsWs((w1 + t + w2)[p])
    ensures |w1| <= p < |w1 + t|
  {
  }

  /** The first chunk of a response is white space, or starts with the bracket once trimmed. */
  lemma FirstChunk(chunks: seq<string>, a: string, y: string, rest: seq<string>, tokens: seq<string>)
    returns (a': string, y': string)
    requires IsArray(a, tokens) && Cut(chunks, a, y, rest)
    ensures Trim(y') == Trim(y)
    ensures var t := Trim(chunks[0]);
      if t == "" then IsArray(a', tokens) && Cut(chunks[1..], a', y', rest)
      else t[0] == '[' && Elements(a', tokens) && Partway(t[1..], chunks[1..], a', y', rest)
  {
    hide Elements, Trim, IsWs, IsArray, Partway;
    var w1, w2 := TrimSplit(chunks[0]);
    if Trim(chunks[0]) == "" {
      TrimWs(chunks[0]);
      a' := BlankChunk(chunks, a, y, rest, tokens);
      y' := y;
    } else {
      a', y' := OpeningChunk(chunks, a, y, rest, tokens, w1, Trim(chunks[0]), w2);
    }
  }

  lemma BlankChunk(chunks: seq<string>, a: string, y: string, rest: seq<string>, tokens: seq<string>)
    returns (a': string)
    requires IsArray(a, tokens) && Cut(chunks, a, y, rest) && AllWs(chunks[0])
    ensures IsArray(a', tokens) && Cut(chunks[1..], a', y, rest)
  {
    hide Elements, IsWs;
    BracketIsNotWs();
    var c := chunks[0];
    var w := TrimStartSplit(a);
    assert a[|w|] == '[';
    CutAgrees(chunks, a, y, rest, |w|);
    a' := a[|c|..];
    assert a == c + a';
    TrimStartOver(c, a');
  }

  lemma OpeningChunk(chunks: seq<string>, a: string, y: string, rest: seq<string>, tokens: seq<string>,
                     w1: string, t: string, w2: string)
    returns (a': string, y': string)
    requires IsArray(a, tokens) && Cut(chunks, a, y, rest)
    requires chunks[0] == w1 + t + w2 && AllWs(w1) && AllWs(w2) && t != "" && !IsWs(t[0])
    ensures Trim(y') == Trim(y) && t[0] == '[' && Elements(a', tokens) && Partway(t[1..], chunks[1..], a', y', rest)
  {
    hide Elements, IsWs, Trim, Partway;
    BracketIsNotWs();
    var c, b := chunks[0], TrimStart(a)[1..];
    var w := TrimStartSplit(a);
    assert a == w + "[" + b;
    SameOpening(chunks, a, y, rest, w, w1, t + w2);
    var c' := t[1..] + w2;
    assert c == w + "[" + c' by { assert c == w1 + (t + w2); }
    AfterBracket(chunks, a, y, rest, w + "[", c', b, tokens);
    var chunks' := [c'] + chunks[1..];
    assert c' == "" + t[1..] + w2 && b[0..] == b;
    ElementsEnd(b, tokens);
    a', y' := TakeChunk("", chunks', b, y, rest, tokens, "", t[1..], w2);
    assert "" + t[1..] == t[1..] && chunks'[1..] == chunks[1..];
  }

  /** Both the first chunk and the array start with white space, and then the bracket. */
  lemma SameOpening(chunks: seq<string>, a: string, y: string, rest: seq<string>, w: string, w1: string, s: string)
    requires Cut(chunks, a, y, rest) && chunks[0] == w1 + s && AllWs(w1) && s != "" && !IsWs(s[0])
    requires AllWs(w) && w < a && a[|w|] == '['
    ensures w1 == w && s[0] == '['
  {
    hide IsWs;
    BracketIsNotWs();
    var c := chunks[0];
    assert c[|w1|] == s[0] && c == w1 + s + "" && a == w + a[|w|..] + "";
    if |w1| < |a| {
      CutAgrees(chunks, a, y, rest, |w1|);
      CoreAround(w, a[|w|..], "", |w1|);
    }
    CutAgrees(chunks, a, y, rest, |w|);
    CoreAround(w1, s, "", |w|);
    assert w1 == c[..|w1|] == a[..|w1|] == w;
  }

  /** The first chunk and the text agree as far as both go. */
  lemma CutAgrees(chunks: seq<string>, a: string, y: string, rest: seq<string>, n: nat)
    requires Cut(chunks, a, y, rest) && n < |a|
    ensures n < |chunks[0]| ==> chunks[0][n] == a[n] && (!IsWs(a[n]) ==> !AllWs(chunks[0]))
  {
  }

  /** What is cut after a common start. */
  lemma AfterBracket(chunks: seq<string>, a: string, y: string, rest: seq<string>, head: string, c: string, b: string,
                     tokens: seq<string>)
    requires Cut(chunks, a, y, rest) && chunks[0] == head + c && a == head + b && Elements(b, tokens)
    ensures Partway("", [c] + chunks[1..], b, y, rest)
  {
    hide Elements;
    ElementsEnd(b, tokens);
    var chunks' := [c] + chunks[1..];
    assert b[0..] == b && chunks'[1..] == chunks[1..];
    if |c| < |b| {
      assert head + c == a[..|head + c|] == head + b[..|c|];
      assert c == (head + c)[|head|..] == b[..|c|];
      assert a[|chunks[0]|..] == b[|c|..];
    } else {
      assert head + c == head + b + y;
      assert c == (head + c)[|head|..] == b + y;
    }
  }

  lemma {:induction false} TrimStartOver(w: string, s: string)
    requires AllWs(w)
    ensures TrimStart(w + s) == TrimStart(s)
  {
    if w != "" {
      assert (w + s)[1..] == w[1..] + s;
      TrimStartOver(w[1..], s);
    } else {
      assert w + s == s;
    }
  }

  // ---- what a response delivers ---------------------------------------------------------------------

  predicate Parses(cfg: Config, tokens: seq<string>) { forall i | 0 <= i < |tokens| :: cfg.parse(tokens[i]).Some? }

  function Decoded(cfg: Config, tokens: seq<string>): (events: seq<Event>)
    requires Parses(cfg, tokens)
    ensures |events| == |tokens|
  {
    seq(|tokens|, i requires 0 <= i < |tokens| => cfg.parse(tokens[i]).value)
  }

  /** The reader when it has taken in a whole response with these elements, and nothing of the response is left. */
  function AfterArray(cfg: Config, r: Reader, tokens: seq<string>): Reader
    requires Parses(cfg, tokens)
  {
    var n := |tokens|;
    var current := if n == 0 then r.current else cfg.parse(tokens[n - 1]);
    var r1 := r.(buffer := "", chunks := [], count := r.count + n, current := current,
                 remaining := if r.remaining.Some? then Some(r.remaining.value - n) else None);
    match current
    case Some(e) => r1.(phase := ReadEos, sinceHeight := e.height, sinceHash := Some(e.hash))
    case None => r1.(phase := Eod)
  }

  /** The same when `y` follows the array in the chunk that completes it, and the chunks `rest` are still to come. */
  function Arrived(cfg: Config, r: Reader, tokens: seq<string>, y: string, rest: seq<string>): Reader
    requires Parses(cfg, tokens)
  {
    AfterArray(cfg, r, tokens).(buffer := Trim(y), chunks := rest)
  }

  /** The elements are what was asked for: they decode, they fit the request, and the first is the event asked for. */
  predicate Answers(cfg: Config, r: Reader, tokens: seq<string>) {
    && r.requestCount > 0
    && Parses(cfg, tokens)
    && (r.requestLimit.Some? ==> r.count + |tokens| <= r.requestLimit.value)
    && (tokens != [] ==> Expected(r, cfg.parse(tokens[0]).value))
  }

  /** From here on the stream is the decoded elements, and then what it is from `after` on. */
  predicate Delivers(cfg: Config, r: Reader, tokens: seq<string>, after: Reader)
    requires Parses(cfg, tokens)
  {
    var rest := Collect(cfg, after);
    Collect(cfg, r) == (Decoded(cfg, tokens) + rest.0, rest.1)
  }

  lemma StepTo(cfg: Config, r: Reader, next: Reader)
    requires StepOf(cfg, r) == Move(next, [])
    ensures Collect(cfg, r) == Collect(cfg, next)
  {
    hide StepOf;
    var (events, ending) := Collect(cfg, next);
    assert [] + events == events;
  }

  /** A step that only reads. */
  lemma DeliversLater(cfg: Config, r: Reader, next: Reader, tokens: seq<string>, after: Reader)
    requires StepOf(cfg, r) == Move(next, []) && Parses(cfg, tokens) && Delivers(cfg, next, tokens, after)
    ensures Delivers(cfg, r, tokens, after)
  {
    hide StepOf, Collect, Decoded;
    StepTo(cfg, r, next);
  }

  /** The step that delivers the first of some elements. */
  lemma DeliversFirst(cfg: Config, r: Reader, next: Reader, tokens: seq<string>, after: Reader)
    requires tokens != [] && Parses(cfg, tokens) && StepOf(cfg, r) == Move(next, [cfg.parse(tokens[0]).value])
    requires Delivers(cfg, next, tokens[1..], after)
    ensures Delivers(cfg, r, tokens, after)
  {
    hide StepOf;
    var e, rest := cfg.parse(tokens[0]).value, Collect(cfg, after);
    var more := Decoded(cfg, tokens[1..]);
    assert Decoded(cfg, tokens) == [e] + more;
    assert [e] + (more + rest.0) == [e] + more + rest.0;
  }

  /** The step that delivers the last element, or finds that there is none. */
  lemma DeliversLast(cfg: Config, r: Reader, next: Reader, tokens: seq<string>)
    requires |tokens| <= 1 && Parses(cfg, tokens) && StepOf(cfg, r) == Move(next, Decoded(cfg, tokens))
    ensures Delivers(cfg, r, tokens, next)
  {
    hide StepOf;
  }

  /** The elements seen from a buffer that holds a delimiter. */
  lemma BufferedElement(r: Reader, a: string, y: string, rest: seq<string>, tokens: seq<string>)
    requires Elements(a, tokens) && Partway(r.buffer, r.chunks, a, y, rest) && FirstDelim(r.buffer) < |r.buffer|
    ensures var i := FirstDelim(r.buffer);
      && Trim(r.buffer[..i]) == (if tokens == [] then "" else tokens[0])
      && (tokens != [] ==> tokens[0] != "")
      && i < |a| && FirstDelim(a) == i && r.buffer[i] == a[i]
      && (if |tokens| <= 1 then a[i] == ']' && r.buffer[i + 1..] == y && r.chunks == rest
          else
            && a[i] == ',' && Elements(a[i + 1..], tokens[1..])
            && Partway(r.buffer[i + 1..], r.chunks, a[i + 1..], y, rest))
  {
    hide Trim, AllWs, FirstDelim, IsDelim, NoWs, Elements, Partway;
    var i := FirstDelim(r.buffer);
    ElementsHead(a, tokens);
    PartwayDelim(r, a, y, rest);
    ElementsTail(a, tokens);
    if tokens == [] { TrimWs(a[..i]); }
    if |tokens| > 1 {
      AdvancePartway(r.buffer, r.chunks, a, y, rest, i + 1);
    } else {
      WholePartway(r, a, y, rest, i);
    }
  }

  /** The first delimiter of the buffer is that of the elements. */
  lemma PartwayDelim(r: Reader, a: string, y: string, rest: seq<string>)
    requires Partway(r.buffer, r.chunks, a, y, rest) && FirstDelim(r.buffer) < |r.buffer| && FirstDelim(a) < |a|
    ensures var i := FirstDelim(r.buffer); FirstDelim(a) == i && r.buffer[i] == a[i] && r.buffer[..i] == a[..i]
  {
    hide FirstDelim, IsDelim, Cut;
    if |r.buffer| < |a| {
      SameFirstDelim(r.buffer, a[|r.buffer|..]);
      assert r.buffer + a[|r.buffer|..] == a;
    } else {
      SameFirstDelim(a, y);
    }
    assert r.buffer[..FirstDelim(a)] == a[..FirstDelim(a)];
  }

  lemma WholePartway(r: Reader, a: string, y: string, rest: seq<string>, i: nat)
    requires Partway(r.buffer, r.chunks, a, y, rest) && i + 1 == |a| <= |r.buffer|
    ensures r.buffer[i + 1..] == y && r.chunks == rest
  {
  }

  lemma StartsBefore(w: string, s: string, n: nat)
    requires AllWs(w) && w <= s && n < |s| && !IsWs(s[n])
    ensures |w| <= n
  {
  }

  /** Passing over a common start. */
  lemma AdvancePartway(buffer: string, chunks: seq<string>, a: string, y: string, rest: seq<string>, n: nat)
    requires Partway(buffer, chunks, a, y, rest) && n <= |buffer| && n <= |a|
    ensures Partway(buffer[n..], chunks, a[n..], y, rest)
  {
    hide Cut;
    if |buffer| < |a| {
      assert a[n..][..|buffer[n..]|] == buffer[n..];
      assert a[n..][|buffer[n..]|..] == a[|buffer|..];
    } else {
      assert (a + y)[n..] == a[n..] + y;
    }
  }

  /** White space after a delimiter is passed over. */
  lemma SkipWs(buffer: string, chunks: seq<string>, a: string, y: string, rest: seq<string>, tokens: seq<string>)
    returns (a': string)
    requires Elements(a, tokens) && Partway(buffer, chunks, a, y, rest)
    ensures Elements(a', tokens) && Partway(TrimStart(buffer), chunks, a', y, rest)
  {
    hide Elements, Trim, TrimStart, AllWs, IsWs, Cut;
    var w := TrimStartSplit(buffer);
    if |a| <= |buffer| {
      ElementsEnd(a, tokens);
      BracketIsNotWs();
      assert buffer[|a| - 1] == ']';
      StartsBefore(w, buffer, |a| - 1);
    }
    a' := a[|w|..];
    assert w == buffer[..|w|] == a[..|w|];
    assert a == "" + w + a';
    DropAllWs("", w, a', tokens);
    assert "" + a' == a';
    AdvancePartway(buffer, chunks, a, y, rest, |w|);
    assert buffer[|w|..] == TrimStart(buffer);
  }

  /** The reader when it has delivered the first `k` of these elements. */
  function Advanced(cfg: Config, r: Reader, tokens: seq<string>, k: nat): Reader
    requires k <= |tokens| && Parses(cfg, tokens[..k])
  {
    r.(count := r.count + k, current := if k == 0 then r.current else cfg.parse(tokens[k - 1]),
       remaining := if r.remaining.Some? then Some(r.remaining.value - k) else None)
  }

  /**
   From inside the bracket: the first `k` elements are delivered in order, whatever is in the buffer and however the
   rest is cut, and the one after them is looked at.
   */
  lemma {:induction false} Consume(cfg: Config, r: Reader, a: string, y: string, rest: seq<string>,
                                   tokens: seq<string>, k: nat)
    returns (r': Reader, a': string, y': string)
    requires r.phase.Events? || (r.phase.Read? && FirstDelim(r.buffer) == |r.buffer|)
    requires Elements(a, tokens) && Partway(r.buffer, r.chunks, a, y, rest)
    requires k <= |tokens| && (k > 0 ==> k < |tokens|) && Answers(cfg, r, tokens[..k])
    ensures Delivers(cfg, r, tokens[..k], r') && FirstDelim(r'.buffer) < |r'.buffer|
    ensures r' == Advanced(cfg, r, tokens, k).(phase := Events, buffer := r'.buffer, chunks := r'.chunks)
    ensures Elements(a', tokens[k..]) && Partway(r'.buffer, r'.chunks, a', y', rest) && Trim(y') == Trim(y)
    decreases |r.chunks|, |r.buffer|, Rank(r.phase)
  {
    hide Elements, Trim, FirstDelim, TrimStart, Delivers, Collect, Partway;
    var i := FirstDelim(r.buffer);
    if i == |r.buffer| {
      NotAll(r.buffer, r.chunks, a, y, rest, tokens);
      var next := r.(phase := Read);
      a', y' := a, y;
      if r.phase.Read? { a', y', next := ReadOn(cfg, r, a, y, rest, tokens); }
      r', a', y' := Consume(cfg, next, a', y', rest, tokens, k);
      DeliversLater(cfg, r, next, tokens[..k], r');
    } else if k == 0 {
      r', a', y' := r, a, y;
      assert tokens[0..] == tokens && tokens[..0] == [];
      DeliversNothing(cfg, r);
    } else {
      r', a', y' := OneElement(cfg, r, a, y, rest, tokens, k, i);
    }
  }

  lemma DeliversNothing(cfg: Config, r: Reader)
    ensures Delivers(cfg, r, [], r)
  {
    hide Collect;
    assert [] + Collect(cfg, r).0 == Collect(cfg, r).0;
  }

  /** One element that is wholly in the buffer, with more to come. */
  lemma {:induction false} OneElement(cfg: Config, r: Reader, a: string, y: string, rest: seq<string>,
                                      tokens: seq<string>, k: nat, i: nat)
    returns (r': Reader, a': string, y': string)
    requires r.phase.Events? && i == FirstDelim(r.buffer) < |r.buffer|
    requires Elements(a, tokens) && Partway(r.buffer, r.chunks, a, y, rest)
    requires 0 < k < |tokens| && Answers(cfg, r, tokens[..k])
    ensures Delivers(cfg, r, tokens[..k], r') && FirstDelim(r'.buffer) < |r'.buffer|
    ensures r' == Advanced(cfg, r, tokens, k).(phase := Events, buffer := r'.buffer, chunks := r'.chunks)
    ensures Elements(a', tokens[k..]) && Partway(r'.buffer, r'.chunks, a', y', rest) && Trim(y') == Trim(y)
    decreases |r.chunks|, |r.buffer|, 0
  {
    hide Elements, Trim, FirstDelim, TrimStart, Delivers, Collect, Partway;
    BufferedElement(r, a, y, rest, tokens);
    var good := tokens[..k];
    var e := cfg.parse(good[0]).value;
    var r1 := r.(current := Some(e), count := r.count + 1,
                 remaining := if r.remaining.Some? then Some(r.remaining.value - 1) else None);
    var next := AfterDelim(r1, i).value;
    assert StepOf(cfg, r) == Move(next, [e]);
    a' := SkipWs(r.buffer[i + 1..], r.chunks, a[i + 1..], y, rest, tokens[1..]);
    TrimShrinks(r.buffer[i + 1..]);
    assert tokens[1..][..k - 1] == good[1..] && tokens[1..][k - 1..] == tokens[k..];
    r', a', y' := Consume(cfg, next, a', y, rest, tokens[1..], k - 1);
    DeliversFirst(cfg, r, next, good, r');
  }

  /** The elements are delivered in order, and the reader is left with what follows the array. */
  lemma ReadElements(cfg: Config, r: Reader, a: string, y: string, rest: seq<string>, tokens: seq<string>)
    requires r.phase.Events? || (r.phase.Read? && FirstDelim(r.buffer) == |r.buffer|)
    requires Elements(a, tokens) && Partway(r.buffer, r.chunks, a, y, rest) && Answers(cfg, r, tokens)
    ensures Delivers(cfg, r, tokens, Arrived(cfg, r, tokens, y, rest))
  {
    hide Elements, Trim, FirstDelim, TrimStart, Delivers, Collect, Partway;
    var k := if tokens == [] then 0 else |tokens| - 1;
    var r', a', y' := Consume(cfg, r, a, y, rest, tokens, k);
    BufferedElement(r', a', y', rest, tokens[k..]);
    LastElement(cfg, r', y', tokens[k..], FirstDelim(r'.buffer));
    var after := Arrived(cfg, r', tokens[k..], y', rest);
    assert after == Arrived(cfg, r, tokens, y, rest);
    DeliversThen(cfg, r, r', tokens, k, after);
  }

  /** What is delivered in two stretches. */
  lemma DeliversThen(cfg: Config, r: Reader, r': Reader, tokens: seq<string>, k: nat, after: Reader)
    requires k <= |tokens| && Parses(cfg, tokens)
    requires Delivers(cfg, r, tokens[..k], r') && Delivers(cfg, r', tokens[k..], after)
    ensures Delivers(cfg, r, tokens, after)
  {
    hide Collect;
    var rest := Collect(cfg, after).0;
    assert Decoded(cfg, tokens) == Decoded(cfg, tokens[..k]) + Decoded(cfg, tokens[k..]);
    assert Decoded(cfg, tokens[..k]) + (Decoded(cfg, tokens[k..]) + rest) ==
           Decoded(cfg, tokens[..k]) + Decoded(cfg, tokens[k..]) + rest;
  }

  /** Without a delimiter the buffer does not hold the whole array. */
  lemma NotAll(buffer: string, chunks: seq<string>, a: string, y: string, rest: seq<string>, tokens: seq<string>)
    requires Elements(a, tokens) && Partway(buffer, chunks, a, y, rest) && FirstDelim(buffer) == |buffer|
    ensures |buffer| < |a| && chunks != []
  {
    hide Elements;
    if |a| <= |buffer| { HoldsAll(buffer, chunks, a, y, rest, tokens); }
  }

  lemma HoldsAll(buffer: string, chunks: seq<string>, a: string, y: string, rest: seq<string>, tokens: seq<string>)
    requires Elements(a, tokens) && Partway(buffer, chunks, a, y, rest) && |a| <= |buffer|
    ensures FirstDelim(buffer) < |buffer|
  {
    hide Elements;
    ElementsEnd(a, tokens);
    assert IsDelim(buffer[|a| - 1]);
  }

  lemma ReadOn(cfg: Config, r: Reader, a: string, y: string, rest: seq<string>, tokens: seq<string>)
    returns (a': string, y': string, next: Reader)
    requires r.phase.Read? && |r.buffer| < |a| && r.chunks != [] && Elements(a, tokens)
    requires Partway(r.buffer, r.chunks, a, y, rest)
    ensures StepOf(cfg, r) == Move(next, []) && Elements(a', tokens) && Trim(y') == Trim(y)
    ensures Partway(next.buffer, next.chunks, a', y', rest) && |next.chunks| < |r.chunks|
    ensures next == r.(phase := next.phase, buffer := next.buffer, chunks := next.chunks)
    ensures next.phase.Events? || (next.phase.Read? && FirstDelim(next.buffer) == |next.buffer|)
  {
    hide Elements, Trim, Partway;
    var w1, w2 := TrimSplit(r.chunks[0]);
    a', y' := TakeChunk(r.buffer, r.chunks, a, y, rest, tokens, w1, Trim(r.chunks[0]), w2);
    next := StepOf(cfg, r).next;
  }

  /** Only what is counted of an array, not how it was read, decides the reader it leaves behind. */
  lemma SameArrived(cfg: Config, r: Reader, next: Reader, tokens: seq<string>, y: string, rest: seq<string>)
    requires Parses(cfg, tokens) && next == r.(phase := next.phase, buffer := next.buffer, chunks := next.chunks)
    ensures Arrived(cfg, next, tokens, y, rest) == Arrived(cfg, r, tokens, y, rest)
  {
    hide Trim;
  }

  /** The bracket after the last element, or after none. */
  lemma LastElement(cfg: Config, r: Reader, y: string, tokens: seq<string>, i: nat)
    requires r.phase.Events? && |tokens| <= 1 && Answers(cfg, r, tokens) && i == FirstDelim(r.buffer) < |r.buffer|
    requires Trim(r.buffer[..i]) == (if tokens == [] then "" else tokens[0]) && (tokens != [] ==> tokens[0] != "")
    requires r.buffer[i] == ']' && r.buffer[i + 1..] == y
    ensures Delivers(cfg, r, tokens, Arrived(cfg, r, tokens, y, r.chunks))
  {
    hide Trim, FirstDelim, Collect, Delivers;
    if tokens != [] { assert Decoded(cfg, tokens) == [cfg.parse(tokens[0]).value]; }
    DeliversLast(cfg, r, Arrived(cfg, r, tokens, y, r.chunks), tokens);
  }

  /** However an array and what follows it are cut, the reader gets inside its bracket. */
  lemma {:induction false} OpenArray(cfg: Config, r: Reader, a: string, y: string, rest: seq<string>,
                                     tokens: seq<string>)
    returns (r': Reader, a': string, y': string)
    requires r.phase.ReadNewResponse? && r.buffer == "" && IsArray(a, tokens) && Cut(r.chunks, a, y, rest)
    ensures Collect(cfg, r) == Collect(cfg, r')
    ensures r' == r.(phase := Events, buffer := r'.buffer, chunks := r'.chunks)
    ensures Elements(a', tokens) && Partway(r'.buffer, r'.chunks, a', y', rest) && Trim(y') == Trim(y)
    decreases |r.chunks|
  {
    hide Elements, FirstDelim, Collect, Trim, IsArray, Partway;
    var t := Trim(r.chunks[0]);
    a', y' := FirstChunk(r.chunks, a, y, rest, tokens);
    r' := r.(phase := if t == "" then r.phase else Events,
             buffer := if t == "" then "" else t[1..],
             chunks := r.chunks[1..]);
    assert StepOf(cfg, r) == Move(r', []) by { assert r.buffer + t == t; }
    StepTo(cfg, r, r');
    if t == "" { r', a', y' := OpenArray(cfg, r', a', y', rest, tokens); }
  }

  /** Its events are delivered, and the reader is left with what follows. */
  lemma ArrayArrives(cfg: Config, r: Reader, a: string, y: string, rest: seq<string>, tokens: seq<string>)
    requires r.phase.ReadNewResponse? && r.buffer == ""
    requires IsArray(a, tokens) && Cut(r.chunks, a, y, rest) && Answers(cfg, r, tokens)
    ensures Delivers(cfg, r, tokens, Arrived(cfg, r, tokens, y, rest))
  {
    hide Elements, Collect, AfterArray, Trim, IsArray, Partway;
    var r', a', y' := OpenArray(cfg, r, a, y, rest, tokens);
    ReadElements(cfg, r', a', y', rest, tokens);
    SameArrived(cfg, r, r', tokens, y', rest);
  }

  // ---- what follows the array ------------------------------------------------------------------------

  /** White space after an array is passed over. */
  lemma {:induction false} EosSkips(cfg: Config, r: Reader)
    requires r.phase.ReadEos? && r.buffer == "" && AllWs(Flatten(r.chunks))
    ensures Collect(cfg, r) == Collect(cfg, r.(chunks := []))
    decreases |r.chunks|
  {
    hide Trim, Collect, AllWs;
    if r.chunks != [] {
      var next := r.(chunks := r.chunks[1..]);
      AllWsParts(r.chunks[0], Flatten(r.chunks[1..]));
      TrimWs(r.chunks[0]);
      assert StepOf(cfg, r) == Move(next, []);
      StepTo(cfg, r, next);
      EosSkips(cfg, next);
    }
  }

  lemma AllWsParts(s: string, t: string)
    ensures AllWs(s + t) <==> AllWs(s) && AllWs(t)
  {
    if AllWs(s + t) {
      assert s == (s + t)[..|s|] && t == (s + t)[|s|..];
    }
  }

  /** Anything else that arrives fails; and so does any chunk at all once something else is in the buffer. */
  lemma {:induction false} EosFails(cfg: Config, r: Reader)
    requires r.phase.ReadEos? && (if r.buffer != "" then r.chunks != [] else !AllWs(Flatten(r.chunks)))
    ensures Collect(cfg, r) == ([], Failed)
    decreases |r.chunks|
  {
    hide Trim, Collect, AllWs;
    assert AllWs("") by { NothingIsWs(); }
    AllWsParts(r.chunks[0], Flatten(r.chunks[1..]));
    TrimWs(r.chunks[0]);
    CollectStep(cfg, r);
    if r.buffer == "" && AllWs(r.chunks[0]) {
      EosFails(cfg, r.(chunks := r.chunks[1..]));
    }
  }

  lemma NothingIsWs()
    ensures AllWs("")
  {
  }

  /**
   A response that starts with a well-formed array answering the request, whatever text follows the array and wherever
   the whole is cut. The events of the array are always delivered, in order. White space after the array, and any text
   after an array that leaves no event to go by, make no difference. Other text after it ends the stream, and whether
   with an error depends on the cutting: it is overlooked if and only if the stream is up to date and the chunk that
   completes the array is the last one. A chunk after such text fails, even if it is blank.
   */
  lemma ResponseIsDelivered(cfg: Config, r: Reader, arr: string, trailing: string, tokens: seq<string>)
    requires r.phase.ReadNewResponse? && r.buffer == "" && Flatten(r.chunks) == arr + trailing
    requires IsArray(arr, tokens) && Answers(cfg, r, tokens)
    ensures var after := AfterArray(cfg, r, tokens);
      if AllWs(trailing) || after.phase.Eod? then Delivers(cfg, r, tokens, after)
      else
        var overlooked := UpToDate(after) && LastCompletes(r.chunks, arr);
        Collect(cfg, r) == (Decoded(cfg, tokens), if overlooked then Closed else Failed)
  {
    hide Elements, Collect, Trim, LastCompletes, AllWs, Decoded;
    assert arr != "" by { assert TrimStart("") == ""; }
    var y, rest := CutAt(r.chunks, arr, trailing);
    ArrayArrives(cfg, r, arr, y, rest, tokens);
    var after, arrived := AfterArray(cfg, r, tokens), Arrived(cfg, r, tokens, y, rest);
    AllWsParts(y, Flatten(rest));
    TrimWs(y);
    CollectStep(cfg, arrived);
    CollectStep(cfg, after);
    if after.phase.ReadEos? {
      if AllWs(trailing) {
        EosSkips(cfg, arrived);
      } else if AllWs(y) || rest != [] {
        assert Flatten([]) == "" && AllWs("") by { NothingIsWs(); }
        EosFails(cfg, arrived);
      }
    }
    assert Decoded(cfg, tokens) + [] == Decoded(cfg, tokens);
  }

  /** A well-formed response: an array and nothing but white space around it. */
  predicate WellFormed(text: string, arr: string, tokens: seq<string>) {
    IsArray(arr, tokens) && arr <= text && AllWs(text[|arr|..])
  }

  lemma WellFormedDelivered(cfg: Config, r: Reader, arr: string, tokens: seq<string>)
    requires r.phase.ReadNewResponse? && r.buffer == ""
    requires WellFormed(Flatten(r.chunks), arr, tokens) && Answers(cfg, r, tokens)
    ensures Delivers(cfg, r, tokens, AfterArray(cfg, r, tokens))
  {
    hide Collect, IsArray, Delivers;
    var text := Flatten(r.chunks);
    assert text == arr + text[|arr|..];
    ResponseIsDelivered(cfg, r, arr, text[|arr|..], tokens);
  }

  /** Two ways of cutting the same well-formed response give the same events and the same ending. */
  lemma ChunksDoNotMatter(cfg: Config, r1: Reader, r2: Reader, arr: string, tokens: seq<string>)
    requires r1.phase.ReadNewResponse? && r1.buffer == "" && r2 == r1.(chunks := r2.chunks)
    requires Flatten(r1.chunks) == Flatten(r2.chunks)
    requires WellFormed(Flatten(r1.chunks), arr, tokens) && Answers(cfg, r1, tokens)
    ensures Collect(cfg, r1) == Collect(cfg, r2)
  {
    hide Collect, WellFormed;
    WellFormedDelivered(cfg, r1, arr, tokens);
    WellFormedDelivered(cfg, r2, arr, tokens);
  }

  /**
   Anything but white space after the array does: in the chunk that completes the array it goes unnoticed when the
   stream is up to date, in a chunk of its own it is an error.
   */
  lemma TrailingDataDependsOnChunks(cfg: Config, r: Reader, arr: string, trailing: string, tokens: seq<string>)
    requires r.phase.ReadNewResponse? && r.buffer == "" && IsArray(arr, tokens) && Answers(cfg, r, tokens)
    requires !AllWs(trailing) && AfterArray(cfg, r, tokens).phase.ReadEos? && UpToDate(AfterArray(cfg, r, tokens))
    ensures Collect(cfg, r.(chunks := [arr + trailing])) == (Decoded(cfg, tokens), Closed)
    ensures Collect(cfg, r.(chunks := [arr, trailing])) == (Decoded(cfg, tokens), Failed)
  {
    hide Collect, AllWs, Elements, Decoded;
    assert arr != "" by { assert TrimStart("") == ""; }
    var whole, cut := [arr + trailing], [arr, trailing];
    assert arr + trailing + "" == arr + trailing == arr + (trailing + "");
    assert whole[1..] == [] && cut[1..] == [trailing] && [trailing][1..] == [] && Flatten([]) == "";
    assert Flatten([trailing]) == trailing + "";
    assert whole[..0] == [] && cut[..1] == [arr] && Flatten([arr]) == arr + "";
    ResponseIsDelivered(cfg, r.(chunks := whole), arr, trailing, tokens);
    ResponseIsDelivered(cfg, r.(chunks := cut), arr, trailing, tokens);
  }

  /** The smallest case: `[a]x` closes the stream, `[a]` and then `x` is an error. */
  lemma TrailingDataExample() returns (cfg: Config, whole: Reader, cut: Reader)
    ensures whole.phase.ReadNewResponse? && whole.buffer == "" && cut == whole.(chunks := cut.chunks)
    ensures whole.chunks == ["[a]" + "x"] && cut.chunks == ["[a]", "x"]
    ensures Collect(cfg, whole).1 == Closed && Collect(cfg, cut).1 == Failed
  {
    hide Collect, Elements, IsWs;
    var e := Event("h", 0, "");
    cfg := Config((s: string) => Some(e), None, None);
    var r := Start(cfg, 0, None, []).(phase := ReadNewResponse, requestCount := 1);
    whole, cut := r.(chunks := ["[a]" + "x"]), r.(chunks := ["[a]", "x"]);
    SingleElement();
    assert !AllWs("x") by { SomeNotWs(); assert "x"[0] == 'x'; }
    TrailingDataDependsOnChunks(cfg, r, "[a]", "x", ["a"]);
  }

  lemma SomeNotWs()
    ensures !IsWs('a') && !IsWs('[') && !IsWs('x')
  {
  }

  lemma SingleElement()
    ensures IsArray("[a]", ["a"])
  {
    hide IsWs, Trim, FirstDelim;
    SomeNotWs();
    assert "[a]"[1..] == "a]" && "a]"[..1] == "a" && "" + "a" + "" == "a";
    FirstDelimAt("a]", 1);
    TrimOf("", "a", "");
  }

  /** The events of a response, asked for from the start of a stream. */
  predicate FirstPage(cfg: Config, sinceHeight: nat, sinceHash: Option<string>, response: Response, arr: string,
                      tokens: seq<string>)
  {
    && response.Body? && WellFormed(Flatten(response.chunks), arr, tokens) && Parses(cfg, tokens)
    && (LimitOf(cfg).Some? ==> |tokens| <= LimitOf(cfg).value)
    && (tokens != [] ==>
          var e := cfg.parse(tokens[0]).value;
          e.height == sinceHeight && (sinceHash.Some? ==> sinceHash.value == e.hash))
  }

  /**
   A stream whose first response reaches the latest height is that response's events, then closed. An empty array closes
   the stream if nothing was to be had, and is an error otherwise.
   */
  lemma OnePageStream(cfg: Config, sinceHeight: nat, sinceHash: Option<string>, response: Response, more: seq<Response>,
                      arr: string, tokens: seq<string>)
    requires FirstPage(cfg, sinceHeight, sinceHash, response, arr, tokens)
    requires tokens != [] ==> cfg.parse(tokens[|tokens| - 1]).value.height >= response.latestHeight
    ensures var upToDate := tokens != [] || sinceHeight >= response.latestHeight || cfg.limit == Some(0);
      Collect(cfg, Start(cfg, sinceHeight, sinceHash, [response] + more)) ==
      (Decoded(cfg, tokens), if upToDate then Closed else Failed)
  {
    hide WellFormed, Decoded, Collect;
    var start := Start(cfg, sinceHeight, sinceHash, [response] + more);
    var r := FetchStep(cfg, start).next;
    StepTo(cfg, start, r);
    WellFormedDelivered(cfg, r, arr, tokens);
    CollectStep(cfg, AfterArray(cfg, r, tokens));
    assert Decoded(cfg, tokens) + [] == Decoded(cfg, tokens);
  }

  /**
   Across responses delivery is not exactly-once: a second response that answers the request for more starts with the
   event that ended the first, and that event is delivered again.
   */
  lemma NextPageRepeatsBoundary(cfg: Config, r: Reader, arr: string, tokens: seq<string>, arr2: string,
                                tokens2: seq<string>)
    requires r.phase.ReadNewResponse? && r.buffer == "" && tokens != [] && tokens2 != []
    requires WellFormed(Flatten(r.chunks), arr, tokens) && Answers(cfg, r, tokens)
    requires !UpToDate(AfterArray(cfg, r, tokens))
    requires r.responses != [] && r.responses[0].Body? && WellFormed(Flatten(r.responses[0].chunks), arr2, tokens2)
    requires Answers(cfg, FetchStep(cfg, AfterArray(cfg, r, tokens).(phase := Fetch)).next, tokens2)
    ensures Decoded(cfg, tokens) + Decoded(cfg, tokens2) <= Collect(cfg, r).0
    ensures Decoded(cfg, tokens2)[0].hash == Decoded(cfg, tokens)[|tokens| - 1].hash
    ensures Decoded(cfg, tokens2)[0].height == Decoded(cfg, tokens)[|tokens| - 1].height
  {
    hide Collect, WellFormed;
    WellFormedDelivered(cfg, r, arr, tokens);
    var after := AfterArray(cfg, r, tokens);
    StepTo(cfg, after, after.(phase := Fetch));
    var r2 := FetchStep(cfg, after.(phase := Fetch)).next;
    StepTo(cfg, after.(phase := Fetch), r2);
    WellFormedDelivered(cfg, r2, arr2, tokens2);
  }

  lemma CollectStep(cfg: Config, r: Reader)
    ensures match StepOf(cfg, r)
      case Stop(ending) => Collect(cfg, r) == ([], ending)
      case Move(next, out) => Collect(cfg, r) == (out + Collect(cfg, next).0, Collect(cfg, next).1)
  {
    hide StepOf;
  }

  // ---- the stream itself ----------------------------------------------------------------------------

  datatype Pulled = Enqueued(event: Event) | Done(ending: Ending)

  /** The underlying source of the stream: `pull` runs the loop until it has one event, or the stream ends. */
  class EventSource {
    const cfg: Config
    var phase: Phase
    var buffer: string
    var count: nat
    var sinceHeight: int
    var sinceHash: Option<string>
    var remaining: Option<int>
    var requestLimit: Option<int>
    var requestCount: nat
    var latestHeight: int
    var current: Option<Event>
    var chunks: seq<string>
    var responses: seq<Response>

    ghost function Value(): Reader
      reads this
    {
      Reader(phase, buffer, count, sinceHeight, sinceHash, remaining, requestLimit, requestCount, latestHeight,
          current, chunks, responses)
    }

    constructor (cfg: Config, sinceHeight: nat, sinceHash: Option<string>, responses: seq<Response>)
      ensures this.cfg == cfg && Value() == Start(cfg, sinceHeight, sinceHash, responses)
    {
      this.cfg := cfg;
      phase, buffer, count, current, chunks := Fetch, "", 0, None, [];
      remaining, requestLimit, requestCount, latestHeight := cfg.limit, None, 0, 0;
      this.sinceHeight, this.sinceHash, this.responses := sinceHeight, sinceHash, responses;
    }

    method FetchResponse() returns (ending: Option<Ending>)
      modifies this
      ensures FetchStep(cfg, old(Value())) == if ending.Some? then Stop(ending.value) else Move(Value(), [])
    {
      if responses == [] || responses[0].Refused? { return Some(Failed); }
      requestLimit := Least(if cfg.limit.Some? then cfg.limit else cfg.maxEvents, remaining);
      latestHeight, chunks, responses := responses[0].latestHeight, responses[0].chunks, responses[1..];
      requestCount := requestCount + 1;
      phase, count := ReadNewResponse, 0;
      return None;
    }

    method ReadChunk() returns (ending: Option<Ending>)
      modifies this
      ensures ReadStep(old(Value())) == if ending.Some? then Stop(ending.value) else Move(Value(), [])
    {
      if chunks == [] {
        if remaining == Some(0) || sinceHeight >= latestHeight {
          return Some(Closed);
        } else if phase.ReadNewResponse? || buffer != "" {
          return Some(Failed);
        }
        phase := Fetch;
        return None;
      }
      buffer, chunks := buffer + Trim(chunks[0]), chunks[1..];
      if buffer == "" { return None; }
      if phase.ReadNewResponse? {
        if buffer[0] != '[' { return Some(Failed); }
        buffer := buffer[1..];
      } else if phase.ReadEos? {
        return Some(Failed);
      }
      phase := Events;
      return None;
    }

    /** One look at the buffer: an event, or a delimiter on its own, or nothing complete yet. */
    method ParseEvent() returns (out: Option<Event>, ending: Option<Ending>)
      modifies this
      ensures EventsStep(cfg, old(Value())) ==
        if ending.Some? then Stop(ending.value) else Move(Value(), if out.Some? then [out.value] else [])
    {
      hide FirstDelim, Trim, AfterDelim;
      out := None;
      var i := FirstDelim(buffer);
      if i == |buffer| {
        phase := Read;
        return out, None;
      }
      var token := Trim(buffer[..i]);
      if token != "" {
        if requestLimit == Some(count) { return out, Some(Failed); }
        var parsed := cfg.parse(token);
        if parsed.None? { return out, Some(Failed); }
        current := parsed;
        if count == 0 {
          if parsed.value.height != sinceHeight || (sinceHash.Some? && sinceHash.value != parsed.value.hash) {
            return out, Some(Failed);
          }
        }
        if count != 0 || requestCount != 0 {
          out := parsed;
          remaining := if remaining.Some? then Some(remaining.value - 1) else None;
        }
        count := count + 1;
      }
      var ok := PassDelimiter(i);
      return out, if ok then None else Some(Failed);
    }

    method PassDelimiter(i: nat) returns (ok: bool)
      requires i < |buffer|
      modifies this
      ensures AfterDelim(old(Value()), i) == if ok then Some(Value()) else None
    {
      if buffer[i] == ']' {
        if current.Some? {
          sinceHeight, sinceHash, phase := current.value.height, Some(current.value.hash), ReadEos;
        } else {
          phase := Eod;
        }
        buffer := Trim(buffer[i + 1..]);
      } else if current.Some? {
        buffer := TrimStart(buffer[i + 1..]);
      } else {
        return false;
      }
      return true;
    }

    /** The next event of the stream, or its end: exactly the head of what the stream has to give. */
    method Pull() returns (p: Pulled)
      modifies this
      ensures p.Enqueued? ==>
        Collect(cfg, old(Value())) == ([p.event] + Collect(cfg, Value()).0, Collect(cfg, Value()).1)
        && |responses| <= old(|responses|)
      ensures p.Done? ==> Collect(cfg, old(Value())) == ([], p.ending)
      ensures p.Enqueued? ==>
        (old(|responses|), old(|chunks|), old(|buffer|), old(Rank(phase))
         decreases to |responses|, |chunks|, |buffer|, Rank(phase))
    {
      hide Collect, FetchStep, ReadStep, EventsStep;
      while true
        invariant Collect(cfg, Value()) == Collect(cfg, old(Value()))
        invariant Value() == old(Value())
          || (old(|responses|), old(|chunks|), old(|buffer|), old(Rank(phase))
              decreases to |responses|, |chunks|, |buffer|, Rank(phase))
        decreases |responses|, |chunks|, |buffer|, Rank(phase)
      {
        ghost var before := Value();
        StepDecreases(cfg, before);
        var ending, out := None, None;
        match phase {
          case Fetch => ending := FetchResponse();
          case Events => out, ending := ParseEvent();
          case Eod => ending := Some(if remaining == Some(0) || sinceHeight >= latestHeight then Closed else Failed);
          case _ => ending := ReadChunk();
        }
        CollectStep(cfg, before);
        if ending.Some? { return Done(ending.value); }
        if out.Some? { return Enqueued(out.value); }
        StepTo(cfg, before, Value());
      }
    }

    /** `collectEventStream`: pulls until the end. */
    method CollectAll() returns (events: seq<Event>, ending: Ending)
      modifies this
      ensures (events, ending) == Collect(cfg, old(Value()))
    {
      hide Collect;
      events := [];
      assert [] + Collect(cfg, Value()).0 == Collect(cfg, Value()).0;
      while true
        invariant Collect(cfg, old(Value())) == (events + Collect(cfg, Value()).0, Collect(cfg, Value()).1)
        decreases |responses|, |chunks|, |buffer|, Rank(phase)
      {
        ghost var rest := Collect(cfg, Value()).0;
        var p := Pull();
        if p.Done? {
          assert events + [] == events;
          return events, p.ending;
        }
        assert events + ([p.event] + Collect(cfg, Value()).0) == events + [p.event] + Collect(cfg, Value()).0;
        events := events + [p.event];
      }
    }
  }
}
