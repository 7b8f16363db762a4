/** JSON Pointer printing and parsing (RFC 6901 sections 3 and 4), and array indices as decimal strings. */
module Pointer {
  import opened Wrappers

  /** `s.replace(/c/g, sub)` for a single character `c`. */
  function ReplaceChar(s: string, c: char, sub: string): string {
    if s == "" then ""
    else (if s[0] == c then sub else [s[0]]) + ReplaceChar(s[1..], c, sub)
  }

  /** `s.replace(/cd/g, sub)` for a two-character pattern: leftmost matches, never overlapping. */
  function ReplacePair(s: string, c: char, d: char, sub: char): string {
    if s == "" then ""
    else if |s| >= 2 && s[0] == c && s[1] == d then [sub] + ReplacePair(s[2..], c, d, sub)
    else [s[0]] + ReplacePair(s[1..], c, d, sub)
  }

  function Escape(segment: string): string {
    ReplaceChar(ReplaceChar(segment, '~', "~0"), '/', "~1")
  }

  function Unescape(segment: string): string {
    ReplacePair(ReplacePair(segment, '~', '1', '/'), '~', '0', '~')
  }

  /** Unescaping undoes only the `/` half of escaping first, because no `~1` was in the string before. */
  lemma {:induction false} UnescapeSlash(s: string)
    ensures ReplacePair(ReplaceChar(ReplaceChar(s, '~', "~0"), '/', "~1"), '~', '1', '/') == ReplaceChar(s, '~', "~0")
  {
    if s != "" {
      UnescapeSlash(s[1..]);
      var rest := ReplaceChar(s[1..], '~', "~0");
      if s[0] == '~' {
        var tail := "0" + rest;
        assert ReplaceChar(s, '~', "~0") == "~" + tail;
        assert ("~" + tail)[1..] == tail && tail[1..] == rest;
        var e := ReplaceChar(rest, '/', "~1");
        assert ReplaceChar(tail, '/', "~1") == "0" + e;
        var t := "~" + ("0" + e);
        assert ReplaceChar("~" + tail, '/', "~1") == t;
        assert t[1..] == "0" + e && t[1..][1..] == e;
      } else {
        var t := [s[0]] + rest;
        assert ReplaceChar(s, '~', "~0") == t && t[1..] == rest;
        var e := ReplaceChar(rest, '/', "~1");
        if s[0] == '/' {
          assert ("~1" + e)[2..] == e;
        } else {
          assert ([s[0]] + e)[1..] == e;
        }
      }
    }
  }

  lemma {:induction false} UnescapeTilde(s: string)
    ensures ReplacePair(ReplaceChar(s, '~', "~0"), '~', '0', '~') == s
  {
    if s != "" {
      UnescapeTilde(s[1..]);
      var rest := ReplaceChar(s[1..], '~', "~0");
      if s[0] == '~' {
        assert ("~0" + rest)[2..] == rest;
      } else {
        assert ([s[0]] + rest)[1..] == rest;
      }
    }
  }

  /** `unescapePointerSegment(escapePointerSegment(s)) === s` for every string. */
  lemma UnescapeEscape(s: string)
    ensures Unescape(Escape(s)) == s
  {
    UnescapeSlash(s);
    UnescapeTilde(s);
  }

  lemma {:induction false} ReplaceCharRemoves(s: string, c: char, sub: string)
    requires c !in sub
    ensures c !in ReplaceChar(s, c, sub)
  {
    if s != "" {
      ReplaceCharRemoves(s[1..], c, sub);
    }
  }

  /** `parts.join(sep)` */
  function Join(parts: seq<string>, sep: char): string
    requires parts != []
  {
    if |parts| == 1 then parts[0] else parts[0] + [sep] + Join(parts[1..], sep)
  }

  /** Index of the first `sep`, or the length when there is none. */
  function FirstOf(s: string, sep: char): (i: nat)
    ensures i <= |s| && sep !in s[..i]
    ensures i < |s| ==> s[i] == sep
  {
    if s == "" || s[0] == sep then 0 else
      var i := 1 + FirstOf(s[1..], sep);
      assert s[..i] == [s[0]] + s[1..][..i - 1];
      i
  }

  /** `s.split(sep)` */
  function Split(s: string, sep: char): (parts: seq<string>)
    ensures parts != []
    decreases |s|
  {
    var i := FirstOf(s, sep);
    if i == |s| then [s] else [s[..i]] + Split(s[i + 1..], sep)
  }

  lemma {:induction false} SplitJoin(parts: seq<string>, sep: char)
    requires parts != [] && forall p <- parts :: sep !in p
    ensures Split(Join(parts, sep), sep) == parts
  {
    var s, p := Join(parts, sep), parts[0];
    assert p in parts;
    var i := FirstOf(s, sep);
    if |parts| == 1 {
      assert i == |s|;
    } else {
      var rest := Join(parts[1..], sep);
      assert s == p + [sep] + rest && s[..|p|] == p && s[|p|] == sep;
      assert forall j | 0 <= j < |p| :: s[j] == p[j] && p[j] in p;
      assert i <= |p| by { assert sep in s[..|p| + 1]; }
      assert i == |p|;
      assert s[i + 1..] == rest;
      SplitJoin(parts[1..], sep);
    }
  }

  lemma {:induction false} JoinSplit(s: string, sep: char)
    ensures Join(Split(s, sep), sep) == s
    decreases |s|
  {
    var i := FirstOf(s, sep);
    if i < |s| {
      JoinSplit(s[i + 1..], sep);
      assert Split(s, sep)[1..] == Split(s[i + 1..], sep);
      assert s == s[..i] + [sep] + s[i + 1..];
    }
  }

  function EscapeAll(segments: seq<string>): seq<string> {
    seq(|segments|, i requires 0 <= i < |segments| => Escape(segments[i]))
  }

  function UnescapeAll(parts: seq<string>): seq<string> {
    seq(|parts|, i requires 0 <= i < |parts| => Unescape(parts[i]))
  }

  function SegmentsToPointer(segments: seq<string>): string {
    if segments == [] then "" else "/" + Join(EscapeAll(segments), '/')
  }

  /** None stands for the `Invalid JSON Pointer` error. */
  function PointerToSegments(pointer: string): Option<seq<string>> {
    if pointer == "" then Some([])
    else if pointer[0] != '/' then None
    else Some(UnescapeAll(Split(pointer[1..], '/')))
  }

  /** Parsing a printed pointer gives the segments back, whatever characters they contain. */
  lemma PointerRoundTrip(segments: seq<string>)
    ensures PointerToSegments(SegmentsToPointer(segments)) == Some(segments)
  {
    if segments != [] {
      var parts := EscapeAll(segments);
      forall i | 0 <= i < |parts|
        ensures '/' !in parts[i] && Unescape(parts[i]) == segments[i]
      {
        ReplaceCharRemoves(ReplaceChar(segments[i], '~', "~0"), '/', "~1");
        UnescapeEscape(segments[i]);
      }
      SplitJoin(parts, '/');
      assert ("/" + Join(parts, '/'))[1..] == Join(parts, '/');
      assert UnescapeAll(parts) == segments;
    }
  }

  /** RFC 6901 section 3: every `~` of a segment is followed by `0` or `1`. */
  predicate WellEscaped(s: string) {
    forall i | 0 <= i < |s| && s[i] == '~' :: i + 1 < |s| && (s[i + 1] == '0' || s[i + 1] == '1')
  }

  lemma {:induction false} EscapeIsWellEscaped(s: string)
    ensures WellEscaped(Escape(s)) && '/' !in Escape(s)
  {
    ReplaceCharRemoves(ReplaceChar(s, '~', "~0"), '/', "~1");
    if s != "" {
      EscapeIsWellEscaped(s[1..]);
      EscapeCons(s);
    }
  }

  /** Escaping works character by character. */
  lemma EscapeCons(s: string)
    requires s != ""
    ensures Escape(s) == (if s[0] == '~' then "~0" else if s[0] == '/' then "~1" else [s[0]]) + Escape(s[1..])
  {
    var rest := ReplaceChar(s[1..], '~', "~0");
    if s[0] == '~' {
      var tail := "0" + rest;
      assert ("~" + tail)[1..] == tail && tail[1..] == rest;
      assert "~0" + rest == "~" + tail;
      assert ReplaceChar(tail, '/', "~1") == "0" + ReplaceChar(rest, '/', "~1");
    } else {
      assert ([s[0]] + rest)[1..] == rest;
    }
  }

  /** Escaping a segment of a pointer read back is the segment itself exactly when the segment was well escaped. */
  lemma {:induction false} EscapeUnescape(s: string)
    requires WellEscaped(s) && '/' !in s
    ensures Escape(Unescape(s)) == s
    decreases |s|
  {
    if s != "" {
      if s[0] == '~' {
        var rest := s[2..];
        assert WellEscaped(rest) by {
          forall i | 0 <= i < |rest| && rest[i] == '~'
            ensures i + 1 < |rest| && (rest[i + 1] == '0' || rest[i + 1] == '1')
          {
            assert s[i + 2] == '~';
          }
        }
        EscapeUnescape(rest);
        var mid := ReplacePair(rest, '~', '1', '/');
        if s[1] == '1' {
          assert ReplacePair(s, '~', '1', '/') == "/" + mid;
          assert ("/" + mid)[1..] == mid;
          assert Unescape(s) == "/" + Unescape(rest);
        } else {
          assert s[1..][1..] == rest;
          assert ReplacePair(s, '~', '1', '/') == "~" + ("0" + mid);
          assert ("~" + ("0" + mid))[2..] == mid;
          assert Unescape(s) == "~" + Unescape(rest);
        }
        EscapeCons(Unescape(s));
        assert Unescape(s)[1..] == Unescape(rest);
        assert s == s[..2] + rest;
      } else {
        var rest := s[1..];
        assert WellEscaped(rest) by {
          forall i | 0 <= i < |rest| && rest[i] == '~'
            ensures i + 1 < |rest| && (rest[i + 1] == '0' || rest[i + 1] == '1')
          {
            assert s[i + 1] == '~';
          }
        }
        EscapeUnescape(rest);
        var mid := ReplacePair(rest, '~', '1', '/');
        assert ([s[0]] + mid)[1..] == mid;
        assert Unescape(s) == [s[0]] + Unescape(rest);
        EscapeCons(Unescape(s));
        assert Unescape(s)[1..] == Unescape(rest);
      }
    }
  }

  /** Printing a pointer that was read gives it back if and only if it is in the RFC 6901 grammar. */
  lemma PrintParsedPointer(pointer: string)
    requires pointer == "" || pointer[0] == '/'
    ensures SegmentsToPointer(PointerToSegments(pointer).value) == pointer <==> WellEscaped(pointer)
  {
    if pointer != "" {
      var parts := Split(pointer[1..], '/');
      JoinSplit(pointer[1..], '/');
      assert pointer == "/" + pointer[1..];
      var again := EscapeAll(UnescapeAll(parts));
      if WellEscaped(pointer) {
        SplitWellEscaped(pointer[1..]);
        forall i | 0 <= i < |parts| ensures again[i] == parts[i] { EscapeUnescape(parts[i]); }
        assert again == parts;
      } else if Join(again, '/') == pointer[1..] {
        forall p | p in again ensures WellEscaped(p) {
          var i :| 0 <= i < |again| && again[i] == p;
          EscapeIsWellEscaped(UnescapeAll(parts)[i]);
        }
        JoinWellEscaped(again);
        assert WellEscaped(pointer) by {
          forall i | 0 <= i < |pointer| && pointer[i] == '~'
            ensures i + 1 < |pointer| && (pointer[i + 1] == '0' || pointer[i + 1] == '1')
          {
            assert pointer[1..][i - 1] == '~';
          }
        }
      }
    }
  }

  lemma {:induction false} JoinWellEscaped(parts: seq<string>)
    requires parts != [] && forall p <- parts :: WellEscaped(p)
    ensures WellEscaped(Join(parts, '/'))
  {
    assert parts[0] in parts;
    if |parts| > 1 {
      JoinWellEscaped(parts[1..]);
      var a, b := parts[0], Join(parts[1..], '/');
      forall i | 0 <= i < |Join(parts, '/')| && Join(parts, '/')[i] == '~'
        ensures i + 1 < |Join(parts, '/')| && (Join(parts, '/')[i + 1] == '0' || Join(parts, '/')[i + 1] == '1')
      {
        if i < |a| {
          assert a[i] == '~';
        } else {
          assert b[i - |a| - 1] == '~';
        }
      }
    }
  }

  lemma {:induction false} SplitWellEscaped(s: string)
    requires WellEscaped("/" + s)
    ensures forall p <- Split(s, '/') :: WellEscaped(p) && '/' !in p
    decreases |s|
  {
    assert WellEscaped(s) by {
      forall i | 0 <= i < |s| && s[i] == '~'
        ensures i + 1 < |s| && (s[i + 1] == '0' || s[i + 1] == '1')
      {
        var t := "/" + s;
        assert t[i + 1] == '~' && i + 2 < |t| && t[i + 2] == s[i + 1];
      }
    }
    var i := FirstOf(s, '/');
    assert WellEscaped(s[..i]);
    if i < |s| {
      var rest := s[i + 1..];
      assert WellEscaped("/" + rest) by {
        assert "/" + rest == s[i..];
      }
      SplitWellEscaped(rest);
    } else {
      assert s[..i] == s;
    }
  }

  // ---- array indices -------------------------------------------------

  predicate Digit(c: char) { '0' <= c <= '9' }

  function DigitChar(d: nat): (c: char)
    requires d < 10
  {
    '0' + d as char
  }

  /** `String(n)` for a non-negative integer. */
  function PrintIndex(n: nat): (s: string)
    ensures s != "" && forall c <- s :: Digit(c)
  {
    if n < 10 then [DigitChar(n)] else PrintIndex(n / 10) + [DigitChar(n % 10)]
  }

  function DigitsValue(s: string): nat
    requires forall c <- s :: Digit(c)
  {
    if s == "" then 0
    else
      var last := s[|s| - 1];
      assert last in s && Digit(last);
      DigitsValue(s[..|s| - 1]) * 10 + (last as int - '0' as int)
  }

  /** `Number(s)` when it is a non-negative integer; the empty string counts as 0, as in JavaScript. */
  function ParseIndex(s: string): Option<nat> {
    if forall c <- s :: Digit(c) then Some(DigitsValue(s)) else None
  }

  /** A printed array index reads back as the same number. */
  lemma {:induction false} ParsePrintIndex(n: nat)
    ensures ParseIndex(PrintIndex(n)) == Some(n)
  {
    var s := PrintIndex(n);
    if n < 10 {
      assert |s| == 1 && s[..|s| - 1] == [];
      assert DigitsValue(s[..|s| - 1]) == 0;
      assert s[|s| - 1] as int - '0' as int == n;
      assert DigitsValue(s) == DigitsValue(s[..|s| - 1]) * 10 + n;
    } else {
      ParsePrintIndex(n / 10);
      assert s[..|s| - 1] == PrintIndex(n / 10);
    }
  }
}
