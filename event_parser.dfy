/**
  Classification of one complete line of the reply stream.

  A line is trimmed (`String.prototype.trim`); it is an event only when the
  trimmed text starts with `data:`, and its payload is the trimmed text with
  `data:` and the whitespace right after it removed (the regular expression `^data:\s*` anchored at the start).
  The payload then goes to `JSON.parse`, which is outside this model: it is
  an oracle that yields the token text or fails.
*/
module EventParser {
  import opened Sequences

  /**
    The characters that `trim` strips and `\s` matches in ECMAScript: the
    WhiteSpace and LineTerminator code points (tab, line tabulation, form feed,
    space, no-break space, the byte order mark, every Unicode space separator,
    line feed, carriage return, line and paragraph separators).
  */
  predicate IsWhitespace(c: char): (r: bool)
    ensures c == '\r' ==> r
    ensures '!' <= c <= '~' ==> !r
  {
    || c == '\t' || c == '\n' || c == '\U{B}' || c == '\U{C}' || c == '\r' || c == ' '
    || c == '\U{A0}' || c == '\U{1680}' || ('\U{2000}' <= c <= '\U{200A}')
    || c == '\U{2028}' || c == '\U{2029}' || c == '\U{202F}' || c == '\U{205F}'
    || c == '\U{3000}' || c == '\U{FEFF}'
  }

  predicate AllWhitespace(s: string) {
    forall k :: 0 <= k < |s| ==> IsWhitespace(s[k])
  }

  /** How many whitespace characters `s` starts with: the first character after them is not whitespace. */
  function LeadingWhitespace(s: string): (n: nat)
    ensures n <= |s|
    ensures n < |s| ==> !IsWhitespace(s[n])
  {
    if s != [] && IsWhitespace(s[0]) then 1 + LeadingWhitespace(s[1..]) else 0
  }

  /** Every character `LeadingWhitespace` counts is whitespace. */
  lemma {:induction false} LeadingAreWhitespace(s: string)
    ensures AllWhitespace(s[..LeadingWhitespace(s)])
  {
    if s != [] && IsWhitespace(s[0]) {
      var n := LeadingWhitespace(s);
      LeadingAreWhitespace(s[1..]);
      assert s[..n] == [s[0]] + s[1..][..n - 1];
    }
  }

  /** How many whitespace characters `s` ends with: the last character before them is not whitespace. */
  function TrailingWhitespace(s: string): (n: nat)
    ensures n <= |s|
    ensures n < |s| ==> !IsWhitespace(s[|s| - n - 1])
    ensures s != [] && !IsWhitespace(s[0]) ==> n < |s|
  {
    if s != [] && IsWhitespace(s[|s| - 1]) then
      var init := s[..|s| - 1];
      assert init != [] ==> init[0] == s[0];
      1 + TrailingWhitespace(init)
    else 0
  }

  /** Every character `TrailingWhitespace` counts is whitespace. */
  lemma {:induction false} TrailingAreWhitespace(s: string)
    ensures AllWhitespace(s[|s| - TrailingWhitespace(s)..])
  {
    if s != [] && IsWhitespace(s[|s| - 1]) {
      var init := s[..|s| - 1];
      var n := TrailingWhitespace(s);
      TrailingAreWhitespace(init);
      forall k | |s| - n <= k < |s| ensures IsWhitespace(s[k]) {
        if k < |s| - 1 {
          assert s[k] == init[|init| - (n - 1)..][k - (|s| - n)];
        }
      }
    }
  }

  /** The text without its leading whitespace. */
  function TrimStart(s: string): string {
    s[LeadingWhitespace(s)..]
  }

  /**
    `s.trim()`: the text between the leading and the trailing whitespace. It is
    empty only when the leading whitespace is the whole text, and otherwise it
    starts and ends with a character that is not whitespace.
  */
  function Trim(s: string): (r: string)
    ensures r == [] <==> LeadingWhitespace(s) == |s|
    ensures r == [] || (!IsWhitespace(r[0]) && !IsWhitespace(r[|r| - 1]))
  {
    var start := TrimStart(s);
    start[..|start| - TrailingWhitespace(start)]
  }

  /** `!s.trim()`: the trimmed text is empty exactly when `s` is all whitespace. */
  lemma TrimEmpty(s: string)
    ensures Trim(s) == [] <==> AllWhitespace(s)
  {
    LeadingAreWhitespace(s);
    if Trim(s) == [] {
      assert s[..|s|] == s;
    } else {
      assert !IsWhitespace(s[LeadingWhitespace(s)]);
    }
  }

  /** The trimmed text is what follows the leading whitespace, less the trailing whitespace. */
  lemma TrimSlices(s: string)
    ensures var front := LeadingWhitespace(s);
      && front + |Trim(s)| <= |s|
      && s == s[..front] + Trim(s) + s[front + |Trim(s)|..]
  {
    var front := LeadingWhitespace(s);
    var start := TrimStart(s);
    var n := |start| - TrailingWhitespace(start);
    assert Trim(s) == start[..n];
    assert start[..n] == s[front..front + n];
    SliceParts(s, front, front + n);
  }

  /** What follows the trimmed text is whitespace only. */
  lemma TrimBackIsWhitespace(s: string)
    ensures LeadingWhitespace(s) + |Trim(s)| <= |s|
    ensures AllWhitespace(s[LeadingWhitespace(s) + |Trim(s)|..])
  {
    var start := TrimStart(s);
    TrailingAreWhitespace(start);
    assert s[LeadingWhitespace(s) + |Trim(s)|..] == start[|Trim(s)|..];
  }

  /**
    Trimming only removes whitespace, and only at the two ends: the text is a
    run of whitespace, the trimmed text, and another run of whitespace.
  */
  lemma TrimParts(s: string)
    ensures var r := Trim(s); var front := LeadingWhitespace(s);
      && front + |r| <= |s|
      && s == s[..front] + r + s[front + |r|..]
      && AllWhitespace(s[..front])
      && AllWhitespace(s[front + |r|..])
  {
    LeadingAreWhitespace(s);
    TrimBackIsWhitespace(s);
    TrimSlices(s);
  }

  predicate StartsWith(s: string, prefix: string) {
    |prefix| <= |s| && s[..|prefix|] == prefix
  }

  const DataField: string := "data:"

  /** A complete line is either a data event carrying a payload or ignored. */
  datatype Line = DataLine(payload: string) | Ignored

  /**
    `line.trim().startsWith("data:")` decides the kind; the payload of a data
    line neither starts nor ends with whitespace.
  */
  function Classify(line: string): (r: Line)
    ensures r.DataLine? <==> StartsWith(Trim(line), DataField)
    ensures r.DataLine? && r.payload != [] ==>
      !IsWhitespace(r.payload[0]) && !IsWhitespace(r.payload[|r.payload| - 1])
  {
    var t := Trim(line);
    if StartsWith(t, DataField) then
      var payload := TrimStart(t[|DataField|..]);
      assert payload != [] ==> payload[|payload| - 1] == t[|t| - 1];
      DataLine(payload)
    else Ignored
  }

  /**
    The payload of a data line is the trimmed line with `data:` and the run of
    whitespace after it removed: `data:`, then whitespace only, then the payload.
  */
  lemma DataPayload(line: string)
    requires Classify(line).DataLine?
    ensures var t := Trim(line); var p := Classify(line).payload;
      && |DataField| + |p| <= |t|
      && t == DataField + t[|DataField|..|t| - |p|] + p
      && AllWhitespace(t[|DataField|..|t| - |p|])
  {
    var t := Trim(line);
    var after := t[|DataField|..];
    var n := LeadingWhitespace(after);
    var p := Classify(line).payload;
    assert p == after[n..];
    var gap := t[|DataField|..|t| - |p|];
    assert AllWhitespace(gap) by {
      LeadingAreWhitespace(after);
      assert gap == after[..n];
    }
    SliceParts(t, |DataField|, |t| - |p|);
    assert t[..|DataField|] == DataField;
  }

  /** What the JSON parser and the read of the `token` field make of a payload. */
  datatype Parsed = Token(text: string) | ParseError

  /** `JSON.parse(payload).token`, given from outside the model. */
  type Parser = string -> Parsed
}
