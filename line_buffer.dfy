/**
  The line buffer of the streaming reply reader.

  The decoded text received so far is split on "\n" exactly as JavaScript's
  `String.prototype.split("\n")` does: the result always has at least one
  segment, and the segments are the maximal runs of text between line feeds.
  Every segment but the last is a complete line; the last one is kept as the
  buffer and prefixed to the next chunk.
*/
module LineBuffer {

  /** No segment contains a line feed. */
  predicate NoNewlines(segs: seq<string>) {
    forall k :: 0 <= k < |segs| ==> '\n' !in segs[k]
  }

  /** The segments glued together with "\n" between neighbours (`segs.join("\n")`). */
  function Join(segs: seq<string>): string
    requires |segs| >= 1
  {
    if |segs| == 1 then segs[0] else segs[0] + "\n" + Join(segs[1..])
  }

  /** `s.split("\n")`: the segments between line feeds, which join back to `s`. */
  function Split(s: string): (r: seq<string>)
    ensures |r| >= 1
    ensures NoNewlines(r)
    ensures Join(r) == s
  {
    if s == [] then [""]
    else
      var t := Split(s[1..]);
      if s[0] == '\n' then
        assert ([""] + t)[1..] == t;
        [""] + t
      else
        var r := [[s[0]] + t[0]] + t[1..];
        assert r[1..] == t[1..];
        assert |t| > 1 ==> Join(t) == t[0] + "\n" + Join(t[1..]);
        r
  }

  /** Joining two non-empty runs of segments puts one "\n" between them. */
  lemma {:induction false} JoinAppend(x: seq<string>, y: seq<string>)
    requires |x| >= 1 && |y| >= 1
    ensures Join(x + y) == Join(x) + "\n" + Join(y)
  {
    if |x| == 1 {
      assert (x + y)[1..] == y;
    } else {
      assert (x + y)[1..] == x[1..] + y;
      JoinAppend(x[1..], y);
    }
  }

  /** Splitting undoes joining: segments free of line feeds are exactly what `Split` recovers. */
  lemma {:induction false} SplitJoin(segs: seq<string>)
    requires |segs| >= 1 && NoNewlines(segs)
    ensures Split(Join(segs)) == segs
    decreases |Join(segs)|
  {
    var s := Join(segs);
    var head := segs[0];
    if |segs| == 1 {
      if head != [] {
        var rest := [head[1..]];
        assert Join(rest) == s[1..];
        SplitJoin(rest);
      }
    } else {
      var tail := segs[1..];
      assert s == head + "\n" + Join(tail);
      if head == [] {
        assert s[1..] == Join(tail);
        SplitJoin(tail);
      } else {
        var rest := [head[1..]] + tail;
        assert rest[1..] == tail;
        assert Join(rest) == s[1..];
        SplitJoin(rest);
        assert s[0] == head[0] && head == [head[0]] + head[1..];
        assert segs == [head] + tail;
      }
    }
  }

  /** The lines ended by a "\n": every segment of the split but the last. */
  function CompleteLines(text: string): (lines: seq<string>)
    ensures NoNewlines(lines)
  {
    var segs := Split(text);
    segs[..|segs| - 1]
  }

  /**
    The text after the last "\n" (the whole text when there is none): it holds no
    line feed, it ends the text, and it is either all of it or preceded by a "\n".
  */
  function Remainder(text: string): (rest: string)
    ensures '\n' !in rest
    ensures |rest| <= |text| && rest == text[|text| - |rest|..]
    ensures |rest| < |text| ==> text[|text| - |rest| - 1] == '\n'
  {
    var segs := Split(text);
    var rest := segs[|segs| - 1];
    if |segs| == 1 then rest
    else
      assert segs == segs[..|segs| - 1] + [rest];
      JoinAppend(segs[..|segs| - 1], [rest]);
      rest
  }

  /**
    The emitted lines, joined by "\n", then a "\n", then the retained buffer,
    give back the text; there is no complete line exactly when the text holds no "\n".
  */
  lemma Reassemble(text: string)
    ensures CompleteLines(text) == [] <==> '\n' !in text
    ensures CompleteLines(text) == [] ==> Remainder(text) == text
    ensures CompleteLines(text) != [] ==>
      Join(CompleteLines(text)) + "\n" + Remainder(text) == text
  {
    var segs := Split(text);
    if |segs| > 1 {
      assert segs == CompleteLines(text) + [Remainder(text)];
      JoinAppend(CompleteLines(text), [Remainder(text)]);
      assert text[|Join(CompleteLines(text))|] == '\n';
    }
  }

  /**
    Feeding a chunk: the split of the text extended by `chunk` is the complete lines
    seen before, followed by the split of the old remainder extended by `chunk`.
  */
  lemma {:induction false} SplitAppend(text: string, chunk: string)
    ensures Split(text + chunk) == CompleteLines(text) + Split(Remainder(text) + chunk)
  {
    var before := CompleteLines(text);
    var after := Split(Remainder(text) + chunk);
    var r := before + after;
    assert NoNewlines(r) by {
      forall k | 0 <= k < |r| ensures '\n' !in r[k] {
        if k < |before| { assert r[k] == before[k]; } else { assert r[k] == after[k - |before|]; }
      }
    }
    Reassemble(text);
    if before == [] {
      assert r == after;
    } else {
      JoinAppend(before, after);
      calc {
        Join(r);
        Join(before) + "\n" + (Remainder(text) + chunk);
        (Join(before) + "\n" + Remainder(text)) + chunk;
        text + chunk;
      }
    }
    SplitJoin(r);
  }

  /**
    The buffer step is independent of where the chunk boundary falls: the complete lines
    of the extended text are the old complete lines followed by the lines completed by
    the chunk, and the new buffer is what follows them.
  */
  lemma CompleteLinesAppend(text: string, chunk: string)
    ensures CompleteLines(text + chunk) ==
      CompleteLines(text) + CompleteLines(Remainder(text) + chunk)
    ensures Remainder(text + chunk) == Remainder(Remainder(text) + chunk)
  {
    SplitAppend(text, chunk);
    var after := Split(Remainder(text) + chunk);
    assert (CompleteLines(text) + after)[..|CompleteLines(text)| + |after| - 1] ==
      CompleteLines(text) + after[..|after| - 1];
  }

  /** A fragment without a line feed completes no line: it only lengthens the buffer. */
  lemma FragmentCompletesNoLine(text: string, fragment: string)
    requires '\n' !in fragment
    ensures CompleteLines(text + fragment) == CompleteLines(text)
    ensures Remainder(text + fragment) == Remainder(text) + fragment
  {
    var tail := Remainder(text) + fragment;
    assert '\n' !in tail;
    SplitJoin([tail]);
    SplitAppend(text, fragment);
  }
}
