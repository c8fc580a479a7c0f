/**
  The Enter handler of the new-chat screen: it sends the typed text, appends
  the user's message, appends an empty system message as a placeholder, and
  then reads the streamed reply chunk by chunk, appending the token of every
  complete `data:` line to the placeholder.

  The network, the UTF-8 decoder, `JSON.parse` and `crypto.randomUUID` are
  outside the model: the response arrives as a value (already decoded chunks
  and how the stream ended), the parser is a function parameter, and the two
  fresh ids are parameters.
*/
module NewChat {
  import opened LineBuffer
  import opened EventParser
  import opened Conversation
  import opened Sequences

  /** The JSON body of the POST request: the acting user and the message text. */
  datatype Request = Request(username: string, message: string)

  /** How the read loop stops: `done` from the reader, or a read that throws. */
  datatype StreamEnd = EndOfBody | ReadError

  /**
    What the network makes of the request: `fetch` throws, the response has no
    readable body, or the body delivers these chunks and then ends.
  */
  datatype Response = FetchFailed | NoBody | Body(chunks: seq<string>, end: StreamEnd)

  /** Where the handler stopped. */
  datatype Outcome = Skipped | RequestFailed | NoReader | Completed | Interrupted

  /** The message list once the handler has returned, and where it stopped. */
  datatype Settled = Settled(messages: seq<Message>, outcome: Outcome)

  /** The body of the inner `for`: a data line whose payload parses extends the target message. */
  function ApplyLine(msgs: seq<Message>, id: Id, line: string, parse: Parser): (r: seq<Message>)
    ensures |r| == |msgs|
  {
    match Classify(line)
    case Ignored => msgs
    case DataLine(payload) =>
      match parse(payload)
      case Token(text) => ExtendById(msgs, id, text)
      case ParseError => msgs
  }

  /** The complete lines applied in order; no message is added or removed. */
  function ApplyLines(msgs: seq<Message>, id: Id, lines: seq<string>, parse: Parser): (r: seq<Message>)
    ensures |r| == |msgs|
  {
    if lines == [] then msgs
    else ApplyLine(ApplyLines(msgs, id, lines[..|lines| - 1], parse), id, lines[|lines| - 1], parse)
  }

  /** The tokens a line yields: one for a data line whose payload parses, none otherwise. */
  function LineTokens(line: string, parse: Parser): seq<string> {
    match Classify(line)
    case Ignored => []
    case DataLine(payload) =>
      match parse(payload)
      case Token(text) => [text]
      case ParseError => []
  }

  /** The tokens of the lines, in line order. */
  function Tokens(lines: seq<string>, parse: Parser): seq<string> {
    if lines == [] then []
    else Tokens(lines[..|lines| - 1], parse) + LineTokens(lines[|lines| - 1], parse)
  }

  /** The texts concatenated in order: the tokens of a reply, or the decoded text of the chunks. */
  function Flatten(texts: seq<string>): string {
    if texts == [] then "" else Flatten(texts[..|texts| - 1]) + texts[|texts| - 1]
  }

  lemma TokensSnoc(lines: seq<string>, line: string, parse: Parser)
    ensures Tokens(lines + [line], parse) == Tokens(lines, parse) + LineTokens(line, parse)
  {
    assert (lines + [line])[..|lines|] == lines;
  }

  /** The tokens of two runs of lines are the tokens of the first run, then those of the second. */
  lemma {:induction false} TokensAppend(front: seq<string>, back: seq<string>, parse: Parser)
    ensures Tokens(front + back, parse) == Tokens(front, parse) + Tokens(back, parse)
  {
    if back == [] {
      assert front + back == front;
    } else {
      var init := back[..|back| - 1];
      var last := back[|back| - 1];
      FrontLast(back);
      AppendSnoc(front, init, last);
      TokensAppend(front, init, parse);
      TokensSnoc(front + init, last, parse);
      TokensSnoc(init, last, parse);
    }
  }

  lemma {:induction false} FlattenAppend(front: seq<string>, back: seq<string>)
    ensures Flatten(front + back) == Flatten(front) + Flatten(back)
  {
    if back == [] {
      assert front + back == front;
    } else {
      var init := back[..|back| - 1];
      FrontLast(back);
      AppendSnoc(front, init, back[|back| - 1]);
      FlattenAppend(front, init);
    }
  }

  /** One line extends the target message by the token it yields, or by nothing. */
  lemma ApplyLineIsExtend(msgs: seq<Message>, id: Id, line: string, parse: Parser)
    ensures ApplyLine(msgs, id, line, parse) == ExtendById(msgs, id, Flatten(LineTokens(line, parse)))
  {
    var kind := Classify(line);
    if kind.DataLine? && parse(kind.payload).Token? {
      var text := parse(kind.payload).text;
      assert LineTokens(line, parse) == [text];
      assert ApplyLine(msgs, id, line, parse) == ExtendById(msgs, id, text);
      FlattenOne(text);
    } else {
      assert LineTokens(line, parse) == [];
      assert ApplyLine(msgs, id, line, parse) == msgs;
      ExtendByEmpty(msgs, id);
    }
  }

  /**
    Applying lines one after another is one extension of the target message by
    the in-order concatenation of their tokens.
  */
  lemma {:induction false} ApplyLinesIsExtend(msgs: seq<Message>, id: Id, lines: seq<string>, parse: Parser)
    ensures ApplyLines(msgs, id, lines, parse) == ExtendById(msgs, id, Flatten(Tokens(lines, parse)))
  {
    if lines == [] {
      ExtendByEmpty(msgs, id);
    } else {
      var init := lines[..|lines| - 1];
      var last := lines[|lines| - 1];
      var sofar := Tokens(init, parse);
      var more := LineTokens(last, parse);
      ApplyLinesIsExtend(msgs, id, init, parse);
      ApplyLineIsExtend(ExtendById(msgs, id, Flatten(sofar)), id, last, parse);
      ExtendTwice(msgs, id, Flatten(sofar), Flatten(more));
      FlattenAppend(sofar, more);
    }
  }

  /**
    A line that yields no token (not a data line, or a payload the parser
    rejects) changes nothing, and the lines after it are still applied.
  */
  lemma SkippedLine(msgs: seq<Message>, id: Id, before: seq<string>, line: string, after: seq<string>, parse: Parser)
    requires Classify(line).Ignored? || parse(Classify(line).payload).ParseError?
    ensures ApplyLines(msgs, id, before + [line] + after, parse) == ApplyLines(msgs, id, before + after, parse)
  {
    var skipped := LineTokens(line, parse);
    assert skipped == [];
    TokensSnoc(before, line, parse);
    TokensAppend(before + [line], after, parse);
    TokensAppend(before, after, parse);
    assert Tokens(before + [line], parse) == Tokens(before, parse);
    assert Tokens(before + [line] + after, parse) == Tokens(before + after, parse);
    ApplyLinesIsExtend(msgs, id, before + [line] + after, parse);
    ApplyLinesIsExtend(msgs, id, before + after, parse);
  }

  /**
    Only the target message can change, and its content only grows; every id
    and role stays where it was.
  */
  lemma ApplyLinesFrame(msgs: seq<Message>, id: Id, lines: seq<string>, parse: Parser)
    ensures var r := ApplyLines(msgs, id, lines, parse);
      && |r| == |msgs|
      && (forall k :: 0 <= k < |r| ==> r[k].id == msgs[k].id && r[k].role == msgs[k].role)
      && (forall k :: 0 <= k < |r| && msgs[k].id != id ==> r[k] == msgs[k])
      && (forall k :: 0 <= k < |r| ==> msgs[k].content <= r[k].content)
  {
    ApplyLinesIsExtend(msgs, id, lines, parse);
    ExtendFrame(msgs, id, Flatten(Tokens(lines, parse)));
  }

  /** One more line of a run: the first `j + 1` lines are the first `j`, then line `j`. */
  lemma ApplyLinesStep(msgs: seq<Message>, id: Id, lines: seq<string>, j: nat, parse: Parser)
    requires j < |lines|
    ensures ApplyLines(msgs, id, lines[..j + 1], parse) ==
      ApplyLine(ApplyLines(msgs, id, lines[..j], parse), id, lines[j], parse)
  {
    assert lines[..j + 1][..j] == lines[..j];
  }

  /** Applying two runs of lines is applying the first, then the second to its result. */
  lemma {:induction false} ApplyLinesAppend(msgs: seq<Message>, id: Id, front: seq<string>, back: seq<string>, parse: Parser)
    ensures ApplyLines(msgs, id, front + back, parse) == ApplyLines(ApplyLines(msgs, id, front, parse), id, back, parse)
  {
    var mid := ApplyLines(msgs, id, front, parse);
    ApplyLinesIsExtend(msgs, id, front + back, parse);
    ApplyLinesIsExtend(msgs, id, front, parse);
    ApplyLinesIsExtend(mid, id, back, parse);
    TokensAppend(front, back, parse);
    FlattenAppend(Tokens(front, parse), Tokens(back, parse));
    ExtendTwice(msgs, id, Flatten(Tokens(front, parse)), Flatten(Tokens(back, parse)));
  }

  /** Applying lines keeps the ids of the list unique. */
  lemma ApplyLinesKeepsIdsUnique(msgs: seq<Message>, id: Id, lines: seq<string>, parse: Parser)
    requires UniqueIds(msgs)
    ensures UniqueIds(ApplyLines(msgs, id, lines, parse))
  {
    ApplyLinesIsExtend(msgs, id, lines, parse);
    ExtendKeepsIdsUnique(msgs, id, Flatten(Tokens(lines, parse)));
  }

  /**
    The handler run to the end on a whole response: `!input.trim()` returns at
    once; otherwise the user message (with the untrimmed input) is appended;
    a failed `fetch` or a missing reader stops there; with a body, the empty
    placeholder is appended and the complete lines of the decoded text are
    applied, while a trailing fragment with no "\n" is dropped.
  */
  function HandleEnter(prev: seq<Message>, input: string, userId: Id, systemId: Id,
                       response: Response, parse: Parser): (r: Settled)
    ensures r.outcome == Skipped <==> AllWhitespace(input)
    ensures r.outcome == Skipped ==> r.messages == prev
    ensures r.outcome == RequestFailed || r.outcome == NoReader ==>
      r.messages == prev + [Message(userId, User, input)]
    ensures r.outcome == Completed || r.outcome == Interrupted ==> |r.messages| == |prev| + 2
    ensures !AllWhitespace(input) ==>
      && (r.outcome == RequestFailed <==> response.FetchFailed?)
      && (r.outcome == NoReader <==> response.NoBody?)
      && (response.Body? ==> r.outcome == if response.end == EndOfBody then Completed else Interrupted)
  {
    TrimEmpty(input);
    if Trim(input) == [] then Settled(prev, Skipped)
    else
      var withUser := prev + [Message(userId, User, input)];
      match response
      case FetchFailed => Settled(withUser, RequestFailed)
      case NoBody => Settled(withUser, NoReader)
      case Body(chunks, end) =>
        var withPlaceholder := withUser + [Message(systemId, System, "")];
        var lines := CompleteLines(Flatten(chunks));
        Settled(ApplyLines(withPlaceholder, systemId, lines, parse),
                if end == EndOfBody then Completed else Interrupted)
  }

  /**
    On a non-blank input with a body, the handler appends the user message and
    the empty placeholder, then applies the complete lines of the decoded text.
  */
  lemma HandleEnterBody(prev: seq<Message>, input: string, userId: Id, systemId: Id,
                        chunks: seq<string>, end: StreamEnd, parse: Parser)
    requires !AllWhitespace(input)
    ensures HandleEnter(prev, input, userId, systemId, Body(chunks, end), parse) ==
      Settled(ApplyLines(prev + [Message(userId, User, input)] + [Message(systemId, System, "")],
                         systemId, CompleteLines(Flatten(chunks)), parse),
              if end == EndOfBody then Completed else Interrupted)
  {
    TrimEmpty(input);
  }

  /**
    When the placeholder is the only message with its id, the lines fill the
    placeholder with the in-order concatenation of their tokens and leave the
    messages before it untouched.
  */
  lemma PlaceholderReply(msgs: seq<Message>, systemId: Id, lines: seq<string>, parse: Parser)
    requires systemId !in Ids(msgs)
    ensures ApplyLines(msgs + [Message(systemId, System, "")], systemId, lines, parse) ==
      msgs + [Message(systemId, System, Flatten(Tokens(lines, parse)))]
  {
    var placeholder := Message(systemId, System, "");
    var reply := Flatten(Tokens(lines, parse));
    ApplyLinesIsExtend(msgs + [placeholder], systemId, lines, parse);
    ExtendLast(msgs, placeholder, reply);
    assert placeholder.content + reply == reply;
  }

  /**
    With fresh ids and a body, the list ends with the user message and then the
    system message, whose content is the in-order concatenation of the tokens of
    every complete line that parsed; the earlier messages are untouched.
  */
  lemma StreamedReply(prev: seq<Message>, input: string, userId: Id, systemId: Id,
                      chunks: seq<string>, end: StreamEnd, parse: Parser)
    requires !AllWhitespace(input)
    requires systemId != userId && systemId !in Ids(prev)
    ensures HandleEnter(prev, input, userId, systemId, Body(chunks, end), parse).messages ==
      prev + [Message(userId, User, input),
              Message(systemId, System, Flatten(Tokens(CompleteLines(Flatten(chunks)), parse)))]
  {
    var userMessage := Message(userId, User, input);
    var withUser := prev + [userMessage];
    var lines := CompleteLines(Flatten(chunks));
    HandleEnterBody(prev, input, userId, systemId, chunks, end, parse);
    IdsAppend(prev, userMessage);
    PlaceholderReply(withUser, systemId, lines, parse);
    AppendTwo(prev, userMessage, Message(systemId, System, Flatten(Tokens(lines, parse))));
  }

  /**
    Text after the last "\n" when the stream ends is never applied: appending a
    chunk with no line feed to the stream changes nothing.
  */
  lemma TrailingFragmentIgnored(prev: seq<Message>, input: string, userId: Id, systemId: Id,
                                chunks: seq<string>, fragment: string, end: StreamEnd, parse: Parser)
    requires '\n' !in fragment
    ensures HandleEnter(prev, input, userId, systemId, Body(chunks + [fragment], end), parse) ==
            HandleEnter(prev, input, userId, systemId, Body(chunks, end), parse)
  {
    var more := chunks + [fragment];
    assert more[..|more| - 1] == chunks;
    assert Flatten(more) == Flatten(chunks) + fragment;
    FragmentCompletesNoLine(Flatten(chunks), fragment);
  }

  /** A single text concatenated is that text. */
  lemma FlattenOne(text: string)
    ensures Flatten([text]) == text
  {
    assert Flatten([text]) == Flatten([]) + text;
  }

  /** The two halves of a cut text concatenated give the text back. */
  lemma FlattenHalves(text: string, cut: nat)
    requires cut <= |text|
    ensures Flatten([text[..cut], text[cut..]]) == text
  {
    var halves := [text[..cut], text[cut..]];
    assert halves[..1] == [text[..cut]];
    FlattenOne(text[..cut]);
    assert text[..cut] + text[cut..] == text;
  }

  /** Cutting one text of a run in two leaves the concatenation of the run as it was. */
  lemma FlattenCut(before: seq<string>, chunk: string, cut: nat, after: seq<string>)
    requires cut <= |chunk|
    ensures Flatten(before + [chunk[..cut], chunk[cut..]] + after) == Flatten(before + [chunk] + after)
  {
    var halves := [chunk[..cut], chunk[cut..]];
    FlattenAppend(before + halves, after);
    FlattenAppend(before, halves);
    FlattenHalves(chunk, cut);
    FlattenAppend(before + [chunk], after);
    FlattenAppend(before, [chunk]);
    FlattenOne(chunk);
  }

  /** The message list and the buffer after some reads. */
  datatype Reading = Reading(messages: seq<Message>, buffer: string)

  /**
    The read loop chunk by chunk: each chunk is appended to the buffer left by
    the chunks before it, the complete lines of the result are applied, and
    what follows the last "\n" is the new buffer.
  */
  function ReadLoop(msgs: seq<Message>, id: Id, chunks: seq<string>, parse: Parser): (r: Reading)
    ensures |r.messages| == |msgs|
    ensures '\n' !in r.buffer
  {
    if chunks == [] then Reading(msgs, "")
    else
      var before := ReadLoop(msgs, id, chunks[..|chunks| - 1], parse);
      var text := before.buffer + chunks[|chunks| - 1];
      Reading(ApplyLines(before.messages, id, CompleteLines(text), parse), Remainder(text))
  }

  /** The reads of the first `i + 1` chunks are those of the first `i`, then one more. */
  lemma ReadLoopStep(msgs: seq<Message>, id: Id, chunks: seq<string>, i: nat, parse: Parser)
    requires i < |chunks|
    ensures var before := ReadLoop(msgs, id, chunks[..i], parse);
      var text := before.buffer + chunks[i];
      ReadLoop(msgs, id, chunks[..i + 1], parse) ==
        Reading(ApplyLines(before.messages, id, CompleteLines(text), parse), Remainder(text))
  {
    assert chunks[..i + 1][..i] == chunks[..i];
  }

  /**
    Reading chunk by chunk is reading the whole decoded text at once: the lines
    applied are the complete lines of the concatenated chunks, and the buffer
    left is the text after its last "\n", wherever the chunk boundaries fall.
  */
  lemma {:induction false} ReadLoopIsWhole(msgs: seq<Message>, id: Id, chunks: seq<string>, parse: Parser)
    ensures ReadLoop(msgs, id, chunks, parse) ==
      Reading(ApplyLines(msgs, id, CompleteLines(Flatten(chunks)), parse), Remainder(Flatten(chunks)))
  {
    if chunks == [] {
      assert Split("") == [""];
    } else {
      var init := chunks[..|chunks| - 1];
      var last := chunks[|chunks| - 1];
      var sofar := Flatten(init);
      ReadLoopIsWhole(msgs, id, init, parse);
      CompleteLinesAppend(sofar, last);
      ApplyLinesAppend(msgs, id, CompleteLines(sofar), CompleteLines(Remainder(sofar) + last), parse);
    }
  }

  /**
    Where the chunk boundaries fall does not matter: two runs of chunks with the
    same decoded text, cut anywhere (inside a line or inside `data:`), leave the
    read loop with the same list and the same buffer.
  */
  lemma ChunkBoundaryInvariance(msgs: seq<Message>, id: Id, chunks: seq<string>, others: seq<string>, parse: Parser)
    requires Flatten(chunks) == Flatten(others)
    ensures ReadLoop(msgs, id, chunks, parse) == ReadLoop(msgs, id, others, parse)
  {
    ReadLoopIsWhole(msgs, id, chunks, parse);
    ReadLoopIsWhole(msgs, id, others, parse);
  }

  /** The state of the `NewChat` component that the handler reads and updates. */
  class Chat {
    /** The acting user, from the username hook. */
    const username: string
    /** The text area's value, `chatCurrentTextValue`. */
    var input: string
    /** `chatMessages`, in display order. */
    var messages: seq<Message>
    /** The request bodies posted so far, in order. */
    var requests: seq<Request>

    ghost predicate Valid()
      reads this
    {
      UniqueIds(messages)
    }

    constructor(username: string)
      ensures Valid()
      ensures this.username == username && input == "" && messages == [] && requests == []
    {
      this.username := username;
      input := "";
      messages := [];
      requests := [];
    }

    /**
      The inner `for` over the complete lines of one read: each data line whose
      payload parses extends the message with the given id at once.
    */
    method ApplyLinesInPlace(id: Id, lines: seq<string>, parse: Parser)
      modifies this
      ensures messages == ApplyLines(old(messages), id, lines, parse)
      ensures input == old(input) && requests == old(requests)
    {
      for j := 0 to |lines|
        invariant messages == ApplyLines(old(messages), id, lines[..j], parse)
        invariant input == old(input) && requests == old(requests)
      {
        var line := lines[j];
        ApplyLinesStep(old(messages), id, lines, j, parse);
        match Classify(line) {
          case Ignored =>
          case DataLine(payload) =>
            match parse(payload) {
              case Token(token) =>
                messages := ExtendById(messages, id, token);
              case ParseError =>
            }
        }
      }
      assert lines[..|lines|] == lines;
    }

    /**
      One pass of the read loop: the chunk is appended to the buffer, the
      buffer is split on "\n", the last segment is popped back into the buffer,
      and the segments before it, the complete lines, are applied in order.
    */
    method ReadChunk(id: Id, buffer: string, chunk: string, parse: Parser) returns (rest: string)
      modifies this
      ensures rest == Remainder(buffer + chunk)
      ensures messages == ApplyLines(old(messages), id, CompleteLines(buffer + chunk), parse)
      ensures input == old(input) && requests == old(requests)
    {
      var text := buffer + chunk;
      var lines := Split(text);
      rest := lines[|lines| - 1];
      lines := lines[..|lines| - 1];
      ApplyLinesInPlace(id, lines, parse);
    }

    /**
      The read loop: every chunk is appended to `buffer`, the buffer is split on
      "\n", the last segment stays in the buffer and the others are applied. The
      list it leaves behind depends only on the concatenated chunks, not on
      where their boundaries fall, and the final buffer is never applied.
    */
    method ReadStream(id: Id, chunks: seq<string>, parse: Parser)
      modifies this
      ensures messages == ApplyLines(old(messages), id, CompleteLines(Flatten(chunks)), parse)
      ensures input == old(input) && requests == old(requests)
    {
      var buffer := "";
      ghost var start := messages;
      var i := 0;
      while i < |chunks|
        invariant 0 <= i <= |chunks|
        invariant Reading(messages, buffer) == ReadLoop(start, id, chunks[..i], parse)
        invariant input == old(input) && requests == old(requests)
      {
        ReadLoopStep(start, id, chunks, i, parse);
        buffer := ReadChunk(id, buffer, chunks[i], parse);
        i := i + 1;
      }
      ReadLoopIsWhole(start, id, chunks, parse);
      assert chunks[..|chunks|] == chunks;
    }

    /**
      `onKeyDown` for Enter without Shift. Each state update is applied at once
      and in order.
    */
    method OnEnter(userId: Id, systemId: Id, response: Response, parse: Parser) returns (outcome: Outcome)
      requires Valid()
      requires userId != systemId && userId !in Ids(messages) && systemId !in Ids(messages)
      modifies this
      ensures Valid()
      ensures Settled(messages, outcome) ==
        HandleEnter(old(messages), old(input), userId, systemId, response, parse)
      ensures requests == if AllWhitespace(old(input)) then old(requests)
                          else old(requests) + [Request(username, old(input))]
      ensures input == if !AllWhitespace(old(input)) && response.Body? then "" else old(input)
    {
      TrimEmpty(input);
      if Trim(input) == [] {
        return Skipped;
      }
      var userMessage := Message(userId, User, input);
      AppendFreshKeepsIdsUnique(messages, userMessage);
      messages := messages + [userMessage];
      requests := requests + [Request(username, input)];
      match response {
        case FetchFailed =>
          outcome := RequestFailed;
        case NoBody =>
          outcome := NoReader;
        case Body(chunks, end) =>
          input := "";
          var placeholder := Message(systemId, System, "");
          AppendFreshKeepsIdsUnique(messages, placeholder);
          messages := messages + [placeholder];
          ghost var start := messages;
          ReadStream(systemId, chunks, parse);
          ApplyLinesKeepsIdsUnique(start, systemId, CompleteLines(Flatten(chunks)), parse);
          outcome := if end == EndOfBody then Completed else Interrupted;
      }
    }
  }
}
