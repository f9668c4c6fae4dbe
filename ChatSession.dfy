/** The chat panel of the college detail dialog
    (frontend/src/components/CollegeDetailModal.tsx): the message list, the
    streaming reader that turns the server's SSE frames into the growing
    assistant message, the send guard and the reset.

    The network is a parameter: a `Reply` lists the pieces of the response
    body as successive reads deliver them and how the exchange ended.
    `JSON.parse` followed by `choices?.[0]?.delta?.content` is the parameter
    `decode`. */
module ChatSession {
  import opened Strings
  import opened ChatStream

  datatype Role = User | Assistant

  /** A chat message; `streaming` is true while the assistant's reply is
      still arriving. */
  datatype Message = Message(role: Role, content: string, streaming: bool)

  const FailureText: string :=
    "Sorry, I couldn't connect to the AI service. Please ensure the backend is running."

  /** The outcome of `JSON.parse(data).choices?.[0]?.delta?.content`:
      `Malformed` when parsing or the property access throws, otherwise the
      content if there is one. */
  datatype Parsed = Malformed | Json(content: Option<string>)

  /** `content ?? ""`: the token a parsed payload contributes. */
  function Contribution(p: Parsed): string
    requires p.Json?
  {
    if p.content.Some? then p.content.value else ""
  }

  /** What one line of the body does to the reply. */
  datatype LineEvent = Skip | Done | Token(text: string)

  /** A line counts only when it starts with `data: `; its trimmed rest is
      either the `[DONE]` marker, empty, unparsable (skipped silently), or a
      token (the content, `""` when absent). */
  function ClassifyLine(line: string, decode: string -> Parsed): (ev: LineEvent)
    ensures !StartsWith(line, "data: ") ==> ev == Skip
    ensures ev == Done <==> StartsWith(line, "data: ") && Trim(line[6..]) == "[DONE]"
    ensures ev.Token? <==>
      (StartsWith(line, "data: ") && Trim(line[6..]) !in {"", "[DONE]"} && decode(Trim(line[6..])).Json?)
    ensures ev.Token? ==> ev.text == Contribution(decode(Trim(line[6..])))
  {
    if !StartsWith(line, "data: ") then Skip
    else
      var data := Trim(line[6..]);
      if data == "[DONE]" then Done
      else if data == "" then Skip
      else match decode(data)
        case Malformed => Skip
        case Json(c) => Token(if c.Some? then c.value else "")
  }

  /** The classification of lines that `streamMessage` applies. */
  function LineClassifier(decode: string -> Parsed): string -> LineEvent {
    line => ClassifyLine(line, decode)
  }

  /** The text the lines contribute, up to the first `[DONE]`, each line
      being classified by `cls`. */
  function LinesText(lines: seq<string>, cls: string -> LineEvent): string {
    if lines == [] then ""
    else match cls(lines[0])
      case Done => ""
      case Skip => LinesText(lines[1..], cls)
      case Token(t) => t + LinesText(lines[1..], cls)
  }

  /** Whether a `[DONE]` line occurs among the lines. */
  predicate DoneIn(lines: seq<string>, cls: string -> LineEvent) {
    lines != [] && (cls(lines[0]) == Done || DoneIn(lines[1..], cls))
  }

  /** Reading lines in two batches: the second batch counts only when the
      first held no `[DONE]`. */
  lemma {:induction false} LinesTextAppend(a: seq<string>, b: seq<string>, cls: string -> LineEvent)
    ensures LinesText(a + b, cls) == LinesText(a, cls) + (if DoneIn(a, cls) then "" else LinesText(b, cls))
    ensures DoneIn(a + b, cls) == (DoneIn(a, cls) || DoneIn(b, cls))
  {
    if a == [] {
      assert a + b == b;
    } else {
      LinesTextAppend(a[1..], b, cls);
      TailAppend(a, b);
    }
  }

  /** The lines of the body that a line terminator has completed: all pieces
      of the split but the last. */
  function CompleteLines(body: string): (lines: seq<string>)
    ensures |lines| == |SplitOn(body, '\n')| - 1
  {
    var pieces := SplitOn(body, '\n');
    pieces[..|pieces| - 1]
  }

  /** The reply text the reader builds from the reads `chunks`: the text of
      the complete lines of everything received, up to `[DONE]`. It depends
      on the concatenated body only, not on how reads cut it. */
  function StreamText(chunks: seq<string>, decode: string -> Parsed): string {
    LinesText(CompleteLines(Concat(chunks)), LineClassifier(decode))
  }

  /** Whether the reader has met `[DONE]` in what it received. */
  predicate SawDone(chunks: seq<string>, decode: string -> Parsed) {
    DoneIn(CompleteLines(Concat(chunks)), LineClassifier(decode))
  }

  /** How an exchange ends after the reads listed: the body ended; the
      request or a read failed (a refused connection or an error status is
      a failure before any read); or it was aborted. */
  datatype Ending = Finished | Failed | Aborted

  datatype Reply = Reply(chunks: seq<string>, ending: Ending)

  /** The assistant message once `streamMessage` returns: the streamed text,
      no longer streaming, when the body ended or `[DONE]` arrived; the
      apology on a failure; on an abort, the text so far, still marked as
      streaming. */
  function Outcome(reply: Reply, decode: string -> Parsed): (m: Message)
    ensures m.role == Assistant
    ensures m.streaming <==> reply.ending == Aborted && !SawDone(reply.chunks, decode)
    ensures m.content ==
      (if reply.ending == Failed && !SawDone(reply.chunks, decode) then FailureText
       else StreamText(reply.chunks, decode))
  {
    var text := StreamText(reply.chunks, decode);
    if SawDone(reply.chunks, decode) then Message(Assistant, text, false)
    else match reply.ending
      case Finished => Message(Assistant, text, false)
      case Failed => Message(Assistant, FailureText, false)
      case Aborted => Message(Assistant, text, true)
  }

  lemma ConcatSnoc(cs: seq<string>, c: string)
    ensures Concat(cs + [c]) == Concat(cs) + c
  {
    ConcatAppend(cs, [c]);
    assert Concat([c]) == c + Concat([]);
  }

  /** The lines a batch adds, when the batch has no `[DONE]` before `j`. */
  lemma BatchStep(consumed: seq<string>, lines: seq<string>, j: nat, cls: string -> LineEvent)
    requires j < |lines|
    ensures LinesText(consumed + lines[..j + 1], cls) ==
      LinesText(consumed + lines[..j], cls) +
      (if DoneIn(consumed + lines[..j], cls) then "" else LinesText([lines[j]], cls))
    ensures DoneIn(consumed + lines[..j + 1], cls) ==
      (DoneIn(consumed + lines[..j], cls) || cls(lines[j]) == Done)
  {
    assert consumed + lines[..j + 1] == (consumed + lines[..j]) + [lines[j]];
    LinesTextAppend(consumed + lines[..j], [lines[j]], cls);
    assert [lines[j]][1..] == [];
  }

  /** Once `[DONE]` has been met, further lines change nothing. */
  lemma AfterDone(a: seq<string>, b: seq<string>, cls: string -> LineEvent)
    requires DoneIn(a, cls)
    ensures LinesText(a + b, cls) == LinesText(a, cls) && DoneIn(a + b, cls)
  {
    LinesTextAppend(a, b, cls);
  }

  lemma LastSplit<T>(xs: seq<T>)
    requires |xs| > 0
    ensures xs == xs[..|xs| - 1] + [xs[|xs| - 1]]
  {
  }

  lemma AppendNil<T>(a: seq<T>, b: seq<T>)
    requires b == []
    ensures a + b == a
  {
  }

  lemma TailAppend<T>(a: seq<T>, b: seq<T>)
    requires a != []
    ensures (a + b)[0] == a[0] && (a + b)[1..] == a[1..] + b
  {
  }

  lemma AppendCut<T>(a: seq<T>, b: seq<T>, j: nat)
    requires j <= |b|
    ensures a + b == (a + b[..j]) + b[j..]
  {
    assert b == b[..j] + b[j..];
  }

  /** Splitting text extended by `c`: the complete lines stay, and the
      unterminated last piece is joined with `c`. */
  lemma SplitExtend(x: string, c: string, consumed: seq<string>, buffer: string)
    requires SplitOn(x, '\n') == consumed + [buffer]
    ensures SplitOn(x + c, '\n') == consumed + SplitOn(buffer + c, '\n')
  {
    var px := SplitOn(x, '\n');
    assert px[..|px| - 1] == consumed && px[|px| - 1] == buffer;
    SplitConcat(x, c, '\n');
  }

  lemma ConcatPrefixStep(chunks: seq<string>, i: nat)
    requires i < |chunks|
    ensures Concat(chunks[..i + 1]) == Concat(chunks[..i]) + chunks[i]
  {
    assert chunks[..i + 1] == chunks[..i] + [chunks[i]];
    ConcatSnoc(chunks[..i], chunks[i]);
  }

  /** One more read: the lines so far, then those of the buffered rest
      joined with the new read. */
  lemma ReadStep(chunks: seq<string>, i: nat, consumed: seq<string>, buffer: string)
    requires i < |chunks|
    requires SplitOn(Concat(chunks[..i]), '\n') == consumed + [buffer]
    ensures var lines := SplitOn(buffer + chunks[i], '\n');
      SplitOn(Concat(chunks[..i + 1]), '\n') == (consumed + lines[..|lines| - 1]) + [lines[|lines| - 1]]
  {
    ConcatPrefixStep(chunks, i);
    SplitExtend(Concat(chunks[..i]), chunks[i], consumed, buffer);
    LastSplit(SplitOn(buffer + chunks[i], '\n'));
  }

  /** Once `[DONE]` is among the first `j + 1` lines of a batch, the rest of
      the batch changes nothing. */
  lemma DoneRest(consumed: seq<string>, lines: seq<string>, j: nat, cls: string -> LineEvent)
    requires j < |lines| && DoneIn(consumed + lines[..j + 1], cls)
    ensures LinesText(consumed + lines, cls) == LinesText(consumed + lines[..j + 1], cls)
    ensures DoneIn(consumed + lines, cls)
  {
    AppendCut(consumed, lines, j + 1);
    AfterDone(consumed + lines[..j + 1], lines[j + 1..], cls);
  }

  /** When the read loop ends, what it consumed gives the text of the whole
      reply: either every read was taken, or `[DONE]` came first. */
  lemma ReadEnd(chunks: seq<string>, i: nat, consumed: seq<string>, buffer: string, cls: string -> LineEvent)
    requires i <= |chunks|
    requires SplitOn(Concat(chunks[..i]), '\n') == consumed + [buffer]
    requires i == |chunks| || DoneIn(consumed, cls)
    ensures LinesText(consumed, cls) == LinesText(CompleteLines(Concat(chunks)), cls)
    ensures DoneIn(consumed, cls) == DoneIn(CompleteLines(Concat(chunks)), cls)
  {
    assert chunks == chunks[..i] + chunks[i..];
    ConcatAppend(chunks[..i], chunks[i..]);
    SplitConcat(Concat(chunks[..i]), Concat(chunks[i..]), '\n');
    var px := consumed + [buffer];
    assert px[..|px| - 1] == consumed;
    var later := SplitOn(buffer + Concat(chunks[i..]), '\n');
    assert CompleteLines(Concat(chunks)) == consumed + later[..|later| - 1];
    if DoneIn(consumed, cls) {
      AfterDone(consumed, later[..|later| - 1], cls);
    } else {
      assert chunks[i..] == [];
      assert buffer + Concat(chunks[i..]) == buffer;
      SplitNoSeparator(Concat(chunks[..i]), '\n');
      assert buffer == px[|px| - 1];
      SplitPiece(buffer, '\n');
      assert consumed + later[..|later| - 1] == consumed;
    }
  }

  // ---------------------------------------------------------------------
  // The chat panel
  // ---------------------------------------------------------------------

  class Conversation {
    var messages: seq<Message>
    var input: string
    var loading: bool
    var initialized: bool

    /** The panel as it first renders: no messages, empty input, idle, no
        overview requested yet. */
    constructor ()
      ensures messages == [] && input == "" && !loading && !initialized
    {
      messages := [];
      input := "";
      loading := false;
      initialized := false;
    }

    /** `streamMessage`: shows the user's message (unless it is the opening
        overview), adds an empty streaming assistant message, reads the
        reply into it, and finally settles it as `Outcome` says. Earlier
        messages are never touched. */
    method StreamMessage(userMessage: string, isInitial: bool, reply: Reply, decode: string -> Parsed)
      modifies this
      ensures messages == old(messages)
        + (if isInitial then [] else [Message(User, userMessage, false)])
        + [Outcome(reply, decode)]
      ensures input == old(input) && loading == old(loading) && initialized == old(initialized)
    {
      if !isInitial {
        messages := messages + [Message(User, userMessage, false)];
      }
      var base := messages;
      messages := messages + [Message(Assistant, "", true)];
      var fullText, done := ReadReply(base, reply.chunks, LineClassifier(decode));
      if done || reply.ending == Finished {
        messages := base + [Message(Assistant, fullText, false)];
      } else if reply.ending == Failed {
        messages := base + [Message(Assistant, FailureText, false)];
      }
    }

    /** The read loop of `streamMessage`, with the reads buffered: a line is
        handled once its terminator has arrived, and reading stops at
        `[DONE]`. The last message always shows the text so far. */
    method ReadReply(base: seq<Message>, chunks: seq<string>, cls: string -> LineEvent)
      returns (fullText: string, done: bool)
      modifies this
      requires messages == base + [Message(Assistant, "", true)]
      ensures fullText == LinesText(CompleteLines(Concat(chunks)), cls) && done == DoneIn(CompleteLines(Concat(chunks)), cls)
      ensures messages == base + [Message(Assistant, fullText, true)]
      ensures input == old(input) && loading == old(loading) && initialized == old(initialized)
    {
      fullText := "";
      done := false;
      var buffer := "";
      ghost var consumed: seq<string> := [];
      var i := 0;
      assert chunks[..0] == [];
      while i < |chunks| && !done
        invariant 0 <= i <= |chunks|
        invariant SplitOn(Concat(chunks[..i]), '\n') == consumed + [buffer]
        invariant fullText == LinesText(consumed, cls)
        invariant done == DoneIn(consumed, cls)
        invariant messages == base + [Message(Assistant, fullText, true)]
        invariant input == old(input) && loading == old(loading) && initialized == old(initialized)
      {
        var lines := SplitOn(buffer + chunks[i], '\n');
        ReadStep(chunks, i, consumed, buffer);
        var complete := lines[..|lines| - 1];
        fullText, done := ReadLines(base, consumed, complete, fullText, cls);
        consumed := consumed + complete;
        buffer := lines[|lines| - 1];
        i := i + 1;
      }
      ReadEnd(chunks, i, consumed, buffer, cls);
    }

    /** The loop over the lines of one read: each token is appended and
        shown at once; `[DONE]` ends the loop. */
    method ReadLines(base: seq<Message>, ghost consumed: seq<string>, lines: seq<string>, text: string,
                     cls: string -> LineEvent)
      returns (fullText: string, done: bool)
      modifies this
      requires text == LinesText(consumed, cls) && !DoneIn(consumed, cls)
      requires messages == base + [Message(Assistant, text, true)]
      ensures fullText == LinesText(consumed + lines, cls) && done == DoneIn(consumed + lines, cls)
      ensures messages == base + [Message(Assistant, fullText, true)]
      ensures input == old(input) && loading == old(loading) && initialized == old(initialized)
    {
      fullText := text;
      done := false;
      var j := 0;
      AppendNil(consumed, lines[..0]);
      while j < |lines|
        invariant 0 <= j <= |lines|
        invariant fullText == LinesText(consumed + lines[..j], cls)
        invariant !DoneIn(consumed + lines[..j], cls)
        invariant messages == base + [Message(Assistant, fullText, true)]
        invariant input == old(input) && loading == old(loading) && initialized == old(initialized)
      {
        BatchStep(consumed, lines, j, cls);
        var ev := cls(lines[j]);
        if ev == Done {
          done := true;
          DoneRest(consumed, lines, j, cls);
          return;
        }
        if ev.Token? {
          fullText := fullText + ev.text;
          messages := base + [Message(Assistant, fullText, true)];
        }
        j := j + 1;
      }
      assert lines[..j] == lines;
    }

    /** `handleSend`: sends the given text, or the input box, trimmed;
        nothing at all happens when that is blank or a reply is still
        loading. Otherwise the input is cleared, the exchange runs with the
        panel marked loading, and the panel is idle again afterwards. */
    method HandleSend(text: Option<string>, reply: Reply, decode: string -> Parsed)
      modifies this
      ensures var msg := Trim(if text.Some? then text.value else old(input));
        if msg == "" || old(loading) then
          messages == old(messages) && input == old(input) && loading == old(loading)
        else
          messages == old(messages) + [Message(User, msg, false)] + [Outcome(reply, decode)] &&
          input == "" && !loading
      ensures initialized == old(initialized)
    {
      var msg := Trim(if text.Some? then text.value else input);
      if msg == "" || loading {
        return;
      }
      input := "";
      loading := true;
      StreamMessage(msg, false, reply, decode);
      loading := false;
    }

    /** The opening overview, requested once when the dialog shows a college
        and no overview has been requested since the last reset: it adds
        only the assistant's message, not the prompt. */
    method OpenOverview(reply: Reply, decode: string -> Parsed)
      modifies this
      ensures old(initialized) ==> messages == old(messages) && loading == old(loading)
      ensures !old(initialized) ==> messages == old(messages) + [Outcome(reply, decode)] && !loading
      ensures initialized && input == old(input)
    {
      if initialized {
        return;
      }
      initialized := true;
      loading := true;
      StreamMessage("", true, reply, decode);
      loading := false;
    }

    /** `handleReset`: clears the conversation, so the next opening asks for
        a fresh overview, and leaves the panel idle. */
    method HandleReset()
      modifies this
      ensures messages == [] && !initialized && !loading && input == old(input)
    {
      messages := [];
      initialized := false;
      loading := false;
    }
  }

  // ---------------------------------------------------------------------
  // Server and client together
  // ---------------------------------------------------------------------

  /** The response body `generate` writes. */
  function ServerBody(up: Upstream): string {
    Concat(StreamFrames(up))
  }

  /** The payloads of the content frames, in order. */
  function PayloadsOf(cs: seq<string>): seq<string> {
    seq(|cs|, k requires 0 <= k < |cs| => Payload(cs[k]))
  }

  /** The frames carrying the payloads `ps`. */
  function FramesOf(ps: seq<string>): seq<string> {
    if ps == [] then [] else [Frame(ps[0])] + FramesOf(ps[1..])
  }

  /** The lines of those frames: each `data:` line and the blank line after
      it. */
  function DataLines(ps: seq<string>): seq<string> {
    if ps == [] then [] else ["data: " + ps[0], ""] + DataLines(ps[1..])
  }

  lemma {:induction false} FramesOfAre(ps: seq<string>)
    ensures |FramesOf(ps)| == |ps|
    ensures forall k :: 0 <= k < |ps| ==> FramesOf(ps)[k] == Frame(ps[k])
  {
    if ps != [] {
      FramesOfAre(ps[1..]);
    }
  }

  lemma StreamFramesSplit(up: Upstream)
    ensures StreamFrames(up) == FramesOf(PayloadsOf(ContentsOf(up))) + [DoneFrame]
  {
    StreamFramesShape(up);
    FramesOfAre(PayloadsOf(ContentsOf(up)));
  }

  lemma AppendAssoc<T>(a: seq<T>, b: seq<T>, c: seq<T>)
    ensures (a + b) + c == a + (b + c)
  {
  }

  lemma NotInAppend<T>(x: T, a: seq<T>, b: seq<T>)
    requires x !in a && x !in b
    ensures x !in a + b
  {
  }

  lemma DropLast<T>(a: seq<T>, b: seq<T>)
    requires b != []
    ensures (a + b)[..|a + b| - 1] == a + b[..|b| - 1]
  {
  }

  /** A line, a blank line, and whatever follows. */
  lemma SplitLineBreak(line: string, rest: string)
    requires '\n' !in line
    ensures SplitOn(line + "\n\n" + rest, '\n') == [line, ""] + SplitOn(rest, '\n')
  {
    assert line + "\n\n" + rest == line + ['\n'] + ([] + ['\n'] + rest);
    SplitAppend(line, [] + ['\n'] + rest, '\n');
    SplitPiece(line, '\n');
    SplitAppend([], rest, '\n');
  }

  /** A frame splits into its `data:` line, a blank line, and whatever
      follows. */
  lemma SplitFrame(p: string, rest: string)
    requires '\n' !in p
    ensures SplitOn(Frame(p) + rest, '\n') == ["data: " + p, ""] + SplitOn(rest, '\n')
  {
    NotInAppend('\n', "data: ", p);
    SplitLineBreak("data: " + p, rest);
  }

  lemma PayloadNoNewline(s: string)
    ensures '\n' !in Payload(s)
  {
    PayloadShape(s);
    var p := Payload(s);
    assert forall k :: 0 <= k < |p| ==> p[k] != '\n';
  }

  lemma {:induction false} SplitFrames(ps: seq<string>, rest: string)
    requires forall k :: 0 <= k < |ps| ==> '\n' !in ps[k]
    ensures SplitOn(Concat(FramesOf(ps)) + rest, '\n') == DataLines(ps) + SplitOn(rest, '\n')
  {
    if ps != [] {
      var tail := Concat(FramesOf(ps[1..]));
      SplitFrames(ps[1..], rest);
      TailAppend([Frame(ps[0])], FramesOf(ps[1..]));
      AppendAssoc(Frame(ps[0]), tail, rest);
      SplitFrame(ps[0], tail + rest);
      AppendAssoc(["data: " + ps[0], ""], DataLines(ps[1..]), SplitOn(rest, '\n'));
    } else {
      AppendNil(rest, Concat(FramesOf(ps)));
      assert Concat(FramesOf(ps)) + rest == rest;
    }
  }

  /** The lines of the whole body: the content frames' lines, then `[DONE]`
      and two blank pieces. */
  lemma ServerBodyLines(up: Upstream)
    ensures SplitOn(ServerBody(up), '\n') == DataLines(PayloadsOf(ContentsOf(up))) + ["data: [DONE]", "", ""]
  {
    var ps := PayloadsOf(ContentsOf(up));
    StreamFramesSplit(up);
    ConcatSnoc(FramesOf(ps), DoneFrame);
    forall k | 0 <= k < |ps| ensures '\n' !in ps[k] {
      PayloadNoNewline(ContentsOf(up)[k]);
    }
    SplitFrames(ps, DoneFrame);
    SplitDoneFrame();
  }

  /** A frame on its own splits into its line and two empty pieces. */
  lemma SplitLoneFrame(p: string)
    requires '\n' !in p
    ensures SplitOn(Frame(p), '\n') == ["data: " + p, "", ""]
  {
    AppendNil(Frame(p), "");
    SplitFrame(p, "");
    SplitEmpty();
    var a: seq<string> := ["data: " + p, ""];
    var b: seq<string> := [""];
    assert a + b == ["data: " + p, "", ""];
  }

  lemma SplitEmpty()
    ensures SplitOn("", '\n') == [""]
  {
  }

  /** The `[DONE]` frame is its line and two empty pieces. */
  lemma SplitDoneFrame()
    ensures SplitOn(DoneFrame, '\n') == ["data: [DONE]", "", ""]
  {
    DoneLiterals();
    SplitLoneFrame("[DONE]");
  }

  lemma DoneLiterals()
    ensures '\n' !in "[DONE]"
    ensures "data: " + "[DONE]" == "data: [DONE]"
  {
    var p := "[DONE]";
    assert '\n' !in p by {
      forall k | 0 <= k < |p| ensures p[k] != '\n' { }
    }
  }

  /** A `decode` that reads back every payload the server writes, as
      `JSON.parse` does. */
  ghost predicate ReadsPayloads(decode: string -> Parsed) {
    forall s :: decode(Payload(s)) == Json(Some(s))
  }

  /** A `data:` line whose payload starts with `{` and does not end in
      white space is classified by what `decode` makes of the payload. */
  lemma DataLineEvent(p: string, decode: string -> Parsed)
    requires |p| > 0 && p[0] == '{' && !IsSpace(p[|p| - 1])
    ensures ClassifyLine("data: " + p, decode) ==
      match decode(p)
      case Malformed => Skip
      case Json(c) => Token(if c.Some? then c.value else "")
  {
    var line := "data: " + p;
    assert line[..6] == "data: " && line[6..] == p;
    TrimFacts(p);
    assert p != "[DONE]" by {
      assert p[0] != "[DONE]"[0];
    }
  }

  lemma PayloadLine(s: string, decode: string -> Parsed)
    requires ReadsPayloads(decode)
    ensures ClassifyLine("data: " + Payload(s), decode) == Token(s)
  {
    PayloadShape(s);
    DataLineEvent(Payload(s), decode);
  }

  lemma DoneLine(line: string, decode: string -> Parsed)
    requires line == "data: [DONE]"
    ensures ClassifyLine(line, decode) == Done
  {
    var data := line[6..];
    assert line[..6] == "data: " && data == "[DONE]";
    assert StartsWith(line, "data: ");
    assert data[0] == '[' && data[|data| - 1] == ']';
    TrimFacts(data);
    assert Trim(data) == data;
  }

  lemma LinesTextCons(line: string, rest: seq<string>, cls: string -> LineEvent)
    ensures LinesText([line] + rest, cls) ==
      match cls(line)
      case Done => ""
      case Skip => LinesText(rest, cls)
      case Token(t) => t + LinesText(rest, cls)
    ensures DoneIn([line] + rest, cls) == (cls(line) == Done || DoneIn(rest, cls))
  {
    TailAppend([line], rest);
  }

  /** One data line holding a token, then its blank line. */
  lemma DataLineStep(p: string, c: string, rest: seq<string>, cls: string -> LineEvent)
    requires cls("data: " + p) == Token(c) && cls("") == Skip
    ensures LinesText(["data: " + p, ""] + rest, cls) == c + LinesText(rest, cls)
    ensures DoneIn(["data: " + p, ""] + rest, cls) == DoneIn(rest, cls)
  {
    assert ["data: " + p, ""] + rest == ["data: " + p] + ([""] + rest);
    LinesTextCons("data: " + p, [""] + rest, cls);
    LinesTextCons("", rest, cls);
  }

  lemma {:induction false} DataLinesText(ps: seq<string>, cs: seq<string>, tail: seq<string>, cls: string -> LineEvent)
    requires |ps| == |cs|
    requires forall k :: 0 <= k < |ps| ==> cls("data: " + ps[k]) == Token(cs[k])
    requires cls("") == Skip
    ensures LinesText(DataLines(ps) + tail, cls) == Concat(cs) + LinesText(tail, cls)
    ensures DoneIn(DataLines(ps) + tail, cls) == DoneIn(tail, cls)
  {
    if ps != [] {
      var rest := DataLines(ps[1..]) + tail;
      forall k | 0 <= k < |ps| - 1 ensures cls("data: " + ps[1..][k]) == Token(cs[1..][k]) {
        assert ps[1..][k] == ps[k + 1] && cs[1..][k] == cs[k + 1];
      }
      DataLinesText(ps[1..], cs[1..], tail, cls);
      AppendAssoc(["data: " + ps[0], ""], DataLines(ps[1..]), tail);
      DataLineStep(ps[0], cs[0], rest, cls);
      AppendAssoc(cs[0], Concat(cs[1..]), LinesText(tail, cls));
    } else {
      assert DataLines(ps) + tail == tail;
    }
  }

  /** End to end, with the reads buffered: however the reads cut the body
      `generate` writes, the reply text is the concatenation of the contents
      of the upstream deltas (and the error text after a failure), and the
      reader has met `[DONE]`. */
  lemma StreamRoundTrip(up: Upstream, chunks: seq<string>, decode: string -> Parsed)
    requires ReadsPayloads(decode)
    requires Concat(chunks) == ServerBody(up)
    ensures StreamText(chunks, decode) == Concat(ContentsOf(up))
    ensures SawDone(chunks, decode)
  {
    var cs := ContentsOf(up);
    var ps := PayloadsOf(cs);
    var cls := LineClassifier(decode);
    ServerBodyLines(up);
    DropLast(DataLines(ps), ["data: [DONE]", "", ""]);
    assert CompleteLines(Concat(chunks)) == DataLines(ps) + ["data: [DONE]", ""];
    forall k | 0 <= k < |ps| ensures cls("data: " + ps[k]) == Token(cs[k]) {
      PayloadLine(cs[k], decode);
    }
    DataLinesText(ps, cs, ["data: [DONE]", ""], cls);
    DoneLine("data: [DONE]", decode);
  }

  /** Hence a complete exchange ends with the streamed text in a finished
      assistant message, whatever the ending reported after it. */
  lemma CompleteExchange(up: Upstream, reply: Reply, decode: string -> Parsed)
    requires ReadsPayloads(decode)
    requires Concat(reply.chunks) == ServerBody(up)
    ensures Outcome(reply, decode) == Message(Assistant, Concat(ContentsOf(up)), false)
  {
    StreamRoundTrip(up, reply.chunks, decode);
  }

  /** What the user sees only grows: the text after some of the reads is a
      prefix of the text after all of them. */
  lemma StreamTextGrows(chunks: seq<string>, k: nat, decode: string -> Parsed)
    requires k <= |chunks|
    ensures StreamText(chunks[..k], decode) <= StreamText(chunks, decode)
  {
    var x, y := Concat(chunks[..k]), Concat(chunks[k..]);
    assert chunks == chunks[..k] + chunks[k..];
    ConcatAppend(chunks[..k], chunks[k..]);
    SplitConcat(x, y, '\n');
    var px := SplitOn(x, '\n');
    var later := SplitOn(px[|px| - 1] + y, '\n');
    assert CompleteLines(x + y) == CompleteLines(x) + later[..|later| - 1];
    LinesTextAppend(CompleteLines(x), later[..|later| - 1], LineClassifier(decode));
  }

  // ---------------------------------------------------------------------
  // The reader as written: no buffer between reads
  // ---------------------------------------------------------------------

  /** The text one read contributes when, as written, each read is split on
      its own and its lines are handled up to `[DONE]` (the `break` leaves
      only the loop over that read's lines). */
  function ReadText(chunk: string, decode: string -> Parsed): string {
    LinesText(SplitOn(chunk, '\n'), LineClassifier(decode))
  }

  /** The reply text of the reader as written. */
  function UnbufferedText(chunks: seq<string>, decode: string -> Parsed): string {
    if chunks == [] then ""
    else UnbufferedText(chunks[..|chunks| - 1], decode) + ReadText(chunks[|chunks| - 1], decode)
  }

  /** As written, reads are independent: the text of a sequence of reads is
      the texts of its parts, one after the other, whether or not an earlier
      read held `[DONE]` or ended inside a line. */
  lemma {:induction false} UnbufferedAppend(a: seq<string>, b: seq<string>, decode: string -> Parsed)
    ensures UnbufferedText(a + b, decode) == UnbufferedText(a, decode) + UnbufferedText(b, decode)
    decreases |b|
  {
    if b == [] {
      assert a + b == a;
    } else {
      var front, last := b[..|b| - 1], b[|b| - 1];
      var ab := a + b;
      assert ab[..|ab| - 1] == a + front && ab[|ab| - 1] == last;
      var x, y, r := UnbufferedText(a, decode), UnbufferedText(front, decode), ReadText(last, decode);
      calc {
        UnbufferedText(ab, decode);
        UnbufferedText(a + front, decode) + r;
        { UnbufferedAppend(a, front, decode); }
        (x + y) + r;
        { AppendAssoc(x, y, r); }
        x + (y + r);
        x + UnbufferedText(b, decode);
      }
    }
  }

  /** The reader as written is right when the whole body comes in one read. */
  lemma UnbufferedSingleRead(up: Upstream, decode: string -> Parsed)
    requires ReadsPayloads(decode)
    ensures UnbufferedText([ServerBody(up)], decode) == Concat(ContentsOf(up))
  {
    var cs := ContentsOf(up);
    var ps := PayloadsOf(cs);
    var cls := LineClassifier(decode);
    assert [ServerBody(up)][..0] == [];
    ServerBodyLines(up);
    forall k | 0 <= k < |ps| ensures cls("data: " + ps[k]) == Token(cs[k]) {
      PayloadLine(cs[k], decode);
    }
    DataLinesText(ps, cs, ["data: [DONE]", "", ""], cls);
    DoneLine("data: [DONE]", decode);
  }

  /** The JSON reading this model gives to `JSON.parse` for the payloads the
      server writes. */
  function JsonDecode(data: string): Parsed {
    match ParsePayload(data)
    case Some(s) => Json(Some(s))
    case None => Malformed
  }

  lemma JsonDecodeReadsPayloads()
    ensures ReadsPayloads(JsonDecode)
  {
    forall s ensures JsonDecode(Payload(s)) == Json(Some(s)) {
      PayloadRoundTrip(s);
    }
  }

  lemma Regroup<T>(p: seq<T>, h: seq<T>, a: seq<T>, b: seq<T>, t: seq<T>, n: seq<T>, d: seq<T>)
    ensures (p + h + a) + (b + t + n + d) == (p + (h + (a + b) + t) + n) + d
  {
  }

  /** The body for the single delta "Hello". */
  lemma HelloBody()
    ensures ServerBody(Upstream([Some("Hello")], None)) == Frame(Payload("Hello")) + DoneFrame
    ensures ContentsOf(Upstream([Some("Hello")], None)) == ["Hello"]
  {
    var up := Upstream([Some("Hello")], None);
    var ps := PayloadsOf(["Hello"]);
    assert up.deltas[..0] == [];
    assert ContentsOf(up) == ["Hello"];
    StreamFramesSplit(up);
    assert FramesOf(ps) == [Frame(Payload("Hello"))] by {
      assert ps[1..] == [];
    }
    assert Concat(StreamFrames(up)) == Frame(Payload("Hello")) + Concat([DoneFrame]);
    assert Concat([DoneFrame]) == DoneFrame + Concat([]);
  }

  /** A frame cut between two reads is lost by the reader as written: the
      body for the single delta "Hello", read as
      `data: {"choices": [{"delta": {"content": "Hel` and then the rest,
      yields no text at all, while the buffered reader yields "Hello". */
  lemma SplitFrameLost()
    ensures var first := "data: " + PayloadHead + "Hel";
      var second := "lo" + PayloadTail + "\n\n" + DoneFrame;
      Concat([first, second]) == ServerBody(Upstream([Some("Hello")], None)) &&
      UnbufferedText([first, second], JsonDecode) == "" &&
      StreamText([first, second], JsonDecode) == "Hello"
  {
    var up := Upstream([Some("Hello")], None);
    var first := "data: " + PayloadHead + "Hel";
    var second := "lo" + PayloadTail + "\n\n" + DoneFrame;
    // the body
    HelloBody();
    assert JsonString("Hello") == "Hel" + "lo";
    Regroup("data: ", PayloadHead, "Hel", "lo", PayloadTail, "\n\n", DoneFrame);
    assert [first, second][1..] == [second] && [second][1..] == [];
    assert Concat([first, second]) == first + second;
    // the reader as written
    assert [first, second][..1] == [first] && [first][..0] == [];
    FirstReadLost(first);
    SecondReadLost(second);
    assert UnbufferedText([first], JsonDecode) == ReadText(first, JsonDecode);
    assert UnbufferedText([first, second], JsonDecode) ==
      UnbufferedText([first], JsonDecode) + ReadText(second, JsonDecode);
    // the buffered reader
    JsonDecodeReadsPayloads();
    StreamRoundTrip(up, [first, second], JsonDecode);
  }

  lemma FirstReadLost(first: string)
    requires first == "data: " + PayloadHead + "Hel"
    ensures ReadText(first, JsonDecode) == ""
  {
    var data := PayloadHead + "Hel";
    AppendAssoc("data: ", PayloadHead, "Hel");
    assert '\n' !in PayloadHead && '\n' !in "Hel" && '\n' !in "data: ";
    NotInAppend('\n', PayloadHead, "Hel");
    NotInAppend('\n', "data: ", data);
    SplitPiece(first, '\n');
    assert |data| < |PayloadHead| + |PayloadTail|;
    assert data[0] == '{' && data[|data| - 1] == 'l';
    assert JsonDecode(data) == Malformed;
    DataLineEvent(data, JsonDecode);
    assert ClassifyLine(first, JsonDecode) == Skip;
    assert [first][1..] == [];
    assert LinesText([first], LineClassifier(JsonDecode)) == LinesText([], LineClassifier(JsonDecode));
  }

  lemma SecondReadLost(second: string)
    requires second == "lo" + PayloadTail + "\n\n" + DoneFrame
    ensures ReadText(second, JsonDecode) == ""
  {
    var cls := LineClassifier(JsonDecode);
    var line := "lo" + PayloadTail;
    assert '\n' !in PayloadTail && '\n' !in "lo";
    NotInAppend('\n', "lo", PayloadTail);
    SplitLineBreak(line, DoneFrame);
    SplitDoneFrame();
    assert !StartsWith(line, "data: ") by {
      assert line[0] != "data: "[0];
    }
    assert cls(line) == Skip && cls("") == Skip;
    assert [line, ""][1..] == [""] && [""][1..] == [];
    assert LinesText([""], cls) == "" && !DoneIn([""], cls);
    assert LinesText([line, ""], cls) == LinesText([""], cls);
    assert !DoneIn([line, ""], cls);
    LinesTextAppend([line, ""], ["data: [DONE]", "", ""], cls);
    DoneLine("data: [DONE]", JsonDecode);
  }
}
