/**
 * The line loop of `SiliconClient.StreamChat` (siliconflow/silicon_client.go):
 * a streamed chat completion arrives as lines of Server-Sent-Events style
 * `data: ` records. Each line is skipped, turned into one call of the
 * caller's sink, or ends the stream; the loop stops at the `[DONE]`
 * sentinel, at a chunk whose finish reason is "stop", at the first line
 * that fails to parse, and at the first sink failure.
 *
 * The transport is abstracted away: the response body is the sequence of
 * its lines, already split. JSON decoding is the parameter `parse`, and
 * the sink is a function of the calls made so far and the new event.
 */
module SiliconStream {
  import opened Optional
  import opened Messages

  /** `ChunkedChoice`. */
  datatype Choice = Choice(index: int, delta: Message, finishReason: string)

  /** `ChatCompletionChunk`, one decoded `data:` record. */
  datatype Chunk = Chunk(
    id: string,
    object: string,
    created: int,
    model: string,
    systemFingerprint: string,
    choices: seq<Choice>)

  /** A `time.Time`: the zero value, or `time.Unix(seconds, 0)`. */
  datatype Time = ZeroTime | Unix(seconds: int)

  /** `ChatResponse`, the event handed to the sink. */
  datatype ChatResponse = ChatResponse(
    model: string,
    createdAt: Time,
    message: Message,
    doneReason: string,
    done: bool)

  /** A Go `error` value, identified by its text. */
  datatype Error = Error(text: string)

  /** What `json.Unmarshal` makes of a line: a chunk, or the error it reports. */
  datatype Parsed = Chunked(chunk: Chunk) | ParseFailed(error: Error)

  /** What the sink returns: nil, or an error. */
  datatype Reply = Accepted | Rejected(error: Error)

  /** JSON decoding of one (prefix-stripped) line. */
  type Parser = string -> Parsed

  /** The caller's `ChatResponseFunc`: its reply may depend on the events it has already received. */
  type Sink = (seq<ChatResponse>, ChatResponse) -> Reply

  const NilSinkError: Error := Error("fn is nil")
  const DoneLine: string := "data: [DONE]"
  const DataPrefix: string := "data: "
  const StopReason: string := "stop"

  /** The event sent for the `[DONE]` sentinel: every field zero except `Done`. */
  const DoneEvent: ChatResponse := ChatResponse("", ZeroTime, Message("", ""), "", true)

  predicate HasDataPrefix(line: string) {
    |line| >= |DataPrefix| && line[..|DataPrefix|] == DataPrefix
  }

  /** Replacing the anchored pattern `^data: ` by "": at most one leading prefix is removed. */
  function StripDataPrefix(line: string): (r: string)
    ensures HasDataPrefix(line) ==> line == DataPrefix + r
    ensures !HasDataPrefix(line) ==> r == line
  {
    if HasDataPrefix(line) then line[|DataPrefix|..] else line
  }

  /** The event built from a chunk's first choice. */
  function ToResponse(chunk: Chunk): (r: ChatResponse)
    requires |chunk.choices| > 0
    ensures r.message == chunk.choices[0].delta
    ensures r.doneReason == chunk.choices[0].finishReason
    ensures r.done <==> chunk.choices[0].finishReason == StopReason
    ensures r.model == chunk.model && r.createdAt == Unix(chunk.created)
  {
    var choice := chunk.choices[0];
    ChatResponse(chunk.model, Unix(chunk.created), choice.delta, choice.finishReason,
                 choice.finishReason == StopReason)
  }

  /** What one line asks the loop to do, before the sink is involved. */
  datatype Step = Skip | Emit(event: ChatResponse) | Abort(error: Error)

  /**
   * One line: blank lines and chunks without choices are skipped, the
   * sentinel and every chunk with a choice produce an event, and a line
   * that fails to parse aborts. The sentinel's own branch (report the
   * sink's error, else stop) is the one every event with `done` takes,
   * so it is an `Emit` of `DoneEvent`.
   */
  function Classify(line: string, parse: Parser): Step
  {
    if line == "" then Skip
    else if line == DoneLine then Emit(DoneEvent)
    else
      match parse(StripDataPrefix(line))
      case ParseFailed(e) => Abort(e)
      case Chunked(chunk) => if |chunk.choices| > 0 then Emit(ToResponse(chunk)) else Skip
  }

  /**
   * The result of a decode: the sink calls made, in order; the error
   * returned (None for nil); the lines left unread; and whether the loop
   * returned before the input ran out.
   */
  datatype Outcome = Outcome(calls: seq<ChatResponse>, err: Option<Error>, unread: seq<string>, stopped: bool)

  /** The loop over the remaining `lines`, after the sink calls `calls`. */
  function Run(lines: seq<string>, parse: Parser, sink: Sink, calls: seq<ChatResponse>): Outcome
    decreases |lines|
  {
    if lines == [] then Outcome(calls, None, [], false)
    else
      match Classify(lines[0], parse)
      case Skip => Run(lines[1..], parse, sink, calls)
      case Abort(e) => Outcome(calls, Some(e), lines[1..], true)
      case Emit(event) =>
        match sink(calls, event)
        case Rejected(e) => Outcome(calls + [event], Some(e), lines[1..], true)
        case Accepted =>
          if event.done then Outcome(calls + [event], None, lines[1..], true)
          else Run(lines[1..], parse, sink, calls + [event])
  }

  /** `StreamChat` from the nil check on: a nil sink is refused before any line is read. */
  function Decode(lines: seq<string>, parse: Parser, fn: Option<Sink>): Outcome
  {
    match fn
    case None => Outcome([], Some(NilSinkError), lines, true)
    case Some(sink) => Run(lines, parse, sink, [])
  }

  /** The event one line produces, if any, ignoring the sink. */
  function EventOf(line: string, parse: Parser): seq<ChatResponse>
  {
    match Classify(line, parse)
    case Emit(event) => [event]
    case _ => []
  }

  /** The events the given lines produce, in order, ignoring the sink. */
  function Emitted(lines: seq<string>, parse: Parser): seq<ChatResponse>
  {
    if lines == [] then [] else EventOf(lines[0], parse) + Emitted(lines[1..], parse)
  }

  /** The lines without the blank ones. */
  function NonBlank(lines: seq<string>): seq<string>
  {
    if lines == [] then [] else (if lines[0] == "" then [] else [lines[0]]) + NonBlank(lines[1..])
  }

  /** The calls from index `from` to index `to` were all accepted by the sink and none was a done event. */
  ghost predicate AcceptedAndOpen(sink: Sink, calls: seq<ChatResponse>, from: nat, to: nat)
    requires from <= to <= |calls|
  {
    forall k :: from <= k < to ==> !calls[k].done && sink(calls[..k], calls[k]) == Accepted
  }

  /** Unfolding `Emitted` over a non-empty prefix of the lines. */
  lemma EmittedPrefix(lines: seq<string>, n: nat, parse: Parser)
    requires 1 <= n <= |lines|
    ensures Emitted(lines[..n], parse) == EventOf(lines[0], parse) + Emitted(lines[1..][..n - 1], parse)
  {
    assert lines[..n][0] == lines[0];
    assert lines[..n][1..] == lines[1..][..n - 1];
  }

  /** The loop reads its input front to back: the unread lines are a suffix of it. */
  lemma {:induction false} UnreadIsSuffix(lines: seq<string>, parse: Parser, sink: Sink, calls: seq<ChatResponse>)
    ensures var o := Run(lines, parse, sink, calls);
      && |o.unread| <= |lines|
      && o.unread == lines[|lines| - |o.unread|..]
  {
    if lines != [] {
      var rest := lines[1..];
      match Classify(lines[0], parse)
      case Skip =>
        UnreadIsSuffix(rest, parse, sink, calls);
      case Abort(e) =>
      case Emit(event) =>
        if sink(calls, event).Accepted? && !event.done {
          UnreadIsSuffix(rest, parse, sink, calls + [event]);
        }
    }
  }

  /**
   * The sink sees the events of the lines that were read, in line order
   * and nothing else: the calls are the earlier ones followed by the
   * events of the consumed prefix.
   */
  lemma {:induction false} CallsFollowLines(lines: seq<string>, parse: Parser, sink: Sink, calls: seq<ChatResponse>)
    ensures var o := Run(lines, parse, sink, calls);
      && |o.unread| <= |lines|
      && o.calls == calls + Emitted(lines[..|lines| - |o.unread|], parse)
  {
    if lines == [] {
      assert lines[..0] == [];
    } else {
      var rest := lines[1..];
      match Classify(lines[0], parse)
      case Skip =>
        CallsFollowLines(rest, parse, sink, calls);
        ConsumedOneMore(lines, parse, calls, calls, Run(rest, parse, sink, calls));
      case Abort(e) =>
        ConsumedOnlyFirst(lines, parse, calls);
      case Emit(event) =>
        if sink(calls, event).Accepted? && !event.done {
          CallsFollowLines(rest, parse, sink, calls + [event]);
          ConsumedOneMore(lines, parse, calls, calls + [event], Run(rest, parse, sink, calls + [event]));
        } else {
          ConsumedOnlyFirst(lines, parse, calls);
        }
    }
  }

  /** The step of `CallsFollowLines` for a line after which the loop goes on. */
  lemma ConsumedOneMore(lines: seq<string>, parse: Parser, calls: seq<ChatResponse>, next: seq<ChatResponse>, o: Outcome)
    requires lines != [] && |o.unread| <= |lines| - 1
    requires next == calls + EventOf(lines[0], parse)
    requires o.calls == next + Emitted(lines[1..][..|lines| - 1 - |o.unread|], parse)
    ensures o.calls == calls + Emitted(lines[..|lines| - |o.unread|], parse)
  {
    EmittedPrefix(lines, |lines| - |o.unread|, parse);
  }

  /** The step of `CallsFollowLines` for a line on which the loop returns. */
  lemma ConsumedOnlyFirst(lines: seq<string>, parse: Parser, calls: seq<ChatResponse>)
    requires lines != []
    ensures calls + EventOf(lines[0], parse) == calls + Emitted(lines[..|lines| - |lines[1..]|], parse)
  {
    EmittedPrefix(lines, 1, parse);
    assert lines[1..][..0] == [];
  }

  /** At most one sink call per non-blank line: blank lines never reach the sink. */
  lemma {:induction false} EmittedAtMostNonBlank(lines: seq<string>, parse: Parser)
    ensures |Emitted(lines, parse)| <= |NonBlank(lines)|
  {
    if lines != [] {
      EmittedAtMostNonBlank(lines[1..], parse);
    }
  }

  /** Every call but the last was accepted by the sink and was not a done event. */
  lemma {:induction false} EarlierCallsAccepted(lines: seq<string>, parse: Parser, sink: Sink, calls: seq<ChatResponse>)
    ensures var o := Run(lines, parse, sink, calls);
      && |calls| <= |o.calls|
      && o.calls[..|calls|] == calls
      && (|o.calls| > |calls| ==> AcceptedAndOpen(sink, o.calls, |calls|, |o.calls| - 1))
  {
    if lines != [] {
      var rest := lines[1..];
      match Classify(lines[0], parse)
      case Skip =>
        EarlierCallsAccepted(rest, parse, sink, calls);
      case Abort(e) =>
      case Emit(event) =>
        var next := calls + [event];
        if sink(calls, event).Accepted? && !event.done {
          EarlierCallsAccepted(rest, parse, sink, next);
          var o := Run(rest, parse, sink, next);
          assert o.calls[..|next|][..|calls|] == o.calls[..|calls|];
          assert o.calls[..|calls|] == calls && o.calls[|calls|] == event;
        }
    }
  }

  /**
   * Exactly one way for the loop to end. Either it ran out of lines and
   * returns nil, every call accepted and none done; or it returned on
   * the last line it read, which was not blank: a parse failure (that
   * error returned, every call accepted and none done) or an event whose
   * call is the last one made, returning the sink's error, or nil when
   * the event was done.
   */
  lemma {:induction false} Ending(lines: seq<string>, parse: Parser, sink: Sink, calls: seq<ChatResponse>)
    ensures Ended(lines, parse, sink, calls, Run(lines, parse, sink, calls))
    ensures var o := Run(lines, parse, sink, calls);
      (!o.stopped || Classify(lines[|lines| - |o.unread| - 1], parse).Abort?) ==>
        AcceptedAndOpen(sink, o.calls, |calls|, |o.calls|)
  {
    EarlierCallsAccepted(lines, parse, sink, calls);
    EndingCases(lines, parse, sink, calls);
    var o := Run(lines, parse, sink, calls);
    if !o.stopped || Classify(lines[|lines| - |o.unread| - 1], parse).Abort? {
      AllAccepted(sink, o.calls, |calls|);
    }
  }

  /** Every call in `calls[from..]` was accepted and open, given that the last one was and so were all before it. */
  lemma AllAccepted(sink: Sink, calls: seq<ChatResponse>, from: nat)
    requires from <= |calls|
    requires |calls| > from ==> AcceptedAndOpen(sink, calls, from, |calls| - 1)
    requires LastAcceptedAndOpen(sink, calls, from)
    ensures AcceptedAndOpen(sink, calls, from, |calls|)
  {
  }

  /** The case analysis behind `Ending`. */
  lemma {:induction false} EndingCases(lines: seq<string>, parse: Parser, sink: Sink, calls: seq<ChatResponse>)
    ensures Ended(lines, parse, sink, calls, Run(lines, parse, sink, calls))
  {
    if lines != [] {
      var rest := lines[1..];
      match Classify(lines[0], parse)
      case Skip =>
        EndingCases(rest, parse, sink, calls);
        EndedAfter(lines, parse, sink, calls, calls, Run(rest, parse, sink, calls));
      case Abort(e) =>
      case Emit(event) =>
        var next := calls + [event];
        if sink(calls, event).Accepted? && !event.done {
          var o := Run(rest, parse, sink, next);
          EndingCases(rest, parse, sink, next);
          EarlierCallsAccepted(rest, parse, sink, next);
          if |o.calls| == |next| {
            assert o.calls == o.calls[..|next|] == next;
            assert next[..|calls|] == calls;
          }
          EndedAfter(lines, parse, sink, calls, next, o);
        } else {
          assert next[..|calls|] == calls;
        }
    }
  }

  /**
   * How a run that started after the calls `calls` ended with outcome
   * `o`. See `Ending`.
   */
  ghost predicate Ended(lines: seq<string>, parse: Parser, sink: Sink, calls: seq<ChatResponse>, o: Outcome)
  {
    && |calls| <= |o.calls| && |o.unread| <= |lines|
    && (!o.stopped ==>
          o.unread == [] && o.err.None? && LastAcceptedAndOpen(sink, o.calls, |calls|))
    && (o.stopped ==>
          |o.unread| < |lines| && StoppedOn(Classify(lines[|lines| - |o.unread| - 1], parse), sink, calls, o))
  }

  /** The line that ended the run, classified as `step`, explains the outcome `o`. */
  ghost predicate StoppedOn(step: Step, sink: Sink, calls: seq<ChatResponse>, o: Outcome)
  {
    match step
    case Skip => false
    case Abort(e) => o.err == Some(e) && LastAcceptedAndOpen(sink, o.calls, |calls|)
    case Emit(event) =>
      && |calls| < |o.calls|
      && o.calls[|o.calls| - 1] == event
      && match sink(o.calls[..|o.calls| - 1], event)
         case Rejected(e) => o.err == Some(e)
         case Accepted => event.done && o.err.None?
  }

  /** The step of `Ending` for a line after which the loop goes on with the calls `next`. */
  lemma EndedAfter(lines: seq<string>, parse: Parser, sink: Sink, calls: seq<ChatResponse>,
                   next: seq<ChatResponse>, o: Outcome)
    requires lines != [] && |calls| <= |next|
    requires Ended(lines[1..], parse, sink, next, o)
    requires |o.calls| == |next| ==> LastAcceptedAndOpen(sink, o.calls, |calls|)
    ensures Ended(lines, parse, sink, calls, o)
  {
    if o.stopped {
      assert lines[|lines| - |o.unread| - 1] == lines[1..][|lines| - 1 - |o.unread| - 1];
    }
  }

  /** The last call, if it is past index `from`, was accepted and was not a done event. */
  ghost predicate LastAcceptedAndOpen(sink: Sink, calls: seq<ChatResponse>, from: nat)
  {
    |calls| > from ==>
      !calls[|calls| - 1].done && sink(calls[..|calls| - 1], calls[|calls| - 1]) == Accepted
  }

  /**
   * No line is read past the one that ends the stream: extending the
   * input changes nothing but the unread lines. When the loop ran out of
   * lines instead, extra lines are decoded from where it left off.
   */
  lemma {:induction false} NoReadAhead(lines: seq<string>, extra: seq<string>, parse: Parser, sink: Sink,
                                       calls: seq<ChatResponse>)
    ensures var o := Run(lines, parse, sink, calls);
      Run(lines + extra, parse, sink, calls) ==
        if o.stopped then o.(unread := o.unread + extra) else Run(extra, parse, sink, o.calls)
  {
    if lines == [] {
      assert lines + extra == extra;
    } else {
      assert (lines + extra)[0] == lines[0];
      assert (lines + extra)[1..] == lines[1..] + extra;
      match Classify(lines[0], parse)
      case Skip =>
        NoReadAhead(lines[1..], extra, parse, sink, calls);
      case Abort(e) =>
      case Emit(event) =>
        if sink(calls, event).Accepted? && !event.done {
          NoReadAhead(lines[1..], extra, parse, sink, calls + [event]);
        }
    }
  }

  /** Blank lines are invisible: dropping them changes neither the calls, nor the error, nor how the loop ends. */
  lemma {:induction false} BlankLinesIgnored(lines: seq<string>, parse: Parser, sink: Sink, calls: seq<ChatResponse>)
    ensures var o := Run(lines, parse, sink, calls);
      var p := Run(NonBlank(lines), parse, sink, calls);
      p.calls == o.calls && p.err == o.err && p.stopped == o.stopped
  {
    if lines != [] {
      var rest := lines[1..];
      BlankLinesIgnored(rest, parse, sink, calls);
      if lines[0] != "" {
        var nb := NonBlank(lines);
        assert nb == [lines[0]] + NonBlank(rest);
        assert nb[0] == lines[0] && nb[1..] == NonBlank(rest);
        match Classify(lines[0], parse)
        case Skip =>
        case Abort(e) =>
        case Emit(event) =>
          if sink(calls, event).Accepted? && !event.done {
            BlankLinesIgnored(rest, parse, sink, calls + [event]);
          }
      } else {
        assert NonBlank(lines) == [] + NonBlank(rest) == NonBlank(rest);
        assert Run(lines, parse, sink, calls) == Run(rest, parse, sink, calls);
      }
    }
  }

  /** A line carrying one content delta that does not end the stream. */
  predicate IsDeltaLine(line: string, parse: Parser) {
    && line != "" && line != DoneLine
    && parse(StripDataPrefix(line)).Chunked?
    && |parse(StripDataPrefix(line)).chunk.choices| > 0
    && parse(StripDataPrefix(line)).chunk.choices[0].finishReason != StopReason
  }

  /** The concatenated contents of a sequence of events. */
  function Text(events: seq<ChatResponse>): string
  {
    if events == [] then "" else events[0].message.content + Text(events[1..])
  }

  /**
   * Delta lines closed by the sentinel, read by a sink that accepts
   * everything: one call per delta, then the done call, nil returned
   * and every line read.
   */
  lemma {:induction false} DeltasThenDone(deltas: seq<string>, parse: Parser, sink: Sink, calls: seq<ChatResponse>)
    requires forall k :: 0 <= k < |deltas| ==> IsDeltaLine(deltas[k], parse)
    requires forall prior, event :: sink(prior, event) == Accepted
    ensures Run(deltas + [DoneLine], parse, sink, calls)
              == Outcome(calls + Emitted(deltas, parse) + [DoneEvent], None, [], true)
  {
    var lines := deltas + [DoneLine];
    if deltas == [] {
      assert lines == [DoneLine];
    } else {
      assert lines[0] == deltas[0] && lines[1..] == deltas[1..] + [DoneLine];
      var event := Emitted(deltas, parse)[0];
      DeltasThenDone(deltas[1..], parse, sink, calls + [event]);
      assert calls + Emitted(deltas, parse) == calls + [event] + Emitted(deltas[1..], parse);
    }
  }

  /** Each delta line yields exactly one event, and none of them is done. */
  lemma {:induction false} DeltaEvents(deltas: seq<string>, parse: Parser)
    requires forall k :: 0 <= k < |deltas| ==> IsDeltaLine(deltas[k], parse)
    ensures |Emitted(deltas, parse)| == |deltas|
    ensures forall k :: 0 <= k < |deltas| ==> !Emitted(deltas, parse)[k].done
  {
    if deltas != [] {
      DeltaEvents(deltas[1..], parse);
      var e := Emitted(deltas, parse);
      assert e == EventOf(deltas[0], parse) + Emitted(deltas[1..], parse);
      forall k | 0 <= k < |deltas|
        ensures !e[k].done
      {
        if k > 0 {
          assert e[k] == Emitted(deltas[1..], parse)[k - 1];
        }
      }
    }
  }

  /**
   * A stream of delta lines closed by the sentinel, read by a sink that
   * accepts everything: one call per delta, with done false, then one
   * call with done true and nil returned, every line read, and the
   * delivered text is the text of the deltas.
   */
  lemma StreamOfDeltas(deltas: seq<string>, parse: Parser, sink: Sink, calls: seq<ChatResponse>)
    requires forall k :: 0 <= k < |deltas| ==> IsDeltaLine(deltas[k], parse)
    requires forall prior, event :: sink(prior, event) == Accepted
    ensures var o := Run(deltas + [DoneLine], parse, sink, calls);
      && o == Outcome(calls + Emitted(deltas, parse) + [DoneEvent], None, [], true)
      && |Emitted(deltas, parse)| == |deltas|
      && (forall k :: 0 <= k < |deltas| ==> !Emitted(deltas, parse)[k].done)
      && Text(o.calls) == Text(calls) + Text(Emitted(deltas, parse))
  {
    DeltasThenDone(deltas, parse, sink, calls);
    DeltaEvents(deltas, parse);
    var e := Emitted(deltas, parse);
    TextAppend(calls + e, [DoneEvent]);
    TextAppend(calls, e);
    assert Text([DoneEvent]) == "";
  }

  /** Text distributes over concatenation. */
  lemma {:induction false} TextAppend(a: seq<ChatResponse>, b: seq<ChatResponse>)
    ensures Text(a + b) == Text(a) + Text(b)
  {
    if a == [] {
      assert a + b == b;
    } else {
      assert (a + b)[1..] == a[1..] + b;
      TextAppend(a[1..], b);
    }
  }

  /** A stand-in decoder for the example below: the payload is the content of one assistant delta. */
  function DeltaParser(payload: string): Parsed
  {
    Chunked(Chunk("", "chat.completion.chunk", 0, "", "", [Choice(0, Message("assistant", payload), "")]))
  }

  /** A `data: ` line whose payload is not `[DONE]` is a delta line for `DeltaParser`, carrying that payload. */
  lemma DeltaLine(payload: string)
    requires payload != "[DONE]"
    ensures IsDeltaLine(DataPrefix + payload, DeltaParser)
    ensures EventOf(DataPrefix + payload, DeltaParser) == [ToResponse(DeltaParser(payload).chunk)]
    ensures ToResponse(DeltaParser(payload).chunk).message.content == payload
  {
    var line := DataPrefix + payload;
    assert line[..|DataPrefix|] == DataPrefix;
    assert line[|DataPrefix|..] == payload;
    assert DoneLine[|DataPrefix|..] == "[DONE]";
  }

  /** The event `DeltaParser` makes of the payload. */
  function DeltaEvent(payload: string): (e: ChatResponse)
    ensures e.message.content == payload && !e.done
  {
    ToResponse(DeltaParser(payload).chunk)
  }

  /** Three delta lines yield their three events, whose text is the three payloads in order. */
  lemma ThreeDeltas(a: string, b: string, c: string)
    requires a != "[DONE]" && b != "[DONE]" && c != "[DONE]"
    ensures var deltas := [DataPrefix + a, DataPrefix + b, DataPrefix + c];
      && (forall k :: 0 <= k < |deltas| ==> IsDeltaLine(deltas[k], DeltaParser))
      && Emitted(deltas, DeltaParser) == [DeltaEvent(a), DeltaEvent(b), DeltaEvent(c)]
      && Text(Emitted(deltas, DeltaParser)) == a + b + c
  {
    var deltas := [DataPrefix + a, DataPrefix + b, DataPrefix + c];
    DeltaLine(a);
    DeltaLine(b);
    DeltaLine(c);
    assert deltas[1..] == [DataPrefix + b, DataPrefix + c];
    assert deltas[1..][1..] == [DataPrefix + c];
    assert Emitted([DataPrefix + c], DeltaParser) == [DeltaEvent(c)];
    var events := [DeltaEvent(a), DeltaEvent(b), DeltaEvent(c)];
    assert Text(events[2..]) == c + "" by { assert events[2..][1..] == []; }
    assert Text(events[1..]) == b + c by { assert events[1..][1..] == events[2..]; }
    assert a + (b + c) == a + b + c;
  }

  /**
   * Three deltas and the sentinel, read by a sink that accepts
   * everything: three calls that are not done, then the done call, nil
   * returned, and the delivered text is the three deltas joined.
   */
  lemma HelloWorld(lines: seq<string>, sink: Sink)
    requires lines == [DataPrefix + "Hel", DataPrefix + "lo, ", DataPrefix + "world", DoneLine]
    requires forall prior, event :: sink(prior, event) == Accepted
    ensures var o := Decode(lines, DeltaParser, Some(sink));
      && |o.calls| == 4 && o.err.None?
      && !o.calls[0].done && !o.calls[1].done && !o.calls[2].done && o.calls[3] == DoneEvent
      && Text(o.calls) == "Hel" + "lo, " + "world"
  {
    var deltas := [DataPrefix + "Hel", DataPrefix + "lo, ", DataPrefix + "world"];
    assert lines == deltas + [DoneLine];
    ThreeDeltas("Hel", "lo, ", "world");
    StreamOfDeltas(deltas, DeltaParser, sink, []);
    assert Text([]) == "";
  }

  /**
   * The loop itself. `read` counts the lines the scanner delivered;
   * the calls are those made to the sink, in order.
   */
  method StreamChat(lines: seq<string>, parse: Parser, fn: Option<Sink>)
    returns (err: Option<Error>, calls: seq<ChatResponse>, read: nat)
    ensures read <= |lines|
    ensures fn.None? ==> err == Some(NilSinkError) && calls == [] && read == 0
    ensures var o := Decode(lines, parse, fn);
      o.calls == calls && o.err == err && o.unread == lines[read..]
  {
    calls, read := [], 0;
    if fn.None? {
      err := Some(NilSinkError);
      return;
    }
    var sink := fn.value;
    while read < |lines|
      invariant read <= |lines|
      invariant Run(lines, parse, sink, []) == Run(lines[read..], parse, sink, calls)
    {
      var line := lines[read];
      assert lines[read..][0] == line && lines[read..][1..] == lines[read + 1..];
      read := read + 1;
      if line == "" {
        continue;
      }
      if line == DoneLine {
        var response := DoneEvent;
        var reply := sink(calls, response);
        calls := calls + [response];
        if reply.Rejected? {
          err := Some(reply.error);
          return;
        }
        err := None;
        return;
      }
      var cleanLine := StripDataPrefix(line);
      var parsed := parse(cleanLine);
      if parsed.ParseFailed? {
        err := Some(parsed.error);
        return;
      }
      var chunk := parsed.chunk;
      if |chunk.choices| > 0 {
        var response := ToResponse(chunk);
        var reply := sink(calls, response);
        calls := calls + [response];
        if reply.Rejected? {
          err := Some(reply.error);
          return;
        }
        if response.done {
          err := None;
          return;
        }
      }
    }
    err := None;
  }
}
