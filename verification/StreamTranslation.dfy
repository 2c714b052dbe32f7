/**
 Translation of an Anthropic event stream into OpenAI chunks
 (internal/llm/anthropic_stream.go), and what the usage tracker makes of the result.

 Events arrive parsed; lines that are not events and events of unknown type are
 `Ignored`. The writer always succeeds. `encode` renders a chunk as JSON.
 */
module StreamTranslation {
  import opened Base
  import opened UsageMeter
  import opened UsageCuts
  import opened UsageAgreement

  datatype Delta = TextDelta(text: string) | ThinkingDelta(thinking: string) | InputJsonDelta(json: string) | OtherDelta

  datatype AnthropicEvent =
    | MessageStart(input: Option<int>)
    | ToolUseStart(index: int, id: string, name: string)
    | OtherBlockStart
    | BlockDelta(index: int, delta: Option<Delta>)
    | MessageDelta(output: Option<int>, stopReason: string)
    | MessageStop
    | ErrorEvent
    | Ignored

  datatype Chunk =
    | RoleChunk
    | ToolCallChunk(index: int, id: string, name: string)
    | ContentChunk(text: string)
    | ReasoningChunk(text: string)
    | ArgumentsChunk(index: int, arguments: string)
    | FinishChunk(reason: string)
    | UsageChunk(input: int, output: int)
    | ErrorChunk

  datatype Sent = Data(chunk: Chunk) | Done

  function MapStopReason(r: string): string {
    if r == "tool_use" then "tool_calls" else if r == "max_tokens" then "length" else "stop"
  }

  // ------------------------------------------------------------------
  // The translation
  // ------------------------------------------------------------------

  datatype Progress = Progress(input: int, output: int, stopSeen: bool, sent: seq<Sent>)

  function DeltaChunks(index: int, d: Option<Delta>): seq<Sent> {
    match d
    case Some(TextDelta(t)) => [Data(ContentChunk(t))]
    case Some(ThinkingDelta(t)) => [Data(ReasoningChunk(t))]
    case Some(InputJsonDelta(j)) => [Data(ArgumentsChunk(index, j))]
    case Some(OtherDelta) => []
    case None => []
  }

  function Step(p: Progress, e: AnthropicEvent): Progress {
    match e
    case MessageStart(i) =>
      p.(input := if i.Some? then i.value else p.input, sent := p.sent + [Data(RoleChunk)])
    case ToolUseStart(i, id, name) => p.(sent := p.sent + [Data(ToolCallChunk(i, id, name))])
    case OtherBlockStart => p
    case BlockDelta(i, d) => p.(sent := p.sent + DeltaChunks(i, d))
    case MessageDelta(o, stop) =>
      p.(output := if o.Some? then o.value else p.output,
         sent := if stop != "" then p.sent + [Data(FinishChunk(MapStopReason(stop)))] else p.sent)
    case MessageStop => p.(stopSeen := true, sent := p.sent + [Data(UsageChunk(p.input, p.output)), Done])
    case ErrorEvent => p.(sent := p.sent + [Data(ErrorChunk)])
    case Ignored => p
  }

  function Run(events: seq<AnthropicEvent>): Progress {
    if events == [] then Progress(0, 0, false, []) else Step(Run(Init(events)), Last(events))
  }

  /** A stream that ends without message_stop still reports the tokens it knows of, but is not marked complete. */
  function Flush(p: Progress): seq<Sent> {
    if !p.stopSeen && (p.input > 0 || p.output > 0) then p.sent + [Data(UsageChunk(p.input, p.output))] else p.sent
  }

  method TranslateEvents(events: seq<AnthropicEvent>) returns (sent: seq<Sent>)
    ensures sent == Flush(Run(events))
  {
    var input, output, stopSeen := 0, 0, false;
    sent := [];
    var i := 0;
    while i < |events|
      invariant i <= |events|
      invariant Run(events[..i]) == Progress(input, output, stopSeen, sent)
    {
      assert Init(events[..i + 1]) == events[..i];
      match events[i] {
        case MessageStart(n) =>
          if n.Some? {
            input := n.value;
          }
          sent := sent + [Data(RoleChunk)];
        case ToolUseStart(index, id, name) =>
          sent := sent + [Data(ToolCallChunk(index, id, name))];
        case BlockDelta(index, delta) =>
          sent := sent + DeltaChunks(index, delta);
        case MessageDelta(n, stop) =>
          if n.Some? {
            output := n.value;
          }
          if stop != "" {
            sent := sent + [Data(FinishChunk(MapStopReason(stop)))];
          }
        case MessageStop =>
          stopSeen := true;
          sent := sent + [Data(UsageChunk(input, output)), Done];
        case ErrorEvent =>
          sent := sent + [Data(ErrorChunk)];
        case OtherBlockStart =>
        case Ignored =>
      }
      i := i + 1;
    }
    assert events[..|events|] == events;
    if !stopSeen && (input > 0 || output > 0) {
      sent := sent + [Data(UsageChunk(input, output))];
    }
  }

  // ------------------------------------------------------------------
  // [DONE] means message_stop
  // ------------------------------------------------------------------

  lemma {:induction false} StopsAreMarked(events: seq<AnthropicEvent>)
    ensures Run(events).stopSeen <==> MessageStop in events
    ensures Done in Run(events).sent <==> MessageStop in events
  {
    if events != [] {
      StopsAreMarked(Init(events));
      var p, e := Run(Init(events)), Last(events);
      assert events == Init(events) + [e];
      assert Done in Step(p, e).sent <==> Done in p.sent || e == MessageStop;
    }
  }

  /** The answer is marked complete exactly when the upstream said so. */
  lemma {:induction false} DoneIffStopped(events: seq<AnthropicEvent>)
    ensures Done in Flush(Run(events)) <==> MessageStop in events
  {
    StopsAreMarked(events);
  }

  // ------------------------------------------------------------------
  // What the stream reports
  // ------------------------------------------------------------------

  /** The last input count any message_start gave, or 0. */
  function LastInput(events: seq<AnthropicEvent>): int {
    if events == [] then 0
    else match Last(events)
      case MessageStart(Some(n)) => n
      case _ => LastInput(Init(events))
  }

  /** The last output count any message_delta gave, or 0. */
  function LastOutput(events: seq<AnthropicEvent>): int {
    if events == [] then 0
    else match Last(events)
      case MessageDelta(Some(n), _) => n
      case _ => LastOutput(Init(events))
  }

  lemma {:induction false} CountersAreLast(events: seq<AnthropicEvent>)
    ensures Run(events).input == LastInput(events) && Run(events).output == LastOutput(events)
  {
    if events != [] {
      CountersAreLast(Init(events));
    }
  }

  /** The last usage chunk sent. */
  function LastUsage(u: Option<Usage>, sent: seq<Sent>): Option<Usage> {
    if sent == [] then u
    else match Last(sent)
      case Data(UsageChunk(i, o)) => Some(Usage(i, o))
      case _ => LastUsage(u, Init(sent))
  }

  lemma {:induction false} LastUsageAppend(u: Option<Usage>, a: seq<Sent>, b: seq<Sent>)
    ensures LastUsage(u, a + b) == LastUsage(LastUsage(u, a), b)
  {
    if b == [] {
      assert a + b == a;
    } else {
      assert Init(a + b) == a + Init(b) && Last(a + b) == Last(b);
      LastUsageAppend(u, a, Init(b));
    }
  }

  /** The usage known when the last message_stop arrived. */
  function UsageAtStop(events: seq<AnthropicEvent>): Option<Usage> {
    if events == [] then None
    else if Last(events) == MessageStop then Some(Usage(LastInput(Init(events)), LastOutput(Init(events))))
    else UsageAtStop(Init(events))
  }

  /** One step's effect on the last usage sent. */
  lemma StepUsage(p: Progress, e: AnthropicEvent)
    ensures LastUsage(None, Step(p, e).sent) ==
            if e == MessageStop then Some(Usage(p.input, p.output)) else LastUsage(None, p.sent)
  {
    var added := Step(p, e).sent[|p.sent|..];
    assert Step(p, e).sent == p.sent + added;
    if e == MessageStop {
    } else if added != [] {
      assert added == [added[0]];
    } else {
      assert p.sent + added == p.sent;
    }
  }

  lemma {:induction false} SentUsage(events: seq<AnthropicEvent>)
    ensures LastUsage(None, Run(events).sent) == UsageAtStop(events)
  {
    if events != [] {
      SentUsage(Init(events));
      CountersAreLast(Init(events));
      StepUsage(Run(Init(events)), Last(events));
    }
  }

  lemma {:induction false} StopGivesUsage(events: seq<AnthropicEvent>)
    ensures UsageAtStop(events).Some? <==> MessageStop in events
  {
    if events != [] {
      StopGivesUsage(Init(events));
      assert events == Init(events) + [Last(events)];
    }
  }

  /** What the translated stream should be metered as. */
  function Metered(events: seq<AnthropicEvent>): Option<Usage> {
    if MessageStop in events then UsageAtStop(events)
    else if LastInput(events) > 0 || LastOutput(events) > 0 then Some(Usage(LastInput(events), LastOutput(events)))
    else None
  }

  lemma FlushedUsage(events: seq<AnthropicEvent>)
    ensures LastUsage(None, Flush(Run(events))) == Metered(events)
  {
    var p := Run(events);
    SentUsage(events);
    StopsAreMarked(events);
    StopGivesUsage(events);
    CountersAreLast(events);
  }

  // ------------------------------------------------------------------
  // Through the wire to the tracker
  // ------------------------------------------------------------------

  type Encoder = Chunk -> Bytes

  /** One event line, without its terminating blank line. */
  function LineOf(encode: Encoder, s: Sent): Bytes {
    DataPrefix + [32] + match s case Data(c) => encode(c) case Done => DoneWord
  }

  function LinesOf(encode: Encoder, sent: seq<Sent>): seq<Bytes> {
    if sent == [] then [] else [LineOf(encode, sent[0])] + LinesOf(encode, sent[1..])
  }

  /** Every byte written. */
  function Written(encode: Encoder, sent: seq<Sent>): Bytes {
    Stream(LinesOf(encode, sent))
  }

  /** What metering needs of the JSON library. */
  ghost predicate Agree(encode: Encoder, decode: Decoder) {
    && (forall c: Chunk :: encode(c) != [] && NL !in encode(c) && !IsSpace(encode(c)[0]) && !IsSpace(Last(encode(c))))
    && (forall c: Chunk :: decode(encode(c)) == if c.UsageChunk? then Some(Usage(c.input, c.output)) else None)
    && (forall c: Chunk :: c.UsageChunk? ==> Contains(encode(c), UsageWord))
    && decode(DoneWord) == None
  }

  predicate IsUsage(s: Sent) {
    s.Data? && s.chunk.UsageChunk?
  }

  predicate HasUsage(sent: seq<Sent>) {
    exists s :: s in sent && IsUsage(s)
  }

  /** What is sent from the last usage chunk on; all of it if there is none. */
  function SinceUsage(sent: seq<Sent>): seq<Sent> {
    if sent == [] then []
    else if HasUsage(sent[1..]) then SinceUsage(sent[1..])
    else sent
  }

  ghost predicate LinesHarmless(encode: Encoder, decode: Decoder, sent: seq<Sent>) {
    forall s :: s in sent ==> Harmless(decode, LineOf(encode, s))
  }

  ghost predicate UsageFits(encode: Encoder, sent: seq<Sent>) {
    forall s :: s in sent && IsUsage(s) ==> |LineOf(encode, s)| <= LineCap
  }

  /** The last usage chunk fits the tracker's cap, and no line from there on hides anything that carries usage. */
  ghost predicate Meterable(encode: Encoder, decode: Decoder, sent: seq<Sent>) {
    LinesHarmless(encode, decode, SinceUsage(sent)) && UsageFits(encode, SinceUsage(sent))
  }

  lemma TrimPayload(p: Bytes)
    requires p != [] && !IsSpace(p[0]) && !IsSpace(Last(p))
    ensures Trim([32] + p) == p
  {
    assert Last([32] + p) == Last(p);
    assert TrimRight([32] + p) == [32] + p;
    assert ([32] + p)[1..] == p;
    assert TrimLeft(p) == p;
  }

  /** How the tracker takes one written line. */
  lemma ScanWritten(encode: Encoder, decode: Decoder, u: Option<Usage>, s: Sent)
    requires Agree(encode, decode)
    ensures Event(LineOf(encode, s))
    ensures Scan(decode, u, LineOf(encode, s)) ==
            match s
            case Data(UsageChunk(i, o)) => Some(Usage(i, o))
            case _ => u
  {
    var p := match s case Data(c) => encode(c) case Done => DoneWord;
    var line := LineOf(encode, s);
    assert line == DataPrefix + ([32] + p);
    assert line[|DataPrefix|..] == [32] + p;
    TrimPayload(p);
    if s.Data? && s.chunk.UsageChunk? {
      assert line[|DataPrefix| + 1..] == p;
    }
  }

  lemma LinesOfAt(encode: Encoder, sent: seq<Sent>, k: nat)
    requires k < |sent|
    ensures |LinesOf(encode, sent)| == |sent| && LinesOf(encode, sent)[k] == LineOf(encode, sent[k])
  {
    if k > 0 {
      LinesOfAt(encode, sent[1..], k - 1);
    } else if |sent| > 1 {
      LinesOfAt(encode, sent[1..], 0);
    }
  }

  lemma {:induction false} TrackerReadsWritten(encode: Encoder, decode: Decoder, u: Option<Usage>, sent: seq<Sent>)
    requires Agree(encode, decode) && UsageFits(encode, sent)
    ensures Summary(decode, u, Written(encode, sent)) == Tracked([], LastUsage(u, sent))
    decreases |sent|
  {
    if sent == [] {
      SummaryOfTail(decode, u, []);
    } else {
      var lines := LinesOf(encode, sent);
      assert lines[1..] == LinesOf(encode, sent[1..]);
      ScanWritten(encode, decode, u, sent[0]);
      StreamSummary(decode, u, lines);
      TrackerReadsWritten(encode, decode, Taken(decode, u, lines[0]), sent[1..]);
      LastUsageAppend(u, [sent[0]], sent[1..]);
      assert sent == [sent[0]] + sent[1..];
      assert [] + [sent[0]] == [sent[0]];
    }
  }

  /** Every written line is free of newlines, and harmless if each is. */
  lemma WrittenLines(encode: Encoder, decode: Decoder, sent: seq<Sent>)
    requires Agree(encode, decode)
    ensures Tail(Written(encode, sent)) == []
    ensures LinesHarmless(encode, decode, sent) ==> AllHarmless(decode, Lines(Written(encode, sent)))
  {
    var lines := LinesOf(encode, sent);
    forall k | 0 <= k < |lines| ensures k < |sent| && lines[k] == LineOf(encode, sent[k]) && NL !in lines[k] {
      LinesOfLength(encode, sent);
      LinesOfAt(encode, sent, k);
      ScanWritten(encode, decode, None, sent[k]);
    }
    StreamEnds(lines);
    if LinesHarmless(encode, decode, sent) {
      StreamIsHarmless(decode, lines);
    }
  }

  lemma LinesOfLength(encode: Encoder, sent: seq<Sent>)
    ensures |LinesOf(encode, sent)| == |sent|
  {
  }

  lemma {:induction false} WrittenAppend(encode: Encoder, a: seq<Sent>, b: seq<Sent>)
    ensures Written(encode, a + b) == Written(encode, a) + Written(encode, b)
    ensures a != [] ==> Written(encode, a) != [] && Last(Written(encode, a)) == NL
    decreases |a|
  {
    if a == [] {
      assert a + b == b;
      assert [] + Written(encode, b) == Written(encode, b);
    } else {
      WrittenFirst(encode, a);
      WrittenFirst(encode, a + b);
      assert (a + b)[1..] == a[1..] + b;
      WrittenAppend(encode, a[1..], b);
      AppendIsAssociative(LineOf(encode, a[0]) + [NL, NL], Written(encode, a[1..]), Written(encode, b));
    }
  }

  lemma WrittenFirst(encode: Encoder, sent: seq<Sent>)
    requires sent != []
    ensures Written(encode, sent) == LineOf(encode, sent[0]) + [NL, NL] + Written(encode, sent[1..])
  {
    assert LinesOf(encode, sent)[1..] == LinesOf(encode, sent[1..]);
  }

  lemma {:induction false} SinceUsageSplits(sent: seq<Sent>) returns (earlier: seq<Sent>)
    ensures sent == earlier + SinceUsage(sent)
    ensures earlier != [] ==> SinceUsage(sent) != [] && IsUsage(SinceUsage(sent)[0])
    ensures HasUsage(sent) ==> SinceUsage(sent) != [] && IsUsage(SinceUsage(sent)[0])
    decreases |sent|
  {
    if sent == [] || !HasUsage(sent[1..]) {
      earlier := [];
      assert HasUsage(sent) ==> IsUsage(sent[0]);
    } else {
      var e := SinceUsageSplits(sent[1..]);
      earlier := [sent[0]] + e;
      assert sent == [sent[0]] + sent[1..];
    }
  }

  /** After a usage chunk, what came before does not matter. */
  lemma FirstUsageDecides(u: Option<Usage>, v: Option<Usage>, sent: seq<Sent>)
    requires sent != [] && IsUsage(sent[0])
    ensures LastUsage(u, sent) == LastUsage(v, sent)
  {
    assert sent == [sent[0]] + sent[1..];
    LastUsageAppend(u, [sent[0]], sent[1..]);
    LastUsageAppend(v, [sent[0]], sent[1..]);
  }

  lemma MeteredSinceUsage(encode: Encoder, decode: Decoder, earlier: seq<Sent>, since: seq<Sent>, chunks: seq<Bytes>)
    requires Agree(encode, decode) && LinesHarmless(encode, decode, since) && UsageFits(encode, since)
    requires earlier != [] && since != [] && IsUsage(since[0])
    requires Concat(chunks) == Written(encode, earlier + since)
    ensures FeedAll(decode, Tracked([], None), chunks).usage == LastUsage(None, earlier + since)
  {
    var b := Written(encode, since);
    WrittenAppend(encode, earlier, since);
    WrittenLines(encode, decode, since);
    var v := CutsMeterTheRest(decode, None, chunks, Written(encode, earlier), b);
    TrackerReadsWritten(encode, decode, v, since);
    FirstUsageDecides(v, LastUsage(None, earlier), since);
    LastUsageAppend(None, earlier, since);
  }

  /** However the written bytes are cut into reads, the tracker ends with the last usage chunk. */
  lemma WrittenIsMetered(encode: Encoder, decode: Decoder, sent: seq<Sent>, chunks: seq<Bytes>)
    requires Agree(encode, decode) && Meterable(encode, decode, sent)
    requires Concat(chunks) == Written(encode, sent)
    ensures FeedAll(decode, Tracked([], None), chunks) == Tracked([], LastUsage(None, sent))
  {
    var earlier := SinceUsageSplits(sent);
    WrittenLines(encode, decode, sent);
    NothingPends(decode, None, chunks);
    if earlier == [] {
      assert SinceUsage(sent) == sent;
      CutsMeterAlike(decode, None, chunks);
      TrackerReadsWritten(encode, decode, None, sent);
    } else {
      MeteredSinceUsage(encode, decode, earlier, SinceUsage(sent), chunks);
    }
  }

  /**
   Translation and metering compose: however the translated bytes are cut into reads, the
   tracker ends with nothing pending and exactly the usage the events announced. Content of
   any length may precede the last usage chunk.
   */
  lemma {:induction false} TranslatedStreamIsMetered(encode: Encoder, decode: Decoder,
                                                     events: seq<AnthropicEvent>, chunks: seq<Bytes>)
    requires Agree(encode, decode) && Meterable(encode, decode, Flush(Run(events)))
    requires Concat(chunks) == Written(encode, Flush(Run(events)))
    ensures FeedAll(decode, Tracked([], None), chunks) == Tracked([], Metered(events))
    ensures MessageStop !in events ==>
              (FeedAll(decode, Tracked([], None), chunks).usage.Some? <==>
               LastInput(events) > 0 || LastOutput(events) > 0)
  {
    WrittenIsMetered(encode, decode, Flush(Run(events)), chunks);
    FlushedUsage(events);
  }

  lemma {:induction false} SinceUsageAtEnd(sent: seq<Sent>, last: Sent, more: seq<Sent>)
    requires IsUsage(last) && forall s :: s in more ==> !IsUsage(s)
    ensures SinceUsage(sent + [last] + more) == [last] + more
    decreases |sent|
  {
    var all := sent + [last] + more;
    if sent == [] {
      assert all == [last] + more && all[1..] == more;
    } else {
      assert all[1..] == sent[1..] + [last] + more;
      assert last in all[1..];
      SinceUsageAtEnd(sent[1..], last, more);
    }
  }

  /**
   On a stream that ends with message_stop the content never matters: it is enough that the
   final usage chunk fits the cap.
   */
  lemma StoppedStreamIsMetered(encode: Encoder, decode: Decoder, events: seq<AnthropicEvent>, chunks: seq<Bytes>)
    requires Agree(encode, decode) && events != [] && Last(events) == MessageStop
    requires |LineOf(encode, Data(UsageChunk(LastInput(Init(events)), LastOutput(Init(events)))))| <= LineCap
    requires Concat(chunks) == Written(encode, Flush(Run(events)))
    ensures FeedAll(decode, Tracked([], None), chunks) ==
            Tracked([], Some(Usage(LastInput(Init(events)), LastOutput(Init(events)))))
  {
    var p := Run(Init(events));
    CountersAreLast(Init(events));
    var last := Data(UsageChunk(p.input, p.output));
    var sent := Flush(Run(events));
    assert sent == p.sent + [last] + [Done];
    SinceUsageAtEnd(p.sent, last, [Done]);
    assert forall s :: s in [last] + [Done] ==> s == last || s == Done;
    assert |LineOf(encode, Done)| <= LineCap;
    assert forall s, k :: s in SinceUsage(sent) ==> !HidesAt(LineOf(encode, s), k);
    TranslatedStreamIsMetered(encode, decode, events, chunks);
  }

  /** With one message_stop, at the end, the last counts announced are the ones metered. */
  lemma FinalStopReportsLastCounts(events: seq<AnthropicEvent>)
    requires MessageStop !in events
    ensures Metered(events + [MessageStop]) == Some(Usage(LastInput(events), LastOutput(events)))
  {
  }
}
