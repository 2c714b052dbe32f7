/**
 Metering of an OpenAI-format event stream (internal/llm/openai.go): the tracker
 that reassembles lines from arbitrary reads, and its batch twin.

 JSON decoding is the parameter `decode`: it gives the usage object of a trimmed
 payload, if the payload parses and has one. Trimming covers ASCII white space.
 */
module UsageMeter {
  import opened Base

  newtype byte = x: int | 0 <= x < 256

  type Bytes = seq<byte>

  datatype Usage = Usage(input: int, output: int)

  type Decoder = Bytes -> Option<Usage>

  const NL: byte := 10
  const DataPrefix: Bytes := [100, 97, 116, 97, 58] // data:
  const UsageWord: Bytes := [34, 117, 115, 97, 103, 101, 34] // "usage"
  const DoneWord: Bytes := [91, 68, 79, 78, 69, 93] // [DONE]
  const LineCap: nat := 0x10000

  // ------------------------------------------------------------------
  // Text helpers
  // ------------------------------------------------------------------

  predicate IsSpace(b: byte) {
    9 <= b <= 13 || b == 32
  }

  function TrimLeft(s: Bytes): Bytes {
    if s != [] && IsSpace(s[0]) then TrimLeft(s[1..]) else s
  }

  function TrimRight(s: Bytes): Bytes {
    if s != [] && IsSpace(Last(s)) then TrimRight(Init(s)) else s
  }

  function Trim(s: Bytes): Bytes {
    TrimLeft(TrimRight(s))
  }

  predicate Contains(s: Bytes, word: Bytes) {
    exists i :: 0 <= i <= |s| && word <= s[i..]
  }

  /** The first newline at or after `i`, or the end. */
  function NewlineFrom(s: Bytes, i: nat): (n: nat)
    requires i <= |s|
    ensures i <= n <= |s|
    decreases |s| - i
  {
    if i == |s| || s[i] == NL then i else NewlineFrom(s, i + 1)
  }

  function Newline(s: Bytes): (n: nat)
    ensures n <= |s|
  {
    NewlineFrom(s, 0)
  }

  lemma {:induction false} NewlineFromFound(s: Bytes, i: nat)
    requires i <= |s|
    ensures forall k :: i <= k < NewlineFrom(s, i) ==> s[k] != NL
    ensures NewlineFrom(s, i) < |s| ==> s[NewlineFrom(s, i)] == NL
    decreases |s| - i
  {
    if i < |s| && s[i] != NL {
      NewlineFromFound(s, i + 1);
    }
  }

  lemma NewlineFound(s: Bytes)
    ensures forall k :: 0 <= k < Newline(s) ==> s[k] != NL
    ensures Newline(s) < |s| ==> s[Newline(s)] == NL
  {
    NewlineFromFound(s, 0);
  }

  lemma NewlineIs(s: Bytes, n: nat)
    requires n <= |s| && (forall i :: 0 <= i < n ==> s[i] != NL) && (n < |s| ==> s[n] == NL)
    ensures Newline(s) == n
  {
    NewlineFound(s);
    var m := Newline(s);
    assert m < |s| ==> s[m] == NL;
  }

  // ------------------------------------------------------------------
  // Lines and the fold over them
  // ------------------------------------------------------------------

  datatype LineList = NoLine | Line(text: Bytes, rest: LineList)

  /** The newline-terminated lines of a text, without their newlines. */
  function Lines(s: Bytes): LineList
    decreases |s|
  {
    var n := Newline(s);
    if n == |s| then NoLine else Line(s[..n], Lines(s[n + 1..]))
  }

  /** What follows the last newline. */
  function Tail(s: Bytes): Bytes
    decreases |s|
  {
    var n := Newline(s);
    if n == |s| then s else Tail(s[n + 1..])
  }

  function Unlines(lines: LineList): Bytes {
    match lines
    case NoLine => []
    case Line(text, rest) => text + [NL] + Unlines(rest)
  }

  ghost predicate NoNewlines(lines: LineList) {
    lines.Line? ==> NL !in lines.text && NoNewlines(lines.rest)
  }

  lemma RoundTripStep(s: Bytes, n: nat, lines: LineList, tail: Bytes)
    requires n < |s| && s[n] == NL && Unlines(lines) + tail == s[n + 1..]
    ensures Unlines(Line(s[..n], lines)) + tail == s
  {
    AppendIsAssociative(s[..n] + [NL], Unlines(lines), tail);
    assert s == (s[..n] + [NL]) + s[n + 1..];
  }

  /** Lines and tail together are the text again. */
  lemma {:induction false} LinesRoundTrip(s: Bytes)
    ensures Unlines(Lines(s)) + Tail(s) == s
    decreases |s|
  {
    var n := Newline(s);
    if n < |s| {
      var rest := s[n + 1..];
      LinesRoundTrip(rest);
      LinesStep(s, n);
      NewlineFound(s);
      RoundTripStep(s, n, Lines(rest), Tail(rest));
    } else {
      assert Lines(s) == NoLine && Tail(s) == s;
      assert [] + s == s;
    }
  }

  lemma {:induction false} LinesHoldNoNewline(s: Bytes)
    ensures NoNewlines(Lines(s)) && NL !in Tail(s)
    decreases |s|
  {
    var n := Newline(s);
    NewlineFound(s);
    if n < |s| {
      LinesHoldNoNewline(s[n + 1..]);
      LinesStep(s, n);
    }
  }

  /** One complete line: only a data line naming "usage" is decoded, and it wins if it carries usage. */
  function Scan(decode: Decoder, u: Option<Usage>, line: Bytes): Option<Usage> {
    if DataPrefix <= line && Contains(line, UsageWord) && decode(Trim(line[|DataPrefix|..])).Some? then
      decode(Trim(line[|DataPrefix|..]))
    else u
  }

  function Fold(decode: Decoder, u: Option<Usage>, lines: LineList): Option<Usage>
    decreases lines
  {
    match lines
    case NoLine => u
    case Line(text, rest) => Fold(decode, Scan(decode, u, text), rest)
  }

  function Fitting(lines: LineList): LineList {
    match lines
    case NoLine => NoLine
    case Line(text, rest) => if |text| <= LineCap then Line(text, Fitting(rest)) else Fitting(rest)
  }

  datatype Tracked = Tracked(pending: Bytes, usage: Option<Usage>)

  /** What one read leaves behind: the fold over the lines that fit, and the tail if it fits. */
  function Summary(decode: Decoder, u: Option<Usage>, text: Bytes): Tracked {
    Tracked(Left(text), Fold(decode, u, Fitting(Lines(text))))
  }

  /** The line a read leaves open, unless it is over the cap. */
  function Left(text: Bytes): Bytes {
    if |Tail(text)| <= LineCap then Tail(text) else []
  }

  lemma SummaryOfLine(decode: Decoder, u: Option<Usage>, text: Bytes, n: nat)
    requires n < |text| && Newline(text) == n
    ensures Summary(decode, u, text) ==
            Summary(decode, if n <= LineCap then Scan(decode, u, text[..n]) else u, text[n + 1..])
  {
  }

  lemma LinesStep(text: Bytes, n: nat)
    requires n < |text| && Newline(text) == n
    ensures Lines(text) == Line(text[..n], Lines(text[n + 1..])) && Tail(text) == Tail(text[n + 1..])
  {
  }

  lemma SummaryOfTail(decode: Decoder, u: Option<Usage>, text: Bytes)
    requires NL !in text
    ensures Summary(decode, u, text) == Tracked(if |text| <= LineCap then text else [], u)
  {
    NewlineIs(text, |text|);
  }

  // ------------------------------------------------------------------
  // The tracker
  // ------------------------------------------------------------------

  /** Index of the first newline of `p`, or none. */
  method IndexNewline(p: Bytes) returns (r: Option<nat>)
    ensures r.None? ==> NL !in p
    ensures r.Some? ==> r.value < |p| && p[r.value] == NL && NL !in p[..r.value]
  {
    var i := 0;
    while i < |p|
      invariant i <= |p| && NL !in p[..i]
    {
      if p[i] == NL {
        return Some(i);
      }
      i := i + 1;
    }
    return None;
  }

  class UsageTracker {
    const decode: Decoder
    var pending: Bytes
    var usage: Option<Usage>

    ghost predicate Valid()
      reads this
    {
      |pending| <= LineCap && NL !in pending
    }

    function State(): Tracked
      reads this
    {
      Tracked(pending, usage)
    }

    constructor (decode: Decoder)
      ensures Valid() && this.decode == decode && State() == Tracked([], None)
    {
      this.decode := decode;
      pending := [];
      usage := None;
    }

    method ScanLine(line: Bytes)
      modifies `usage
      ensures usage == Scan(decode, old(usage), line)
    {
      if !(DataPrefix <= line) {
        return;
      }
      if !Contains(line, UsageWord) {
        return;
      }
      var u := decode(Trim(line[|DataPrefix|..]));
      if u.Some? {
        usage := u;
      }
    }

    /** Takes the line that ends at `nl`, or drops it when overlong. */
    method TakeLine(p: Bytes, nl: nat)
      requires Valid() && nl < |p| && p[nl] == NL && NL !in p[..nl]
      modifies this
      ensures Valid() && pending == []
      ensures Summary(decode, usage, pending + p[nl + 1..]) == old(Summary(decode, usage, pending + p))
    {
      ghost var text := pending + p;
      NewlineIs(text, |pending| + nl);
      SummaryOfLine(decode, usage, text, |pending| + nl);
      assert text[|pending| + nl + 1..] == p[nl + 1..];
      assert text[..|pending| + nl] == pending + p[..nl];
      if |pending| + nl > LineCap {
        pending := [];
      } else {
        pending := pending + p[..nl];
        ScanLine(pending);
        pending := [];
      }
      assert [] + p[nl + 1..] == p[nl + 1..];
    }

    /** Takes the rest of a read that holds no newline. */
    method TakeRest(p: Bytes)
      requires Valid() && NL !in p
      modifies `pending
      ensures Valid() && State() == old(Summary(decode, usage, pending + p))
    {
      SummaryOfTail(decode, usage, pending + p);
      if |pending| + |p| > LineCap {
        pending := [];
      } else {
        pending := pending + p;
      }
    }

    method Feed(read: Bytes)
      requires Valid()
      modifies this
      ensures Valid() && State() == old(Summary(decode, usage, pending + read))
    {
      ghost var goal := Summary(decode, usage, pending + read);
      var p := read;
      while |p| > 0
        invariant Valid()
        invariant Summary(decode, usage, pending + p) == goal
        decreases |p|
      {
        var nl := IndexNewline(p);
        if nl.None? {
          TakeRest(p);
          return;
        }
        TakeLine(p, nl.value);
        p := p[nl.value + 1..];
      }
      assert pending + p == pending;
      SummaryOfTail(decode, usage, pending);
    }
  }

  // ------------------------------------------------------------------
  // Every way of cutting the stream
  // ------------------------------------------------------------------

  function FeedAll(decode: Decoder, t: Tracked, chunks: seq<Bytes>): Tracked
    decreases |chunks|
  {
    if chunks == [] then t
    else FeedAll(decode, Summary(decode, t.usage, t.pending + chunks[0]), chunks[1..])
  }

  function Concat(chunks: seq<Bytes>): Bytes {
    if chunks == [] then [] else Plus(chunks[0], Concat(chunks[1..]))
  }

  ghost predicate AllFit(text: Bytes) {
    |Tail(text)| <= LineCap && Fit(Lines(text))
  }

  ghost predicate Fit(lines: LineList) {
    lines.Line? ==> |lines.text| <= LineCap && Fit(lines.rest)
  }

  lemma {:induction false} PendingStaysWithinCap(decode: Decoder, t: Tracked, chunks: seq<Bytes>)
    requires |t.pending| <= LineCap
    ensures |FeedAll(decode, t, chunks).pending| <= LineCap
    decreases |chunks|
  {
    if chunks != [] {
      PendingStaysWithinCap(decode, Summary(decode, t.usage, t.pending + chunks[0]), chunks[1..]);
    }
  }

  /** Reading `x` and then `y` is reading `x + y`, provided the line left open by `x` still fits. */
  lemma {:induction false} SummaryAppend(decode: Decoder, u: Option<Usage>, x: Bytes, y: Bytes)
    requires |Tail(x)| <= LineCap
    ensures var t := Summary(decode, u, x);
            Summary(decode, u, x + y) == Summary(decode, t.usage, t.pending + y)
    decreases |x|
  {
    var n := Newline(x);
    NewlineFound(x);
    if n == |x| {
      SummaryOfTail(decode, u, x);
    } else {
      var v, rest := if n <= LineCap then Scan(decode, u, x[..n]) else u, x[n + 1..];
      SummaryOfFirst(decode, u, x, y, n);
      SummaryOfLine(decode, u, x, n);
      SummaryAppend(decode, v, rest, y);
    }
  }

  lemma SummaryOfFirst(decode: Decoder, u: Option<Usage>, x: Bytes, y: Bytes, n: nat)
    requires Newline(x) == n < |x|
    ensures Summary(decode, u, x + y) ==
            Summary(decode, if n <= LineCap then Scan(decode, u, x[..n]) else u, x[n + 1..] + y)
  {
    NewlineFound(x);
    NewlineIs(x + y, n);
    SummaryOfLine(decode, u, x + y, n);
    assert (x + y)[..n] == x[..n] && (x + y)[n + 1..] == x[n + 1..] + y;
  }

  lemma LinesOfAppend(x: Bytes, y: Bytes)
    requires Newline(x) < |x|
    ensures var n := Newline(x);
            && Lines(x + y) == Line(x[..n], Lines(x[n + 1..] + y))
            && Tail(x + y) == Tail(x[n + 1..] + y)
  {
    var n := Newline(x);
    NewlineFound(x);
    NewlineIs(x + y, n);
    assert (x + y)[..n] == x[..n] && (x + y)[n + 1..] == x[n + 1..] + y;
  }

  lemma OpenLineFits(x: Bytes, y: Bytes)
    requires AllFit(x + y) && Newline(x) == |x|
    ensures |x| <= LineCap
  {
    var m := Newline(x + y);
    NewlineFound(x);
    NewlineFound(x + y);
    assert forall i :: 0 <= i < |x| ==> (x + y)[i] == x[i];
    assert m < |x + y| ==> Lines(x + y).text == (x + y)[..m];
  }

  /** Where all lines fit, so does the line any cut leaves open. */
  lemma {:induction false} CutsFit(x: Bytes, y: Bytes)
    requires AllFit(x + y)
    ensures |Tail(x)| <= LineCap
    decreases |x|
  {
    if Newline(x) == |x| {
      OpenLineFits(x, y);
    } else {
      LinesOfAppend(x, y);
      CutsFit(x[Newline(x) + 1..], y);
    }
  }

  lemma {:induction false} FittingAll(lines: LineList)
    requires Fit(lines)
    ensures Fitting(lines) == lines
  {
    if lines.Line? {
      FittingAll(lines.rest);
    }
  }

  lemma {:induction false} FeedAllAppends(decode: Decoder, u: Option<Usage>, x: Bytes, chunks: seq<Bytes>)
    requires AllFit(x + Concat(chunks))
    ensures FeedAll(decode, Summary(decode, u, x), chunks) == Summary(decode, u, x + Concat(chunks))
    decreases |chunks|
  {
    if chunks == [] {
      assert x + [] == x;
    } else {
      var y := chunks[0];
      PlusIsAppend(y, Concat(chunks[1..]));
      assert x + Concat(chunks) == (x + y) + Concat(chunks[1..]);
      CutsFit(x, Concat(chunks));
      SummaryAppend(decode, u, x, y);
      FeedAllAppends(decode, u, x + y, chunks[1..]);
    }
  }

  /**
   Chunking invariance: where every line fits the cap, however the stream is cut into
   reads, the tracker ends with the fold over the complete lines and the open tail.
   */
  lemma CutsDoNotMatter(decode: Decoder, chunks: seq<Bytes>)
    requires AllFit(Concat(chunks))
    ensures FeedAll(decode, Tracked([], None), chunks) ==
            Tracked(Tail(Concat(chunks)), Fold(decode, None, Lines(Concat(chunks))))
  {
    var text := Concat(chunks);
    SummaryOfTail(decode, None, []);
    assert [] + text == text;
    FeedAllAppends(decode, None, [], chunks);
    FittingAll(Lines(text));
  }

  // ------------------------------------------------------------------
  // An overlong line can be taken for a new one
  // ------------------------------------------------------------------

  /**
   The cap is what invariance needs. On a line longer than the cap that ends in a usage
   event, a single read drops the line whole; a cut right before the event makes the
   tracker drop the first part only and meter the rest as a line of its own.
   */
  lemma OverlongLineDependsOnTheCut(decode: Decoder, long: Bytes, event: Bytes)
    requires |long| > LineCap && NL !in long
    requires DataPrefix <= event && Contains(event, UsageWord) && NL !in event && |event| <= LineCap
    requires decode(Trim(event[|DataPrefix|..])).Some?
    ensures FeedAll(decode, Tracked([], None), [long + (event + [NL])]) == Tracked([], None)
    ensures FeedAll(decode, Tracked([], None), [long, event + [NL]])
            == Tracked([], decode(Trim(event[|DataPrefix|..])))
  {
    var line := event + [NL];
    var start := Tracked([], None);
    SummaryOfLongLine(decode, None, long, event);
    FeedOne(decode, start, long + line);
    SummaryOfTail(decode, None, long);
    FeedOne(decode, start, long);
    SummaryOfOneLine(decode, None, event);
    FeedOne(decode, start, line);
    assert [long, line][1..] == [line];
    assert [] + long == long;
    assert FeedAll(decode, start, [long, line]) == FeedAll(decode, Summary(decode, None, long), [line]);
    assert Summary(decode, None, long) == start;
    assert FeedAll(decode, start, [long, line]) == Summary(decode, None, line);
    assert Scan(decode, None, event) == decode(Trim(event[|DataPrefix|..]));
    assert FeedAll(decode, start, [long + line]) == Tracked([], None);
  }

  lemma FeedOne(decode: Decoder, t: Tracked, read: Bytes)
    requires t.pending == []
    ensures FeedAll(decode, t, [read]) == Summary(decode, t.usage, read)
    ensures t.pending + read == read
  {
    assert [read][1..] == [];
    assert t.pending + read == read;
  }

  lemma SummaryOfOneLine(decode: Decoder, u: Option<Usage>, event: Bytes)
    requires NL !in event && |event| <= LineCap
    ensures Summary(decode, u, event + [NL]) == Tracked([], Scan(decode, u, event))
  {
    var text := event + [NL];
    NewlineIs(text, |event|);
    SummaryOfLine(decode, u, text, |event|);
    assert text[..|event|] == event && text[|event| + 1..] == [];
    SummaryOfTail(decode, Scan(decode, u, event), []);
  }

  lemma SummaryOfLongLine(decode: Decoder, u: Option<Usage>, long: Bytes, event: Bytes)
    requires NL !in long && NL !in event && |long| > LineCap
    ensures Summary(decode, u, long + (event + [NL])) == Tracked([], u)
  {
    var text := long + (event + [NL]);
    NewlineIs(text, |long| + |event|);
    SummaryOfLine(decode, u, text, |long| + |event|);
    assert text[|long| + |event| + 1..] == [];
    SummaryOfTail(decode, u, []);
  }

  // ------------------------------------------------------------------
  // The batch twin
  // ------------------------------------------------------------------

  /** Where the first blank-line separator starts, or the end. */
  function Separator(s: Bytes): (n: nat)
    ensures n <= |s| && (n < |s| ==> n + 1 < |s| && s[n] == NL && s[n + 1] == NL)
    ensures forall i :: 0 <= i < n && i + 1 < |s| ==> !(s[i] == NL && s[i + 1] == NL)
  {
    if |s| < 2 then |s|
    else if s[0] == NL && s[1] == NL then 0
    else 1 + Separator(s[1..])
  }

  /** The stream split at blank lines; there is always a last block. */
  function Blocks(s: Bytes): seq<Bytes>
    decreases |s|
  {
    var n := Separator(s);
    if n == |s| then [s] else [s[..n]] + Blocks(s[n + 2..])
  }

  function ReadBlock(decode: Decoder, u: Option<Usage>, block: Bytes): Option<Usage> {
    var line := Trim(block);
    if !(DataPrefix <= line) then u
    else
      var payload := Trim(line[|DataPrefix|..]);
      if payload != DoneWord && decode(payload).Some? then decode(payload) else u
  }

  function ReadBlocks(decode: Decoder, u: Option<Usage>, blocks: seq<Bytes>): Option<Usage>
    decreases |blocks|
  {
    if blocks == [] then u else ReadBlocks(decode, ReadBlock(decode, u, blocks[0]), blocks[1..])
  }

  method ExtractStreamUsage(decode: Decoder, raw: Bytes) returns (u: Option<Usage>)
    ensures u == ReadBlocks(decode, None, Blocks(raw))
  {
    u := None;
    var blocks := Blocks(raw);
    var i := 0;
    while i < |blocks|
      invariant i <= |blocks|
      invariant ReadBlocks(decode, u, blocks[i..]) == ReadBlocks(decode, None, blocks)
    {
      i := i + 1;
      var line := Trim(blocks[i - 1]);
      if !(DataPrefix <= line) {
        continue;
      }
      var payload := Trim(line[|DataPrefix|..]);
      if payload == DoneWord {
        continue;
      }
      var found := decode(payload);
      if found.Some? {
        u := found;
      }
    }
  }

  // ------------------------------------------------------------------
  // The two agree
  // ------------------------------------------------------------------

  /** A single-line data event. */
  predicate Event(e: Bytes) {
    DataPrefix <= e && NL !in e
  }

  function Stream(events: seq<Bytes>): Bytes {
    if events == [] then [] else events[0] + [NL, NL] + Stream(events[1..])
  }

  function Payload(e: Bytes): Bytes
    requires Event(e)
  {
    Trim(e[|DataPrefix|..])
  }

  /** An event the batch reading takes usage from. */
  ghost predicate Carries(decode: Decoder, e: Bytes)
    requires Event(e)
  {
    Payload(e) != DoneWord && decode(Payload(e)).Some?
  }

  /** If an event carries usage, the tracker looks at it: it spells the key as expected, and fits. */
  ghost predicate Seen(decode: Decoder, e: Bytes)
    requires Event(e)
  {
    Carries(decode, e) ==> Contains(e, UsageWord) && |e| <= LineCap
  }

  lemma {:induction false} TrimRightKeeps(a: Bytes, rest: Bytes)
    requires a != [] && !IsSpace(Last(a))
    ensures TrimRight(a + rest) == a + TrimRight(rest)
    decreases |rest|
  {
    if rest == [] {
      assert a + rest == a;
    } else {
      assert Last(a + rest) == Last(rest) && Init(a + rest) == a + Init(rest);
      if IsSpace(Last(rest)) {
        TrimRightKeeps(a, Init(rest));
      }
    }
  }

  lemma {:induction false} TrimRightTwice(s: Bytes)
    ensures TrimRight(TrimRight(s)) == TrimRight(s)
  {
    if s != [] && IsSpace(Last(s)) {
      TrimRightTwice(Init(s));
    }
  }

  lemma {:induction false} TrimLeftDropsSpace(s: Bytes, b: byte)
    requires b in s && !IsSpace(b)
    ensures b in TrimLeft(s)
  {
    if IsSpace(s[0]) {
      assert b in s[1..];
      TrimLeftDropsSpace(s[1..], b);
    }
  }

  lemma {:induction false} TrimRightDropsSpace(s: Bytes, b: byte)
    requires b in s && !IsSpace(b)
    ensures b in TrimRight(s)
  {
    if IsSpace(Last(s)) {
      assert s == Init(s) + [Last(s)];
      TrimRightDropsSpace(Init(s), b);
    }
  }

  /** The end marker does not hold the word: a quotation mark is in neither and is no white space. */
  lemma DoneHoldsNoWord(e: Bytes)
    requires Event(e) && Payload(e) == DoneWord
    ensures !Contains(e, UsageWord)
  {
    if Contains(e, UsageWord) {
      var rest := e[|DataPrefix|..];
      WordIsQuoted(e);
      TrimRightDropsSpace(rest, 34);
      TrimLeftDropsSpace(TrimRight(rest), 34);
    }
  }

  lemma WordIsQuoted(e: Bytes)
    requires Event(e) && Contains(e, UsageWord)
    ensures 34 in e[|DataPrefix|..]
  {
    var i :| 0 <= i <= |e| && UsageWord <= e[i..];
    assert e[i..][0] == 34;
    assert i >= |DataPrefix| by {
      assert forall k :: 0 <= k < |DataPrefix| ==> e[k] == DataPrefix[k] != 34;
    }
    assert e[|DataPrefix|..][i - |DataPrefix|] == 34;
  }

  /** What a single read makes of one event line. */
  function Taken(decode: Decoder, u: Option<Usage>, e: Bytes): Option<Usage> {
    if |e| <= LineCap then Scan(decode, u, e) else u
  }

  lemma BatchReadsCarried(decode: Decoder, u: Option<Usage>, e: Bytes)
    requires Event(e)
    ensures ReadBlock(decode, u, e) == if Carries(decode, e) then decode(Payload(e)) else u
  {
    PayloadOfBlock(e);
  }

  /** On one event line, the batch reading and the tracker do the same from every start exactly when it is seen. */
  lemma TakenIsReadExactly(decode: Decoder, e: Bytes)
    requires Event(e)
    ensures Seen(decode, e) ==> forall u :: Taken(decode, u, e) == ReadBlock(decode, u, e)
    ensures !Seen(decode, e) ==> Taken(decode, None, e) == None != ReadBlock(decode, None, e)
  {
    forall u ensures ReadBlock(decode, u, e) == if Carries(decode, e) then decode(Payload(e)) else u {
      BatchReadsCarried(decode, u, e);
    }
    if Payload(e) == DoneWord {
      DoneHoldsNoWord(e);
    }
  }

  /** Trimming a whole event line and then its payload is trimming the payload. */
  lemma PayloadOfBlock(e: Bytes)
    requires Event(e)
    ensures DataPrefix <= Trim(e) && Trim(Trim(e)[|DataPrefix|..]) == Payload(e)
  {
    var rest := e[|DataPrefix|..];
    assert e == DataPrefix + rest;
    TrimRightKeeps(DataPrefix, rest);
    assert Trim(e) == DataPrefix + TrimRight(rest);
    assert Trim(e)[|DataPrefix|..] == TrimRight(rest);
    TrimRightTwice(rest);
  }

  lemma StreamBlocks(events: seq<Bytes>)
    requires events != [] && Event(events[0])
    ensures Blocks(Stream(events)) == [events[0]] + Blocks(Stream(events[1..]))
  {
    var s, e := Stream(events), events[0];
    assert s == e + ([NL, NL] + Stream(events[1..]));
    assert s[|e|] == NL && s[|e| + 1] == NL;
    assert forall i :: 0 <= i < |e| ==> s[i] == e[i];
    assert Separator(s) == |e|;
    assert s[..|e|] == e && s[|e| + 2..] == Stream(events[1..]);
  }

  /** An event line and the blank line after it, to the tracker. */
  lemma StreamSummary(decode: Decoder, u: Option<Usage>, events: seq<Bytes>)
    requires events != [] && Event(events[0])
    ensures Summary(decode, u, Stream(events)) == Summary(decode, Taken(decode, u, events[0]), Stream(events[1..]))
  {
    var s, e, rest := Stream(events), events[0], Stream(events[1..]);
    assert s == e + ([NL] + ([NL] + rest));
    SummaryAfterLine(decode, u, e, [NL] + rest);
    var v := Taken(decode, u, e);
    assert [NL] + rest == [] + ([NL] + rest);
    SummaryAfterLine(decode, v, [], rest);
  }

  lemma SummaryAfterLine(decode: Decoder, u: Option<Usage>, line: Bytes, rest: Bytes)
    requires NL !in line
    ensures Summary(decode, u, line + ([NL] + rest)) == Summary(decode, Taken(decode, u, line), rest)
  {
    var text := line + ([NL] + rest);
    NewlineIs(text, |line|);
    SummaryOfLine(decode, u, text, |line|);
    assert text[..|line|] == line && text[|line| + 1..] == rest;
  }

  /** On a stream of data events that are all seen, the tracker and the batch reading agree from every start. */
  lemma {:induction false} TrackerAgreesWithBatch(decode: Decoder, u: Option<Usage>, events: seq<Bytes>)
    requires forall k :: 0 <= k < |events| ==> Event(events[k]) && Seen(decode, events[k])
    ensures Summary(decode, u, Stream(events)) == Tracked([], ReadBlocks(decode, u, Blocks(Stream(events))))
    decreases |events|
  {
    if events == [] {
      SummaryOfTail(decode, u, []);
    } else {
      var e, rest := events[0], events[1..];
      StreamSummary(decode, u, events);
      StreamBlocks(events);
      TakenIsReadExactly(decode, e);
      TrackerAgreesWithBatch(decode, Taken(decode, u, e), rest);
    }
  }

  /** The two readings of a stream of one event. */
  lemma OneEvent(decode: Decoder, u: Option<Usage>, e: Bytes)
    requires Event(e)
    ensures Summary(decode, u, Stream([e])) == Tracked([], Taken(decode, u, e))
    ensures ReadBlocks(decode, u, Blocks(Stream([e]))) == ReadBlock(decode, u, e)
  {
    assert [e][1..] == [];
    StreamSummary(decode, u, [e]);
    SummaryOfTail(decode, Taken(decode, u, e), []);
    StreamBlocks([e]);
    var last: Bytes := [];
    assert Blocks(last) == [last];
    var v := ReadBlock(decode, u, e);
    assert ReadBlocks(decode, v, [last]) == ReadBlock(decode, v, last) == v;
    assert ([e] + [last])[1..] == [last];
  }

  /**
   The spelling matters: of a stream of one event with its usage under another spelling of
   the key, the batch form reads the usage and the tracker does not.
   */
  lemma OtherSpellingIsMissed(decode: Decoder, e: Bytes)
    requires Event(e) && Carries(decode, e) && !Contains(e, UsageWord)
    ensures Summary(decode, None, Stream([e])) == Tracked([], None)
    ensures ReadBlocks(decode, None, Blocks(Stream([e]))) == decode(Payload(e))
  {
    OneEvent(decode, None, e);
    BatchReadsCarried(decode, None, e);
  }

  /** A fresh tracker, given the stream in one read, ends with what the batch form reads. */
  ghost predicate AgreeOn(decode: Decoder, events: seq<Bytes>) {
    Summary(decode, None, Stream(events)) == Tracked([], ReadBlocks(decode, None, Blocks(Stream(events))))
  }

  /**
   Tracker and batch reading agree on every stretch of a stream of data events exactly when
   each event that carries usage holds the word the tracker looks for and fits the cap.
   */
  lemma AgreeExactly(decode: Decoder, events: seq<Bytes>)
    requires forall k :: 0 <= k < |events| ==> Event(events[k])
    ensures (forall i, j :: 0 <= i <= j <= |events| ==> AgreeOn(decode, events[i..j]))
            <==> (forall k :: 0 <= k < |events| ==> Seen(decode, events[k]))
  {
    if forall k :: 0 <= k < |events| ==> Seen(decode, events[k]) {
      forall i, j | 0 <= i <= j <= |events| ensures AgreeOn(decode, events[i..j]) {
        TrackerAgreesWithBatch(decode, None, events[i..j]);
      }
    } else {
      var k :| 0 <= k < |events| && !Seen(decode, events[k]);
      OneEvent(decode, None, events[k]);
      TakenIsReadExactly(decode, events[k]);
      assert events[k..k + 1] == [events[k]];
      assert !AgreeOn(decode, events[k..k + 1]);
    }
  }
}
