/**
 Exactly when the cuts of a stream into reads matter to the usage tracker
 (UsageTracker.Feed of internal/llm/openai.go): an overlong line is dropped up to the end
 of the read that takes it over the cap, and the rest of it is taken for a line of its own.
 */
module UsageCuts {
  import opened Base
  import opened UsageMeter

  /** A line the tracker hands to the decoder. */
  predicate Named(line: Bytes) {
    DataPrefix <= line && Contains(line, UsageWord)
  }

  function HandedLine(line: Bytes): seq<Bytes> {
    if |line| <= LineCap && Named(line) then [Trim(line[|DataPrefix|..])] else []
  }

  /** The payloads handed to the decoder, in order. */
  function Handed(lines: LineList): seq<Bytes> {
    match lines
    case NoLine => []
    case Line(text, rest) => Plus(HandedLine(text), Handed(rest))
  }

  function HandedAll(pending: Bytes, chunks: seq<Bytes>): seq<Bytes>
    decreases |chunks|
  {
    if chunks == [] then []
    else
      var text := Plus(pending, chunks[0]);
      Plus(Handed(Lines(text)), HandedAll(Left(text), chunks[1..]))
  }

  function PendingAll(pending: Bytes, chunks: seq<Bytes>): Bytes
    decreases |chunks|
  {
    if chunks == [] then pending else PendingAll(Left(Plus(pending, chunks[0])), chunks[1..])
  }

  /** The last payload that carries usage decides. */
  function DecodeAll(decode: Decoder, u: Option<Usage>, payloads: seq<Bytes>): Option<Usage>
    decreases |payloads|
  {
    if payloads == [] then u
    else DecodeAll(decode, if decode(payloads[0]).Some? then decode(payloads[0]) else u, payloads[1..])
  }

  lemma {:induction false} DecodeJoined(decode: Decoder, u: Option<Usage>, a: seq<Bytes>, b: seq<Bytes>)
    ensures DecodeAll(decode, u, Plus(a, b)) == DecodeAll(decode, DecodeAll(decode, u, a), b)
    decreases |a|
  {
    if a != [] {
      assert (a + b)[1..] == Plus(a[1..], b);
      DecodeJoined(decode, if decode(a[0]).Some? then decode(a[0]) else u, a[1..], b);
    }
  }

  lemma DecodeOne(decode: Decoder, u: Option<Usage>, line: Bytes)
    requires |line| <= LineCap
    ensures DecodeAll(decode, u, HandedLine(line)) == Scan(decode, u, line)
  {
    if Named(line) {
      var p := Trim(line[|DataPrefix|..]);
      assert [p][1..] == [];
    }
  }

  lemma {:induction false} FoldIsDecode(decode: Decoder, u: Option<Usage>, lines: LineList)
    ensures Fold(decode, u, Fitting(lines)) == DecodeAll(decode, u, Handed(lines))
    decreases lines
  {
    if lines.Line? {
      if |lines.text| <= LineCap {
        DecodeJoined(decode, u, HandedLine(lines.text), Handed(lines.rest));
        DecodeOne(decode, u, lines.text);
        FoldIsDecode(decode, Scan(decode, u, lines.text), lines.rest);
      } else {
        FoldIsDecode(decode, u, lines.rest);
      }
    }
  }

  /** The tracker's state is what was handed to the decoder and what is pending. */
  lemma {:induction false} TrackerIsHanded(decode: Decoder, t: Tracked, chunks: seq<Bytes>)
    ensures FeedAll(decode, t, chunks) ==
            Tracked(PendingAll(t.pending, chunks), DecodeAll(decode, t.usage, HandedAll(t.pending, chunks)))
    decreases |chunks|
  {
    if chunks != [] {
      var text := Plus(t.pending, chunks[0]);
      PlusIsAppend(t.pending, chunks[0]);
      FoldIsDecode(decode, t.usage, Lines(text));
      DecodeJoined(decode, t.usage, Handed(Lines(text)), HandedAll(Left(text), chunks[1..]));
      TrackerIsHanded(decode, Summary(decode, t.usage, text), chunks[1..]);
    }
  }

  // ------------------------------------------------------------------
  // Lines that can be taken for another
  // ------------------------------------------------------------------

  /** An overlong line with, beyond the cap, a suffix within the cap that would be handed to the decoder. */
  ghost predicate Hiding(line: Bytes) {
    exists k :: HidesAt(line, k)
  }

  ghost predicate HidesAt(line: Bytes, k: int) {
    LineCap < k <= |line| && |line| - k <= LineCap && Named(line[k..])
  }

  ghost predicate NoneHiding(lines: LineList) {
    lines.Line? ==> !Hiding(lines.text) && NoneHiding(lines.rest)
  }

  /** An open line of which nothing, or more than the cap, is gone. */
  ghost predicate Open(gone: Bytes, pending: Bytes) {
    && |pending| <= LineCap && NL !in gone && NL !in pending
    && (gone == [] || |gone| > LineCap)
  }

  /** What was read of an open line and what is to come. */
  function Whole(gone: Bytes, pending: Bytes, more: Bytes): Bytes {
    Plus(gone, Plus(pending, more))
  }

  lemma LineThen(line: Bytes, rest: Bytes)
    requires NL !in line
    ensures var text := line + [NL] + rest;
            Lines(text) == Line(line, Lines(rest)) && Tail(text) == Tail(rest) && Left(text) == Left(rest)
  {
    var text := line + [NL] + rest;
    NewlineIs(text, |line|);
    LinesStep(text, |line|);
    assert text[..|line|] == line && text[|line| + 1..] == rest;
  }

  lemma OpenTail(text: Bytes)
    requires NL !in text
    ensures Lines(text) == NoLine && Tail(text) == text
  {
    NewlineIs(text, |text|);
  }

  lemma SplitAtNewline(y: Bytes, n: nat)
    requires Newline(y) == n < |y|
    ensures NL !in y[..n] && y == y[..n] + [NL] + y[n + 1..]
  {
    NewlineFound(y);
  }

  /** A line that is open when a text with a newline is read. */
  lemma PlusLine(open: Bytes, y: Bytes, n: nat)
    requires NL !in open && Newline(y) == n < |y|
    ensures NL !in Plus(open, y[..n]) && Plus(open, y) == Plus(open, y[..n]) + [NL] + y[n + 1..]
  {
    SplitAtNewline(y, n);
    if open != [] {
      AppendIsAssociative(open, y[..n] + [NL], y[n + 1..]);
      AppendIsAssociative(open, y[..n], [NL]);
    }
  }

  /** The reads that are left after the first newline. */
  function AfterLine(chunks: seq<Bytes>): seq<Bytes>
    requires chunks != [] && Newline(chunks[0]) < |chunks[0]|
  {
    [chunks[0][Newline(chunks[0]) + 1..]] + chunks[1..]
  }

  lemma AfterLineConcat(chunks: seq<Bytes>)
    requires chunks != [] && Newline(chunks[0]) < |chunks[0]|
    ensures var y, n := chunks[0], Newline(chunks[0]);
            Concat(chunks) == y[..n] + [NL] + Concat(AfterLine(chunks))
  {
    var y, n, rest := chunks[0], Newline(chunks[0]), Concat(chunks[1..]);
    SplitAtNewline(y, n);
    assert AfterLine(chunks)[1..] == chunks[1..];
    PlusIsAppend(y[n + 1..], rest);
    AppendIsAssociative(y[..n] + [NL], y[n + 1..], rest);
  }

  /** The first line of the whole, and what is left to read after it. */
  lemma WholeLine(gone: Bytes, pending: Bytes, chunks: seq<Bytes>)
    requires NL !in gone && NL !in pending && chunks != [] && Newline(chunks[0]) < |chunks[0]|
    ensures var line := Whole(gone, pending, chunks[0][..Newline(chunks[0])]);
            NL !in line && Whole(gone, pending, Concat(chunks)) == line + [NL] + Concat(AfterLine(chunks))
    ensures |Concat(AfterLine(chunks))| < |Concat(chunks)|
  {
    var y, n := chunks[0], Newline(chunks[0]);
    var open, more := Plus(gone, pending), Concat(chunks);
    AfterLineConcat(chunks);
    SplitAtNewline(y, n);
    PlusAgain(gone, pending, more);
    PlusAgain(gone, pending, y[..n]);
    PlusBefore(open, y[..n], Concat(AfterLine(chunks)));
  }

  lemma PlusBefore(open: Bytes, a: Bytes, b: Bytes)
    ensures Plus(open, a + [NL] + b) == Plus(open, a) + [NL] + b
  {
    if open != [] {
      AppendIsAssociative(open, a + [NL], b);
      AppendIsAssociative(open, a, [NL]);
    }
  }

  /** Reading on after a newline is reading from the start of the next line. */
  lemma SkipLine(pending: Bytes, chunks: seq<Bytes>)
    requires NL !in pending && chunks != [] && Newline(chunks[0]) < |chunks[0]|
    ensures HandedAll(pending, chunks) ==
            Plus(HandedLine(Plus(pending, chunks[0][..Newline(chunks[0])])), HandedAll([], AfterLine(chunks)))
    ensures PendingAll(pending, chunks) == PendingAll([], AfterLine(chunks))
  {
    var y, n, on := chunks[0], Newline(chunks[0]), AfterLine(chunks);
    var line, rest := Plus(pending, y[..n]), y[n + 1..];
    PlusLine(pending, y, n);
    LineThen(line, rest);
    assert on[0] == rest && on[1..] == chunks[1..];
    PlusAgain(HandedLine(line), Handed(Lines(rest)), HandedAll(Left(rest), chunks[1..]));
  }

  /** Taking a read without newline: the open line grows and nothing is handed over. */
  lemma OpenPassed(gone: Bytes, pending: Bytes, chunks: seq<Bytes>) returns (gone': Bytes, pending': Bytes)
    requires Open(gone, pending) && chunks != [] && NL !in chunks[0]
    ensures Open(gone', pending')
    ensures HandedAll(pending, chunks) == HandedAll(pending', chunks[1..])
    ensures PendingAll(pending, chunks) == PendingAll(pending', chunks[1..])
    ensures Whole(gone', pending', Concat(chunks[1..])) == Whole(gone, pending, Concat(chunks))
  {
    var text, more := Plus(pending, chunks[0]), Concat(chunks[1..]);
    OpenTail(text);
    PlusAgain(pending, chunks[0], more);
    if |text| <= LineCap {
      gone', pending' := gone, text;
    } else {
      gone', pending' := Plus(gone, text), [];
      PlusAgain(gone, text, more);
    }
  }

  /** A line that hides nothing is handed over the same, whatever is gone of it. */
  lemma SameLine(gone: Bytes, pending: Bytes, seg: Bytes)
    requires Open(gone, pending) && !Hiding(Whole(gone, pending, seg))
    ensures HandedLine(Plus(pending, seg)) == HandedLine(Whole(gone, pending, seg))
  {
    var line, rest := Whole(gone, pending, seg), Plus(pending, seg);
    if gone != [] {
      assert line[|gone|..] == rest;
      assert !HidesAt(line, |gone|);
    }
  }

  /** With no hiding line, every way of reading on hands over what the whole text does. */
  lemma {:induction false} ReadsOn(gone: Bytes, pending: Bytes, chunks: seq<Bytes>)
    requires Open(gone, pending) && NoneHiding(Lines(Whole(gone, pending, Concat(chunks))))
    ensures HandedAll(pending, chunks) == Handed(Lines(Whole(gone, pending, Concat(chunks))))
    decreases |Concat(chunks)|, |chunks|
  {
    if chunks == [] {
      NothingMore(gone, pending);
    } else {
      NewlineFound(chunks[0]);
      if Newline(chunks[0]) == |chunks[0]| {
        var g, p := OpenPassed(gone, pending, chunks);
        ReadsOn(g, p, chunks[1..]);
      } else {
        var seg, on := chunks[0][..Newline(chunks[0])], AfterLine(chunks);
        SkipLine(pending, chunks);
        WholeLine(gone, pending, chunks);
        LineThen(Whole(gone, pending, seg), Concat(on));
        SameLine(gone, pending, seg);
        ReadsOn([], [], on);
      }
    }
  }

  lemma NothingMore(gone: Bytes, pending: Bytes)
    requires Open(gone, pending)
    ensures var text := Whole(gone, pending, []); Lines(text) == NoLine && Tail(text) == Plus(gone, pending)
  {
    PlusNothing(pending);
    OpenTail(Plus(gone, pending));
  }

  /** What is pending at the end is the open tail but for a part that is gone. */
  lemma {:induction false} PendsOn(gone: Bytes, pending: Bytes, chunks: seq<Bytes>)
    returns (gone': Bytes, pending': Bytes)
    requires Open(gone, pending)
    ensures Open(gone', pending') && PendingAll(pending, chunks) == pending'
    ensures Tail(Whole(gone, pending, Concat(chunks))) == Plus(gone', pending')
    decreases |Concat(chunks)|, |chunks|
  {
    if chunks == [] {
      NothingMore(gone, pending);
      gone', pending' := gone, pending;
    } else {
      NewlineFound(chunks[0]);
      if Newline(chunks[0]) == |chunks[0]| {
        var g, p := OpenPassed(gone, pending, chunks);
        gone', pending' := PendsOn(g, p, chunks[1..]);
      } else {
        SkipLine(pending, chunks);
        WholeLine(gone, pending, chunks);
        LineThen(Whole(gone, pending, chunks[0][..Newline(chunks[0])]), Concat(AfterLine(chunks)));
        gone', pending' := PendsOn([], [], AfterLine(chunks));
      }
    }
  }

  // ------------------------------------------------------------------
  // Lines that hide nothing of account
  // ------------------------------------------------------------------

  /** Nothing the line hides carries usage. */
  ghost predicate Harmless(decode: Decoder, line: Bytes) {
    forall k :: HidesAt(line, k) ==> decode(Trim(line[k..][|DataPrefix|..])).None?
  }

  ghost predicate AllHarmless(decode: Decoder, lines: LineList) {
    lines.Line? ==> Harmless(decode, lines.text) && AllHarmless(decode, lines.rest)
  }

  /** A harmless line counts the same, whatever is gone of it. */
  lemma SameUsage(decode: Decoder, u: Option<Usage>, gone: Bytes, pending: Bytes, seg: Bytes)
    requires Open(gone, pending) && Harmless(decode, Whole(gone, pending, seg))
    ensures DecodeAll(decode, u, HandedLine(Plus(pending, seg))) ==
            DecodeAll(decode, u, HandedLine(Whole(gone, pending, seg)))
  {
    var line, rest := Whole(gone, pending, seg), Plus(pending, seg);
    if gone != [] && |rest| <= LineCap && Named(rest) {
      assert line[|gone|..] == rest;
      assert HidesAt(line, |gone|);
      var p := Trim(rest[|DataPrefix|..]);
      assert [p][1..] == [];
    }
  }

  /** With harmless lines only, every way of reading on ends with the usage of the whole text. */
  lemma {:induction false} ReadsUsage(decode: Decoder, u: Option<Usage>,
                                      gone: Bytes, pending: Bytes, chunks: seq<Bytes>)
    requires Open(gone, pending) && AllHarmless(decode, Lines(Whole(gone, pending, Concat(chunks))))
    ensures DecodeAll(decode, u, HandedAll(pending, chunks)) ==
            DecodeAll(decode, u, Handed(Lines(Whole(gone, pending, Concat(chunks)))))
    decreases |Concat(chunks)|, |chunks|
  {
    if chunks == [] {
      NothingMore(gone, pending);
    } else {
      NewlineFound(chunks[0]);
      if Newline(chunks[0]) == |chunks[0]| {
        var g, p := OpenPassed(gone, pending, chunks);
        ReadsUsage(decode, u, g, p, chunks[1..]);
      } else {
        var seg, on := chunks[0][..Newline(chunks[0])], AfterLine(chunks);
        var line := Whole(gone, pending, seg);
        SkipLine(pending, chunks);
        WholeLine(gone, pending, chunks);
        LineThen(line, Concat(on));
        SameUsage(decode, u, gone, pending, seg);
        DecodeJoined(decode, u, HandedLine(Plus(pending, seg)), HandedAll([], on));
        DecodeJoined(decode, u, HandedLine(line), Handed(Lines(Concat(on))));
        ReadsUsage(decode, DecodeAll(decode, u, HandedLine(line)), [], [], on);
      }
    }
  }

  /** Reading past a newline is reading from the start of the line after it. */
  lemma {:induction false} ReadsPast(gone: Bytes, pending: Bytes, chunks: seq<Bytes>, a: Bytes, b: Bytes)
    returns (passed: seq<Bytes>, more: seq<Bytes>)
    requires Open(gone, pending) && Whole(gone, pending, Concat(chunks)) == a + b && a != [] && Last(a) == NL
    ensures Concat(more) == b && HandedAll(pending, chunks) == Plus(passed, HandedAll([], more))
    decreases |Concat(chunks)|, |chunks|
  {
    NotAllRead(gone, pending, chunks, a, b);
    NewlineFound(chunks[0]);
    if Newline(chunks[0]) == |chunks[0]| {
      var g, p := OpenPassed(gone, pending, chunks);
      passed, more := ReadsPast(g, p, chunks[1..], a, b);
    } else {
      var on := AfterLine(chunks);
      var line := Whole(gone, pending, chunks[0][..Newline(chunks[0])]);
      passed := HandedLine(Plus(pending, chunks[0][..Newline(chunks[0])]));
      SkipLine(pending, chunks);
      WholeLine(gone, pending, chunks);
      var a' := PastNewline(line, Concat(on), a, b);
      if a' == [] {
        more := on;
      } else {
        var first, later := passed, [];
        later, more := ReadsPast([], [], on, a', b);
        passed := Plus(first, later);
        PlusAgain(first, later, HandedAll([], more));
      }
    }
  }

  lemma NotAllRead(gone: Bytes, pending: Bytes, chunks: seq<Bytes>, a: Bytes, b: Bytes)
    requires Open(gone, pending) && Whole(gone, pending, Concat(chunks)) == a + b && a != [] && Last(a) == NL
    ensures chunks != []
  {
    assert (a + b)[|a| - 1] == NL;
    if chunks == [] {
      PlusNothing(pending);
    }
  }

  /** Of two ways to split a text at a newline, the one at the first newline is not the later one. */
  lemma PastNewline(line: Bytes, rest: Bytes, a: Bytes, b: Bytes) returns (a': Bytes)
    requires NL !in line && line + [NL] + rest == a + b && a != [] && Last(a) == NL
    ensures if a' == [] then rest == b else Last(a') == NL && rest == a' + b
  {
    var text, m := line + [NL] + rest, |line| + 1;
    assert text[|a| - 1] == NL;
    assert forall i :: 0 <= i < |line| ==> text[i] == line[i];
    assert text[m..] == rest;
    a' := a[m..];
    assert (a + b)[m..] == a' + b;
    if a' == [] {
      assert (a + b)[|a|..] == b;
    }
  }

  /** From every start and for every cut, harmless lines are metered as in a single read. */
  lemma CutsMeterAlike(decode: Decoder, u: Option<Usage>, chunks: seq<Bytes>)
    requires AllHarmless(decode, Lines(Concat(chunks)))
    ensures FeedAll(decode, Tracked([], u), chunks).usage == Summary(decode, u, Concat(chunks)).usage
  {
    TrackerIsHanded(decode, Tracked([], u), chunks);
    ReadsUsage(decode, u, [], [], chunks);
    FoldIsDecode(decode, u, Lines(Concat(chunks)));
  }

  /** What precedes a newline matters to what follows only through the usage it leaves. */
  lemma CutsMeterTheRest(decode: Decoder, u: Option<Usage>, chunks: seq<Bytes>, a: Bytes, b: Bytes)
    returns (v: Option<Usage>)
    requires Concat(chunks) == a + b && a != [] && Last(a) == NL && AllHarmless(decode, Lines(b))
    ensures FeedAll(decode, Tracked([], u), chunks).usage == Summary(decode, v, b).usage
  {
    TrackerIsHanded(decode, Tracked([], u), chunks);
    var passed, more := ReadsPast([], [], chunks, a, b);
    v := DecodeAll(decode, u, passed);
    DecodeJoined(decode, u, passed, HandedAll([], more));
    TrackerIsHanded(decode, Tracked([], v), more);
    CutsMeterAlike(decode, v, more);
  }

  /** Where the text ends with a newline, nothing is left pending after any cut. */
  lemma NothingPends(decode: Decoder, u: Option<Usage>, chunks: seq<Bytes>)
    requires Tail(Concat(chunks)) == []
    ensures FeedAll(decode, Tracked([], u), chunks).pending == []
  {
    TrackerIsHanded(decode, Tracked([], u), chunks);
    var gone, pending := PendsOn([], [], chunks);
  }

  // ------------------------------------------------------------------
  // The cut that shows a hiding line
  // ------------------------------------------------------------------

  lemma HandedOne(pending: Bytes, y: Bytes)
    ensures HandedAll(pending, [y]) == Handed(Lines(Plus(pending, y)))
    ensures PendingAll(pending, [y]) == Left(Plus(pending, y))
  {
    assert [y][1..] == [];
    PlusNothing(Handed(Lines(Plus(pending, y))));
  }

  lemma ConcatOne(y: Bytes)
    ensures Concat([y]) == y
  {
    assert [y][1..] == [];
    PlusNothing(y);
  }

  /** A text taken in two reads. */
  lemma TwoReads(x: Bytes, y: Bytes)
    ensures HandedAll([], [x, y]) == Plus(Handed(Lines(x)), Handed(Lines(Plus(Left(x), y))))
    ensures PendingAll([], [x, y]) == Left(Plus(Left(x), y))
    ensures Concat([x, y]) == Plus(x, y)
  {
    HandedOne(Left(x), y);
    ConcatOne(y);
    assert [x, y][1..] == [y];
  }

  /** An overlong piece of a line is dropped without a trace. */
  lemma DroppedPiece(piece: Bytes)
    requires NL !in piece && |piece| > LineCap
    ensures Left(piece) == [] && Lines(piece) == NoLine
  {
    OpenTail(piece);
  }

  /** How many payloads are handed to the decoder. */
  function Count(lines: LineList): nat {
    match lines
    case NoLine => 0
    case Line(text, rest) => |HandedLine(text)| + Count(rest)
  }

  lemma {:induction false} CountIsLength(lines: LineList)
    ensures |Handed(lines)| == Count(lines)
  {
    if lines.Line? {
      CountIsLength(lines.rest);
    }
  }

  function CountTwo(x: Bytes, y: Bytes): nat {
    Count(Lines(x)) + Count(Lines(Plus(Left(x), y)))
  }

  lemma HiddenLine(line: Bytes, k: nat)
    requires HidesAt(line, k)
    ensures HandedLine(line) == [] && |HandedLine(line[k..])| == 1
  {
  }

  /** Cutting inside a hiding line hands one payload more to the decoder. */
  lemma CutInLine(line: Bytes, k: nat, rest: Bytes)
    requires NL !in line && HidesAt(line, k)
    ensures CountTwo(line[..k], line[k..] + [NL] + rest) == Count(Lines(line + [NL] + rest)) + 1
  {
    var y := line[k..] + [NL] + rest;
    DroppedPiece(line[..k]);
    LineThen(line[k..], rest);
    LineThen(line, rest);
    HiddenLine(line, k);
  }

  /** A cut in what follows the first line is a cut of the whole. */
  lemma CutAfterLine(line: Bytes, x: Bytes, y: Bytes)
    requires NL !in line
    ensures CountTwo(line + [NL] + x, y) == |HandedLine(line)| + CountTwo(x, y)
  {
    LineThen(line, x);
  }

  lemma HiddenPlace(line: Bytes) returns (k: nat)
    requires Hiding(line)
    ensures HidesAt(line, k)
  {
    k :| HidesAt(line, k);
  }

  lemma CutApart(line: Bytes, k: nat, rest: Bytes)
    requires 0 < k <= |line|
    ensures line[..k] != [] && line[..k] + (line[k..] + [NL] + rest) == line + [NL] + rest
  {
  }

  lemma {:induction false} HidingCut(text: Bytes) returns (x: Bytes, y: Bytes)
    requires !NoneHiding(Lines(text))
    ensures x != [] && x + y == text && CountTwo(x, y) == Count(Lines(text)) + 1
    decreases |text|
  {
    var n := Newline(text);
    if n < |text| {
      var line, rest := text[..n], text[n + 1..];
      SplitAtNewline(text, n);
      LineThen(line, rest);
      if Hiding(line) {
        var k := HiddenPlace(line);
        x, y := line[..k], line[k..] + [NL] + rest;
        CutInLine(line, k, rest);
        CutApart(line, k, rest);
      } else {
        var first;
        first, y := HidingCut(rest);
        x := line + [NL] + first;
        CutAfterLine(line, first, y);
        AppendIsAssociative(line + [NL], first, y);
      }
    }
  }

  lemma HidingShows(text: Bytes) returns (x: Bytes, y: Bytes)
    requires !NoneHiding(Lines(text))
    ensures Concat([x, y]) == text && |HandedAll([], [x, y])| == |Handed(Lines(text))| + 1
  {
    x, y := HidingCut(text);
    TwoReads(x, y);
    CountIsLength(Lines(x));
    CountIsLength(Lines(Plus(Left(x), y)));
    CountIsLength(Lines(text));
  }

  /**
   What is handed to the decoder is the same for every way of cutting the text into reads
   exactly when no line hides another.
   */
  lemma CutsMatterExactly(text: Bytes)
    ensures (forall chunks :: Concat(chunks) == text ==> HandedAll([], chunks) == Handed(Lines(text)))
            <==> NoneHiding(Lines(text))
  {
    if NoneHiding(Lines(text)) {
      forall chunks | Concat(chunks) == text ensures HandedAll([], chunks) == Handed(Lines(text)) {
        ReadsOn([], [], chunks);
      }
    } else {
      var x, y := HidingShows(text);
      assert HandedAll([], [x, y]) != Handed(Lines(text));
    }
  }

  lemma {:induction false} TailIsShort(text: Bytes)
    ensures |Tail(text)| <= |text| && NL !in Tail(text)
    decreases |text|
  {
    var n := Newline(text);
    NewlineFound(text);
    if n < |text| {
      TailIsShort(text[n + 1..]);
      LinesStep(text, n);
    }
  }

  lemma TailAfterNewline(text: Bytes)
    ensures Newline(text) < |text| ==> |Tail(text)| + Newline(text) < |text|
  {
    var n := Newline(text);
    if n < |text| {
      LinesStep(text, n);
      TailIsShort(text[n + 1..]);
    }
  }

  lemma {:induction false} TailGrows(x: Bytes, y: Bytes)
    requires |Tail(x + y)| > |y|
    ensures Tail(x + y) == Tail(x) + y
    decreases |x|
  {
    var n := Newline(x);
    NewlineFound(x);
    if n < |x| {
      LinesOfAppend(x, y);
      LinesStep(x, n);
      TailGrows(x[n + 1..], y);
    } else {
      NewlineFound(x + y);
      TailAfterNewline(x + y);
      OpenTail(x);
      assert forall i :: 0 <= i < |x| ==> (x + y)[i] == x[i];
    }
  }

  /** An unterminated tail well over the cap leaves its last byte pending after one cut and nothing after another. */
  lemma LongTailShows(x: Bytes, b: byte)
    requires |Tail(x + [b])| > LineCap + 1
    ensures Concat([x, [b]]) == x + [b] && PendingAll([], [x, [b]]) != Left(x + [b])
  {
    TwoReads(x, [b]);
    LongTailLeft(x, b);
    PlusIsAppend(x, [b]);
  }

  lemma LongTailLeft(x: Bytes, b: byte)
    requires |Tail(x + [b])| > LineCap + 1
    ensures Left(x) == [] && Left(x + [b]) == [] && Left([b]) == [b]
  {
    TailGrows(x, [b]);
    TailIsShort(x + [b]);
    assert b in Tail(x) + [b];
    OpenTail([b]);
  }

  lemma LongTailCut(text: Bytes)
    requires text != [] && |Tail(text)| > LineCap + 1
    ensures exists chunks :: Concat(chunks) == text && PendingAll([], chunks) != Left(text)
  {
    var x, b := Init(text), Last(text);
    assert text == x + [b];
    LongTailShows(x, b);
  }

  /**
   The whole state of the tracker is the same for every way of cutting exactly when, in
   addition, the unterminated tail is at most one byte over the cap.
   */
  lemma StateDependsExactly(text: Bytes)
    ensures (forall chunks :: Concat(chunks) == text ==>
               HandedAll([], chunks) == Handed(Lines(text)) && PendingAll([], chunks) == Left(text))
            <==> NoneHiding(Lines(text)) && |Tail(text)| <= LineCap + 1
  {
    CutsMatterExactly(text);
    if |Tail(text)| > LineCap + 1 {
      TailIsShort(text);
      LongTailCut(text);
    } else if NoneHiding(Lines(text)) {
      forall chunks | Concat(chunks) == text ensures PendingAll([], chunks) == Left(text) {
        var gone, pending := PendsOn([], [], chunks);
      }
    }
  }
}
