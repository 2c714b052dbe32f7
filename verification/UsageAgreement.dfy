/**
 Exactly when the usage tracker and its batch twin (internal/llm/openai.go) meter a stream
 of data events alike, however the stream is cut into reads.
 */
module UsageAgreement {
  import opened Base
  import opened UsageMeter
  import opened UsageCuts

  lemma StreamLines(events: seq<Bytes>)
    requires events != [] && NL !in events[0]
    ensures Lines(Stream(events)) == Line(events[0], Line([], Lines(Stream(events[1..]))))
    ensures Tail(Stream(events)) == Tail(Stream(events[1..]))
  {
    var s, e, rest := Stream(events), events[0], Stream(events[1..]);
    assert s == e + ([NL, NL] + rest);
    NewlineIs(s, |e|);
    LinesStep(s, |e|);
    assert s[..|e|] == e && s[|e| + 1..] == [NL] + rest;
    NewlineIs([NL] + rest, 0);
    LinesStep([NL] + rest, 0);
    assert ([NL] + rest)[..0] == [] && ([NL] + rest)[1..] == rest;
  }

  lemma {:induction false} StreamIsHarmless(decode: Decoder, events: seq<Bytes>)
    requires forall k :: 0 <= k < |events| ==> NL !in events[k] && Harmless(decode, events[k])
    ensures AllHarmless(decode, Lines(Stream(events)))
    decreases |events|
  {
    if events == [] {
      OpenTail([]);
    } else {
      StreamLines(events);
      StreamIsHarmless(decode, events[1..]);
    }
  }

  lemma {:induction false} StreamEnds(events: seq<Bytes>)
    requires forall k :: 0 <= k < |events| ==> NL !in events[k]
    ensures Tail(Stream(events)) == []
    decreases |events|
  {
    if events == [] {
      OpenTail([]);
    } else {
      StreamLines(events);
      StreamEnds(events[1..]);
    }
  }

  /** However the stream is cut into reads, a fresh tracker ends with what the batch form reads. */
  ghost predicate AlwaysAgreeOn(decode: Decoder, events: seq<Bytes>) {
    forall chunks :: Concat(chunks) == Stream(events) ==>
      FeedAll(decode, Tracked([], None), chunks) ==
      Tracked([], ReadBlocks(decode, None, Blocks(Stream(events))))
  }

  /** The tracker looks at the event if it carries usage, and at no part of it as another event that does. */
  ghost predicate Plain(decode: Decoder, e: Bytes)
    requires Event(e)
  {
    Seen(decode, e) && Harmless(decode, e)
  }

  /** Within the cap, only the spelling of the key counts. */
  lemma ShortEventsArePlain(decode: Decoder, e: Bytes)
    requires Event(e) && |e| <= LineCap
    ensures Plain(decode, e) <==> (Carries(decode, e) ==> Contains(e, UsageWord))
  {
    assert forall k :: !HidesAt(e, k);
  }

  lemma PlainStreamsAgree(decode: Decoder, events: seq<Bytes>)
    requires forall k :: 0 <= k < |events| ==> Event(events[k]) && Plain(decode, events[k])
    ensures AlwaysAgreeOn(decode, events)
  {
    forall chunks | Concat(chunks) == Stream(events)
      ensures FeedAll(decode, Tracked([], None), chunks) ==
              Tracked([], ReadBlocks(decode, None, Blocks(Stream(events))))
    {
      StreamIsHarmless(decode, events);
      StreamEnds(events);
      CutsMeterAlike(decode, None, chunks);
      NothingPends(decode, None, chunks);
      TrackerAgreesWithBatch(decode, None, events);
    }
  }

  lemma SingleRead(decode: Decoder, text: Bytes)
    ensures Concat([text]) == text
    ensures FeedAll(decode, Tracked([], None), [text]) == Summary(decode, None, text)
  {
    ConcatOne(text);
    FeedOne(decode, Tracked([], None), text);
  }

  lemma StreamOne(e: Bytes)
    ensures Stream([e]) == e + [NL, NL]
  {
    assert [e][1..] == [];
  }

  /** After an overlong piece of a line, the tracker takes what follows for a new text. */
  lemma PieceIsForgotten(decode: Decoder, x: Bytes, y: Bytes)
    requires NL !in x && |x| > LineCap
    ensures Concat([x, y]) == x + y
    ensures FeedAll(decode, Tracked([], None), [x, y]).usage == Summary(decode, None, y).usage
  {
    TwoReads(x, y);
    DroppedPiece(x);
    TrackerIsHanded(decode, Tracked([], None), [x, y]);
    FoldIsDecode(decode, None, Lines(y));
  }

  /** A cut right before hidden usage makes the tracker meter it. */
  lemma HiddenUsageIsMetered(decode: Decoder, e: Bytes, k: nat)
    requires Event(e) && HidesAt(e, k)
    ensures var chunks := [e[..k], Stream([e[k..]])];
            && Concat(chunks) == Stream([e])
            && FeedAll(decode, Tracked([], None), chunks).usage == decode(Trim(e[k..][|DataPrefix|..]))
  {
    var x, hidden := e[..k], e[k..];
    PieceIsForgotten(decode, x, Stream([hidden]));
    OneEvent(decode, None, hidden);
    StreamCut(e, k);
  }

  lemma StreamCut(e: Bytes, k: nat)
    requires k <= |e|
    ensures e[..k] + Stream([e[k..]]) == Stream([e])
  {
    StreamOne(e);
    StreamOne(e[k..]);
    AppendIsAssociative(e[..k], e[k..], [NL, NL]);
    assert e == e[..k] + e[k..];
  }

  lemma UnseenDisagrees(decode: Decoder, e: Bytes)
    requires Event(e) && !Seen(decode, e)
    ensures !AlwaysAgreeOn(decode, [e])
  {
    OneEvent(decode, None, e);
    TakenIsReadExactly(decode, e);
    SingleRead(decode, Stream([e]));
  }

  lemma HidingDisagrees(decode: Decoder, e: Bytes, k: nat)
    requires Event(e) && Seen(decode, e) && HidesAt(e, k) && decode(Trim(e[k..][|DataPrefix|..])).Some?
    ensures !AlwaysAgreeOn(decode, [e])
  {
    OneEvent(decode, None, e);
    BatchReadsCarried(decode, None, e);
    HiddenUsageIsMetered(decode, e, k);
  }

  lemma OtherEventsDisagree(decode: Decoder, e: Bytes)
    requires Event(e) && !Plain(decode, e)
    ensures !AlwaysAgreeOn(decode, [e])
  {
    if Seen(decode, e) {
      var k: nat :| HidesAt(e, k) && decode(Trim(e[k..][|DataPrefix|..])).Some?;
      HidingDisagrees(decode, e, k);
    } else {
      UnseenDisagrees(decode, e);
    }
  }

  /**
   Tracker and batch reading agree on every stretch of a stream of data events, for every way
   of cutting it into reads, exactly when every event that carries usage holds the word the
   tracker looks for and fits the cap, and no overlong event hides another that carries usage.
   */
  lemma AlwaysAgreeExactly(decode: Decoder, events: seq<Bytes>)
    requires forall k :: 0 <= k < |events| ==> Event(events[k])
    ensures (forall i, j :: 0 <= i <= j <= |events| ==> AlwaysAgreeOn(decode, events[i..j]))
            <==> (forall k :: 0 <= k < |events| ==> Plain(decode, events[k]))
  {
    if forall k :: 0 <= k < |events| ==> Plain(decode, events[k]) {
      forall i, j | 0 <= i <= j <= |events| ensures AlwaysAgreeOn(decode, events[i..j]) {
        PlainStreamsAgree(decode, events[i..j]);
      }
    } else {
      var k :| 0 <= k < |events| && !Plain(decode, events[k]);
      OtherEventsDisagree(decode, events[k]);
      assert events[k..k + 1] == [events[k]];
    }
  }
}
