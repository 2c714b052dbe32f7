/**
 What a member receives at shutdown (Shutdown of internal/relay/hub.go). The broadcasts
 run after the lock is released, so the writer and other senders, such as an Unregister
 that announces its own offline frame, take steps in between.
 */
module RelayShutdown {
  import opened Base
  import opened RelayConn
  import opened RelayHub
  import opened RelayPresence
  import opened RelayService

  /** A whole Enqueue call, or one frame the writer gets onto the socket. */
  datatype Step = Put(frame: Frame) | Sent

  function Do(o: Outbound, s: Step): Outbound {
    match s
    case Put(f) => Enqueued(o, f)
    case Sent => Write(o, true)
  }

  function DoAll(o: Outbound, steps: seq<Step>): Outbound {
    if steps == [] then o else Do(DoAll(o, Init(steps)), Last(steps))
  }

  /** The frames handed to Enqueue, in order. */
  function Puts(steps: seq<Step>): seq<Frame> {
    if steps == [] then []
    else if Last(steps).Put? then Puts(Init(steps)) + [Last(steps).frame]
    else Puts(Init(steps))
  }

  ghost predicate NoClosed(fs: seq<Frame>) {
    forall f :: f in fs ==> !f.Closed?
  }

  /** A connection that is open, with everything handed to it still in order. */
  ghost predicate Open(p: Outbound, all: seq<Frame>, cap: nat) {
    !p.closing && !p.writerDone && p.cap == cap && p.written + p.send == all && NoClosed(p.send)
  }

  lemma PutStaysOpen(p: Outbound, all: seq<Frame>, f: Frame)
    requires Open(p, all, p.cap) && |p.send| < p.cap && !f.Closed?
    ensures Open(Do(p, Put(f)), all + [f], p.cap)
  {
    assert p.written + (p.send + [f]) == p.written + p.send + [f];
  }

  lemma SentStaysOpen(p: Outbound, all: seq<Frame>)
    requires Open(p, all, p.cap)
    ensures Open(Do(p, Sent), all, p.cap) && |Do(p, Sent).send| <= |p.send|
  {
    if p.send != [] {
      assert p.send[0] in p.send;
      assert (p.written + [p.send[0]]) + p.send[1..] == p.written + p.send;
    }
  }

  /** While everything handed to it fits, a connection stays open and keeps it all. */
  lemma {:induction false} StaysOpen(o: Outbound, steps: seq<Step>)
    requires Open(o, o.written + o.send, o.cap) && NoClosed(Puts(steps)) && |o.send| + |Puts(steps)| <= o.cap
    ensures var p := DoAll(o, steps);
            Open(p, o.written + o.send + Puts(steps), o.cap) && |p.send| <= |o.send| + |Puts(steps)|
  {
    if steps == [] {
      assert o.written + o.send + [] == o.written + o.send;
    } else {
      var before, all := DoAll(o, Init(steps)), o.written + o.send + Puts(Init(steps));
      assert forall f :: f in Puts(Init(steps)) ==> f in Puts(steps);
      StaysOpen(o, Init(steps));
      if Last(steps).Put? {
        assert Last(steps).frame in Puts(steps);
        PutStaysOpen(before, all, Last(steps).frame);
        assert o.written + o.send + Puts(steps) == all + [Last(steps).frame];
      } else {
        SentStaysOpen(before, all);
      }
    }
  }

  /** A connection told to close, with its closed frame last in line or already written. */
  ghost predicate Leaving(p: Outbound, all: seq<Frame>) {
    && p.closing && p.written + p.send == all && all != [] && Last(all).Closed?
    && (forall i :: 0 <= i < |all| - 1 && |p.written| <= i ==> !all[i].Closed?)
    && (p.writerDone <==> p.send == [])
  }

  lemma CloseLeaves(p: Outbound, all: seq<Frame>, reason: CloseReason)
    requires Open(p, all, p.cap) && |p.send| < p.cap
    ensures Leaving(Do(p, Put(Closed(reason))), all + [Closed(reason)])
  {
    var q := Do(p, Put(Closed(reason)));
    assert q.send == p.send + [Closed(reason)] && q.written == p.written;
    assert q.written + q.send == all + [Closed(reason)];
    forall i | 0 <= i < |all| && |q.written| <= i ensures !(all + [Closed(reason)])[i].Closed? {
      assert all[i] == p.send[i - |p.written|];
      assert all[i] in p.send;
    }
  }

  lemma StepLeaves(p: Outbound, all: seq<Frame>, s: Step)
    requires Leaving(p, all)
    ensures Leaving(Do(p, s), all)
  {
    if s.Sent? && p.send != [] {
      var q := Do(p, s);
      assert all[|p.written|] == p.send[0];
      assert q.written + q.send == all;
      assert p.send[0].Closed? <==> |p.send| == 1;
    }
  }

  lemma {:induction false} KeepsLeaving(p: Outbound, all: seq<Frame>, steps: seq<Step>)
    requires Leaving(p, all)
    ensures Leaving(DoAll(p, steps), all)
  {
    if steps != [] {
      KeepsLeaving(p, all, Init(steps));
      StepLeaves(DoAll(p, Init(steps)), all, Last(steps));
    }
  }

  /** A buffer whose only closed frame is the last is delivered whole. */
  lemma {:induction false} DeliveredWhole(fs: seq<Frame>)
    requires forall i :: 0 <= i < |fs| - 1 ==> !fs[i].Closed?
    ensures Deliverable(fs) == fs
  {
    if fs != [] {
      DeliveredWhole(Init(fs));
      assert fs == Init(fs) + [Last(fs)];
    }
  }

  /** A leaving connection whose remaining writes succeed writes everything, the closed frame last. */
  lemma LeavingDrains(p: Outbound, all: seq<Frame>)
    requires Leaving(p, all)
    ensures WriteAll(p, Successes(|p.send|)).written == all
  {
    if p.send == [] {
      assert p.written + [] == p.written;
    } else {
      assert forall i :: 0 <= i < |p.send| ==> all[|p.written| + i] == p.send[i];
      DeliveredWhole(p.send);
      assert p.send[..|p.send|] == p.send;
      DrainDelivers(p, |p.send|);
    }
  }

  /** Running `a` and then `b` from where it ended. */
  lemma {:induction false} DoAllAppend(o: Outbound, a: seq<Step>, b: seq<Step>)
    ensures DoAll(o, a + b) == DoAll(DoAll(o, a), b)
  {
    if b == [] {
      assert a + b == a;
    } else {
      assert Init(a + b) == a + Init(b);
      DoAllAppend(o, a, Init(b));
    }
  }

  /**
   A member with room for every frame handed to it before its closed frame writes them
   all, in order, and the closed frame last, whatever steps come in between and after.
   */
  lemma ClosedComesLast(o: Outbound, before: seq<Step>, reason: CloseReason, after: seq<Step>)
    requires Disciplined(o) && !o.closing && !o.writerDone
    requires NoClosed(Puts(before)) && |o.send| + |Puts(before)| < o.cap
    ensures var p := DoAll(o, before + [Put(Closed(reason))] + after);
            WriteAll(p, Successes(|p.send|)).written == o.written + o.send + Puts(before) + [Closed(reason)]
  {
    var all := o.written + o.send + Puts(before);
    forall f | f in o.send ensures !f.Closed? {
      NoClosedQueued(o.queued, f);
    }
    StaysOpen(o, before);
    var mid := DoAll(o, before);
    CloseLeaves(mid, all, reason);
    DoAllAppend(o, before, [Put(Closed(reason))]);
    DoAllAppend(o, before + [Put(Closed(reason))], after);
    assert DoAll(mid, [Put(Closed(reason))]) == Do(mid, Put(Closed(reason))) by {
      assert Init([Put(Closed(reason))]) == [];
    }
    KeepsLeaving(Do(mid, Put(Closed(reason))), all + [Closed(reason)], after);
    LeavingDrains(DoAll(o, before + [Put(Closed(reason))] + after), all + [Closed(reason)]);
  }

  lemma {:induction false} OccursIn(fs: seq<Frame>, f: Frame)
    ensures Occurrences(fs, f) > 0 <==> f in fs
  {
    if fs != [] {
      OccursIn(Init(fs), f);
      assert fs == Init(fs) + [Last(fs)];
    }
  }

  lemma {:induction false} InSubsequence<T>(a: seq<T>, b: seq<T>, x: T)
    requires Subsequence(a, b) && x in a
    ensures x in b
    decreases |b|
  {
    if Last(a) == Last(b) && Subsequence(Init(a), Init(b)) {
      if x != Last(a) {
        InSubsequence(Init(a), Init(b), x);
      }
    } else {
      InSubsequence(a, Init(b), x);
    }
  }

  /**
   Shutdown: a stored member with room, once its writes have succeeded, has written the
   offline frame of every other device of its room and, last of all, its closed frame.
   `before` interleaves the shutdown's broadcasts with the writer and other senders.
   */
  lemma ShutdownIsDelivered(s: HubState, order: seq<WsConn>, c: WsConn, before: seq<Step>, after: seq<Step>, d: WsConn)
    requires WellPlaced(s) && AllDisciplined(s) && ListsDevices(s, order)
    requires c in s.out && Stored(s, c) && !s.out[c].closing && !s.out[c].writerDone
    requires NoClosed(Puts(before)) && Subsequence(OfflinesFor(c, order), Puts(before))
    requires |s.out[c].send| + |Puts(before)| < s.out[c].cap
    requires d in s.out && d.role.Device? && Stored(s, d) && d.user == c.user && d != c
    ensures var p := DoAll(s.out[c], before + [Put(Closed(ShuttingDown))] + after);
            var written := WriteAll(p, Successes(|p.send|)).written;
            Offline(d.id) in written && written != [] && Last(written) == Closed(ShuttingDown)
  {
    ClosedComesLast(s.out[c], before, ShuttingDown, after);
    OfflinesAreTheOthers(s, order, c, d.id);
    assert d in order;
    OccursIn(OfflinesFor(c, order), Offline(d.id));
    InSubsequence(OfflinesFor(c, order), Puts(before), Offline(d.id));
  }
}
