/**
 The outbound half of one relay connection (internal/relay/conn.go): a bounded
 send buffer, a writer that drains it, and a close protocol that runs at most
 once.

 `Outbound` is a snapshot of one connection. Besides the fields the source has,
 it carries two logs: `queued`, every frame that ever entered the buffer, and
 `written`, every frame the writer put on the socket after hello_ok.
 */
module RelayConn {
  import opened Base

  datatype Role = Device | Client

  datatype CloseReason =
    | Auth | Entitlement | Replaced | ShuttingDown | SlowConsumer | Protocol | IdleTimeout

  datatype DeviceInfo = DeviceInfo(deviceId: string, deviceName: string, appVersion: string, connectedAt: int)

  /** What a presence frame says about an online device. */
  datatype Meta = Meta(deviceName: string, appVersion: string)

  function MetaOf(info: DeviceInfo): Meta {
    Meta(info.deviceName, info.appVersion)
  }

  /** An outbound frame; the JSON envelope is left to the encoder. */
  datatype Frame =
    | Online(deviceId: string, meta: Meta)
    | Offline(deviceId: string)
    | TicketExpiring(retryAfterMs: int)
    | AppFromDevice(fromDevice: string, payload: string)
    | AppDirected(fromDevice: string, toDevice: string, payload: string)
    | AppFromClient(fromClient: string, payload: string)
    | Undeliverable(targetDevice: string)
    | Closed(reason: CloseReason)

  predicate IsPresence(f: Frame) {
    f.Online? || f.Offline?
  }

  /** Where the one run of the close protocol stands. */
  datatype Closer = Idle | TryPush | DropOldest | Repush | Finished

  datatype Outbound = Outbound(
    cap: nat,
    send: seq<Frame>,
    closing: bool,
    reason: Option<CloseReason>,
    closer: Closer,
    writerDone: bool,
    hello: Option<seq<DeviceInfo>>,
    queued: seq<Frame>,
    written: seq<Frame>)

  function Fresh(cap: nat): Outbound {
    Outbound(cap, [], false, None, Idle, false, None, [], [])
  }

  // ------------------------------------------------------------------
  // The atomic actions of the threads that share one connection
  // ------------------------------------------------------------------

  function Push(o: Outbound, f: Frame): Outbound {
    o.(send := o.send + [f], queued := o.queued + [f])
  }

  /** The first thing `initiateClose` does inside its sync.Once. */
  function BeginClose(o: Outbound, reason: CloseReason): Outbound {
    if o.closing then o else o.(closing := true, reason := Some(reason), closer := TryPush)
  }

  /** The next channel operation of `initiateClose`. */
  function CloserStep(o: Outbound): Outbound {
    match o.closer
    case TryPush =>
      if o.reason.None? then o
      else if |o.send| < o.cap then Push(o, Closed(o.reason.value)).(closer := Finished)
      else o.(closer := DropOldest)
    case DropOldest =>
      if o.send == [] then o.(closer := Repush) else o.(send := o.send[1..], closer := Repush)
    case Repush =>
      if o.reason.None? then o
      else if |o.send| < o.cap then Push(o, Closed(o.reason.value)).(closer := Finished)
      else o.(closer := Finished)
    case _ => o
  }

  /** A transport failure: close without a closed frame. */
  function Abort(o: Outbound): Outbound {
    if o.closing then o else o.(closing := true, closer := Finished)
  }

  /** The channel send of an `Enqueue` that has already passed its closing check. */
  function Offer(o: Outbound, f: Frame): Outbound {
    if |o.send| < o.cap then Push(o, f) else BeginClose(o, SlowConsumer)
  }

  /** One frame leaves the buffer: onto the socket, or lost because the write failed. */
  function Write(o: Outbound, ok: bool): Outbound {
    if o.writerDone || o.send == [] then o
    else if ok then
      o.(send := o.send[1..], written := o.written + [o.send[0]],
         writerDone := o.send[0].Closed?)
    else
      Abort(o.(send := o.send[1..])).(writerDone := true)
  }

  /** `finalize` gives up waiting and cancels the writer's context. */
  function Cancel(o: Outbound): Outbound {
    if o.closing && o.closer == Finished then o.(writerDone := true) else o
  }

  /** The reader meets the end of the stream: `run` returns and cancels the writer, with no close begun. */
  function HangUp(o: Outbound): Outbound {
    o.(writerDone := true)
  }

  /** Any thread's next action, in any order. */
  datatype Action =
    | OfferFrame(frame: Frame)
    | Begin(why: CloseReason)
    | StepCloser
    | AbortNow
    | WriteNext(ok: bool)
    | CancelNow
    | ReaderDone

  function Act(o: Outbound, a: Action): Outbound {
    match a
    case OfferFrame(f) => if f.Closed? then BeginClose(o, f.reason) else Offer(o, f)
    case Begin(r) => BeginClose(o, r)
    case StepCloser => CloserStep(o)
    case AbortNow => Abort(o)
    case WriteNext(ok) => Write(o, ok)
    case CancelNow => Cancel(o)
    case ReaderDone => HangUp(o)
  }

  function Run(o: Outbound, actions: seq<Action>): Outbound {
    if actions == [] then o else Act(Run(o, Init(actions)), Last(actions))
  }

  // ------------------------------------------------------------------
  // What every interleaving keeps
  // ------------------------------------------------------------------

  function ClosedIn(fs: seq<Frame>): nat {
    if fs == [] then 0 else ClosedIn(Init(fs)) + if Last(fs).Closed? then 1 else 0
  }

  ghost predicate Disciplined(o: Outbound) {
    && |o.send| <= o.cap
       // nothing reordered, duplicated or invented
    && Subsequence(o.written + o.send, o.queued)
       // at most two frames are ever lost: one to the close protocol, one to a failed write
    && |o.queued| <= |o.written| + |o.send|
                     + (if o.closer in {Repush, Finished} then 1 else 0)
                     + (if o.writerDone then 1 else 0)
       // before closing begins nothing is lost at all
    && (!o.closing ==>
          && o.queued == o.written + o.send
          && o.closer == Idle && o.reason == None)
       // the closed frame is queued at most once, and only by the close protocol
    && ClosedIn(o.queued) <= (if o.closer == Finished then 1 else 0)
    && (o.closer in {TryPush, DropOldest, Repush} ==> o.closing && o.reason.Some?)
       // and is the last frame written
    && (forall i :: 0 <= i < |o.written| && o.written[i].Closed? ==> i == |o.written| - 1 && o.writerDone)
  }

  lemma PushKeepsOrder(o: Outbound, f: Frame)
    requires Subsequence(o.written + o.send, o.queued)
    ensures var p := Push(o, f); Subsequence(p.written + p.send, p.queued)
    ensures ClosedIn(Push(o, f).queued) == ClosedIn(o.queued) + if f.Closed? then 1 else 0
  {
    assert (o.written + o.send) + [f] == o.written + (o.send + [f]);
  }

  lemma LoseHeadKeepsOrder(o: Outbound)
    requires o.send != []
    requires Subsequence(o.written + o.send, o.queued)
    ensures Subsequence(o.written + o.send[1..], o.queued)
  {
    var all, i := o.written + o.send, |o.written|;
    SubsequenceRemove(all, i, o.queued);
    assert all[..i] + all[i + 1..] == o.written + o.send[1..];
  }

  lemma OfferKeepsDiscipline(o: Outbound, f: Frame)
    requires Disciplined(o) && !f.Closed?
    ensures Disciplined(Offer(o, f))
  {
    if |o.send| < o.cap {
      PushKeepsOrder(o, f);
      assert !o.closing ==> o.written + (o.send + [f]) == o.queued + [f];
    }
  }

  lemma CloserKeepsDiscipline(o: Outbound)
    requires Disciplined(o)
    ensures Disciplined(CloserStep(o))
  {
    if o.closer in {TryPush, Repush} && |o.send| < o.cap {
      PushKeepsOrder(o, Closed(o.reason.value));
    }
    if o.closer == DropOldest && o.send != [] {
      LoseHeadKeepsOrder(o);
    }
  }

  lemma WriteKeepsDiscipline(o: Outbound, ok: bool)
    requires Disciplined(o)
    ensures Disciplined(Write(o, ok))
  {
    if !o.writerDone && o.send != [] {
      if ok {
        assert (o.written + [o.send[0]]) + o.send[1..] == o.written + o.send;
        if !o.closing {
          NoClosedQueued(o.queued, o.send[0]);
        }
      } else {
        LoseHeadKeepsOrder(o);
      }
    }
  }

  lemma ActKeepsDiscipline(o: Outbound, a: Action)
    requires Disciplined(o)
    ensures Disciplined(Act(o, a))
  {
    match a
    case OfferFrame(f) =>
      if !f.Closed? {
        OfferKeepsDiscipline(o, f);
      }
    case StepCloser => CloserKeepsDiscipline(o);
    case WriteNext(ok) => WriteKeepsDiscipline(o, ok);
    case _ =>
  }

  /**
   Outbound discipline: whatever the interleaving of senders, closers and the
   writer, the buffer stays within its capacity, the frames written are an
   in-order subsequence of those queued, none is lost before closing begins and
   nothing is written after a closed frame.
   */
  lemma {:induction false} EveryInterleavingIsDisciplined(cap: nat, actions: seq<Action>)
    ensures Disciplined(Run(Fresh(cap), actions))
  {
    if actions != [] {
      EveryInterleavingIsDisciplined(cap, Init(actions));
      ActKeepsDiscipline(Run(Fresh(cap), Init(actions)), Last(actions));
    } else {
      SubsequenceReflexive<Frame>([]);
    }
  }

  /** Once a closed frame is on the wire, no action adds another frame. */
  lemma NothingFollowsClosed(cap: nat, actions: seq<Action>, a: Action)
    requires exists f :: f in Run(Fresh(cap), actions).written && f.Closed?
    ensures Act(Run(Fresh(cap), actions), a).written == Run(Fresh(cap), actions).written
  {
    EveryInterleavingIsDisciplined(cap, actions);
  }

  // ------------------------------------------------------------------
  // Whole calls
  // ------------------------------------------------------------------

  /** `initiateClose` run to its end with no other thread in between. */
  function CloseInitiated(o: Outbound, reason: CloseReason): Outbound {
    if o.closing then o
    else
      var kept := if |o.send| < o.cap || o.send == [] then o.send else o.send[1..];
      var pushed := if |kept| < o.cap then [Closed(reason)] else [];
      o.(closing := true, reason := Some(reason), closer := Finished,
         send := kept + pushed, queued := o.queued + pushed)
  }

  lemma CloseIsItsSteps(o: Outbound, reason: CloseReason)
    requires !o.closing
    ensures CloseInitiated(o, reason) == CloserStep(CloserStep(CloserStep(BeginClose(o, reason))))
  {
  }

  function Enqueued(o: Outbound, f: Frame): Outbound {
    if o.closing then o
    else if f.Closed? then CloseInitiated(o, f.reason)
    else if |o.send| < o.cap then Push(o, f)
    else CloseInitiated(o, SlowConsumer)
  }

  function EnqueuedAll(o: Outbound, fs: seq<Frame>): Outbound {
    if fs == [] then o else Enqueued(EnqueuedAll(o, Init(fs)), Last(fs))
  }

  function WriteAll(o: Outbound, outcomes: seq<bool>): Outbound {
    if outcomes == [] then o else Write(WriteAll(o, Init(outcomes)), Last(outcomes))
  }

  /** Whole calls are interleavings too, so they keep the discipline. */
  lemma EnqueueKeepsDiscipline(o: Outbound, f: Frame)
    requires Disciplined(o)
    ensures Disciplined(Enqueued(o, f))
  {
    if !o.closing {
      ActKeepsDiscipline(o, OfferFrame(f));
      var r := if f.Closed? then f.reason else SlowConsumer;
      var b := BeginClose(o, r);
      CloseIsItsSteps(o, r);
      ActKeepsDiscipline(o, Begin(r));
      ActKeepsDiscipline(b, StepCloser);
      ActKeepsDiscipline(CloserStep(b), StepCloser);
      ActKeepsDiscipline(CloserStep(CloserStep(b)), StepCloser);
    }
  }

  /**
   An undisturbed `initiateClose` gets its closed frame into any buffer that has
   capacity, as the last frame, giving up the oldest queued frame exactly when
   the buffer is full.
   */
  lemma CloseIsQueuedLast(o: Outbound, reason: CloseReason)
    requires Disciplined(o) && !o.closing
    ensures var c := CloserStep(CloserStep(CloserStep(BeginClose(o, reason))));
            && c.closing && c.reason == Some(reason) && c.closer == Finished
            && if o.cap == 0 then c.send == o.send && c.queued == o.queued
               else && c.send == (if |o.send| < o.cap then o.send else o.send[1..]) + [Closed(reason)]
                    && c.queued == o.queued + [Closed(reason)]
  {
  }

  /**
   Best effort only: a sender that passed its closing check before the close
   began can refill the slot the close protocol has just freed, and the closed
   frame is then never sent.
   */
  lemma ClosedFrameCanBeLost(first: Frame, late: Frame)
    requires !first.Closed? && !late.Closed?
    ensures var o := Run(Fresh(1), [OfferFrame(first), Begin(Auth), StepCloser, StepCloser,
                                    OfferFrame(late), StepCloser]);
            o.closing && o.closer == Finished && o.queued == [first, late]
  {
    var a := [OfferFrame(first), Begin(Auth), StepCloser, StepCloser, OfferFrame(late), StepCloser];
    var o := Fresh(1);
    assert Run(o, a[..0]) == o;
    forall i | 0 <= i < 6
      ensures Run(o, a[..i + 1]) == Act(Run(o, a[..i]), a[i])
    {
      RunAppend(o, a[..i], a[i]);
      assert a[..i] + [a[i]] == a[..i + 1];
    }
    assert Run(o, a[..1]) == Push(o, first);
    assert Run(o, a[..2]).closer == TryPush;
    assert Run(o, a[..3]).closer == DropOldest;
    assert Run(o, a[..4]).closer == Repush;
    assert Run(o, a[..5]).send == [late];
    assert a[..6] == a;
  }

  lemma RunAppend(o: Outbound, actions: seq<Action>, a: Action)
    ensures Run(o, actions + [a]) == Act(Run(o, actions), a)
  {
  }

  function Successes(n: nat): seq<bool> {
    if n == 0 then [] else Successes(n - 1) + [true]
  }

  /** What a writer gets to send of a buffer: everything up to a closed frame, and that frame. */
  function Deliverable(fs: seq<Frame>): (d: seq<Frame>)
    ensures |d| <= |fs|
  {
    if fs == [] then []
    else if Deliverable(Init(fs)) != [] && Last(Deliverable(Init(fs))).Closed? then Deliverable(Init(fs))
    else Deliverable(Init(fs)) + [Last(fs)]
  }

  lemma {:induction false} DeliverableIsPrefix(fs: seq<Frame>)
    ensures Deliverable(fs) <= fs
    ensures Deliverable(fs) == fs || (Deliverable(fs) != [] && Last(Deliverable(fs)).Closed?)
    ensures forall i :: 0 <= i < |Deliverable(fs)| - 1 ==> !Deliverable(fs)[i].Closed?
  {
    if fs != [] {
      DeliverableIsPrefix(Init(fs));
      assert fs == Init(fs) + [Last(fs)];
    }
  }

  /** The connection once the writer has sent `d` off the front of its buffer. */
  function Drained(o: Outbound, d: seq<Frame>): Outbound
    requires |d| <= |o.send|
  {
    o.(send := o.send[|d|..], written := o.written + d, writerDone := d != [] && Last(d).Closed?)
  }

  lemma WriteAllStep(o: Outbound, n: nat)
    ensures WriteAll(o, Successes(n + 1)) == Write(WriteAll(o, Successes(n)), true)
  {
    assert Init(Successes(n + 1)) == Successes(n);
  }

  lemma DrainStep(o: Outbound, n: nat)
    requires n < |o.send|
    ensures Write(Drained(o, Deliverable(o.send[..n])), true) == Drained(o, Deliverable(o.send[..n + 1]))
  {
    var fs, f := o.send[..n], o.send[n];
    assert o.send[..n + 1] == fs + [f];
    DeliverableSnoc(fs, f);
    DeliverableIsPrefix(fs);
    if Deliverable(fs) == [] || !Last(Deliverable(fs)).Closed? {
      WriteOne(o, n);
    }
  }

  lemma DeliverableSnoc(fs: seq<Frame>, f: Frame)
    ensures var d := Deliverable(fs);
            Deliverable(fs + [f]) == if d != [] && Last(d).Closed? then d else d + [f]
  {
    assert Init(fs + [f]) == fs;
  }

  /** A successful write moves one frame over. */
  lemma WriteOne(o: Outbound, n: nat)
    requires n < |o.send| && (n > 0 ==> !o.send[n - 1].Closed?)
    ensures Write(Drained(o, o.send[..n]), true) == Drained(o, o.send[..n] + [o.send[n]])
  {
    var d := o.send[..n];
    assert o.send[n..][1..] == o.send[n + 1..];
    assert (o.written + d) + [o.send[n]] == o.written + (d + [o.send[n]]);
  }

  /**
   A running writer whose writes succeed delivers the buffer front to back, up to and
   including a closed frame, whether or not a close has begun.
   */
  lemma {:induction false} DrainDelivers(o: Outbound, n: nat)
    requires !o.writerDone && n <= |o.send|
    ensures WriteAll(o, Successes(n)) == Drained(o, Deliverable(o.send[..n]))
  {
    if n > 0 {
      DrainDelivers(o, n - 1);
      WriteAllStep(o, n - 1);
      DrainStep(o, n - 1);
    } else {
      assert o.send[..0] == [];
      assert o.send[0..] == o.send && o.written + [] == o.written;
    }
  }

  lemma {:induction false} NoClosedQueued(fs: seq<Frame>, f: Frame)
    requires ClosedIn(fs) == 0 && f in fs
    ensures !f.Closed?
    decreases |fs|
  {
    if f != Last(fs) {
      NoClosedQueued(Init(fs), f);
    }
  }

  // ------------------------------------------------------------------
  // The connection object
  // ------------------------------------------------------------------

  /** The connection object: its identity is fixed at hello, its outbound half changes in place. */
  class WsConn {
    const user: string
    const role: Role
    const id: string
    const meta: DeviceInfo
    const cap: nat

    var out: Outbound

    constructor (user: string, role: Role, id: string, meta: DeviceInfo, cap: nat)
      ensures this.user == user && this.role == role && this.id == id && this.meta == meta && this.cap == cap
      ensures out == Fresh(cap)
    {
      this.user, this.role, this.id, this.meta, this.cap := user, role, id, meta, cap;
      out := Fresh(cap);
    }

    method InitiateClose(reason: CloseReason)
      modifies this
      ensures out == CloseInitiated(old(out), reason)
    {
      if out.closing {
        return;
      }
      out := out.(reason := Some(reason), closing := true, closer := Finished);
      var frame := Closed(reason);
      if |out.send| < out.cap {
        out := Push(out, frame);
      } else {
        if |out.send| > 0 {
          out := out.(send := out.send[1..]);
        }
        if |out.send| < out.cap {
          out := Push(out, frame);
        }
      }
    }

    method Enqueue(f: Frame)
      modifies this
      ensures out == Enqueued(old(out), f)
    {
      if out.closing {
        return;
      }
      if f.Closed? {
        InitiateClose(f.reason);
        return;
      }
      if |out.send| < out.cap {
        out := Push(out, f);
      } else {
        InitiateClose(SlowConsumer);
      }
    }

    /** The writer loop; `outcomes` says which socket writes succeed. */
    method Writer(outcomes: seq<bool>)
      modifies this
      ensures out == WriteAll(old(out), outcomes)
    {
      var i := 0;
      while i < |outcomes|
        invariant i <= |outcomes|
        invariant out == WriteAll(old(out), outcomes[..i])
      {
        assert Init(outcomes[..i + 1]) == outcomes[..i];
        if !out.writerDone && |out.send| > 0 {
          var b := out.send[0];
          out := out.(send := out.send[1..]);
          if outcomes[i] {
            out := out.(written := out.written + [b], writerDone := b.Closed?);
          } else {
            if !out.closing {
              out := out.(closing := true, closer := Finished);
            }
            out := out.(writerDone := true);
          }
        }
        i := i + 1;
      }
      assert outcomes[..|outcomes|] == outcomes;
    }
  }
}
