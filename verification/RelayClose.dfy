/**
 When the closed frame gets out (initiateClose of internal/relay/conn.go): senders that
 passed their closing check before the close began may still push while it runs.
 */
module RelayClose {
  import opened Base
  import opened RelayConn

  /** Frames offered by late senders in a run. */
  function Offers(actions: seq<Action>): nat {
    if actions == [] then 0
    else Offers(Init(actions)) +
         if Last(actions).OfferFrame? && !Last(actions).frame.Closed? then 1 else 0
  }

  /** A close has just begun: no closed frame was ever queued and the protocol has yet to push. */
  ghost predicate Begun(o: Outbound, reason: CloseReason) {
    && o.closing && o.closer == TryPush && o.reason == Some(reason)
    && |o.send| <= o.cap && Closed(reason) !in o.queued
  }

  /** That is so whenever a close begins on a disciplined connection. */
  lemma BeginCloseBegins(o: Outbound, reason: CloseReason)
    requires Disciplined(o) && !o.closing
    ensures Begun(BeginClose(o, reason), reason)
  {
    if Closed(reason) in o.queued {
      NoClosedQueued(o.queued, Closed(reason));
    }
  }

  /** Where a run of the close protocol can stand when at most `late` senders interfere. */
  ghost predicate OnCourse(o: Outbound, start: Outbound, reason: CloseReason, offered: nat, late: nat) {
    && o.closing && o.reason == Some(reason) && o.cap == start.cap && offered <= late
    && match o.closer
       case Idle => false
       case TryPush => |o.send| <= |start.send| + offered
       case DropOldest => offered == late && |o.send| <= o.cap
       case Repush => offered == late && |o.send| < o.cap
       case Finished => Closed(reason) in o.queued
  }

  lemma {:induction false} StaysOnCourse(start: Outbound, reason: CloseReason, actions: seq<Action>, late: nat)
    requires Begun(start, reason) && start.cap > 0 && |start.send| + late <= start.cap
    requires Offers(actions) <= late
    ensures OnCourse(Run(start, actions), start, reason, Offers(actions), late)
  {
    if actions != [] {
      StaysOnCourse(start, reason, Init(actions), late);
    }
  }

  /** Senders that each offer one frame. */
  function Burst(f: Frame, n: nat): seq<Action> {
    if n == 0 then [] else Burst(f, n - 1) + [OfferFrame(f)]
  }

  lemma {:induction false} BurstFills(o: Outbound, f: Frame, n: nat)
    requires !f.Closed? && |o.send| + n <= o.cap
    ensures Offers(Burst(f, n)) == n
    ensures var p := Run(o, Burst(f, n));
            && |p.send| == |o.send| + n
            && p == o.(send := p.send, queued := p.queued)
            && (forall x :: x in p.queued ==> x in o.queued || x == f)
  {
    if n > 0 {
      BurstFills(o, f, n - 1);
      RunAppend(o, Burst(f, n - 1), OfferFrame(f));
      OffersAppend(Burst(f, n - 1), OfferFrame(f));
    }
  }

  lemma OffersAppend(actions: seq<Action>, a: Action)
    ensures Offers(actions + [a]) == Offers(actions) + if a.OfferFrame? && !a.frame.Closed? then 1 else 0
  {
  }

  /** A close on a buffer without capacity: all three attempts fail. */
  lemma NoCapacityLoses(o: Outbound, reason: CloseReason)
    requires Begun(o, reason) && o.cap == 0
    ensures exists actions :: Offers(actions) == 0 && Lost(o, reason, actions)
  {
    var a := [StepCloser];
    var b := a + [StepCloser];
    var c := b + [StepCloser];
    assert Run(o, []) == o && [] + [StepCloser] == a;
    RunAppend(o, [], StepCloser);
    RunAppend(o, a, StepCloser);
    RunAppend(o, b, StepCloser);
    OffersAppend([], StepCloser);
    OffersAppend(a, StepCloser);
    OffersAppend(b, StepCloser);
    assert Lost(o, reason, c);
  }

  /** The close protocol has ended and the closed frame never entered the buffer. */
  ghost predicate Lost(o: Outbound, reason: CloseReason, actions: seq<Action>) {
    Run(o, actions).closer == Finished && Closed(reason) !in Run(o, actions).queued
  }

  lemma RunFour(o: Outbound, actions: seq<Action>, a: Action, b: Action, c: Action, d: Action)
    ensures Run(o, actions + [a, b, c, d]) == Act(Act(Act(Act(Run(o, actions), a), b), c), d)
    ensures Offers(actions + [a, b, c, d]) == Offers(actions) + Offers([a]) + Offers([b]) + Offers([c]) + Offers([d])
  {
    var x := actions + [a];
    var y := x + [b];
    var z := y + [c];
    assert actions + [a, b, c, d] == z + [d];
    RunAppend(o, actions, a);
    RunAppend(o, x, b);
    RunAppend(o, y, c);
    RunAppend(o, z, d);
    OffersAppend(actions, a);
    OffersAppend(x, b);
    OffersAppend(y, c);
    OffersAppend(z, d);
  }

  /** Against a full buffer: the push fails, a frame is dropped, a sender takes the slot, the push fails again. */
  lemma SlotIsTaken(p: Outbound, reason: CloseReason, f: Frame)
    requires p.closer == TryPush && p.reason == Some(reason) && |p.send| == p.cap > 0
    requires Closed(reason) !in p.queued && !f.Closed?
    ensures var q := Act(Act(Act(Act(p, StepCloser), StepCloser), OfferFrame(f)), StepCloser);
            q.closer == Finished && Closed(reason) !in q.queued
  {
    var b := Act(Act(p, StepCloser), StepCloser);
    assert b == p.(closer := Repush, send := p.send[1..]);
    assert Act(b, OfferFrame(f)) == Push(b, f);
  }

  /** One sender more than the buffer has room for. */
  lemma OneSenderTooMany(o: Outbound, reason: CloseReason)
    requires Begun(o, reason) && o.cap > 0
    ensures exists actions :: Offers(actions) == o.cap - |o.send| + 1 && Lost(o, reason, actions)
  {
    var f := Offline("");
    var fill := Burst(f, o.cap - |o.send|);
    BurstFills(o, f, o.cap - |o.send|);
    SlotIsTaken(Run(o, fill), reason, f);
    RunFour(o, fill, StepCloser, StepCloser, OfferFrame(f), StepCloser);
    assert Lost(o, reason, fill + [StepCloser, StepCloser, OfferFrame(f), StepCloser]);
  }

  /**
   The closed frame is queued in every interleaving with at most `late` late senders
   exactly when the buffer has capacity and room for all of them at the start.
   */
  lemma ClosedFrameIsSafeExactly(o: Outbound, reason: CloseReason, late: nat)
    requires Begun(o, reason)
    ensures (forall actions :: Offers(actions) <= late ==> !Lost(o, reason, actions))
            <==> o.cap > 0 && |o.send| + late <= o.cap
  {
    if o.cap > 0 && |o.send| + late <= o.cap {
      forall actions | Offers(actions) <= late ensures !Lost(o, reason, actions) {
        StaysOnCourse(o, reason, actions, late);
      }
    } else if o.cap == 0 {
      NoCapacityLoses(o, reason);
    } else {
      OneSenderTooMany(o, reason);
    }
  }

  /** The close protocol finds room when it pushes. */
  predicate MeetsRoom(p: Outbound, a: Action) {
    a.StepCloser? && p.closer in {TryPush, Repush} && |p.send| < p.cap
  }

  /** Some push of the close protocol met room during the run. */
  ghost predicate MetRoom(o: Outbound, actions: seq<Action>) {
    actions != [] && (MetRoom(o, Init(actions)) || MeetsRoom(Run(o, Init(actions)), Last(actions)))
  }

  /** The close protocol is on its way, or over. */
  ghost predicate Underway(p: Outbound, reason: CloseReason) {
    p.closing && p.reason == Some(reason) && p.closer != Idle
  }

  lemma CloserStepQueues(p: Outbound, reason: CloseReason)
    requires Underway(p, reason)
    ensures var q := CloserStep(p);
            && Underway(q, reason)
            && (Closed(reason) in q.queued <==> Closed(reason) in p.queued || MeetsRoom(p, StepCloser))
  {
  }

  lemma OfferQueuesNoClosed(p: Outbound, reason: CloseReason, f: Frame)
    requires Underway(p, reason)
    ensures var q := Act(p, OfferFrame(f));
            Underway(q, reason) && (Closed(reason) in q.queued <==> Closed(reason) in p.queued)
  {
  }

  lemma OthersQueueNothing(p: Outbound, reason: CloseReason, a: Action)
    requires Underway(p, reason) && !a.StepCloser? && !a.OfferFrame?
    ensures Underway(Act(p, a), reason) && Act(p, a).queued == p.queued
  {
  }

  /** One action queues the closed frame exactly when it is a push of the close protocol that meets room. */
  lemma StepQueuesIffRoom(p: Outbound, reason: CloseReason, a: Action)
    requires Underway(p, reason)
    ensures Underway(Act(p, a), reason)
    ensures Closed(reason) in Act(p, a).queued <==> Closed(reason) in p.queued || MeetsRoom(p, a)
  {
    match a
    case StepCloser => CloserStepQueues(p, reason);
    case OfferFrame(f) => OfferQueuesNoClosed(p, reason, f);
    case _ => OthersQueueNothing(p, reason, a);
  }

  lemma {:induction false} QueuedIffRoomSoFar(o: Outbound, reason: CloseReason, actions: seq<Action>)
    requires Begun(o, reason)
    ensures Underway(Run(o, actions), reason)
    ensures Closed(reason) in Run(o, actions).queued <==> MetRoom(o, actions)
  {
    if actions != [] {
      QueuedIffRoomSoFar(o, reason, Init(actions));
      StepQueuesIffRoom(Run(o, Init(actions)), reason, Last(actions));
    }
  }

  /** In a single run the closed frame is queued exactly when one of its two pushes met room. */
  lemma ClosedFrameIsQueuedIffRoom(o: Outbound, reason: CloseReason, actions: seq<Action>)
    requires Begun(o, reason) && Run(o, actions).closer == Finished
    ensures Lost(o, reason, actions) <==> !MetRoom(o, actions)
  {
    QueuedIffRoomSoFar(o, reason, actions);
  }
}
