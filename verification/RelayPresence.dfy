/**
 Every run of the relay keeps its rooms well formed, and every member's view of
 who is online converges to the truth.
 */
module RelayPresence {
  import opened Base
  import opened RelayConn
  import opened Ordering
  import opened RelayHub

  // ------------------------------------------------------------------
  // Enqueueing
  // ------------------------------------------------------------------

  /** A frame is either queued, or its connection is closing. */
  lemma EnqueueQueuesOrCloses(o: Outbound, f: Frame)
    requires !f.Closed?
    ensures Enqueued(o, f).hello == o.hello
    ensures o.closing ==> Enqueued(o, f) == o
    ensures !Enqueued(o, f).closing ==> !o.closing && Enqueued(o, f) == Push(o, f)
  {
  }

  lemma {:induction false} EnqueueAllQueuesOrCloses(o: Outbound, fs: seq<Frame>)
    requires forall f :: f in fs ==> !f.Closed?
    ensures EnqueuedAll(o, fs).hello == o.hello
    ensures !EnqueuedAll(o, fs).closing ==> !o.closing && EnqueuedAll(o, fs).queued == o.queued + fs
  {
    if fs != [] {
      EnqueueAllQueuesOrCloses(o, Init(fs));
      EnqueueQueuesOrCloses(EnqueuedAll(o, Init(fs)), Last(fs));
      assert fs == Init(fs) + [Last(fs)];
    }
  }

  lemma {:induction false} EnqueueAllKeepsDiscipline(o: Outbound, fs: seq<Frame>)
    requires Disciplined(o)
    ensures Disciplined(EnqueuedAll(o, fs))
  {
    if fs != [] {
      EnqueueAllKeepsDiscipline(o, Init(fs));
      EnqueueKeepsDiscipline(EnqueuedAll(o, Init(fs)), Last(fs));
    }
  }

  // ------------------------------------------------------------------
  // Replaying
  // ------------------------------------------------------------------

  /** Views that differ at one device only still do after any frames. */
  lemma {:induction false} ReplayElsewhere(v: View, w: View, fs: seq<Frame>, id: string)
    requires v - {id} == w - {id}
    ensures Replay(v, fs) - {id} == Replay(w, fs) - {id}
  {
    if fs != [] {
      ReplayElsewhere(v, w, Init(fs), id);
      var a, b, f := Replay(v, Init(fs)), Replay(w, Init(fs)), Last(fs);
      ApplyElsewhere(a, b, f, id);
    }
  }

  lemma ApplyElsewhere(a: View, b: View, f: Frame, id: string)
    requires a - {id} == b - {id}
    ensures Apply(a, f) - {id} == Apply(b, f) - {id}
  {
    var a', b' := Apply(a, f) - {id}, Apply(b, f) - {id};
    forall k ensures k in a' <==> k in b' {
      assert k != id ==> (k in a <==> k in a - {id}) && (k in b <==> k in b - {id});
    }
    forall k | k in a' ensures a'[k] == b'[k] {
      assert k in a && k in b ==> a[k] == (a - {id})[k] && b[k] == (b - {id})[k];
    }
  }

  /** A presence frame settles its device, whatever was believed of it. */
  lemma ApplySettles(a: View, b: View, f: Frame)
    requires IsPresence(f)
    requires a - {f.deviceId} == b - {f.deviceId}
    ensures Apply(a, f) == Apply(b, f)
  {
    var id := f.deviceId;
    forall k ensures k in Apply(a, f) <==> k in Apply(b, f) {
      assert k != id ==> (k in a <==> k in a - {id}) && (k in b <==> k in b - {id});
    }
    forall k | k in Apply(a, f) ensures Apply(a, f)[k] == Apply(b, f)[k] {
      if k != id {
        assert a[k] == (a - {id})[k] && b[k] == (b - {id})[k];
      }
    }
  }

  /** Telling a member about a change keeps it converged on the changed room. */
  lemma TellConverges(o: Outbound, truth: View, f: Frame)
    requires IsPresence(f) && Converged(o, truth)
    requires !Enqueued(o, f).closing
    ensures Converged(Enqueued(o, f), Apply(truth, f))
  {
    EnqueueQueuesOrCloses(o, f);
    var truth' := Apply(truth, f);
    assert truth - {f.deviceId} == truth' - {f.deviceId};
    ReplayElsewhere(truth', truth, o.queued, f.deviceId);
    ApplySettles(Replay(truth', o.queued), Replay(truth, o.queued), f);
    ApplySettles(Apply(truth, f), truth, f);
  }

  lemma {:induction false} OnlineFramesAreOnline(infos: seq<DeviceInfo>)
    ensures forall f :: f in OnlineFrames(infos) ==> f.Online?
  {
    if infos != [] {
      OnlineFramesAreOnline(Init(infos));
    }
  }

  /** The join snapshot repeats what the table already says. */
  lemma {:induction false} SnapshotIsRedundant(truth: View, infos: seq<DeviceInfo>)
    requires forall i :: i in infos ==> i.deviceId in truth && truth[i.deviceId] == MetaOf(i)
    ensures Replay(truth, OnlineFrames(infos)) == truth
  {
    if infos != [] {
      SnapshotIsRedundant(truth, Init(infos));
      assert Last(infos) in infos;
    }
  }

  lemma {:induction false} InfosAreDevices(r: Room, ids: seq<string>)
    requires forall id :: id in ids ==> id in r.devices
    ensures forall i :: i in Infos(r, ids) ==> exists id :: id in ids && r.devices[id].meta == i
  {
    if ids != [] {
      InfosAreDevices(r, Init(ids));
      assert Last(ids) in ids;
      forall i | i in Infos(r, ids) ensures exists id :: id in ids && r.devices[id].meta == i {
        if i in Infos(r, Init(ids)) {
          var id :| id in Init(ids) && r.devices[id].meta == i;
          assert id in ids;
        }
      }
    }
  }

  ghost predicate Labelled(r: Room) {
    forall id :: id in r.devices ==> r.devices[id].meta.deviceId == id
  }

  lemma {:induction false} TableReadsBack(r: Room, ids: seq<string>)
    requires Labelled(r)
    requires forall id :: id in ids ==> id in r.devices
    ensures ReadTable(Infos(r, ids)) == map id | id in ids :: MetaOf(r.devices[id].meta)
  {
    if ids != [] {
      TableReadsBack(r, Init(ids));
      var infos := Infos(r, ids);
      assert Init(infos) == Infos(r, Init(ids)) && Last(infos) == r.devices[Last(ids)].meta;
      assert ids == Init(ids) + [Last(ids)];
    }
  }

  /** hello_ok's table is the truth at the moment it is read. */
  lemma GreetingIsTruth(r: Room)
    requires Labelled(r)
    ensures ReadTable(OnlineDevices(r)) == Truth(r)
  {
    TableReadsBack(r, Sorted(r.devices.Keys));
  }

  // ------------------------------------------------------------------
  // Register
  // ------------------------------------------------------------------

  ghost predicate PositiveLimits(s: HubState) {
    s.limits.maxDevices > 0 && s.limits.maxClients > 0
  }

  ghost predicate Accepts(s: HubState, c: WsConn) {
    !s.shutdown && !OverLimit(s, c)
  }

  /** A refused Register changes no room. */
  lemma RefusedRegisterChangesNoRoom(s: HubState, c: WsConn)
    requires WithinLimits(s) && PositiveLimits(s) && !Accepts(s, c)
    ensures Registered(s, c).rooms == s.rooms && Registered(s, c).gauge == s.gauge
  {
  }

  lemma JoinKeepsPlacement(s: HubState, s': HubState, c: WsConn)
    requires WellPlaced(s) && Identified(c)
    requires s'.rooms == s.rooms[c.user := Joined(RoomOf(s, c.user), c)] && s'.out.Keys == s.out.Keys + {c}
    ensures WellPlaced(s')
  {
  }

  lemma {:induction false} RegisterKeepsPlacement(s: HubState, c: WsConn)
    requires WellPlaced(s) && Enabled(s, Register(c)) && Accepts(s, c)
    ensures WellPlaced(Registered(s, c))
  {
    JoinKeepsPlacement(s, Registered(s, c), c);
  }

  lemma RegisterKeepsLimits(s: HubState, c: WsConn)
    requires WithinLimits(s) && PositiveLimits(s) && Accepts(s, c)
    ensures WithinLimits(Registered(s, c))
  {
  }

  lemma RefusedRegisterKeepsPlacement(s: HubState, c: WsConn)
    requires WellPlaced(s) && WithinLimits(s) && PositiveLimits(s) && !Accepts(s, c)
    ensures WellPlaced(Registered(s, c)) && WithinLimits(Registered(s, c))
  {
  }

  lemma RefusedRegisterCounts(s: HubState, c: WsConn, role: Role)
    requires WellPlaced(s) && WithinLimits(s) && PositiveLimits(s) && c !in s.out && !Accepts(s, c)
    ensures StoredWith(Registered(s, c), role) == StoredWith(s, role)
  {
    RefusedRegisterChangesNoRoom(s, c);
    HolderIsKnown(s, c);
  }

  lemma RegisterKeepsGauge(s: HubState, c: WsConn, role: Role)
    requires WellPlaced(s) && WithinLimits(s) && PositiveLimits(s) && GaugesAgree(s) && Enabled(s, Register(c))
    ensures role in Registered(s, c).gauge && Registered(s, c).gauge[role] == |StoredWith(Registered(s, c), role)|
  {
    assert role in s.gauge && s.gauge[role] == |StoredWith(s, role)|;
    if !Accepts(s, c) {
      RefusedRegisterChangesNoRoom(s, c);
      RefusedRegisterCounts(s, c, role);
    } else {
      JoinCounts(s, Registered(s, c), c, role);
    }
  }

  lemma RegisterKeepsGauges(s: HubState, c: WsConn)
    requires WellPlaced(s) && WithinLimits(s) && PositiveLimits(s) && GaugesAgree(s) && Enabled(s, Register(c))
    ensures GaugesAgree(Registered(s, c))
  {
    var t := Registered(s, c);
    forall role ensures role in t.gauge && t.gauge[role] == |StoredWith(t, role)| {
      RegisterKeepsGauge(s, c, role);
    }
  }

  lemma HolderIsKnown(s: HubState, c: WsConn)
    requires WellPlaced(s)
    ensures Holder(s.rooms, c).Some? ==>
              var h := Holder(s.rooms, c).value;
              h in s.out && Stored(s, h) && h.user == c.user && h.role == c.role && h.id == c.id
  {
  }

  lemma JoinStores(s: HubState, s': HubState, c: WsConn, k: WsConn)
    requires WellPlaced(s) && c !in s.out
    requires s'.rooms == s.rooms[c.user := Joined(RoomOf(s, c.user), c)]
    ensures Stored(s', k) <==> k == c || (Stored(s, k) && Holder(s.rooms, c) != Some(k))
  {
  }

  lemma JoinCounts(s: HubState, s': HubState, c: WsConn, role: Role)
    requires WellPlaced(s) && c !in s.out
    requires s'.rooms == s.rooms[c.user := Joined(RoomOf(s, c.user), c)] && s'.out.Keys == s.out.Keys + {c}
    ensures |StoredWith(s', role)| == |StoredWith(s, role)|
                                      + if role == c.role && Holder(s.rooms, c).None? then 1 else 0
  {
    var before, after, holder := StoredWith(s, role), StoredWith(s', role), Holder(s.rooms, c);
    HolderIsKnown(s, c);
    forall k ensures k in after <==> (k == c && role == c.role) || (k in before && holder != Some(k)) {
      JoinStores(s, s', c, k);
    }
    Recount(before, after, c, if role == c.role then holder else None, role == c.role);
  }

  lemma Recount(before: set<WsConn>, after: set<WsConn>, c: WsConn, prior: Option<WsConn>, joins: bool)
    requires c !in before && (prior.Some? ==> prior.value in before && joins)
    requires forall k :: k in after <==> (k == c && joins) || (k in before && prior != Some(k))
    ensures |after| == |before| + if joins && prior.None? then 1 else 0
  {
    match prior
    case None => assert after == if joins then before + {c} else before;
    case Some(p) => assert after == before - {p} + {c};
  }

  lemma BroadcastKeepsDiscipline(out: map<WsConn, Outbound>, targets: set<WsConn>, f: Frame)
    requires forall k :: k in out ==> Disciplined(out[k])
    ensures forall k :: k in out ==> Disciplined(Broadcast(out, targets, f)[k])
  {
    forall k | k in out ensures Disciplined(Broadcast(out, targets, f)[k]) {
      EnqueueKeepsDiscipline(out[k], f);
    }
  }

  lemma JoinOutKeepsDiscipline(out: map<WsConn, Outbound>, r: Room, c: WsConn)
    requires c in out && forall k :: k in out ==> Disciplined(out[k])
    ensures forall k :: k in JoinOut(out, r, c) ==> Disciplined(JoinOut(out, r, c)[k])
  {
    if c.role.Device? {
      BroadcastKeepsDiscipline(out, Members(r) - {c}, OnlineFrame(c.meta));
      EnqueueAllKeepsDiscipline(out[c], OnlineFrames(JoinSnapshot(r, c)));
    }
  }

  lemma JoinKeepsDiscipline(s: HubState, c: WsConn)
    requires AllDisciplined(s) && c !in s.out
    ensures AllDisciplined(Registered(s, c))
  {
    JoinOutKeepsDiscipline(s.out[c := Fresh(c.cap)], Joined(RoomOf(s, c.user), c), c);
  }

  /** The newcomer itself starts out converged. */
  lemma {:induction false} NewcomerConverges(s: HubState, c: WsConn)
    requires WellPlaced(s) && Enabled(s, Register(c)) && Accepts(s, c)
    requires !Registered(s, c).out[c].closing
    ensures Converged(Registered(s, c).out[c], Truth(RoomOf(Registered(s, c), c.user)))
  {
    var r := Joined(RoomOf(s, c.user), c);
    var o := Registered(s, c).out[c];
    if c.role.Device? {
      var infos := JoinSnapshot(r, c);
      OnlineFramesAreOnline(infos);
      EnqueueAllQueuesOrCloses(Fresh(c.cap), OnlineFrames(infos));
      assert o.queued == OnlineFrames(infos);
      InfosAreDevices(r, Sorted(r.devices.Keys - {c.id}));
      SnapshotIsRedundant(Truth(r), infos);
    }
  }

  lemma JoinTruth(r: Room, c: WsConn)
    requires Identified(c)
    ensures Truth(Joined(r, c)) == if c.role.Device? then Apply(Truth(r), OnlineFrame(c.meta)) else Truth(r)
  {
  }

  lemma {:induction false} RegisterConverges(s: HubState, c: WsConn, k: WsConn)
    requires Inv(s) && PositiveLimits(s) && Enabled(s, Register(c))
    requires var s' := Registered(s, c); k in s'.out && Stored(s', k) && !s'.out[k].closing
    ensures Converged(Registered(s, c).out[k], Truth(RoomOf(Registered(s, c), k.user)))
  {
    if !Accepts(s, c) {
      RefusedRegisterChangesNoRoom(s, c);
      HolderIsKnown(s, k);
    } else if k == c {
      NewcomerConverges(s, c);
    } else {
      JoinStores(s, Registered(s, c), c, k);
      OldMemberConverges(s, c, k);
    }
  }

  lemma {:induction false} RegisterKeepsPresence(s: HubState, c: WsConn)
    requires Inv(s) && PositiveLimits(s) && Enabled(s, Register(c))
    ensures PresenceConverged(Registered(s, c))
  {
    forall k | var s' := Registered(s, c); k in s'.out && Stored(s', k) && !s'.out[k].closing
      ensures Converged(Registered(s, c).out[k], Truth(RoomOf(Registered(s, c), k.user)))
    {
      RegisterConverges(s, c, k);
    }
  }

  lemma {:induction false} OldMemberConverges(s: HubState, c: WsConn, k: WsConn)
    requires WellPlaced(s) && PresenceConverged(s) && Enabled(s, Register(c)) && Accepts(s, c)
    requires k in s.out && k != c && Stored(s, k) && Stored(Registered(s, c), k)
    requires !Registered(s, c).out[k].closing
    ensures Converged(Registered(s, c).out[k], Truth(RoomOf(Registered(s, c), k.user)))
  {
    var r := Joined(RoomOf(s, c.user), c);
    if k.user == c.user {
      JoinTruth(RoomOf(s, c.user), c);
      if c.role.Device? {
        assert k in Members(r);
        EnqueueQueuesOrCloses(s.out[k], OnlineFrame(c.meta));
        TellConverges(s.out[k], Truth(RoomOf(s, c.user)), OnlineFrame(c.meta));
      }
    } else {
      assert k !in Members(r) - {c};
    }
  }

  lemma RegisterKeepsInv(s: HubState, c: WsConn)
    requires Inv(s) && PositiveLimits(s) && Enabled(s, Register(c))
    ensures Inv(Registered(s, c))
  {
    if Accepts(s, c) {
      RegisterKeepsPlacement(s, c);
      RegisterKeepsLimits(s, c);
    } else {
      RefusedRegisterKeepsPlacement(s, c);
    }
    RegisterKeepsGauges(s, c);
    RegisterKeepsPresence(s, c);
    JoinKeepsDiscipline(s, c);
  }

  // ------------------------------------------------------------------
  // Unregister
  // ------------------------------------------------------------------

  /** A kicked connection's late Unregister changes nothing and tells nobody. */
  lemma LateUnregisterIsSilent(s: HubState, c: WsConn, replacement: WsConn)
    requires Holder(s.rooms, c) == Some(replacement) && replacement != c
    ensures Unregistered(s, c) == s
  {
  }

  ghost function LeftRooms(rooms: Rooms, c: WsConn): Rooms {
    var r := Without(RoomIn(rooms, c.user), c);
    if r == EmptyRoom then rooms - {c.user} else rooms[c.user := r]
  }

  lemma UnregisterParts(s: HubState, c: WsConn)
    requires Stored(s, c)
    ensures Unregistered(s, c).rooms == LeftRooms(s.rooms, c)
    ensures Unregistered(s, c).out.Keys == s.out.Keys
    ensures Unregistered(s, c).limits == s.limits
    ensures Unregistered(s, c).gauge == Bump(s.gauge, c.role, -1)
  {
  }

  lemma {:induction false} UnregisterKeepsPlacement(s: HubState, c: WsConn)
    requires WellPlaced(s) && WithinLimits(s) && Stored(s, c)
    ensures WellPlaced(Unregistered(s, c)) && WithinLimits(Unregistered(s, c))
  {
    UnregisterParts(s, c);
  }

  lemma LeaveStores(s: HubState, c: WsConn, k: WsConn)
    requires WellPlaced(s) && Stored(s, c)
    ensures Stored(Unregistered(s, c), k) <==> Stored(s, k) && k != c
  {
    UnregisterParts(s, c);
  }

  lemma LeaveCounts(s: HubState, c: WsConn, role: Role)
    requires WellPlaced(s) && c in s.out && Stored(s, c)
    ensures StoredWith(Unregistered(s, c), role) == StoredWith(s, role) - {c}
  {
    UnregisterParts(s, c);
    forall k ensures k in StoredWith(Unregistered(s, c), role) <==> k in StoredWith(s, role) - {c} {
      LeaveStores(s, c, k);
    }
  }

  lemma UnregisterKeepsGauge(s: HubState, c: WsConn, role: Role)
    requires WellPlaced(s) && GaugesAgree(s) && c in s.out && Stored(s, c)
    ensures role in Unregistered(s, c).gauge
            && Unregistered(s, c).gauge[role] == |StoredWith(Unregistered(s, c), role)|
  {
    assert role in s.gauge && s.gauge[role] == |StoredWith(s, role)|;
    LeaveCounts(s, c, role);
    UnregisterParts(s, c);
  }

  lemma LeaveTruth(r: Room, c: WsConn)
    ensures Truth(Without(r, c)) == if c.role.Device? then Apply(Truth(r), Offline(c.id)) else Truth(r)
  {
  }

  lemma {:induction false} RemainingMemberConverges(s: HubState, c: WsConn, k: WsConn)
    requires WellPlaced(s) && PresenceConverged(s) && c in s.out && Stored(s, c)
    requires k in s.out && Stored(Unregistered(s, c), k) && !Unregistered(s, c).out[k].closing
    ensures Converged(Unregistered(s, c).out[k], Truth(RoomOf(Unregistered(s, c), k.user)))
  {
    UnregisterParts(s, c);
    var r := Without(s.rooms[c.user], c);
    if k.user == c.user {
      LeaveTruth(s.rooms[c.user], c);
      if c.role.Device? {
        assert k in Members(r);
        EnqueueQueuesOrCloses(s.out[k], Offline(c.id));
        TellConverges(s.out[k], Truth(s.rooms[c.user]), Offline(c.id));
      }
    } else {
      LeaveKeepsOthersOut(s, c, k);
    }
  }

  lemma LeaveKeepsOthersOut(s: HubState, c: WsConn, k: WsConn)
    requires WellPlaced(s) && Stored(s, c) && k.user != c.user
    ensures k !in Members(Without(s.rooms[c.user], c))
  {
  }

  lemma {:induction false} UnregisterKeepsPresence(s: HubState, c: WsConn)
    requires WellPlaced(s) && PresenceConverged(s) && c in s.out && Stored(s, c)
    ensures PresenceConverged(Unregistered(s, c))
  {
    var s' := Unregistered(s, c);
    UnregisterParts(s, c);
    forall k | k in s'.out && Stored(s', k) && !s'.out[k].closing
      ensures Converged(s'.out[k], Truth(RoomOf(s', k.user)))
    {
      RemainingMemberConverges(s, c, k);
    }
  }

  lemma UnregisterKeepsDiscipline(s: HubState, c: WsConn)
    requires AllDisciplined(s) && Stored(s, c)
    ensures AllDisciplined(Unregistered(s, c))
  {
    BroadcastKeepsDiscipline(s.out, Members(Without(s.rooms[c.user], c)), Offline(c.id));
  }

  lemma {:induction false} UnregisterKeepsInv(s: HubState, c: WsConn)
    requires Inv(s) && c in s.out
    ensures Inv(Unregistered(s, c))
  {
    if Stored(s, c) {
      UnregisterKeepsPlacement(s, c);
      UnregisterKeepsGauge(s, c, Device);
      UnregisterKeepsGauge(s, c, Client);
      UnregisterKeepsPresence(s, c);
      UnregisterKeepsDiscipline(s, c);
    }
  }

  // ------------------------------------------------------------------
  // The other events
  // ------------------------------------------------------------------

  lemma {:induction false} GreetingKeepsInv(s: HubState, c: WsConn)
    requires Inv(s) && c in s.out
    ensures Inv(Greeted(s, c))
  {
    var s' := Greeted(s, c);
    SameRoomsSameCounts(s, s');
    GreetingIsTruth(RoomOf(s, c.user));
  }

  lemma SameRoomsSameCounts(s: HubState, s': HubState)
    requires s'.rooms == s.rooms && s'.out.Keys == s.out.Keys
    ensures forall role :: StoredWith(s', role) == StoredWith(s, role)
  {
  }

  /** Queueing a frame that is not about presence moves nobody's view. */
  ghost predicate Unsurprising(o: Outbound, o': Outbound) {
    && o'.hello == o.hello
    && (!o'.closing ==>
          && !o.closing
          && (o'.queued == o.queued || exists f :: !IsPresence(f) && o'.queued == o.queued + [f]))
  }

  lemma UnsurprisingConverges(o: Outbound, o': Outbound, truth: View)
    requires Unsurprising(o, o') && !o'.closing && Converged(o, truth)
    ensures Converged(o', truth)
  {
  }

  lemma {:induction false} QuietChangeKeepsInv(s: HubState, s': HubState)
    requires Inv(s)
    requires s'.rooms == s.rooms && s'.limits == s.limits && s'.gauge == s.gauge && s'.out.Keys == s.out.Keys
    requires forall k :: k in s.out ==> Unsurprising(s.out[k], s'.out[k]) && Disciplined(s'.out[k])
    ensures Inv(s')
  {
    SameRoomsSameCounts(s, s');
    forall k | k in s'.out && Stored(s', k) && !s'.out[k].closing
      ensures Converged(s'.out[k], Truth(RoomOf(s', k.user)))
    {
      UnsurprisingConverges(s.out[k], s'.out[k], Truth(RoomOf(s, k.user)));
    }
  }

  lemma BroadcastKeepsInv(s: HubState, targets: set<WsConn>, f: Frame)
    requires Inv(s) && !IsPresence(f) && !f.Closed?
    ensures Inv(s.(out := Broadcast(s.out, targets, f)))
  {
    var s' := s.(out := Broadcast(s.out, targets, f));
    BroadcastKeepsDiscipline(s.out, targets, f);
    forall k | k in s.out ensures Unsurprising(s.out[k], s'.out[k]) {
      EnqueueQueuesOrCloses(s.out[k], f);
    }
    QuietChangeKeepsInv(s, s');
  }

  /** Who a routed frame goes to, and what it says. */
  ghost function RouteTargets(s: HubState, from: WsConn, target: string): set<WsConn> {
    var r := RoomOf(s, from.user);
    if from.role.Device? && from.user !in s.rooms then {}
    else if from.role.Device? && target == "" then r.clients.Values
    else if target !in r.devices || (from.role.Device? && r.devices[target] == from) then {from}
    else {r.devices[target]}
  }

  function RouteFrame(s: HubState, from: WsConn, target: string, payload: string): Frame {
    var r := RoomOf(s, from.user);
    if from.role.Device? && target == "" then AppFromDevice(from.id, payload)
    else if target !in r.devices || (from.role.Device? && r.devices[target] == from) then Undeliverable(target)
    else if from.role.Device? then AppDirected(from.id, target, payload)
    else AppFromClient(from.id, payload)
  }

  lemma RouteIsBroadcast(s: HubState, from: WsConn, target: string, payload: string)
    ensures Routed(s, from, target, payload)
            == s.(out := Broadcast(s.out, RouteTargets(s, from, target), RouteFrame(s, from, target, payload)))
  {
  }

  lemma RouteKeepsInv(s: HubState, from: WsConn, target: string, payload: string)
    requires Inv(s)
    ensures Inv(Routed(s, from, target, payload))
  {
    RouteIsBroadcast(s, from, target, payload);
    BroadcastKeepsInv(s, RouteTargets(s, from, target), RouteFrame(s, from, target, payload));
  }

  lemma {:induction false} ReplaceKeepsInv(s: HubState, c: WsConn, o: Outbound)
    requires Inv(s) && c in s.out && Disciplined(o) && Unsurprising(s.out[c], o)
    ensures Inv(s.(out := s.out[c := o]))
  {
    QuietChangeKeepsInv(s, s.(out := s.out[c := o]));
  }

  lemma ConnActKeepsInv(s: HubState, c: WsConn, a: Action)
    requires Inv(s) && Enabled(s, ConnAct(c, a))
    ensures Inv(Next(s, ConnAct(c, a)))
  {
    ActKeepsDiscipline(s.out[c], a);
    ReplaceKeepsInv(s, c, Act(s.out[c], a));
  }

  lemma NextKeepsLimits(s: HubState, e: Event)
    ensures Next(s, e).limits == s.limits
  {
  }

  lemma {:induction false} NextKeepsInv(s: HubState, e: Event)
    requires Inv(s) && PositiveLimits(s)
    ensures Inv(Next(s, e))
  {
    if Enabled(s, e) {
      match e
      case Register(c) => RegisterKeepsInv(s, c);
      case Unregister(c) => UnregisterKeepsInv(s, c);
      case Hello(c) => GreetingKeepsInv(s, c);
      case Route(c, target, payload) => RouteKeepsInv(s, c, target, payload);
      case ConnAct(c, a) => ConnActKeepsInv(s, c, a);
      case StopAccepting => SameRoomsSameCounts(s, Next(s, e));
    }
  }

  // ------------------------------------------------------------------
  // Every run
  // ------------------------------------------------------------------

  lemma InitialInv(limits: Limits)
    ensures Inv(InitialState(limits))
  {
    var s := InitialState(limits);
    forall role ensures role in s.gauge && s.gauge[role] == |StoredWith(s, role)| {
      assert StoredWith(s, role) == {};
      match role
      case Device =>
      case Client =>
    }
  }

  lemma {:induction false} EveryRunKeepsInv(limits: Limits, events: seq<Event>)
    requires limits.maxDevices > 0 && limits.maxClients > 0
    ensures Inv(Exec(InitialState(limits), events))
    ensures Exec(InitialState(limits), events).limits == limits
  {
    if events != [] {
      EveryRunKeepsInv(limits, Init(events));
      NextKeepsInv(Exec(InitialState(limits), Init(events)), Last(events));
      NextKeepsLimits(Exec(InitialState(limits), Init(events)), Last(events));
    } else {
      InitialInv(limits);
    }
  }

  /**
   Presence convergence: in every run, for every member that is not closing, the
   hello_ok table followed by every presence frame queued since it registered is
   exactly who is in its room now.
   */
  lemma {:induction false} EveryMemberConverges(limits: Limits, events: seq<Event>, c: WsConn)
    requires limits.maxDevices > 0 && limits.maxClients > 0
    requires var s := Exec(InitialState(limits), events);
             c in s.out && Stored(s, c) && !s.out[c].closing && s.out[c].hello.Some?
    ensures var s := Exec(InitialState(limits), events);
            Replay(ReadTable(s.out[c].hello.value), s.out[c].queued) == Truth(s.rooms[c.user])
  {
    EveryRunKeepsInv(limits, events);
  }

  /** And once its buffer is drained, that is what the peer has been sent. */
  lemma {:induction false} EveryDrainedPeerKnowsTheTruth(limits: Limits, events: seq<Event>, c: WsConn)
    requires limits.maxDevices > 0 && limits.maxClients > 0
    requires var s := Exec(InitialState(limits), events);
             c in s.out && Stored(s, c) && !s.out[c].closing && s.out[c].hello.Some? && s.out[c].send == []
    ensures var s := Exec(InitialState(limits), events);
            Replay(ReadTable(s.out[c].hello.value), s.out[c].written) == Truth(s.rooms[c.user])
  {
    EveryRunKeepsInv(limits, events);
    var o := Exec(InitialState(limits), events).out[c];
    assert o.queued == o.written + [] == o.written;
  }

  // ------------------------------------------------------------------
  // Isolation, routing, and the one way a room can be left empty
  // ------------------------------------------------------------------

  ghost predicate Untouched(s: HubState, s': HubState, k: WsConn) {
    && (k in s.out ==> k in s'.out && s'.out[k] == s.out[k])
    && RoomOf(s', k.user) == RoomOf(s, k.user)
  }

  lemma RegisterIsIsolated(s: HubState, c: WsConn, k: WsConn)
    requires WellPlaced(s) && k in s.out && k.user != c.user && c !in s.out && Identified(c)
    ensures Untouched(s, Registered(s, c), k)
  {
  }

  lemma UnregisterIsIsolated(s: HubState, c: WsConn, k: WsConn)
    requires WellPlaced(s) && k in s.out && k.user != c.user
    ensures Untouched(s, Unregistered(s, c), k)
  {
  }

  lemma RouteIsIsolated(s: HubState, c: WsConn, target: string, payload: string, k: WsConn)
    requires WellPlaced(s) && k in s.out && k.user != c.user
    ensures Untouched(s, Routed(s, c, target, payload), k)
  {
  }

  /** No event of one user changes another user's room or what is queued for its connections. */
  lemma {:induction false} UsersAreIsolated(s: HubState, e: Event, k: WsConn)
    requires WellPlaced(s) && !e.StopAccepting? && k in s.out && k.user != e.c.user
    ensures Untouched(s, Next(s, e), k)
  {
    if Enabled(s, e) {
      match e
      case Register(c) => RegisterIsIsolated(s, c, k);
      case Unregister(c) => UnregisterIsIsolated(s, c, k);
      case Route(c, target, payload) => RouteIsIsolated(s, c, target, payload, k);
      case _ =>
    }
  }

  lemma RouteStaysInRoom(s: HubState, from: WsConn, target: string)
    requires WellPlaced(s)
    ensures forall k :: k in RouteTargets(s, from, target) ==> k.user == from.user
  {
  }

  /**
   Routing: a device without a target reaches every client of its room, anyone
   else exactly the named device of its own room, and otherwise only the sender
   hears that the frame is undeliverable. A device whose room is gone reaches
   nobody. The sender written into the frame is the authenticated one.
   */
  lemma RouteReachesExactly(s: HubState, from: WsConn, target: string, payload: string, k: WsConn)
    requires WellPlaced(s) && k in s.out
    ensures var s' := Routed(s, from, target, payload);
            var devices := RoomOf(s, from.user).devices;
            var reached := target in devices && !(from.role.Device? && devices[target] == from);
            s'.out[k] ==
            (if from.role.Device? && from.user !in s.rooms then s.out[k]
             else if from.role.Device? && target == "" then
               (if k.user == from.user && k.role.Client? && Stored(s, k)
                then Enqueued(s.out[k], AppFromDevice(from.id, payload)) else s.out[k])
             else if !reached then
               (if k == from then Enqueued(s.out[k], Undeliverable(target)) else s.out[k])
             else if k.user == from.user && k.role.Device? && k.id == target && Stored(s, k) then
               Enqueued(s.out[k], if from.role.Device? then AppDirected(from.id, target, payload)
                                  else AppFromClient(from.id, payload))
             else s.out[k])
  {
  }

  /** A refused Register leaves an empty room behind exactly when the limit itself is not positive. */
  lemma EmptyRoomsComeFromZeroLimits(s: HubState, c: WsConn)
    requires forall u :: u in s.rooms ==> s.rooms[u] != EmptyRoom
    ensures (exists u :: u in Registered(s, c).rooms && Registered(s, c).rooms[u] == EmptyRoom)
            <==> (!s.shutdown && c.user !in s.rooms
                  && (if c.role.Device? then s.limits.maxDevices else s.limits.maxClients) <= 0)
  {
    var rooms' := Registered(s, c).rooms;
    if !s.shutdown && c.user !in s.rooms && OverLimit(s, c) {
      assert c.user in rooms' && rooms'[c.user] == EmptyRoom;
    }
    if Accepts(s, c) {
      var r := Joined(RoomOf(s, c.user), c);
      assert c.id in r.devices || c.id in r.clients;
    }
  }

  /** A hub that allows nobody: the first connection is refused and its empty room stays. */
  lemma ZeroLimitLeavesARoom(c: WsConn)
    ensures var s := Registered(InitialState(Limits(0, 0)), c);
            && s.rooms == map[c.user := EmptyRoom] && !Stored(s, c)
            && !WithinLimits(s)
  {
    var s := Registered(InitialState(Limits(0, 0)), c);
    assert OverLimit(InitialState(Limits(0, 0)), c);
    assert c.user in s.rooms && !RoomWithin(s.rooms[c.user], s.limits);
  }
}
