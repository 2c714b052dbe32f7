/** The hub as the object it is: methods that update it in place, proved to be the critical sections. */
module RelayService {
  import opened Base
  import opened RelayConn
  import opened Ordering
  import opened RelayHub
  import opened RelayPresence

  ghost function Kicking(s: HubState, kicked: Option<WsConn>): HubState {
    match kicked
    case None => s
    case Some(k) => Tell(s, k, Closed(Replaced))
  }

  /** The offline frames a shutdown queues for c, when it visits the devices in the given order. */
  ghost function OfflinesFor(c: WsConn, order: seq<WsConn>): seq<Frame> {
    if order == [] then []
    else OfflinesFor(c, Init(order))
         + if Last(order).user == c.user && Last(order) != c then [Offline(Last(order).id)] else []
  }

  function Refusal(s: HubState, c: WsConn): Option<CloseReason> {
    if s.shutdown then Some(ShuttingDown) else if OverLimit(s, c) then Some(Protocol) else None
  }

  /** Register up to the broadcast. */
  ghost function Admitted(s: HubState, c: WsConn): HubState {
    var out := s.out[c := Fresh(c.cap)];
    if s.shutdown then s.(out := out)
    else if OverLimit(s, c) then s.(out := out, rooms := s.rooms[c.user := RoomOf(s, c.user)])
    else s.(out := out,
            rooms := s.rooms[c.user := Joined(RoomOf(s, c.user), c)],
            gauge := Bump(s.gauge, c.role, if KickedBy(s, c).Some? then 0 else 1))
  }

  ghost predicate ByRole(r: Room) {
    && (forall k :: k in r.devices.Values ==> k.role.Device?)
    && (forall k :: k in r.clients.Values ==> k.role.Client?)
  }

  lemma AdmitThenAnnounce(s: HubState, c: WsConn)
    requires WellPlaced(s)
    ensures Registered(s, c) ==
            var a := Admitted(s, c);
            if Refusal(s, c).Some? then a else a.(out := JoinOut(a.out, a.rooms[c.user], c))
    ensures Refusal(s, c).None? ==>
              var r := Admitted(s, c).rooms[c.user];
              ByRole(r) && Members(r) <= s.out.Keys + {c}
  {
    if Refusal(s, c).None? {
      AdmittedRoom(s, c);
    }
  }

  lemma AdmittedRoom(s: HubState, c: WsConn)
    requires WellPlaced(s) && Refusal(s, c).None?
    ensures var r := Admitted(s, c).rooms[c.user];
            ByRole(r) && Members(r) <= s.out.Keys + {c}
  {
    JoinedRoom(RoomOf(s, c.user), c, s.out.Keys);
  }

  lemma JoinedRoom(r0: Room, c: WsConn, known: set<WsConn>)
    requires RoomPlaced(c.user, r0, known)
    ensures var r := Joined(r0, c); ByRole(r) && Members(r) <= known + {c}
  {
    var r := Joined(r0, c);
    assert r.devices.Values <= r0.devices.Values + (if c.role.Device? then {c} else {});
    assert r.clients.Values <= r0.clients.Values + (if c.role.Client? then {c} else {});
  }

  lemma LeavingMembersKnown(s: HubState, c: WsConn)
    requires WellPlaced(s) && Stored(s, c)
    ensures var r := Without(s.rooms[c.user], c); ByRole(r) && Members(r) <= s.out.Keys
  {
  }

  class Hub {
    const limits: Limits
    var rooms: Rooms
    var shutdown: bool
    var gauge: map<Role, int>
    ghost var conns: set<WsConn>

    ghost function Snap(): HubState
      reads this, conns
    {
      HubState(limits, rooms, shutdown, map c | c in conns :: c.out, gauge)
    }

    constructor (limits: Limits)
      ensures Snap() == InitialState(limits) && conns == {}
    {
      this.limits := limits;
      rooms, shutdown, gauge, conns := map[], false, map[Device := 0, Client := 0], {};
    }

    /** Enqueue one frame to each target, in whatever order the map is walked. */
    static method EnqueueEach(targets: set<WsConn>, f: Frame)
      modifies targets
      ensures forall c :: c in targets ==> c.out == Enqueued(old(c.out), f)
    {
      var rest := targets;
      while rest != {}
        invariant rest <= targets
        invariant forall c :: c in rest ==> c.out == old(c.out)
        invariant forall c :: c in targets - rest ==> c.out == Enqueued(old(c.out), f)
      {
        var c :| c in rest;
        c.Enqueue(f);
        rest := rest - {c};
      }
    }

    /** The metadata of a room's devices, sorted by id. */
    static method ListDevices(r: Room, skip: set<string>) returns (infos: seq<DeviceInfo>)
      ensures infos == Infos(r, Sorted(r.devices.Keys - skip))
    {
      var wanted := r.devices.Keys - skip;
      var rest, ids := wanted, [];
      while rest != {}
        invariant rest <= wanted
        invariant Lists(ids, wanted - rest)
      {
        var id :| id in rest;
        InsertLists(ids, wanted - rest, id);
        assert wanted - rest + {id} == wanted - (rest - {id});
        ids, rest := Insert(ids, id), rest - {id};
      }
      assert wanted - rest == wanted;
      ListingIsUnique(ids, Sorted(wanted), wanted);
      assert forall id :: id in ids ==> id in r.devices;
      infos := [];
      var i := 0;
      while i < |ids|
        invariant i <= |ids|
        invariant infos == Infos(r, ids[..i])
      {
        infos := infos + [r.devices[ids[i]].meta];
        assert Init(ids[..i + 1]) == ids[..i];
        i := i + 1;
      }
      assert ids[..|ids|] == ids;
    }

    /** Queue the join snapshot for a newcomer, one frame per device. */
    static method SendSnapshot(c: WsConn, infos: seq<DeviceInfo>)
      modifies c
      ensures c.out == EnqueuedAll(old(c.out), OnlineFrames(infos))
    {
      var i := 0;
      while i < |infos|
        invariant i <= |infos|
        invariant c.out == EnqueuedAll(old(c.out), OnlineFrames(infos[..i]))
      {
        c.Enqueue(OnlineFrame(infos[i]));
        assert Init(infos[..i + 1]) == infos[..i];
        assert Init(OnlineFrames(infos[..i + 1])) == OnlineFrames(infos[..i]);
        i := i + 1;
      }
      assert infos[..|infos|] == infos;
    }

    method OnlineTable(user: string) returns (infos: seq<DeviceInfo>)
      ensures infos == OnlineDevices(RoomOf(Snap(), user))
    {
      infos := ListDevices(RoomIn(rooms, user), {});
      assert RoomIn(rooms, user).devices.Keys - {} == RoomIn(rooms, user).devices.Keys;
    }

    /** The part of Register that decides, and stores c in its room. */
    method Admit(c: WsConn) returns (kicked: Option<WsConn>, refused: Option<CloseReason>)
      modifies this`rooms, this`gauge
      ensures kicked == KickedBy(old(Snap()), c)
      ensures refused == Refusal(old(Snap()), c)
      ensures rooms == Admitted(old(Snap()), c).rooms && gauge == Admitted(old(Snap()), c).gauge
    {
      kicked, refused := None, None;
      if shutdown {
        refused := Some(ShuttingDown);
        return;
      }
      var r := RoomIn(rooms, c.user);
      rooms := rooms[c.user := r];
      if c.role.Device? {
        if c.id !in r.devices && |r.devices| >= limits.maxDevices {
          refused := Some(Protocol);
          return;
        }
        if c.id in r.devices {
          kicked := Some(r.devices[c.id]);
        }
        r := r.(devices := r.devices[c.id := c]);
      } else {
        if c.id !in r.clients && |r.clients| >= limits.maxClients {
          refused := Some(Protocol);
          return;
        }
        if c.id in r.clients {
          kicked := Some(r.clients[c.id]);
        }
        r := r.(clients := r.clients[c.id := c]);
      }
      rooms := rooms[c.user := r];
      gauge := Bump(gauge, c.role, if kicked.Some? then 0 else 1);
    }

    method AdmitNew(c: WsConn) returns (kicked: Option<WsConn>, refused: Option<CloseReason>)
      requires c !in conns && c.out == Fresh(c.cap)
      modifies this
      ensures conns == old(conns) + {c}
      ensures kicked == KickedBy(old(Snap()), c)
      ensures refused == Refusal(old(Snap()), c)
      ensures Snap() == Admitted(old(Snap()), c)
    {
      kicked, refused := Admit(c);
      conns := conns + {c};
      assert Snap().out == old(Snap()).out[c := Fresh(c.cap)];
    }

    /** Enqueue one frame to every client and every device of a room, bar the skipped ones. */
    method BroadcastRoom(r: Room, skip: set<WsConn>, f: Frame)
      requires Members(r) <= conns && ByRole(r)
      requires forall c :: c in skip ==> c.role.Device?
      modifies conns
      ensures Snap() == old(Snap()).(out := Broadcast(old(Snap()).out, Members(r) - skip, f))
    {
      EnqueueEach(r.clients.Values, f);
      EnqueueEach(r.devices.Values - skip, f);
      assert Snap().out == Broadcast(old(Snap()).out, Members(r) - skip, f);
    }

    /** The presence broadcast and the join snapshot of a newly stored connection. */
    method AnnounceJoin(c: WsConn, r: Room)
      requires c in conns && Members(r) <= conns && ByRole(r)
      modifies conns
      ensures Snap() == old(Snap()).(out := JoinOut(old(Snap()).out, r, c))
    {
      if c.role.Device? {
        BroadcastRoom(r, {c}, OnlineFrame(c.meta));
        ghost var told := Snap().out;
        var snapshot := ListDevices(r, {c.id});
        SendSnapshot(c, snapshot);
        assert Snap().out == told[c := EnqueuedAll(told[c], OnlineFrames(snapshot))];
      }
    }

    /** Register while it holds the lock. */
    method RegisterLocked(c: WsConn) returns (kicked: Option<WsConn>, refused: Option<CloseReason>)
      requires WellPlaced(Snap()) && c !in conns && c.out == Fresh(c.cap)
      modifies this, conns, c
      ensures conns == old(conns) + {c}
      ensures kicked == KickedBy(old(Snap()), c)
      ensures refused == Refusal(old(Snap()), c)
      ensures Snap() == Registered(old(Snap()), c)
    {
      AdmitThenAnnounce(Snap(), c);
      kicked, refused := AdmitNew(c);
      if refused.None? {
        AnnounceJoin(c, rooms[c.user]);
      }
    }

    /** Tell one connection something outside the lock. */
    method EnqueueOne(k: WsConn, f: Frame)
      requires k in conns
      modifies k
      ensures Snap() == Tell(old(Snap()), k, f)
    {
      k.Enqueue(f);
      assert Snap().out == Tell(old(Snap()), k, f).out;
    }

    method Register(c: WsConn) returns (kicked: Option<WsConn>, refused: Option<CloseReason>)
      requires WellPlaced(Snap()) && c !in conns && c.out == Fresh(c.cap)
      modifies this, conns, c
      ensures conns == old(conns) + {c}
      ensures kicked == KickedBy(old(Snap()), c)
      ensures refused == Refusal(old(Snap()), c)
      ensures Snap() == Kicking(Registered(old(Snap()), c), kicked)
    {
      HolderIsKnown(Snap(), c);
      kicked, refused := RegisterLocked(c);
      if kicked.Some? {
        EnqueueOne(kicked.value, Closed(Replaced));
      }
    }

    /** The room without c, if it is c the room holds. */
    method TakeOut(c: WsConn) returns (r: Room, removed: bool)
      ensures removed <==> Holder(rooms, c) == Some(c)
      ensures removed ==> c.user in rooms && r == Without(rooms[c.user], c)
    {
      r, removed := RoomIn(rooms, c.user), false;
      if c.role.Device? {
        if c.id in r.devices && r.devices[c.id] == c {
          r, removed := r.(devices := r.devices - {c.id}), true;
        }
      } else {
        if c.id in r.clients && r.clients[c.id] == c {
          r, removed := r.(clients := r.clients - {c.id}), true;
        }
      }
    }

    method Unregister(c: WsConn)
      requires WellPlaced(Snap()) && c in conns
      modifies this, conns
      ensures conns == old(conns)
      ensures Snap() == Unregistered(old(Snap()), c)
    {
      var r, removed := TakeOut(c);
      if !removed {
        return;
      }
      LeavingMembersKnown(Snap(), c);
      AnnounceLeave(c, r);
      StoreLeft(c, r);
    }

    /** The presence broadcast to those who stay. */
    method AnnounceLeave(c: WsConn, r: Room)
      requires Members(r) <= conns && ByRole(r)
      modifies conns
      ensures Snap() == old(Snap()).(out := if c.role.Device? then Broadcast(old(Snap()).out, Members(r), Offline(c.id))
                                            else old(Snap()).out)
    {
      if c.role.Device? {
        BroadcastRoom(r, {}, Offline(c.id));
        assert Members(r) - {} == Members(r);
      }
    }

    method StoreLeft(c: WsConn, r: Room)
      modifies this`rooms, this`gauge
      ensures Snap() == old(Snap()).(rooms := if r == EmptyRoom then old(rooms) - {c.user} else old(rooms)[c.user := r],
                                     gauge := Bump(old(gauge), c.role, -1))
    {
      rooms := if r == EmptyRoom then rooms - {c.user} else rooms[c.user := r];
      gauge := Bump(gauge, c.role, -1);
      assert Snap().out == old(Snap()).out;
    }

    /** hello_ok, written before the writer starts. */
    method Greet(c: WsConn)
      requires c in conns
      modifies c
      ensures Snap() == Greeted(old(Snap()), c)
    {
      var table := OnlineTable(c.user);
      c.out := c.out.(hello := Some(table));
      assert Snap().out == Greeted(old(Snap()), c).out;
    }

    method RouteApp(from: WsConn, target: string, payload: string)
      requires WellPlaced(Snap()) && from in conns
      modifies conns
      ensures Snap() == Routed(old(Snap()), from, target, payload)
    {
      if from.role.Device? {
        if from.user !in rooms {
          return;
        }
        var r := rooms[from.user];
        if target != "" {
          if target !in r.devices || r.devices[target] == from {
            EnqueueOne(from, Undeliverable(target));
            return;
          }
          EnqueueOne(r.devices[target], AppDirected(from.id, target, payload));
          return;
        }
        EnqueueEach(r.clients.Values, AppFromDevice(from.id, payload));
        assert Snap().out == Broadcast(old(Snap()).out, r.clients.Values, AppFromDevice(from.id, payload));
      } else {
        if from.user !in rooms || target !in rooms[from.user].devices {
          EnqueueOne(from, Undeliverable(target));
          return;
        }
        EnqueueOne(rooms[from.user].devices[target], AppFromClient(from.id, payload));
      }
    }

    /** Everybody in any room, and the devices among them. */
    method Census() returns (devices: seq<WsConn>, members: set<WsConn>)
      requires WellPlaced(Snap())
      ensures ListsDevices(Snap(), devices)
      ensures members <= conns && forall k :: k in conns ==> (k in members <==> Stored(Snap(), k))
    {
      var ds := set u, id | u in rooms && id in rooms[u].devices :: rooms[u].devices[id];
      var cs := set u, id | u in rooms && id in rooms[u].clients :: rooms[u].clients[id];
      devices := ToSeq(ds);
      members := ds + cs;
    }

    method TellOffline(d: WsConn)
      requires WellPlaced(Snap()) && d in conns && d.role.Device? && Stored(Snap(), d)
      modifies conns
      ensures forall k :: k in conns ==>
                k.out == if Stored(old(Snap()), k) && d.user == k.user && d != k
                         then Enqueued(old(k.out), Offline(d.id)) else old(k.out)
    {
      var r := rooms[d.user];
      EnqueueEach(r.clients.Values + (r.devices.Values - {d}), Offline(d.id));
    }

    method TellAllOffline(devices: seq<WsConn>)
      requires WellPlaced(Snap()) && ListsDevices(Snap(), devices)
      modifies conns
      ensures forall k :: k in conns ==>
                k.out == if Stored(old(Snap()), k) then EnqueuedAll(old(k.out), OfflinesFor(k, devices)) else old(k.out)
    {
      var i := 0;
      while i < |devices|
        invariant i <= |devices|
        invariant forall k :: k in conns ==>
                    k.out == if Stored(old(Snap()), k) then EnqueuedAll(old(k.out), OfflinesFor(k, devices[..i]))
                             else old(k.out)
      {
        SameRooms(old(Snap()), Snap());
        assert devices[i] in devices;
        TellOffline(devices[i]);
        forall k | k in conns && Stored(old(Snap()), k)
          ensures k.out == EnqueuedAll(old(k.out), OfflinesFor(k, devices[..i + 1]))
        {
          OfflinesStep(old(k.out), k, devices, i);
        }
        i := i + 1;
      }
      assert devices[..|devices|] == devices;
    }

    /**
     Shutdown up to the wait: refuse new connections, tell every member that every
     other device of its room is offline, then close everybody.
     */
    method Shutdown() returns (devices: seq<WsConn>)
      requires WellPlaced(Snap())
      modifies this`shutdown, conns
      ensures shutdown && ListsDevices(old(Snap()), devices)
      ensures forall k :: k in conns ==>
                k.out == if Stored(old(Snap()), k) then ShutDown(old(k.out), OfflinesFor(k, devices)) else old(k.out)
    {
      shutdown := true;
      SameRooms(old(Snap()), Snap());
      var members;
      devices, members := Census();
      TellAllOffline(devices);
      EnqueueEach(members, Closed(ShuttingDown));
    }
  }

  lemma SameRooms(s: HubState, s': HubState)
    requires WellPlaced(s) && s'.rooms == s.rooms && s'.out.Keys == s.out.Keys
    ensures WellPlaced(s')
    ensures forall k :: k in s.out ==> (Stored(s', k) <==> Stored(s, k))
  {
  }

  ghost predicate ListsDevices(s: HubState, order: seq<WsConn>) {
    && (forall d :: d in order ==> d in s.out && d.role.Device? && Stored(s, d))
    && (forall d :: d in s.out && d.role.Device? && Stored(s, d) ==> d in order)
    && (forall i, j :: 0 <= i < j < |order| ==> order[i] != order[j])
  }

  function ShutDown(o: Outbound, offlines: seq<Frame>): Outbound {
    Enqueued(EnqueuedAll(o, offlines), Closed(ShuttingDown))
  }

  method ToSeq(devices: set<WsConn>) returns (order: seq<WsConn>)
    ensures forall d :: d in order <==> d in devices
    ensures forall i, j :: 0 <= i < j < |order| ==> order[i] != order[j]
  {
    order := [];
    var rest := devices;
    while rest != {}
      invariant rest <= devices
      invariant forall d :: d in order <==> d in devices - rest
      invariant forall i, j :: 0 <= i < j < |order| ==> order[i] != order[j]
    {
      var d :| d in rest;
      assert d !in order;
      order, rest := order + [d], rest - {d};
    }
  }

  lemma OfflinesStep(o: Outbound, k: WsConn, order: seq<WsConn>, i: nat)
    requires i < |order|
    ensures EnqueuedAll(o, OfflinesFor(k, order[..i + 1])) ==
            var sofar := EnqueuedAll(o, OfflinesFor(k, order[..i]));
            if order[i].user == k.user && order[i] != k then Enqueued(sofar, Offline(order[i].id)) else sofar
  {
    assert Init(order[..i + 1]) == order[..i];
    var fs := OfflinesFor(k, order[..i]);
    assert Init(fs + [Offline(order[i].id)]) == fs;
    assert fs + [] == fs;
  }

  // ------------------------------------------------------------------
  // What shutdown delivers
  // ------------------------------------------------------------------

  /** The offline frames queued for c name every other device of its room, each once. */
  lemma {:induction false} OfflinesAreTheOthers(s: HubState, order: seq<WsConn>, c: WsConn, id: string)
    requires WellPlaced(s) && forall d :: d in order ==> d in s.out && d.role.Device? && Stored(s, d)
    requires forall i, j :: 0 <= i < j < |order| ==> order[i] != order[j]
    ensures Occurrences(OfflinesFor(c, order), Offline(id))
            == if exists d :: d in order && d.user == c.user && d != c && d.id == id then 1 else 0
  {
    if order != [] {
      var last, before := Last(order), Init(order);
      OfflinesAreTheOthers(s, before, c, id);
      assert order == before + [last];
      if last.user == c.user && last != c {
        var fs := OfflinesFor(c, before);
        assert Init(fs + [Offline(last.id)]) == fs;
        if last.id == id {
          forall d | d in before && d.user == c.user && d != c ensures d.id != id {
            assert Stored(s, d) && Stored(s, last);
          }
          assert last in order;
        }
      } else {
        assert OfflinesFor(c, order) == OfflinesFor(c, before);
      }
      assert forall d :: d in order <==> d in before || d == last;
    }
  }

  function Occurrences(fs: seq<Frame>, f: Frame): nat {
    if fs == [] then 0 else Occurrences(Init(fs), f) + if Last(fs) == f then 1 else 0
  }

  lemma {:induction false} OfflinesAreNotClosed(c: WsConn, order: seq<WsConn>)
    ensures forall f :: f in OfflinesFor(c, order) ==> f.Offline?
  {
    if order != [] {
      OfflinesAreNotClosed(c, Init(order));
    }
  }

  lemma {:induction false} EnqueueAllFits(o: Outbound, fs: seq<Frame>)
    requires !o.closing && |o.send| + |fs| <= o.cap
    requires forall f :: f in fs ==> !f.Closed?
    ensures EnqueuedAll(o, fs) == o.(send := o.send + fs, queued := o.queued + fs)
  {
    if fs != [] {
      EnqueueAllFits(o, Init(fs));
      assert fs == Init(fs) + [Last(fs)];
      assert o.send + Init(fs) + [Last(fs)] == o.send + fs;
      assert o.queued + Init(fs) + [Last(fs)] == o.queued + fs;
    } else {
      assert o.send + [] == o.send && o.queued + [] == o.queued;
    }
  }

  /**
   A member keeps everything it already had queued, then gets every offline frame,
   then the closed frame, exactly when its buffer has room for all of them.
   */
  lemma ShutdownDeliversIffRoom(o: Outbound, offlines: seq<Frame>)
    requires Disciplined(o) && !o.closing
    requires forall f :: f in offlines ==> !f.Closed?
    ensures ShutDown(o, offlines).send == o.send + offlines + [Closed(ShuttingDown)]
            <==> |o.send| + |offlines| < o.cap
  {
    if |o.send| + |offlines| < o.cap {
      EnqueueAllFits(o, offlines);
    } else {
      EnqueueAllKeepsDiscipline(o, offlines);
      EnqueueKeepsDiscipline(EnqueuedAll(o, offlines), Closed(ShuttingDown));
      SameCapacity(o, offlines);
    }
  }

  lemma {:induction false} SameCapacity(o: Outbound, fs: seq<Frame>)
    ensures EnqueuedAll(o, fs).cap == o.cap
  {
    if fs != [] {
      SameCapacity(o, Init(fs));
    }
  }
}
