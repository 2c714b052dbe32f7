/**
 The relay hub (internal/relay/hub.go): one in-memory room per user, devices and
 clients registered by id, presence broadcast, targeted routing.

 `HubState` is a snapshot of the hub together with the outbound state of every
 connection it has ever been handed. The functions below are the critical
 sections of the source; `Event` lists them, and a run is any sequence of them.
 */
module RelayHub {
  import opened Base
  import opened RelayConn
  import opened Ordering

  datatype Room = Room(devices: map<string, WsConn>, clients: map<string, WsConn>)

  datatype Limits = Limits(maxDevices: int, maxClients: int)

  datatype HubState = HubState(
    limits: Limits,
    rooms: Rooms,
    shutdown: bool,
    out: map<WsConn, Outbound>,
    gauge: map<Role, int>)

  const EmptyRoom := Room(map[], map[])

  ghost function Members(r: Room): set<WsConn> {
    r.devices.Values + r.clients.Values
  }

  type Rooms = map<string, Room>

  function RoomIn(rooms: Rooms, user: string): Room {
    if user in rooms then rooms[user] else EmptyRoom
  }

  function RoomOf(s: HubState, user: string): Room {
    RoomIn(s.rooms, user)
  }

  /** The connection a room holds under c's role and id, if any. */
  function Holder(rooms: Rooms, c: WsConn): Option<WsConn> {
    var r := RoomIn(rooms, c.user);
    if c.role.Device? then (if c.id in r.devices then Some(r.devices[c.id]) else None)
    else if c.id in r.clients then Some(r.clients[c.id]) else None
  }

  /** c is the connection its room holds under its own role and id. */
  predicate Stored(s: HubState, c: WsConn) {
    Holder(s.rooms, c) == Some(c)
  }

  // ------------------------------------------------------------------
  // Critical sections
  // ------------------------------------------------------------------

  ghost function Broadcast(out: map<WsConn, Outbound>, targets: set<WsConn>, f: Frame): map<WsConn, Outbound> {
    map c | c in out :: if c in targets then Enqueued(out[c], f) else out[c]
  }

  predicate OverLimit(s: HubState, c: WsConn) {
    var r := RoomOf(s, c.user);
    if c.role.Device? then c.id !in r.devices && |r.devices| >= s.limits.maxDevices
    else c.id !in r.clients && |r.clients| >= s.limits.maxClients
  }

  function KickedBy(s: HubState, c: WsConn): Option<WsConn> {
    if s.shutdown || OverLimit(s, c) then None else Holder(s.rooms, c)
  }

  function Joined(r: Room, c: WsConn): Room {
    if c.role.Device? then r.(devices := r.devices[c.id := c]) else r.(clients := r.clients[c.id := c])
  }

  function Without(r: Room, c: WsConn): Room {
    if c.role.Device? then r.(devices := r.devices - {c.id}) else r.(clients := r.clients - {c.id})
  }

  function OnlineFrame(info: DeviceInfo): Frame {
    Online(info.deviceId, MetaOf(info))
  }

  /** The metadata of the named devices, in the given order. */
  function Infos(r: Room, ids: seq<string>): seq<DeviceInfo>
    requires forall id :: id in ids ==> id in r.devices
  {
    if ids == [] then [] else Infos(r, Init(ids)) + [r.devices[Last(ids)].meta]
  }

  function OnlineFrames(infos: seq<DeviceInfo>): seq<Frame> {
    if infos == [] then [] else OnlineFrames(Init(infos)) + [OnlineFrame(Last(infos))]
  }

  /** Every online device, by ascending device id: the table in hello_ok. */
  ghost function OnlineDevices(r: Room): seq<DeviceInfo> {
    Infos(r, Sorted(r.devices.Keys))
  }

  /** The join snapshot: every other online device, by ascending device id. */
  ghost function JoinSnapshot(r: Room, c: WsConn): seq<DeviceInfo> {
    Infos(r, Sorted(r.devices.Keys - {c.id}))
  }

  ghost function JoinOut(out: map<WsConn, Outbound>, r: Room, c: WsConn): map<WsConn, Outbound>
    requires c in out
  {
    if c.role.Device? then
      var told := Broadcast(out, Members(r) - {c}, OnlineFrame(c.meta));
      told[c := EnqueuedAll(told[c], OnlineFrames(JoinSnapshot(r, c)))]
    else out
  }

  /** The locked section of Register, for a connection the hub has not seen before. */
  ghost function Registered(s: HubState, c: WsConn): HubState {
    var out := s.out[c := Fresh(c.cap)];
    if s.shutdown then s.(out := out)
    else if OverLimit(s, c) then s.(out := out, rooms := s.rooms[c.user := RoomOf(s, c.user)])
    else
      var r := Joined(RoomOf(s, c.user), c);
      s.(rooms := s.rooms[c.user := r],
         out := JoinOut(out, r, c),
         gauge := Bump(s.gauge, c.role, if KickedBy(s, c).Some? then 0 else 1))
  }

  function Bump(gauge: map<Role, int>, role: Role, delta: int): map<Role, int> {
    gauge[role := (if role in gauge then gauge[role] else 0) + delta]
  }

  ghost function Unregistered(s: HubState, c: WsConn): HubState {
    if !Stored(s, c) then s
    else
      var r := Without(s.rooms[c.user], c);
      s.(rooms := if r == EmptyRoom then s.rooms - {c.user} else s.rooms[c.user := r],
         out := if c.role.Device? then Broadcast(s.out, Members(r), Offline(c.id)) else s.out,
         gauge := Bump(s.gauge, c.role, -1))
  }

  /** hello_ok: the device table is read after Register, in a critical section of its own. */
  ghost function Greeted(s: HubState, c: WsConn): HubState
    requires c in s.out
  {
    s.(out := s.out[c := s.out[c].(hello := Some(OnlineDevices(RoomOf(s, c.user))))])
  }

  ghost function Tell(s: HubState, c: WsConn, f: Frame): HubState {
    s.(out := Broadcast(s.out, {c}, f))
  }

  /** RouteApp: device to all clients, device to device, or client to device. */
  ghost function Routed(s: HubState, from: WsConn, target: string, payload: string): HubState {
    var r := RoomOf(s, from.user);
    if from.role.Device? then
      if from.user !in s.rooms then s
      else if target == "" then s.(out := Broadcast(s.out, r.clients.Values, AppFromDevice(from.id, payload)))
      else if target !in r.devices || r.devices[target] == from then Tell(s, from, Undeliverable(target))
      else Tell(s, r.devices[target], AppDirected(from.id, target, payload))
    else if target !in r.devices then Tell(s, from, Undeliverable(target))
    else Tell(s, r.devices[target], AppFromClient(from.id, payload))
  }

  // ------------------------------------------------------------------
  // Runs
  // ------------------------------------------------------------------

  datatype Event =
    | Register(c: WsConn)
    | Unregister(c: WsConn)
    | Hello(c: WsConn)
    | Route(c: WsConn, target: string, payload: string)
    | ConnAct(c: WsConn, action: Action)
    | StopAccepting

  /** What run() sets up before it calls Register. */
  predicate Identified(c: WsConn) {
    c.role.Device? ==> c.meta.deviceId == c.id
  }

  /** Every connection registers once; only the hub sends presence frames. */
  predicate Enabled(s: HubState, e: Event) {
    match e
    case Register(c) => c !in s.out && Identified(c)
    case Unregister(c) => c in s.out
    case Hello(c) => c in s.out && s.out[c].hello.None?
    case Route(c, _, _) => c in s.out
    case ConnAct(c, a) => c in s.out && (a.OfferFrame? ==> !IsPresence(a.frame))
    case StopAccepting => true
  }

  ghost function Next(s: HubState, e: Event): HubState {
    if !Enabled(s, e) then s else
    match e
    case Register(c) => Registered(s, c)
    case Unregister(c) => Unregistered(s, c)
    case Hello(c) => Greeted(s, c)
    case Route(c, target, payload) => Routed(s, c, target, payload)
    case ConnAct(c, a) => s.(out := s.out[c := Act(s.out[c], a)])
    case StopAccepting => s.(shutdown := true)
  }

  ghost function Exec(s: HubState, events: seq<Event>): HubState {
    if events == [] then s else Next(Exec(s, Init(events)), Last(events))
  }

  function InitialState(limits: Limits): HubState {
    HubState(limits, map[], false, map[], map[Device := 0, Client := 0])
  }

  // ------------------------------------------------------------------
  // What a peer knows
  // ------------------------------------------------------------------

  /** Device id to what presence tells about it. */
  type View = map<string, Meta>

  function Apply(v: View, f: Frame): View {
    match f
    case Online(id, m) => v[id := m]
    case Offline(id) => v - {id}
    case _ => v
  }

  function Replay(v: View, fs: seq<Frame>): View {
    if fs == [] then v else Apply(Replay(v, Init(fs)), Last(fs))
  }

  /** How a peer reads the table in hello_ok. */
  function ReadTable(infos: seq<DeviceInfo>): View {
    if infos == [] then map[] else ReadTable(Init(infos))[Last(infos).deviceId := MetaOf(Last(infos))]
  }

  /** The truth: who is in the room. */
  ghost function Truth(r: Room): View {
    map id | id in r.devices :: MetaOf(r.devices[id].meta)
  }

  /** Replaying the frames queued for a member on the table it was greeted with gives the truth. */
  ghost predicate Converged(o: Outbound, truth: View) {
    && Replay(truth, o.queued) == truth
    && (o.hello.Some? ==> Replay(ReadTable(o.hello.value), o.queued) == truth)
  }

  // ------------------------------------------------------------------
  // Invariant
  // ------------------------------------------------------------------

  /** Every connection of the room is held under its own user, role and id. */
  ghost predicate RoomPlaced(u: string, r: Room, known: set<WsConn>) {
    && (forall id :: id in r.devices ==>
          var c := r.devices[id];
          c in known && c.user == u && c.role.Device? && c.id == id && Identified(c))
    && (forall id :: id in r.clients ==>
          var c := r.clients[id];
          c in known && c.user == u && c.role.Client? && c.id == id)
  }

  ghost predicate RoomWithin(r: Room, limits: Limits) {
    |r.devices| <= limits.maxDevices && |r.clients| <= limits.maxClients && r != EmptyRoom
  }

  ghost predicate WellPlaced(s: HubState) {
    forall u :: u in s.rooms ==> RoomPlaced(u, s.rooms[u], s.out.Keys)
  }

  ghost predicate WithinLimits(s: HubState) {
    forall u :: u in s.rooms ==> RoomWithin(s.rooms[u], s.limits)
  }

  ghost function StoredWith(s: HubState, role: Role): set<WsConn> {
    set c | c in s.out && c.role == role && Stored(s, c)
  }

  ghost predicate GaugesAgree(s: HubState) {
    forall role :: role in s.gauge && s.gauge[role] == |StoredWith(s, role)|
  }

  ghost predicate PresenceConverged(s: HubState) {
    forall c :: c in s.out && Stored(s, c) && !s.out[c].closing ==>
      Converged(s.out[c], Truth(RoomOf(s, c.user)))
  }

  ghost predicate AllDisciplined(s: HubState) {
    forall c :: c in s.out ==> Disciplined(s.out[c])
  }

  ghost predicate Inv(s: HubState) {
    && WellPlaced(s)
    && WithinLimits(s)
    && GaugesAgree(s)
    && PresenceConverged(s)
    && AllDisciplined(s)
  }
}
