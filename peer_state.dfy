/** The state OtherPlayer keeps for one remote peer, and its three operations
    (makeCall, updateOtherPlayer, preUpdate) as functions from the old state and
    the call's inputs to the new state and the outbound effects it produces. */
module PeerState {
  import opened PlayerIds
  import Rooms

  datatype Option<T> = None | Some(value: T)

  /** Speed of the remote sprite, in units per second. */
  const Speed: real := 200.0
  /** Cooldown, in milliseconds, before a call may be opened or closed. */
  const CallBuffer: real := 750.0
  /** Gap between two frames, in milliseconds, after which the sprite snaps. */
  const StaleAfter: real := 750.0
  /** The area where calls are never closed: x < 610 and y > 515. */
  const LoungeMaxX: real := 610.0
  const LoungeMinY: real := 515.0

  /** The fields of an OtherPlayer. x, y: the rendered position;
      targetX, targetY: targetPosition[0], targetPosition[1];
      vx, vy: the velocity last given to the physics body;
      hasMyPlayer: makeCall has stored the local player. */
  datatype Peer = Peer(
    playerId: PlayerId,
    x: real, y: real,
    targetX: real, targetY: real,
    vx: real, vy: real,
    lastUpdateTimestamp: Option<real>,
    connectionBufferTime: real,
    connected: bool,
    hasMyPlayer: bool,
    readyToConnect: bool,
    videoConnected: bool)

  /** What makeCall reads of the local player. */
  datatype LocalPlayer = LocalPlayer(
    playerId: PlayerId, x: real, y: real, readyToConnect: bool, videoConnected: bool)

  /** Outbound effects: `webRTC.connectToNewUser(id)` and
      `phaserEvents.emit(Event.PLAYER_DISCONNECTED, id)`. */
  datatype Event = ConnectToNewUser(peer: PlayerId) | PlayerDisconnected(peer: PlayerId)

  /** The new state of a peer and the effects produced on the way. */
  datatype Step = Step(next: Peer, emitted: seq<Event>)

  /** A value of an inbound field update: `number | string | boolean`. */
  datatype Value = Num(n: real) | Str(s: string) | Bool(b: bool)

  /** The state right after the constructor: target equals the position,
      no timestamp, cooldown 0, no call, no local player stored, body at rest. */
  function Initial(id: PlayerId, x: real, y: real, ready: bool, video: bool): Peer
  {
    Peer(id, x, y, x, y, 0.0, 0.0, None, 0.0, false, false, ready, video)
  }

  /** The guard of makeCall, as written. */
  predicate CanInitiate(p: Peer, me: LocalPlayer)
  {
    && !p.connected
    && p.connectionBufferTime >= CallBuffer
    && me.readyToConnect
    && p.readyToConnect
    && me.videoConnected
    && Greater(me.playerId, p.playerId)
    && Rooms.Proximate(p.x, p.y, me.x, me.y)
  }

  /** makeCall: store the local player, then open a call when the guard holds.
      A call is opened exactly when there is none, the cooldown has passed, both
      sides are ready, the local camera is on, the local id is the greater and
      both players are in the same room. */
  function MakeCall(p: Peer, me: LocalPlayer): (r: Step)
    ensures r.emitted != [] <==>
      && !p.connected
      && p.connectionBufferTime >= CallBuffer
      && me.readyToConnect && p.readyToConnect && me.videoConnected
      && Greater(me.playerId, p.playerId)
      && Rooms.GetRoomId(p.x, p.y) == Rooms.GetRoomId(me.x, me.y)
    ensures r.emitted != [] ==>
      && r.emitted == [ConnectToNewUser(p.playerId)]
      && r.next == p.(connected := true, connectionBufferTime := 0.0, hasMyPlayer := true)
    ensures r.emitted == [] ==> r.next == p.(hasMyPlayer := true)
  {
    var q := p.(hasMyPlayer := true);
    if CanInitiate(p, me) then
      Step(q.(connected := true, connectionBufferTime := 0.0), [ConnectToNewUser(p.playerId)])
    else
      Step(q, [])
  }

  /** The field names and value types updateOtherPlayer writes a modelled field for. */
  predicate Writes(field: string, value: Value)
  {
    || ((field == "x" || field == "y") && value.Num?)
    || ((field == "readyToConnect" || field == "videoConnected") && value.Bool?)
  }

  /** updateOtherPlayer: a number for "x" or "y" sets that target coordinate only,
      a boolean for "readyToConnect" or "videoConnected" sets that flag only;
      anything else ("name", "anim", a wrong type, an unknown field) leaves the
      modelled state as it was. */
  function UpdateOtherPlayer(p: Peer, field: string, value: Value): (r: Peer)
    ensures field == "x" && value.Num? ==> r == p.(targetX := value.n)
    ensures field == "y" && value.Num? ==> r == p.(targetY := value.n)
    ensures field == "readyToConnect" && value.Bool? ==> r == p.(readyToConnect := value.b)
    ensures field == "videoConnected" && value.Bool? ==> r == p.(videoConnected := value.b)
    ensures !Writes(field, value) ==> r == p
  {
    match value
    case Num(n) =>
      if field == "x" then p.(targetX := n)
      else if field == "y" then p.(targetY := n)
      else p
    case Bool(b) =>
      if field == "readyToConnect" then p.(readyToConnect := b)
      else if field == "videoConnected" then p.(videoConnected := b)
      else p
    case Str(_) => p
  }

  function Abs(r: real): real
  {
    if r < 0.0 then -r else r
  }

  /** One axis of the reconciler: the new coordinate and velocity component. */
  datatype Axis = Axis(pos: real, velocity: real)

  /** One axis of a normal frame. Within delta of the target the coordinate snaps
      to it; otherwise it is left where it is. The velocity is zero exactly when
      the coordinate is on the target, is otherwise the full speed, and always
      points at the target. */
  function AxisStep(cur: real, target: real, delta: real): (a: Axis)
    ensures Abs(target - cur) < delta ==> a.pos == target
    ensures Abs(target - cur) >= delta ==> a.pos == cur
    ensures a.velocity == 0.0 <==> a.pos == target
    ensures a.velocity == Speed || a.velocity == -Speed || a.velocity == 0.0
    ensures a.velocity > 0.0 ==> a.pos < target
    ensures a.velocity < 0.0 ==> a.pos > target
  {
    var d := target - cur;
    if Abs(d) < delta then Axis(target, 0.0)
    else Axis(cur, if d > 0.0 then Speed else if d < 0.0 then -Speed else 0.0)
  }

  /** The staleness test: a timestamp is stored, it is not 0 (0 is falsy in
      JavaScript), and more than StaleAfter has passed since it. */
  predicate IsStale(p: Peer, t: real)
  {
    p.lastUpdateTimestamp.Some? && p.lastUpdateTimestamp.value != 0.0
    && t - p.lastUpdateTimestamp.value > StaleAfter
  }

  predicate InLounge(x: real, y: real)
  {
    x < LoungeMaxX && y > LoungeMinY
  }

  /** The terminate guard of preUpdate, read on the state after the axis steps
      and the cooldown increment; myX, myY are the stored local player's position. */
  predicate CanTerminate(q: Peer, embedded: bool, touchingNone: bool, myX: real, myY: real)
  {
    && q.connected && !embedded && touchingNone
    && q.connectionBufferTime >= CallBuffer
    && !(InLounge(q.x, q.y) && InLounge(myX, myY))
  }

  /** The normal path of a frame up to the terminate check: the timestamp moves
      to t, each axis moves as AxisStep says, the cooldown grows by dt, and
      nothing else changes. */
  function Reconcile(p: Peer, t: real, dt: real): (q: Peer)
    ensures Axis(q.x, q.vx) == AxisStep(p.x, p.targetX, Speed / 1000.0 * dt)
    ensures Axis(q.y, q.vy) == AxisStep(p.y, p.targetY, Speed / 1000.0 * dt)
    ensures q == p.(x := q.x, y := q.y, vx := q.vx, vy := q.vy, lastUpdateTimestamp := Some(t),
                    connectionBufferTime := p.connectionBufferTime + dt)
  {
    var delta := Speed / 1000.0 * dt;
    var ax := AxisStep(p.x, p.targetX, delta);
    var ay := AxisStep(p.y, p.targetY, delta);
    p.(lastUpdateTimestamp := Some(t), x := ax.pos, y := ay.pos,
       vx := ax.velocity, vy := ay.velocity,
       connectionBufferTime := p.connectionBufferTime + dt)
  }

  /** The terminate check at the end of a normal frame: the call is closed, with
      one PLAYER_DISCONNECTED for this peer and the cooldown reset, exactly when
      a call is active, the body is free, the cooldown has passed and the two
      players are not both in the lounge; otherwise nothing changes. */
  function Terminate(q: Peer, embedded: bool, touchingNone: bool, myX: real, myY: real): (r: Step)
    ensures r.emitted != [] <==>
      && q.connected && !embedded && touchingNone
      && q.connectionBufferTime >= CallBuffer
      && !(q.x < LoungeMaxX && q.y > LoungeMinY && myX < LoungeMaxX && myY > LoungeMinY)
    ensures r.emitted != [] ==>
      r == Step(q.(connectionBufferTime := 0.0, connected := false), [PlayerDisconnected(q.playerId)])
    ensures r.emitted == [] ==> r.next == q
  {
    if CanTerminate(q, embedded, touchingNone, myX, myY) then
      Step(q.(connectionBufferTime := 0.0, connected := false), [PlayerDisconnected(q.playerId)])
    else
      Step(q, [])
  }

  /** preUpdate at time t after a frame of dt milliseconds. embedded and
      touchingNone are the physics body's flags; myX, myY the position of the
      local player that makeCall stored. A stale frame snaps to the target and
      does nothing else; a normal frame reconciles and then runs the terminate
      check. */
  function PreUpdate(p: Peer, t: real, dt: real, embedded: bool, touchingNone: bool,
                     myX: real, myY: real): (r: Step)
    ensures r.next.lastUpdateTimestamp == Some(t)
    ensures r.next.playerId == p.playerId && r.next.hasMyPlayer == p.hasMyPlayer
    ensures r.next.targetX == p.targetX && r.next.targetY == p.targetY
    ensures r.next.readyToConnect == p.readyToConnect && r.next.videoConnected == p.videoConnected
    ensures IsStale(p, t) ==>
      r == Step(p.(x := p.targetX, y := p.targetY, lastUpdateTimestamp := Some(t)), [])
    ensures r.emitted != [] <==>
      !IsStale(p, t) && CanTerminate(Reconcile(p, t, dt), embedded, touchingNone, myX, myY)
    ensures r.emitted != [] ==>
      && !IsStale(p, t) && p.connected
      && r.emitted == [PlayerDisconnected(p.playerId)]
      && !r.next.connected && r.next.connectionBufferTime == 0.0
    ensures !IsStale(p, t) && r.emitted == [] ==>
      r.next.connected == p.connected
      && r.next.connectionBufferTime == p.connectionBufferTime + dt
  {
    if IsStale(p, t) then
      Step(p.(lastUpdateTimestamp := Some(t), x := p.targetX, y := p.targetY), [])
    else
      Terminate(Reconcile(p, t, dt), embedded, touchingNone, myX, myY)
  }

  /** A normal frame never moves a coordinate away from its target:
      the remaining distance on each axis does not grow. */
  lemma NoOvershoot(p: Peer, t: real, dt: real, embedded: bool, touchingNone: bool,
                    myX: real, myY: real)
    ensures var q := PreUpdate(p, t, dt, embedded, touchingNone, myX, myY).next;
      Abs(q.targetX - q.x) <= Abs(p.targetX - p.x) && Abs(q.targetY - q.y) <= Abs(p.targetY - p.y)
  {
  }

  /** A coordinate already on its target stays there with zero velocity. */
  lemma SnappedAxisIsAtRest(target: real, delta: real)
    ensures AxisStep(target, target, delta) == Axis(target, 0.0)
  {
  }

  /** From 100 towards 105, a 16 ms frame gives the full speed along x;
      the 3.2-unit move that follows is the engine's. */
  lemma SixteenMillisecondFrame()
    ensures AxisStep(100.0, 105.0, Speed / 1000.0 * 16.0) == Axis(100.0, Speed)
    ensures Speed / 1000.0 * 16.0 == 3.2
  {
  }
}
