/** The OtherPlayer object: the local client's record of one remote peer,
    updated in place by makeCall, updateOtherPlayer and preUpdate. Each method
    is proved to produce the new state, and to append to the outbound log the
    effects, that the functions of PeerState give; the protocol invariant of
    CallProtocol is the object invariant. */
module Characters {
  import opened PlayerIds
  import Rooms
  import opened PeerState
  import CallProtocol

  class OtherPlayer {
    const playerId: PlayerId
    /** The rendered position. */
    var x: real
    var y: real
    /** The last received position, a two-element tuple written in place. */
    const targetPosition: array<real>
    /** The velocity last given to the physics body. */
    var vx: real
    var vy: real
    var lastUpdateTimestamp: Option<real>
    var connectionBufferTime: real
    var connected: bool
    /** Whether makeCall has stored the local player (`this.myPlayer`). */
    var hasMyPlayer: bool
    var readyToConnect: bool
    var videoConnected: bool
    /** Calls to `connectToNewUser` and `PLAYER_DISCONNECTED` emissions, in order. */
    ghost var events: seq<Event>

    ghost predicate Valid()
      reads this, targetPosition
    {
      targetPosition.Length == 2 && CallProtocol.Inv(State(), events)
    }

    /** The modelled fields as a value. */
    function State(): Peer
      reads this, targetPosition
      requires targetPosition.Length == 2
    {
      Peer(playerId, x, y, targetPosition[0], targetPosition[1], vx, vy,
           lastUpdateTimestamp, connectionBufferTime, connected, hasMyPlayer,
           readyToConnect, videoConnected)
    }

    /** The readiness flags are the base class's; their initial values are
        given here. */
    constructor (id: PlayerId, x0: real, y0: real, ready: bool, video: bool)
      ensures Valid() && fresh(targetPosition)
      ensures State() == Initial(id, x0, y0, ready, video) && events == []
    {
      playerId := id;
      x, y := x0, y0;
      targetPosition := new real[2] [x0, y0];
      vx, vy := 0.0, 0.0;
      lastUpdateTimestamp := None;
      connectionBufferTime := 0.0;
      connected := false;
      hasMyPlayer := false;
      readyToConnect, videoConnected := ready, video;
      events := [];
      new;
      CallProtocol.InitialInv(id, x0, y0, ready, video);
    }

    /** Whether this player's rendered position and the local player's are in
        the same room: on the same side of the boundary on each axis. */
    function IsInSameRoom(me: LocalPlayer): (b: bool)
      reads this
      ensures b <==> (x < Rooms.Split <==> me.x < Rooms.Split) && (y < Rooms.Split <==> me.y < Rooms.Split)
    {
      Rooms.GetRoomId(x, y) == Rooms.GetRoomId(me.x, me.y)
    }

    /** Whether this player's rendered position is in the hallway: never. */
    function IsInHallway(): (b: bool)
      reads this
      ensures !b
    {
      Rooms.GetRoomId(x, y) == Rooms.Hallway
    }

    method MakeCall(me: LocalPlayer)
      requires Valid()
      modifies this
      ensures Valid()
      ensures var s := PeerState.MakeCall(old(State()), me);
        State() == s.next && events == old(events) + s.emitted
    {
      CallProtocol.StepPreservesInv(State(), events, CallProtocol.Call(me));
      hasMyPlayer := true;
      var myPlayerId := me.playerId;
      var isInSameRoom := IsInSameRoom(me);
      var isInHallway := IsInHallway();
      var myPlayerIsInHallway := Rooms.GetRoomId(me.x, me.y) == Rooms.Hallway;
      if
        && !connected
        && connectionBufferTime >= CallBuffer
        && me.readyToConnect
        && readyToConnect
        && me.videoConnected
        && Greater(myPlayerId, playerId)
        && ((isInSameRoom && !isInHallway && !myPlayerIsInHallway) || (isInHallway && myPlayerIsInHallway))
      {
        events := events + [ConnectToNewUser(playerId)];
        connected := true;
        connectionBufferTime := 0.0;
      }
    }

    method UpdateOtherPlayer(field: string, value: Value)
      requires Valid()
      modifies this, targetPosition
      ensures Valid()
      ensures State() == PeerState.UpdateOtherPlayer(old(State()), field, value)
      ensures events == old(events)
    {
      CallProtocol.StepPreservesInv(State(), events, CallProtocol.Receive(field, value));
      if field == "x" {
        if value.Num? {
          targetPosition[0] := value.n;
        }
      } else if field == "y" {
        if value.Num? {
          targetPosition[1] := value.n;
        }
      } else if field == "readyToConnect" {
        if value.Bool? {
          readyToConnect := value.b;
        }
      } else if field == "videoConnected" {
        if value.Bool? {
          videoConnected := value.b;
        }
      }
    }

    /** One frame at time t, dt milliseconds after the previous one. embedded and
        touchingNone are the physics body's flags; myX, myY the current position
        of the local player that makeCall stored. */
    method PreUpdate(t: real, dt: real, embedded: bool, touchingNone: bool, myX: real, myY: real)
      requires Valid()
      modifies this
      ensures Valid()
      ensures var s := PeerState.PreUpdate(old(State()), t, dt, embedded, touchingNone, myX, myY);
        State() == s.next && events == old(events) + s.emitted
    {
      CallProtocol.StepPreservesInv(State(), events,
        CallProtocol.Frame(t, dt, embedded, touchingNone, myX, myY));
      if lastUpdateTimestamp.Some? && lastUpdateTimestamp.value != 0.0
        && t - lastUpdateTimestamp.value > StaleAfter
      {
        lastUpdateTimestamp := Some(t);
        x := targetPosition[0];
        y := targetPosition[1];
        return;
      }

      MoveTowardsTarget(t, dt);

      if connected && !embedded && touchingNone && connectionBufferTime >= CallBuffer {
        // the stored local player is read only here, and one is stored
        assert hasMyPlayer;
        if x < LoungeMaxX && y > LoungeMinY && myX < LoungeMaxX && myY > LoungeMinY {
          return;
        }
        events := events + [PlayerDisconnected(playerId)];
        connectionBufferTime := 0.0;
        connected := false;
      }
    }

    /** The normal path of a frame up to the terminate check: snap each axis that
        is within this frame's reach of the target, set the velocity towards the
        target, and add dt to the cooldown. */
    method MoveTowardsTarget(t: real, dt: real)
      requires targetPosition.Length == 2
      modifies this
      ensures State() == Reconcile(old(State()), t, dt)
      ensures events == old(events)
    {
      lastUpdateTimestamp := Some(t);
      var speed := Speed;
      var delta := (speed / 1000.0) * dt;
      var dx := targetPosition[0] - x;
      var dy := targetPosition[1] - y;
      if Abs(dx) < delta {
        x := targetPosition[0];
        dx := 0.0;
      }
      if Abs(dy) < delta {
        y := targetPosition[1];
        dy := 0.0;
      }

      var newVx, newVy := 0.0, 0.0;
      if dx > 0.0 {
        newVx := newVx + speed;
      } else if dx < 0.0 {
        newVx := newVx - speed;
      }
      if dy > 0.0 {
        newVy := newVy + speed;
      } else if dy < 0.0 {
        newVy := newVy - speed;
      }
      vx, vy := newVx, newVy;

      connectionBufferTime := connectionBufferTime + dt;
    }
  }
}
