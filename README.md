# OtherPlayer: remote-peer state and call negotiation

SkyOffice is a shared 2D office. Each client keeps one `OtherPlayer` object for
every remote participant. That object does three things:

- it moves the remote sprite smoothly towards the last position received over
  the network (dead reckoning, with a snap when frames stop for too long);
- it applies inbound field updates (`x`, `y`, `readyToConnect`,
  `videoConnected`, ...);
- whenever `makeCall` is invoked, it decides whether this client should open
  a WebRTC call to the peer (`connectToNewUser`), and on every frame whether to
  announce that the call is over (`PLAYER_DISCONNECTED`).

The model follows the class `OtherPlayer` in
`client/src/characters/OtherPlayer.ts`, without its rendering.

Files and modules:

- `player_ids.dfy`, module `PlayerIds`: player ids as JavaScript strings
  (sequences of UTF-16 code units) and the order `>` puts on them. The order is
  proved irreflexive, asymmetric, total and transitive. From this, the
  tie-break `myPlayerId > this.playerId` passes on exactly one of two clients
  with distinct ids, and on neither when the ids are equal.
- `rooms.dfy`, module `Rooms`: `getRoomId` and the proximity clause of
  `makeCall`. The four quadrant tests cover the whole plane, so `'hallway'` is
  never returned and the proximity clause reduces to "same room".
- `peer_state.dfy`, module `PeerState`: the fields of an `OtherPlayer` as a
  value `Peer`. `makeCall`, `updateOtherPlayer` and `preUpdate` are functions
  from the old value to the new value plus the outbound effects. The
  reconciliation part of `preUpdate` is the function `AxisStep`, one per axis;
  the terminate check is the function `Terminate`.
- `call_protocol.dfy`, module `CallProtocol`: runs of arbitrary inputs
  (`makeCall`, field updates, frames, and the physics engine moving the
  sprite). Over any run from construction:
  - the emitted events alternate initiate / disconnect;
  - `connected` holds exactly after an odd number of events;
  - a call is only active once a local player has been stored, so the
    `myPlayer!` dereference in `preUpdate` is safe;
  - every transition resets the cooldown;
  - no transition happens while the cooldown plus the elapsed frame time is
    under 750 ms;
  - of two mirrored clients, at most one opens the call.
- `other_player.dfy`, module `Characters`: the class `OtherPlayer`. It has the
  source's fields, and `targetPosition` is a two-element array written in
  place. Its methods change the fields step by step, as the source does. Each
  method is proved to produce exactly the new state and the log entries that
  the `PeerState` functions give. The object invariant `Valid()` is the
  protocol invariant of `CallProtocol`. The outbound calls are recorded in a
  ghost log, `events`.

Inputs made explicit:

- `makeCall` receives what it reads of the local player (id, position, the two
  flags) as a `LocalPlayer` value.
- `preUpdate` receives the frame time `t`, the frame length `dt`, the physics
  flags `body.embedded` and `body.touching.none`, and the current position of
  the local player stored by `makeCall`.

Coordinates and times are `real`.

Points where the code behaves differently from what its names suggest; the
model follows the code:

- The tie-break lets the client whose own id is the greater open the call
  (line 47).
- Staleness compares `t` with the time of the previous *frame*: line 136 stores
  `t` on every normal frame. The time of the last network update plays no part.
  The snap therefore only fires after a gap of more than 750 ms between two
  frames. A stored timestamp of 0 counts as absent, because 0 is falsy in
  JavaScript.
- A stale frame does not add `dt` to the cooldown, and it skips the terminate
  check.
- The terminate check reads the physics flags of the *remote* sprite's body
  (`this.body`). It has no proximity condition: outside the lounge rectangle
  (x < 610, y > 515), an active call is closed as soon as the cooldown has
  passed and that body is free.
- `destroy` does not release an active call.

## Model

| member | source | states |
|---|---|---|
| `PlayerIds.LessIrreflexive` | client/src/characters/OtherPlayer.ts:47 | no id is less than itself under JavaScript string comparison |
| `PlayerIds.LessAsymmetric` | client/src/characters/OtherPlayer.ts:47 | two ids are never each less than the other |
| `PlayerIds.LessTotal` | client/src/characters/OtherPlayer.ts:47 | two ids are equal or one is less than the other |
| `PlayerIds.LessTransitive` | client/src/characters/OtherPlayer.ts:47 | string comparison is transitive |
| `PlayerIds.TieBreak` | client/src/characters/OtherPlayer.ts:47 | with equal ids neither side's `myPlayerId > this.playerId` holds; with distinct ids exactly one side's does |
| `Rooms.GetRoomId` | client/src/characters/OtherPlayer.ts:68-75 | never `Hallway`; the room is Room1/Room3 exactly when x < 400 and Room1/Room2 exactly when y < 400 (half-open split of both axes) |
| `Rooms.RoomBoundaries` | client/src/characters/OtherPlayer.ts:70-73 | (399,399)→room1, (400,399)→room2, (399,400)→room3, (400,400)→room4 |
| `Rooms.Proximate` | client/src/characters/OtherPlayer.ts:48 | the proximity clause holds exactly when both positions are in the same room, i.e. on the same side of 400 on each axis |
| `Characters.OtherPlayer.IsInSameRoom` | client/src/characters/OtherPlayer.ts:56-61 | on the rendered x, y: same room exactly when on the same side of 400 on each axis as the local player |
| `Characters.OtherPlayer.IsInHallway` | client/src/characters/OtherPlayer.ts:63-66 | always false |
| `PeerState.MakeCall` | client/src/characters/OtherPlayer.ts:33-54 | the local player is always stored; a call is opened exactly when not connected, cooldown ≥ 750, both ready, local video on, local id greater, same room; then exactly one `ConnectToNewUser(playerId)`, `connected` true, cooldown 0; otherwise nothing emitted and nothing else changes |
| `PeerState.UpdateOtherPlayer` | client/src/characters/OtherPlayer.ts:77-115 | a number for `x`/`y` sets only that target coordinate, a boolean for `readyToConnect`/`videoConnected` sets only that flag; a wrong-typed value, `name`, `anim` or an unknown field leaves the state unchanged |
| `PeerState.AxisStep` | client/src/characters/OtherPlayer.ts:148-169 | within delta of the target the coordinate snaps to it, otherwise it stays; the velocity is 0 exactly when on target, otherwise ±200, and always points at the target |
| `PeerState.Reconcile` | client/src/characters/OtherPlayer.ts:136-176 | timestamp set to t, each axis as `AxisStep` with delta = 200·dt/1000, cooldown increased by dt, every other field unchanged |
| `PeerState.Terminate` | client/src/characters/OtherPlayer.ts:177-187 | closes the call exactly when connected, not embedded, touching none, cooldown ≥ 750 and not both players in x < 610 ∧ y > 515; then exactly one `PlayerDisconnected(playerId)`, cooldown 0, `connected` false; otherwise the state is unchanged |
| `PeerState.PreUpdate` | client/src/characters/OtherPlayer.ts:124-188 | a stale frame (timestamp set, nonzero, more than 750 ms old) only snaps x, y to the target and records t, with nothing emitted; a frame closes the call exactly when it is not stale and the terminate guard holds on the reconciled state; a normal frame that emits nothing keeps `connected` and adds dt to the cooldown; an emitting frame is a normal frame of a connected peer that closes the call; targets, flags and the stored player never change |
| `PeerState.NoOvershoot` | client/src/characters/OtherPlayer.ts:148-162 | a frame never increases the remaining distance to the target on either axis |
| `PeerState.SnappedAxisIsAtRest` | client/src/characters/OtherPlayer.ts:153-169 | a coordinate on its target stays there with zero velocity |
| `PeerState.SixteenMillisecondFrame` | client/src/characters/OtherPlayer.ts:148-169 | from x = 100 towards 105, a 16 ms frame has delta 3.2, leaves x in place and gives vx = +200 |
| `CallProtocol.InitialInv` | client/src/characters/OtherPlayer.ts:12-13 | a freshly constructed peer satisfies the protocol invariant with an empty event log |
| `CallProtocol.StepPreservesInv` | client/src/characters/OtherPlayer.ts:33-188 | every operation keeps the log alternating, `connected` equal to "odd number of events", and `connected ⇒` a local player is stored |
| `CallProtocol.RunPreservesInv` | client/src/characters/OtherPlayer.ts:33-188 | the same for any run of operations |
| `CallProtocol.ProtocolFromConstruction` | client/src/characters/OtherPlayer.ts:33-188 | from construction, whatever the inputs, the events alternate initiate/disconnect, `connected` tells whether the last event was an initiate, and whenever connected a local player has been stored (the `myPlayer!` at line 183 is safe) |
| `CallProtocol.NoDoubleInitiate` | client/src/characters/OtherPlayer.ts:41-53 | once connected, `makeCall` emits nothing and stays connected |
| `CallProtocol.TransitionResetsBuffer` | client/src/characters/OtherPlayer.ts:50-186 | an operation that emits emits one event, flips `connected` and resets the cooldown to 0; one that emits nothing keeps `connected` |
| `CallProtocol.CooldownGating` | client/src/characters/OtherPlayer.ts:41-187 | with non-negative frame lengths, a run whose frames add less than 750 ms minus the current cooldown emits nothing and keeps `connected` |
| `CallProtocol.BufferStaysNonNegative` | client/src/characters/OtherPlayer.ts:176 | with non-negative frame lengths the cooldown never becomes negative |
| `CallProtocol.MirroredCallsExclusive` | client/src/characters/OtherPlayer.ts:47 | of two clients each evaluating `makeCall` for the other, at most one opens a call |
| `CallProtocol.MirroredCallsTieBreak` | client/src/characters/OtherPlayer.ts:41-48 | when both sides meet every other condition, exactly one of two distinct players opens the call, and neither does when the ids are equal |
| `Characters.OtherPlayer.constructor` | client/src/characters/OtherPlayer.ts:17-31 | target equals the initial position, no timestamp, cooldown 0, not connected, no local player stored, empty log; invariant established |
| `Characters.OtherPlayer.MakeCall` | client/src/characters/OtherPlayer.ts:33-54 | the new fields and log entries are those of `PeerState.MakeCall`; invariant kept |
| `Characters.OtherPlayer.UpdateOtherPlayer` | client/src/characters/OtherPlayer.ts:77-115 | `targetPosition[0]`/`[1]` or a flag is written in place as `PeerState.UpdateOtherPlayer` says; log unchanged; invariant kept |
| `Characters.OtherPlayer.PreUpdate` | client/src/characters/OtherPlayer.ts:124-188 | the new fields and log entries are those of `PeerState.PreUpdate`, with the early returns of the stale and lounge cases; the stored local player is read only when one is stored; invariant kept |
| `Characters.OtherPlayer.MoveTowardsTarget` | client/src/characters/OtherPlayer.ts:136-176 | the normal-frame field updates before the terminate check leave exactly the state `PeerState.Reconcile` gives |

## Left out

- Rendering is not modelled: the name text, animation playback, the name container's position, the depth and the sitting-depth shift (lines 29, 81, 99, 131-132, 137-146). So `name` and `anim` updates change no modelled field.
- `super.preUpdate` (line 125) belongs to `Player.ts`, which is not part of this model. The initial `readyToConnect` and `videoConnected`, also set in `Player.ts`, are constructor parameters here.
- `MyPlayer.ts` is not part of this model. `myPlayer.isInHallway()` is taken to be the same `getRoomId` test, applied to the local player's position.
- Physics integration is not modelled: the engine moving the sprite by its velocity, and `velocity.setLength(200)` (lines 171-174). `vx`, `vy` are the components passed to `setVelocity`; they are not normalised, because normalising needs a square root over floating point inside the engine. So the engine's motion towards the target is not proved; for instance, that a 16 ms frame from (100, 100) towards (105, 100) ends at (103.2, 100). In the runs of `CallProtocol`, an engine move is an input that sets x and y to arbitrary values.
- `WebRTC.connectToNewUser` and `phaserEvents.emit` are external. Each call becomes one entry in the ghost log `events`.
- `destroy` (lines 117-121) only tears down display objects, so it is not modelled.
- The factory registration and collision-box sizing (lines 191-234) are engine plumbing and are not modelled.
- Floating-point behaviour is not modelled: numbers are reals, so NaN and rounding are absent. Under NaN, the `'hallway'` fallback of `getRoomId` would become reachable.
- `Characters.OtherPlayer.PreUpdate` calls `MoveTowardsTarget` for the normal-frame updates (lines 136-176) rather than inlining them. Their order is unchanged.
