/** The call protocol over whole runs of one OtherPlayer: calls strictly
    alternate, a call is only closed after a local player was stored, the
    cooldown gates every transition, and of two mirrored clients at most one
    opens the call. */
module CallProtocol {
  import opened PlayerIds
  import opened PeerState

  /** What can happen to an OtherPlayer between two observations: makeCall,
      an inbound field update, a frame, or the physics engine moving the sprite. */
  datatype Input =
    | Call(me: LocalPlayer)
    | Receive(field: string, value: Value)
    | Frame(t: real, dt: real, embedded: bool, touchingNone: bool, myX: real, myY: real)
    | Move(x: real, y: real)

  function Apply(p: Peer, i: Input): Step
  {
    match i
    case Call(me) => MakeCall(p, me)
    case Receive(field, value) => Step(UpdateOtherPlayer(p, field, value), [])
    case Frame(t, dt, embedded, touchingNone, myX, myY) =>
      PreUpdate(p, t, dt, embedded, touchingNone, myX, myY)
    case Move(x, y) => Step(p.(x := x, y := y), [])
  }

  /** The state after a run of inputs, and everything emitted on the way, in order. */
  function Run(p: Peer, inputs: seq<Input>): Step
    decreases |inputs|
  {
    if inputs == [] then Step(p, [])
    else
      var s := Apply(p, inputs[0]);
      var rest := Run(s.next, inputs[1..]);
      Step(rest.next, s.emitted + rest.emitted)
  }

  /** The log starts with an initiate and then alternates disconnect/initiate,
      every entry for this peer. */
  ghost predicate Alternating(log: seq<Event>, id: PlayerId)
  {
    forall k :: 0 <= k < |log| ==>
      log[k] == (if k % 2 == 0 then ConnectToNewUser(id) else PlayerDisconnected(id))
  }

  /** The protocol invariant: the log alternates, a call is active exactly after
      an odd number of events, and an active call implies a stored local player. */
  ghost predicate Inv(p: Peer, log: seq<Event>)
  {
    && Alternating(log, p.playerId)
    && (p.connected <==> |log| % 2 == 1)
    && (p.connected ==> p.hasMyPlayer)
  }

  lemma InitialInv(id: PlayerId, x: real, y: real, ready: bool, video: bool)
    ensures Inv(Initial(id, x, y, ready, video), [])
  {
  }

  lemma StepPreservesInv(p: Peer, log: seq<Event>, i: Input)
    requires Inv(p, log)
    ensures Apply(p, i).next.playerId == p.playerId
    ensures Inv(Apply(p, i).next, log + Apply(p, i).emitted)
  {
  }

  lemma {:induction false} RunPreservesInv(p: Peer, log: seq<Event>, inputs: seq<Input>)
    requires Inv(p, log)
    ensures Run(p, inputs).next.playerId == p.playerId
    ensures Inv(Run(p, inputs).next, log + Run(p, inputs).emitted)
    decreases |inputs|
  {
    if inputs != [] {
      var s := Apply(p, inputs[0]);
      StepPreservesInv(p, log, inputs[0]);
      RunPreservesInv(s.next, log + s.emitted, inputs[1..]);
      var rest := Run(s.next, inputs[1..]);
      assert log + s.emitted + rest.emitted == log + (s.emitted + rest.emitted);
    }
  }

  /** From construction on, whatever the inputs: the events alternate
      initiate/disconnect, `connected` tells whether the last one was an
      initiate, and whenever a frame reads the stored local player (only when
      connected) one has been stored. */
  lemma ProtocolFromConstruction(id: PlayerId, x: real, y: real, ready: bool, video: bool,
                                 inputs: seq<Input>)
    ensures var r := Run(Initial(id, x, y, ready, video), inputs);
      && Alternating(r.emitted, id)
      && (r.next.connected <==> |r.emitted| % 2 == 1)
      && (r.next.connected ==> r.next.hasMyPlayer)
  {
    InitialInv(id, x, y, ready, video);
    RunPreservesInv(Initial(id, x, y, ready, video), [], inputs);
    var r := Run(Initial(id, x, y, ready, video), inputs);
    assert [] + r.emitted == r.emitted;
  }

  /** Once connected, makeCall emits nothing and leaves the call as it is. */
  lemma NoDoubleInitiate(p: Peer, me: LocalPlayer)
    requires p.connected
    ensures MakeCall(p, me).emitted == [] && MakeCall(p, me).next.connected
  {
  }

  /** Every transition resets the cooldown to 0; every other step of a
      connected or disconnected peer keeps the call state. */
  lemma TransitionResetsBuffer(p: Peer, i: Input)
    ensures Apply(p, i).emitted != [] ==>
      |Apply(p, i).emitted| == 1 && Apply(p, i).next.connectionBufferTime == 0.0
      && Apply(p, i).next.connected == !p.connected
    ensures Apply(p, i).emitted == [] ==> Apply(p, i).next.connected == p.connected
  {
  }

  /** The milliseconds the frames of a run add up to. */
  function TotalDt(inputs: seq<Input>): real
    decreases |inputs|
  {
    if inputs == [] then 0.0
    else (if inputs[0].Frame? then inputs[0].dt else 0.0) + TotalDt(inputs[1..])
  }

  ghost predicate NonNegativeDt(inputs: seq<Input>)
  {
    forall k :: 0 <= k < |inputs| && inputs[k].Frame? ==> inputs[k].dt >= 0.0
  }

  lemma {:induction false} TotalDtNonNegative(inputs: seq<Input>)
    requires NonNegativeDt(inputs)
    ensures TotalDt(inputs) >= 0.0
    decreases |inputs|
  {
    if inputs != [] {
      assert NonNegativeDt(inputs[1..]) by {
        forall k | 0 <= k < |inputs[1..]| && inputs[1..][k].Frame?
          ensures inputs[1..][k].dt >= 0.0
        {
          assert inputs[1..][k] == inputs[k + 1];
        }
      }
      TotalDtNonNegative(inputs[1..]);
    }
  }

  /** Cooldown gating: if the cooldown plus the frame time of a run stays below
      750 ms, the run opens and closes nothing. In particular, right after a
      transition (cooldown 0) nothing happens for the next 750 ms of frames. */
  lemma {:induction false} CooldownGating(p: Peer, inputs: seq<Input>)
    requires NonNegativeDt(inputs)
    requires p.connectionBufferTime + TotalDt(inputs) < CallBuffer
    ensures Run(p, inputs).emitted == []
    ensures Run(p, inputs).next.connected == p.connected
    ensures Run(p, inputs).next.connectionBufferTime <= p.connectionBufferTime + TotalDt(inputs)
    decreases |inputs|
  {
    if inputs != [] {
      var rest := inputs[1..];
      assert NonNegativeDt(rest) by {
        forall k | 0 <= k < |rest| && rest[k].Frame? ensures rest[k].dt >= 0.0 {
          assert rest[k] == inputs[k + 1];
        }
      }
      TotalDtNonNegative(rest);
      var s := Apply(p, inputs[0]);
      assert inputs[0].Frame? ==> inputs[0].dt >= 0.0;
      assert s.emitted == [];
      assert s.next.connectionBufferTime <= p.connectionBufferTime
        + (if inputs[0].Frame? then inputs[0].dt else 0.0);
      CooldownGating(s.next, rest);
    }
  }

  /** With frames of non-negative length the cooldown never goes negative. */
  lemma {:induction false} BufferStaysNonNegative(p: Peer, inputs: seq<Input>)
    requires NonNegativeDt(inputs)
    requires p.connectionBufferTime >= 0.0
    ensures Run(p, inputs).next.connectionBufferTime >= 0.0
    decreases |inputs|
  {
    if inputs != [] {
      var rest := inputs[1..];
      assert NonNegativeDt(rest) by {
        forall k | 0 <= k < |rest| && rest[k].Frame? ensures rest[k].dt >= 0.0 {
          assert rest[k] == inputs[k + 1];
        }
      }
      assert inputs[0].Frame? ==> inputs[0].dt >= 0.0;
      BufferStaysNonNegative(Apply(p, inputs[0]).next, rest);
    }
  }

  /** Client A holds pB for peer B and runs makeCall with its own player meA;
      client B holds pA and runs makeCall with meB. At most one of the two
      evaluations opens a call. */
  lemma MirroredCallsExclusive(pB: Peer, meA: LocalPlayer, pA: Peer, meB: LocalPlayer)
    requires pB.playerId == meB.playerId && pA.playerId == meA.playerId
    ensures !(MakeCall(pB, meA).emitted != [] && MakeCall(pA, meB).emitted != [])
  {
    LessAsymmetric(meA.playerId, meB.playerId);
  }

  /** Everything of the initiate guard except the tie-break. */
  predicate ReadyApartFromTieBreak(p: Peer, me: LocalPlayer)
  {
    && !p.connected
    && p.connectionBufferTime >= CallBuffer
    && me.readyToConnect && p.readyToConnect && me.videoConnected
    && Rooms.Proximate(p.x, p.y, me.x, me.y)
  }

  /** When both sides meet every other condition, exactly one of two distinct
      players opens the call, and with equal ids neither does. */
  lemma MirroredCallsTieBreak(pB: Peer, meA: LocalPlayer, pA: Peer, meB: LocalPlayer)
    requires pB.playerId == meB.playerId && pA.playerId == meA.playerId
    requires ReadyApartFromTieBreak(pB, meA) && ReadyApartFromTieBreak(pA, meB)
    ensures meA.playerId != meB.playerId ==>
      (MakeCall(pB, meA).emitted != [] <==> MakeCall(pA, meB).emitted == [])
    ensures meA.playerId == meB.playerId ==>
      MakeCall(pB, meA).emitted == [] && MakeCall(pA, meB).emitted == []
  {
    TieBreak(meA.playerId, meB.playerId);
  }
}
