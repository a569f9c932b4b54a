/** Zone classification: which room a coordinate lies in (OtherPlayer.getRoomId)
    and the proximity rule the call decision builds from it. */
module Rooms {

  datatype RoomId = Room1 | Room2 | Room3 | Room4 | Hallway

  /** The room boundary on both axes. */
  const Split: real := 400.0

  /** The four half-open quadrant tests in source order, with `Hallway` as the
      fallback. The tests cover the whole plane: the result is never `Hallway`,
      and the room is fixed by the side of the boundary on each axis. */
  function GetRoomId(x: real, y: real): (r: RoomId)
    ensures r != Hallway
    ensures r == Room1 || r == Room3 <==> x < Split
    ensures r == Room1 || r == Room2 <==> y < Split
  {
    if x < Split && y < Split then Room1
    else if x >= Split && y < Split then Room2
    else if x < Split && y >= Split then Room3
    else if x >= Split && y >= Split then Room4
    else Hallway
  }

  /** The boundary points: each axis is split half-open at 400. */
  lemma RoomBoundaries()
    ensures GetRoomId(399.0, 399.0) == Room1
    ensures GetRoomId(400.0, 399.0) == Room2
    ensures GetRoomId(399.0, 400.0) == Room3
    ensures GetRoomId(400.0, 400.0) == Room4
  {
  }

  /** The proximity clause of the call decision for a remote player at (x1, y1)
      and the local player at (x2, y2): same room and neither in the hallway, or
      both in the hallway. Since no coordinate is in the hallway, it reduces to
      "same room", which is "same side of the boundary on each axis". */
  function Proximate(x1: real, y1: real, x2: real, y2: real): (b: bool)
    ensures b <==> GetRoomId(x1, y1) == GetRoomId(x2, y2)
    ensures b <==> (x1 < Split <==> x2 < Split) && (y1 < Split <==> y2 < Split)
  {
    var here := GetRoomId(x1, y1);
    var there := GetRoomId(x2, y2);
    (here == there && here != Hallway && there != Hallway) || (here == Hallway && there == Hallway)
  }
}
