/**
 * The door table of the rooms. A door's rotation about y names the wall the
 * player enters by in the next room (`getOppositeEntryPoint`), and that wall
 * gives the entry position (`transitionToRoom`).
 */
module Doors {
  import opened Wrappers
  import opened Vectors

  /** A door's yaw; the rooms use only 0, π, π/2 and -π/2, compared exactly. */
  datatype Yaw = Zero | Pi | HalfPi | NegHalfPi | Other

  datatype Compass = North | South | East | West

  /** One entry of a room's `doors`: where it stands, how it is turned, which room it leads to. */
  datatype Door = Door(position: Vec3, yaw: Yaw, connection: int)

  /** A room's `size`. */
  datatype RoomSize = RoomSize(width: real, height: real, depth: real)

  /** How far inside the wall the player is put. */
  const EntryOffset: real := 0.5
  /** How far below the room's centre the player is put. */
  const EntryDrop: real := 0.4
  /** The distance under which a door can be used. */
  const DoorRadius: real := 0.5

  /**
   * `getOppositeEntryPoint`: a door turned by 0 is entered from the south,
   * by π from the north, by π/2 from the west and by -π/2 from the east;
   * any other yaw gives `undefined`.
   */
  function OppositeEntryPoint(yaw: Yaw): (wall: Option<Compass>)
    ensures wall.None? <==> yaw.Other?
  {
    match yaw
    case Zero => Some(South)
    case Pi => Some(North)
    case HalfPi => Some(West)
    case NegHalfPi => Some(East)
    case Other => None
  }

  /** The four canonical yaws name four different walls, and every wall is named by one of them. */
  lemma OppositeEntryPointBijective(a: Yaw, b: Yaw, c: Compass)
    requires !a.Other? && !b.Other?
    ensures OppositeEntryPoint(a) == OppositeEntryPoint(b) ==> a == b
    ensures exists y: Yaw :: !y.Other? && OppositeEntryPoint(y) == Some(c)
  {
    match c
    case North => assert OppositeEntryPoint(Pi) == Some(c);
    case South => assert OppositeEntryPoint(Zero) == Some(c);
    case East => assert OppositeEntryPoint(NegHalfPi) == Some(c);
    case West => assert OppositeEntryPoint(HalfPi) == Some(c);
  }

  /** The entry position of `transitionToRoom` for a known wall of a room at `p` of size `s`. */
  function EntryPosition(p: Vec3, s: RoomSize, wall: Compass): (q: Vec3)
    ensures q.y == p.y - EntryDrop
    ensures wall.North? || wall.South? ==> q.x == p.x
    ensures wall.East? || wall.West? ==> q.z == p.z
  {
    match wall
    case North => Vec3(p.x, p.y - EntryDrop, p.z + s.depth / 2.0 - EntryOffset)
    case South => Vec3(p.x, p.y - EntryDrop, p.z - s.depth / 2.0 + EntryOffset)
    case East => Vec3(p.x + s.width / 2.0 - EntryOffset, p.y - EntryDrop, p.z)
    case West => Vec3(p.x - s.width / 2.0 + EntryOffset, p.y - EntryDrop, p.z)
  }

  /** The position lies strictly inside the horizontal footprint of the room. */
  predicate InsideFootprint(q: Vec3, p: Vec3, s: RoomSize) {
    p.x - s.width / 2.0 < q.x < p.x + s.width / 2.0 && p.z - s.depth / 2.0 < q.z < p.z + s.depth / 2.0
  }

  /**
   * The entry point is 0.4 below the centre, 0.5 in from the named wall and
   * centred along it, so it lies inside any room more than 1 wide and deep.
   */
  lemma EntryInsideRoom(p: Vec3, s: RoomSize, wall: Compass)
    requires s.width > 1.0 && s.depth > 1.0
    ensures EntryPosition(p, s, wall).y == p.y - EntryDrop
    ensures InsideFootprint(EntryPosition(p, s, wall), p, s)
    ensures wall == North ==> EntryPosition(p, s, wall).z == p.z + s.depth / 2.0 - EntryOffset
    ensures wall == South ==> EntryPosition(p, s, wall).z == p.z - s.depth / 2.0 + EntryOffset
    ensures wall == East ==> EntryPosition(p, s, wall).x == p.x + s.width / 2.0 - EntryOffset
    ensures wall == West ==> EntryPosition(p, s, wall).x == p.x - s.width / 2.0 + EntryOffset
    ensures wall in {North, South} ==> EntryPosition(p, s, wall).x == p.x
    ensures wall in {East, West} ==> EntryPosition(p, s, wall).z == p.z
  {
  }
}
