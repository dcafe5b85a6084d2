/** Corner-based room coordinates (src/lib/coords.ts): a room spans
    [0, width] on x, [0, height] on y and [0, depth] on z from its south-west
    corner, and the helpers return the centre of its floor, ceiling and walls. */
module Coords {
  import opened Scene

  datatype Dimensions = Dimensions(width: real, depth: real, height: real)

  datatype Wall = North | South | East | West

  /** The four identifiers the wall switch accepts. */
  function ParseWall(wall: string): (r: Option<Wall>)
    ensures r.Some? <==> wall in {"north", "south", "east", "west"}
  {
    if wall == "north" then Some(North)
    else if wall == "south" then Some(South)
    else if wall == "east" then Some(East)
    else if wall == "west" then Some(West)
    else None
  }

  /** getFloorCenter */
  function FloorCenter(d: Dimensions): Vec3 {
    Vec3(d.width / 2.0, 0.0, d.depth / 2.0)
  }

  /** getCeilingCenter */
  function CeilingCenter(d: Dimensions): Vec3 {
    Vec3(d.width / 2.0, d.height, d.depth / 2.0)
  }

  /** The centre of one wall: half-way up, on its side of the room. */
  function CenterOf(wall: Wall, d: Dimensions): Vec3 {
    var midHeight := d.height / 2.0;
    match wall
    case North => Vec3(d.width / 2.0, midHeight, d.depth)
    case South => Vec3(d.width / 2.0, midHeight, 0.0)
    case East => Vec3(d.width, midHeight, d.depth / 2.0)
    case West => Vec3(0.0, midHeight, d.depth / 2.0)
  }

  /** getWallCenter: any identifier other than the four walls throws. */
  function WallCenter(wall: string, d: Dimensions): (r: Result<Vec3, string>)
    ensures ParseWall(wall).None? ==> r == Err("Invalid wall identifier: " + wall)
    ensures ParseWall(wall).Some? ==> r == Ok(CenterOf(ParseWall(wall).value, d))
  {
    match ParseWall(wall)
    case Some(w) => Ok(CenterOf(w, d))
    case None => Err("Invalid wall identifier: " + wall)
  }

  /** The floor centre lies on the ground, midway between the west and east
      walls and midway between the south and north walls; the ceiling centre
      lies straight above it at the room's height. */
  lemma FloorAndCeilingCentred(d: Dimensions)
    ensures FloorCenter(d).y == 0.0 && CeilingCenter(d).y == d.height
    ensures FloorCenter(d).x - 0.0 == d.width - FloorCenter(d).x
    ensures FloorCenter(d).z - 0.0 == d.depth - FloorCenter(d).z
    ensures CeilingCenter(d).x == FloorCenter(d).x && CeilingCenter(d).z == FloorCenter(d).z
  {
  }

  /** Every wall centre is half-way between floor and ceiling; each lies on
      its own side of the room and midway along it; opposite walls mirror
      each other through the floor centre. */
  lemma WallCentresOnTheirSides(d: Dimensions, w: Wall)
    ensures CenterOf(w, d).y == (FloorCenter(d).y + CeilingCenter(d).y) / 2.0
    ensures w == North ==> CenterOf(w, d).z == d.depth && CenterOf(w, d).x == FloorCenter(d).x
    ensures w == South ==> CenterOf(w, d).z == 0.0 && CenterOf(w, d).x == FloorCenter(d).x
    ensures w == East ==> CenterOf(w, d).x == d.width && CenterOf(w, d).z == FloorCenter(d).z
    ensures w == West ==> CenterOf(w, d).x == 0.0 && CenterOf(w, d).z == FloorCenter(d).z
    ensures CenterOf(North, d).z + CenterOf(South, d).z == 2.0 * FloorCenter(d).z
    ensures CenterOf(East, d).x + CenterOf(West, d).x == 2.0 * FloorCenter(d).x
  {
  }

  /** The values the unit tests fix for a 40 x 30 x 8 room and a 10 x 6 x 3
      room, and the message for an unknown identifier. */
  lemma ExpectedCentres()
    ensures FloorCenter(Dimensions(40.0, 30.0, 8.0)) == Vec3(20.0, 0.0, 15.0)
    ensures FloorCenter(Dimensions(10.0, 6.0, 3.0)) == Vec3(5.0, 0.0, 3.0)
    ensures CeilingCenter(Dimensions(40.0, 30.0, 8.0)) == Vec3(20.0, 8.0, 15.0)
    ensures WallCenter("north", Dimensions(40.0, 30.0, 8.0)) == Ok(Vec3(20.0, 4.0, 30.0))
    ensures WallCenter("south", Dimensions(40.0, 30.0, 8.0)) == Ok(Vec3(20.0, 4.0, 0.0))
    ensures WallCenter("east", Dimensions(40.0, 30.0, 8.0)) == Ok(Vec3(40.0, 4.0, 15.0))
    ensures WallCenter("west", Dimensions(40.0, 30.0, 8.0)) == Ok(Vec3(0.0, 4.0, 15.0))
    ensures WallCenter("invalid", Dimensions(40.0, 30.0, 8.0)) == Err("Invalid wall identifier: invalid")
  {
    assert ParseWall("north") == Some(North);
    assert ParseWall("south") == Some(South);
    assert ParseWall("east") == Some(East);
    assert ParseWall("west") == Some(West);
    assert ParseWall("invalid") == None;
    assert "Invalid wall identifier: " + "invalid" == "Invalid wall identifier: invalid";
  }
}
