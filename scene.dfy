/** Shared vocabulary of the scene.3d.v1 pipeline: lattice cells, world-space
    vectors and the box descriptors that stand for the renderer's meshes. */
module Scene {

  datatype Option<+T> = None | Some(value: T)

  datatype Result<+T, +E> = Ok(value: T) | Err(error: E)

  /** A lattice position; the scene format's `[x, y]` coordinate pair. */
  datatype Cell = Cell(x: int, y: int)

  /** A world-space vector (x across, y up, z along the scene's y axis). */
  datatype Vec3 = Vec3(x: real, y: real, z: real)

  /** A wall edge's direction: horizontal edges run along x, vertical along y. */
  datatype Orientation = Horizontal | Vertical

  datatype Kind = FloorBox | WallBox

  /** A box primitive: its full extents and its centre, in world units. */
  datatype Box = Box(kind: Kind, size: Vec3, center: Vec3)

  /** Lower corner of a box. */
  function Lo(b: Box): Vec3 {
    Vec3(b.center.x - b.size.x / 2.0, b.center.y - b.size.y / 2.0, b.center.z - b.size.z / 2.0)
  }

  /** Upper corner of a box. */
  function Hi(b: Box): Vec3 {
    Vec3(b.center.x + b.size.x / 2.0, b.center.y + b.size.y / 2.0, b.center.z + b.size.z / 2.0)
  }

  /** The box `inner` lies within the box `outer` (closed extents). */
  predicate BoxContains(outer: Box, inner: Box) {
    Lo(outer).x <= Lo(inner).x && Hi(inner).x <= Hi(outer).x &&
    Lo(outer).y <= Lo(inner).y && Hi(inner).y <= Hi(outer).y &&
    Lo(outer).z <= Lo(inner).z && Hi(inner).z <= Hi(outer).z
  }

  /** JavaScript truthiness of an optional number: absent and 0 are falsy. */
  predicate Truthy(v: Option<real>) {
    v.Some? && v.value != 0.0
  }

  /** `v || fallback` for an optional number. */
  function OrElse(v: Option<real>, fallback: real): real {
    if Truthy(v) then v.value else fallback
  }

  /** `v || fallback` for an optional integer. */
  function OrElseInt(v: Option<int>, fallback: int): int {
    if v.Some? && v.value != 0 then v.value else fallback
  }
}
