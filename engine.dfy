/** Value types of the game engine that the game's systems read and write.
    Floating-point vectors are modelled by exact real arithmetic; grid cells
    by unbounded integers. */
module Engine {

  /** A 3-component vector (Bevy's `Vec3` and `DVec3`). */
  datatype Vec3 = Vec3(x: real, y: real, z: real)

  const Zero: Vec3 := Vec3(0.0, 0.0, 0.0)

  function Plus(a: Vec3, b: Vec3): Vec3 {
    Vec3(a.x + b.x, a.y + b.y, a.z + b.z)
  }

  function Minus(a: Vec3, b: Vec3): Vec3 {
    Vec3(a.x - b.x, a.y - b.y, a.z - b.z)
  }

  function Scale(a: Vec3, k: real): Vec3 {
    Vec3(a.x * k, a.y * k, a.z * k)
  }

  function SquaredLength(a: Vec3): real {
    a.x * a.x + a.y * a.y + a.z * a.z
  }

  /** An integer grid cell index (`GridCell<i64>`). */
  datatype Cell = Cell(x: int, y: int, z: int)

  function CellPlus(a: Cell, b: Cell): Cell {
    Cell(a.x + b.x, a.y + b.y, a.z + b.z)
  }

  function CellMinus(a: Cell, b: Cell): Cell {
    Cell(a.x - b.x, a.y - b.y, a.z - b.z)
  }

  /** The corner of cell `c` in world units, for cells of edge length `edge`. */
  function CellCorner(c: Cell, edge: real): Vec3 {
    Vec3(c.x as real * edge, c.y as real * edge, c.z as real * edge)
  }

  /** A rotation quaternion; the model only copies rotations and never
      interprets them. */
  datatype Quat = Quat(x: real, y: real, z: real, w: real)

  /** A local or global transform: translation and rotation (scale is not
      read or written by the modelled systems). */
  datatype Transform = Transform(translation: Vec3, rotation: Quat)

  /** A colour, copied from component to component and never interpreted. */
  datatype Color = Color(r: real, g: real, b: real, a: real)

  /** An entity identifier. */
  type Entity = nat

  datatype Option<T> = None | Some(value: T)
}
