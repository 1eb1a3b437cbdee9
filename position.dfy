/** Floating-origin positions: an integer grid cell plus a small offset
    inside it, with component-wise arithmetic and lag smoothing. */
module Positions {
  import opened Engine

  /** A position as a grid cell and an offset from that cell. */
  datatype SpacePosition = SpacePosition(cell: Cell, position: Vec3)

  /** Component-wise sum; the offset never carries into the cell, so
      subtracting either operand gives back the other. */
  function Add(a: SpacePosition, b: SpacePosition): (r: SpacePosition)
    ensures Sub(r, b) == a && Sub(r, a) == b
  {
    SpacePosition(CellPlus(a.cell, b.cell), Plus(a.position, b.position))
  }

  /** Component-wise difference; the offset never borrows from the cell, so
      adding the subtrahend's cell and offset back gives the minuend. */
  function Sub(a: SpacePosition, b: SpacePosition): (r: SpacePosition)
    ensures CellPlus(r.cell, b.cell) == a.cell && Plus(r.position, b.position) == a.position
  {
    SpacePosition(CellMinus(a.cell, b.cell), Minus(a.position, b.position))
  }

  /** The grid library's `grid_position_double`: the exact world coordinate
      of a cell and offset, `cell * edge + offset`. */
  function GridPositionDouble(edge: real, p: SpacePosition): Vec3 {
    Plus(CellCorner(p.cell, edge), p.position)
  }

  /** The contract assumed of the grid library's `translation_to_grid`: it
      splits a world coordinate into a cell and offset that denote exactly
      that coordinate. Which cell it picks is not assumed. */
  ghost predicate IsTranslationToGrid(edge: real, toGrid: Vec3 -> SpacePosition) {
    forall v :: GridPositionDouble(edge, toGrid(v)) == v
  }

  /** Lag smoothing: moves `current` toward `target`, keeping the fraction
      `lagWeight` of the remaining difference. The difference is taken
      component-wise, converted to a world vector, scaled, and split back into
      a cell and offset before it is added to the target. */
  function Smooth(current: SpacePosition, target: SpacePosition, lagWeight: real,
                  edge: real, toGrid: Vec3 -> SpacePosition): (r: SpacePosition)
    requires IsTranslationToGrid(edge, toGrid)
    ensures GridPositionDouble(edge, r) ==
            Plus(GridPositionDouble(edge, target),
                 Scale(Minus(GridPositionDouble(edge, current), GridPositionDouble(edge, target)), lagWeight))
  {
    var sub := Sub(current, target);
    var subWorld := Scale(GridPositionDouble(edge, sub), lagWeight);
    var delta := toGrid(subWorld);
    SubWorld(edge, current, target);
    AddWorld(edge, target, delta);
    Add(target, delta)
  }

  /** The world coordinate of a sum is the sum of the world coordinates. */
  lemma AddWorld(edge: real, a: SpacePosition, b: SpacePosition)
    ensures GridPositionDouble(edge, Add(a, b)) ==
            Plus(GridPositionDouble(edge, a), GridPositionDouble(edge, b))
  {
    var r := Add(a, b);
    var c := r.cell;
    Distributes(a.cell.x, b.cell.x, c.x, edge);
    Distributes(a.cell.y, b.cell.y, c.y, edge);
    Distributes(a.cell.z, b.cell.z, c.z, edge);
    var w, wa, wb := GridPositionDouble(edge, r), GridPositionDouble(edge, a), GridPositionDouble(edge, b);
    assert w.x == wa.x + wb.x;
    assert w.y == wa.y + wb.y;
    assert w.z == wa.z + wb.z;
  }

  /** The world coordinate of a difference is the difference of the world
      coordinates. */
  lemma SubWorld(edge: real, a: SpacePosition, b: SpacePosition)
    ensures GridPositionDouble(edge, Sub(a, b)) ==
            Minus(GridPositionDouble(edge, a), GridPositionDouble(edge, b))
  {
    var r := Sub(a, b);
    var c := r.cell;
    Distributes(c.x, b.cell.x, a.cell.x, edge);
    Distributes(c.y, b.cell.y, a.cell.y, edge);
    Distributes(c.z, b.cell.z, a.cell.z, edge);
    var w, wa, wb := GridPositionDouble(edge, r), GridPositionDouble(edge, a), GridPositionDouble(edge, b);
    assert w.x == wa.x - wb.x;
    assert w.y == wa.y - wb.y;
    assert w.z == wa.z - wb.z;
  }

  lemma Distributes(x: int, y: int, s: int, edge: real)
    requires s == x + y
    ensures s as real * edge == x as real * edge + y as real * edge
  {
  }

  /** No carry: the cell of a sum or difference depends on the operands'
      cells only, and its offset on the operands' offsets only. */
  lemma NoCarry(a: SpacePosition, b: SpacePosition, a': SpacePosition, b': SpacePosition)
    ensures a.cell == a'.cell && b.cell == b'.cell ==>
              Add(a, b).cell == Add(a', b').cell && Sub(a, b).cell == Sub(a', b').cell
    ensures a.position == a'.position && b.position == b'.position ==>
              Add(a, b).position == Add(a', b').position && Sub(a, b).position == Sub(a', b').position
  {
  }

  /** Subtraction undoes addition and addition undoes subtraction, exactly. */
  lemma AddSubInverse(a: SpacePosition, b: SpacePosition)
    ensures Add(Sub(a, b), b) == a
    ensures Sub(Add(a, b), b) == a
  {
  }

  /** Equality of positions is equality of both cell and offset. Over
      reals this is what the derived `PartialEq` does; it holds by
      definition of the datatype, and says nothing about `f32` offsets,
      where `-0.0 == 0.0` and NaN differs from itself. */
  lemma EqualityIsStructural(a: SpacePosition, b: SpacePosition)
    ensures a == b <==> a.cell == b.cell && a.position == b.position
  {
  }

  /** Smoothing toward the position one already has, or with no lag, lands
      on the target's world coordinate. */
  lemma SmoothAtRest(current: SpacePosition, target: SpacePosition, lagWeight: real,
                     edge: real, toGrid: Vec3 -> SpacePosition)
    requires IsTranslationToGrid(edge, toGrid)
    requires current == target || lagWeight == 0.0
    ensures GridPositionDouble(edge, Smooth(current, target, lagWeight, edge, toGrid)) ==
            GridPositionDouble(edge, target)
  {
  }

  function Pow(w: real, n: nat): real {
    if n == 0 then 1.0 else w * Pow(w, n - 1)
  }

  /** `n` successive smoothing steps toward a fixed target. */
  function SmoothSteps(current: SpacePosition, target: SpacePosition, lagWeight: real,
                       edge: real, toGrid: Vec3 -> SpacePosition, n: nat): SpacePosition
    requires IsTranslationToGrid(edge, toGrid)
  {
    if n == 0 then current
    else Smooth(SmoothSteps(current, target, lagWeight, edge, toGrid, n - 1), target, lagWeight, edge, toGrid)
  }

  /** Repeated smoothing toward a fixed target shrinks the world-space error
      geometrically: after `n` steps it is `lagWeight^n` times the initial
      error. */
  lemma {:induction false} SmoothConverges(current: SpacePosition, target: SpacePosition, lagWeight: real,
                                           edge: real, toGrid: Vec3 -> SpacePosition, n: nat)
    requires IsTranslationToGrid(edge, toGrid)
    ensures Minus(GridPositionDouble(edge, SmoothSteps(current, target, lagWeight, edge, toGrid, n)),
                  GridPositionDouble(edge, target)) ==
            Scale(Minus(GridPositionDouble(edge, current), GridPositionDouble(edge, target)), Pow(lagWeight, n))
  {
    var t := GridPositionDouble(edge, target);
    var e := Minus(GridPositionDouble(edge, current), t);
    if n == 0 {
      assert Scale(e, 1.0) == e;
    } else {
      var q := SmoothSteps(current, target, lagWeight, edge, toGrid, n - 1);
      var k := Pow(lagWeight, n - 1);
      calc {
        Minus(GridPositionDouble(edge, SmoothSteps(current, target, lagWeight, edge, toGrid, n)), t);
        Minus(GridPositionDouble(edge, Smooth(q, target, lagWeight, edge, toGrid)), t);
        { SmoothStepError(q, target, lagWeight, edge, toGrid); }
        Scale(Minus(GridPositionDouble(edge, q), t), lagWeight);
        { SmoothConverges(current, target, lagWeight, edge, toGrid, n - 1); }
        Scale(Scale(e, k), lagWeight);
        { PowStep(lagWeight, n); ScaleTwice(e, k, lagWeight, Pow(lagWeight, n)); }
        Scale(e, Pow(lagWeight, n));
      }
    }
  }

  /** One smoothing step scales the world-space error by the lag weight. */
  lemma SmoothStepError(current: SpacePosition, target: SpacePosition, lagWeight: real,
                        edge: real, toGrid: Vec3 -> SpacePosition)
    requires IsTranslationToGrid(edge, toGrid)
    ensures Minus(GridPositionDouble(edge, Smooth(current, target, lagWeight, edge, toGrid)),
                  GridPositionDouble(edge, target)) ==
            Scale(Minus(GridPositionDouble(edge, current), GridPositionDouble(edge, target)), lagWeight)
  {
    var t := GridPositionDouble(edge, target);
    PlusThenMinus(t, Scale(Minus(GridPositionDouble(edge, current), t), lagWeight));
  }

  lemma ScaleTwice(e: Vec3, k: real, w: real, p: real)
    requires p == w * k
    ensures Scale(Scale(e, k), w) == Scale(e, p)
  {
    assert e.x * k * w == e.x * p;
    assert e.y * k * w == e.y * p;
    assert e.z * k * w == e.z * p;
  }

  lemma PlusThenMinus(a: Vec3, b: Vec3)
    ensures Minus(Plus(a, b), a) == b
  {
  }

  lemma PowStep(w: real, n: nat)
    requires n > 0
    ensures Pow(w, n) == w * Pow(w, n - 1)
  {
  }
}
