/** The coordinate accessors and squared distances shared by every pose and
    point class. An object keeps its coordinates in the fixed-size array
    `coords` (`m_coords`): x and y always, z only for 3D objects. */
module PoseOrPoint {

  function Square(a: real): (r: real)
    ensures r >= 0.0
  {
    a * a
  }

  lemma SquareNeg(a: real)
    ensures Square(-a) == Square(a)
  {
    assert (-a) * (-a) == a * a;
  }

  class PoseOrPoint {
    /** Whether the object has a z coordinate (`is3DPoseOrPoint`). */
    const is3D: bool
    var coords: array<real>

    ghost predicate Valid()
      reads this
    {
      coords.Length == if is3D then 3 else 2
    }

    constructor (is3D': bool, x': real, y': real, z': real)
      ensures Valid() && fresh(coords) && is3D == is3D'
      ensures coords[0] == x' && coords[1] == y'
      ensures is3D' ==> coords[2] == z'
    {
      is3D := is3D';
      var c := new real[if is3D' then 3 else 2];
      c[0], c[1] := x', y';
      if is3D' {
        c[2] := z';
      }
      coords := c;
    }

    function X(): real
      requires Valid()
      reads this, coords
    {
      coords[0]
    }

    function Y(): real
      requires Valid()
      reads this, coords
    {
      coords[1]
    }

    /** The z coordinate of a 3D object, and 0 for a 2D one. */
    function ZOrZero(): (r: real)
      requires Valid()
      reads this, coords
      ensures is3D ==> r == coords[2]
      ensures !is3D ==> r == 0.0
    {
      if is3D then coords[2] else 0.0
    }

    /** `x(v)`: sets x, leaves the other coordinates alone. */
    method SetX(v: real)
      requires Valid()
      modifies coords
      ensures Valid() && X() == v
      ensures forall i :: 1 <= i < coords.Length ==> coords[i] == old(coords[i])
    {
      coords[0] := v;
    }

    /** `y(v)`: sets y, leaves the other coordinates alone. */
    method SetY(v: real)
      requires Valid()
      modifies coords
      ensures Valid() && Y() == v
      ensures forall i :: 0 <= i < coords.Length && i != 1 ==> coords[i] == old(coords[i])
    {
      coords[1] := v;
    }

    /** `x_incr(v)`: x += v, the other coordinates unchanged. */
    method IncrementX(v: real)
      requires Valid()
      modifies coords
      ensures Valid() && X() == old(X()) + v
      ensures forall i :: 1 <= i < coords.Length ==> coords[i] == old(coords[i])
    {
      coords[0] := coords[0] + v;
    }

    /** `y_incr(v)`: y += v, the other coordinates unchanged. */
    method IncrementY(v: real)
      requires Valid()
      modifies coords
      ensures Valid() && Y() == old(Y()) + v
      ensures forall i :: 0 <= i < coords.Length && i != 1 ==> coords[i] == old(coords[i])
    {
      coords[1] := coords[1] + v;
    }

    /** `distance2DToSquare`: the squared planar distance to (ax, ay); z is ignored. */
    function Distance2DToSquare(ax: real, ay: real): (r: real)
      requires Valid()
      reads this, coords
      ensures r >= 0.0
      ensures ax == X() && ay == Y() ==> r == 0.0
    {
      Square(ax - X()) + Square(ay - Y())
    }

    /** `distance3DToSquare`: the squared distance to (ax, ay, az), where a 2D
        object stands at z = 0. */
    function Distance3DToSquare(ax: real, ay: real, az: real): (r: real)
      requires Valid()
      reads this, coords
      ensures r >= 0.0
      ensures r == Distance2DToSquare(ax, ay) + Square(az - ZOrZero())
    {
      Square(ax - X()) + Square(ay - Y()) + Square(az - (if is3D then coords[2] else 0.0))
    }

    /** `sqrDistanceTo` as written. For a 3D receiver and a 2D argument the
        source reads `m_coords[2]` of the argument, one past its two
        coordinates; `beyond` is whatever the argument keeps there in memory
        (for a 2D pose, its heading). */
    function SqrDistanceToAsWritten(b: PoseOrPoint, beyond: real): (r: real)
      requires Valid() && b.Valid()
      reads this, coords, b, b.coords
      ensures r >= 0.0
      ensures !is3D && !b.is3D ==> r == Square(X() - b.X()) + Square(Y() - b.Y())
      ensures is3D && b.is3D ==> r == Square(X() - b.X()) + Square(Y() - b.Y()) + Square(coords[2] - b.coords[2])
      ensures is3D && !b.is3D ==> r == Square(X() - b.X()) + Square(Y() - b.Y()) + Square(beyond)
    {
      if b.is3D then
        if is3D then
          Square(X() - b.X()) + Square(Y() - b.Y()) + Square(coords[2] - b.coords[2])
        else
          Square(X() - b.X()) + Square(Y() - b.Y()) + Square(b.coords[2])
      else
        if is3D then
          Square(X() - b.X()) + Square(Y() - b.Y()) + Square(beyond)
        else
          Square(X() - b.X()) + Square(Y() - b.Y())
    }

    /** `sqrDistanceTo`, with the missing z of a 2D argument read as 0 in the
        3D-receiver branch, as the 2D-receiver branch already does for the
        receiver. It is the squared 3D distance, a missing z counting as 0. */
    function SqrDistanceTo(b: PoseOrPoint): (r: real)
      requires Valid() && b.Valid()
      reads this, coords, b, b.coords
      ensures r >= 0.0
      ensures r == Distance3DToSquare(b.X(), b.Y(), b.ZOrZero())
      ensures !is3D && !b.is3D ==> r == b.Distance2DToSquare(X(), Y())
      ensures !is3D && b.is3D ==> r == Square(X() - b.X()) + Square(Y() - b.Y()) + Square(b.coords[2])
    {
      SquareNeg(X() - b.X());
      SquareNeg(Y() - b.Y());
      SquareNeg(ZOrZero() - b.ZOrZero());
      if b.is3D then
        if is3D then
          Square(X() - b.X()) + Square(Y() - b.Y()) + Square(coords[2] - b.coords[2])
        else
          Square(X() - b.X()) + Square(Y() - b.Y()) + Square(b.coords[2])
      else
        if is3D then
          Square(X() - b.X()) + Square(Y() - b.Y()) + Square(0.0 - coords[2])
        else
          Square(X() - b.X()) + Square(Y() - b.Y())
    }
  }

  /** The corrected squared distance is symmetric for every mix of 2D and 3D objects. */
  lemma SqrDistanceSymmetric(a: PoseOrPoint, b: PoseOrPoint)
    requires a.Valid() && b.Valid()
    ensures a.SqrDistanceTo(b) == b.SqrDistanceTo(a)
  {
    var dx, dy, dz := a.X() - b.X(), a.Y() - b.Y(), a.ZOrZero() - b.ZOrZero();
    assert Square(-dx) == Square(dx) && Square(-dy) == Square(dy) && Square(-dz) == Square(dz);
  }

  /** The corrected squared distance from an object to itself is 0. */
  lemma SqrDistanceToSelf(a: PoseOrPoint)
    requires a.Valid()
    ensures a.SqrDistanceTo(a) == 0.0
  {
  }

  /** As written, the distance from a 3D object to a 2D one and back differ
      whenever the word after the 2D object's coordinates is not zero: from the
      origin in 3D to the origin in 2D with 1 stored there gives 1 one way and
      0 the other. */
  lemma SqrDistanceAsWrittenNotSymmetric(a: PoseOrPoint, b: PoseOrPoint, beyond: real)
    requires a.Valid() && b.Valid() && a.is3D && !b.is3D
    requires a.X() == 0.0 && a.Y() == 0.0 && a.coords[2] == 0.0 && b.X() == 0.0 && b.Y() == 0.0
    requires beyond == 1.0
    ensures a.SqrDistanceToAsWritten(b, beyond) == 1.0
    ensures b.SqrDistanceToAsWritten(a, beyond) == 0.0
  {
  }
}
