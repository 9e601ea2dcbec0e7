/** A 3D twist: linear velocity (vx, vy, vz) and angular velocity (wx, wy, wz).
    The object is updated in place through its index operator, its scaling
    operator and `fromVector`, so it is a class; `Value` is its abstract value. */
module Twist3D {

  /** The six components, in index order [vx vy vz wx wy wz]. */
  datatype TwistValue = TwistValue(vx: real, vy: real, vz: real, wx: real, wy: real, wz: real)

  datatype Error = IndexOutOfRange | ColumnNotZero | WrongVectorSize

  datatype Result<T> = Ok(value: T) | Err(error: Error)

  /** Number of components (the struct's `static_size`). */
  const StaticSize: nat := 6

  /** The component selected by index `i` of a twist value, in the order of `operator[]`. */
  function Component(t: TwistValue, i: nat): real
    requires i < StaticSize
  {
    match i
    case 0 => t.vx
    case 1 => t.vy
    case 2 => t.vz
    case 3 => t.wx
    case 4 => t.wy
    case _ => t.wz
  }

  /** A twist value with component `i` replaced by `v`. */
  function WithComponent(t: TwistValue, i: nat, v: real): (r: TwistValue)
    requires i < StaticSize
    ensures Component(r, i) == v
    ensures forall j :: 0 <= j < StaticSize && j != i ==> Component(r, j) == Component(t, j)
  {
    match i
    case 0 => t.(vx := v)
    case 1 => t.(vy := v)
    case 2 => t.(vz := v)
    case 3 => t.(wx := v)
    case 4 => t.(wy := v)
    case _ => t.(wz := v)
  }

  /** A value is determined by its six components. */
  lemma ComponentsDetermineValue(a: TwistValue, b: TwistValue)
    requires forall i :: 0 <= i < StaticSize ==> Component(a, i) == Component(b, i)
    ensures a == b
  {
    assert Component(a, 0) == Component(b, 0) && Component(a, 1) == Component(b, 1);
    assert Component(a, 2) == Component(b, 2) && Component(a, 3) == Component(b, 3);
    assert Component(a, 4) == Component(b, 4) && Component(a, 5) == Component(b, 5);
  }

  /** Every component multiplied by `k`. */
  function Scaled(t: TwistValue, k: real): TwistValue
  {
    TwistValue(t.vx * k, t.vy * k, t.vz * k, t.wx * k, t.wy * k, t.wz * k)
  }

  /** Scaling multiplies each indexed component by `k`. */
  lemma ScaledComponents(t: TwistValue, k: real)
    ensures forall i :: 0 <= i < StaticSize ==> Component(Scaled(t, k), i) == k * Component(t, i)
  {
    forall i | 0 <= i < StaticSize
      ensures Component(Scaled(t, k), i) == k * Component(t, i)
    {
      var v := Component(t, i);
      assert Component(Scaled(t, k), i) == v * k;
    }
  }

  class Twist {
    var vx: real
    var vy: real
    var vz: real
    var wx: real
    var wy: real
    var wz: real

    function Value(): TwistValue
      reads this
    {
      TwistValue(vx, vy, vz, wx, wy, wz)
    }

    /** Default constructor: all six components are zero. */
    constructor Zero()
      ensures Value() == TwistValue(0.0, 0.0, 0.0, 0.0, 0.0, 0.0)
    {
      vx, vy, vz := 0.0, 0.0, 0.0;
      wx, wy, wz := 0.0, 0.0, 0.0;
    }

    /** Constructor from components. */
    constructor FromComponents(vx': real, vy': real, vz': real, wx': real, wy': real, wz': real)
      ensures Value() == TwistValue(vx', vy', vz', wx', wy', wz')
    {
      vx, vy, vz := vx', vy', vz';
      wx, wy, wz := wx', wy', wz';
    }

    /** Const `operator[]`: indices 0..5 select vx, vy, vz, wx, wy, wz; any other
        index is an `out_of_range` error. */
    function Get(i: int): (r: Result<real>)
      reads this
      ensures 0 <= i < StaticSize <==> r.Ok?
      ensures 0 <= i < StaticSize ==> r.value == Component(Value(), i)
      ensures !(0 <= i < StaticSize) ==> r == Err(IndexOutOfRange)
    {
      match i
      case 0 => Ok(vx)
      case 1 => Ok(vy)
      case 2 => Ok(vz)
      case 3 => Ok(wx)
      case 4 => Ok(wy)
      case 5 => Ok(wz)
      case _ => Err(IndexOutOfRange)
    }

    /** Writing through the non-const `operator[]`: the selected component
        changes and nothing else; a bad index is an error and changes nothing. */
    method Set(i: int, v: real) returns (r: Result<()>)
      modifies this
      ensures 0 <= i < StaticSize <==> r.Ok?
      ensures 0 <= i < StaticSize ==> Value() == WithComponent(old(Value()), i, v)
      ensures !(0 <= i < StaticSize) ==> r == Err(IndexOutOfRange) && Value() == old(Value())
    {
      match i
      case 0 => vx := v; r := Ok(());
      case 1 => vy := v; r := Ok(());
      case 2 => vz := v; r := Ok(());
      case 3 => wx := v; r := Ok(());
      case 4 => wy := v; r := Ok(());
      case 5 => wz := v; r := Ok(());
      case _ => r := Err(IndexOutOfRange);
    }

    /** `operator()(row, col)`: only column 0 exists, and `(row, 0)` is `[row]`. */
    function At(row: int, col: int): (r: Result<real>)
      reads this
      ensures col != 0 ==> r == Err(ColumnNotZero)
      ensures col == 0 ==> r == Get(row)
    {
      if col != 0 then Err(ColumnNotZero) else Get(row)
    }

    /** `operator*=`: every component is multiplied by `k`. */
    method Scale(k: real)
      modifies this
      ensures Value() == Scaled(old(Value()), k)
    {
      vx := vx * k;
      vy := vy * k;
      vz := vz * k;
      wx := wx * k;
      wy := wy * k;
      wz := wz * k;
    }

    /** `asVector`: a length-6 vector whose entry i is `[i]`. */
    method AsVector() returns (v: seq<real>)
      ensures |v| == StaticSize
      ensures forall i :: 0 <= i < StaticSize ==> v[i] == Component(Value(), i)
    {
      v := [];
      var i := 0;
      while i < 6
        invariant 0 <= i <= 6
        invariant |v| == i
        invariant forall j :: 0 <= j < i ==> v[j] == Component(Value(), j)
      {
        var c := Get(i);
        v := v + [c.value];
        i := i + 1;
      }
    }

    /** `fromVector`: the vector must have exactly six entries (an assertion
        error otherwise, with nothing changed); the components are then copied. */
    method SetFromVector(v: seq<real>) returns (r: Result<()>)
      modifies this
      ensures r.Ok? <==> |v| == StaticSize
      ensures |v| != StaticSize ==> r == Err(WrongVectorSize) && Value() == old(Value())
      ensures |v| == StaticSize ==> forall i :: 0 <= i < StaticSize ==> Component(Value(), i) == v[i]
    {
      if |v| != 6 {
        return Err(WrongVectorSize);
      }
      var i := 0;
      while i < 6
        invariant 0 <= i <= 6
        invariant forall j :: 0 <= j < i ==> Component(Value(), j) == v[j]
      {
        var _ := Set(i, v[i]);
        i := i + 1;
      }
      r := Ok(());
    }

    /** `rotated`: a rotated copy; the rotation itself (`rotate`) is a parameter,
        and the receiver is left as it was. */
    method Rotated(rotate: TwistValue -> TwistValue) returns (r: Twist)
      ensures fresh(r)
      ensures r.Value() == rotate(Value())
      ensures Value() == old(Value())
    {
      var t := rotate(Value());
      r := new Twist.FromComponents(t.vx, t.vy, t.vz, t.wx, t.wy, t.wz);
    }
  }

  /** Static `FromVector`: builds a twist from the first six entries of `v`. */
  method FromVector(v: seq<real>) returns (t: Twist)
    requires |v| >= StaticSize
    ensures fresh(t)
    ensures forall i :: 0 <= i < StaticSize ==> Component(t.Value(), i) == v[i]
  {
    t := new Twist.Zero();
    var i := 0;
    while i < 6
      invariant 0 <= i <= 6
      invariant forall j :: 0 <= j < i ==> Component(t.Value(), j) == v[j]
    {
      var _ := t.Set(i, v[i]);
      i := i + 1;
    }
  }

  /** Round trip: building a twist from `asVector` gives back the same value. */
  method VectorRoundTrip(t: Twist) returns (u: Twist)
    ensures fresh(u)
    ensures u.Value() == t.Value()
  {
    var v := t.AsVector();
    u := FromVector(v);
    ComponentsDetermineValue(u.Value(), t.Value());
  }
}
