/** Real-valued stand-ins for the Godot math the renderer relies on.

    Single-precision floats are modelled as `real`. The transcendental functions
    (`Mathf.Sqrt`, `Mathf.Pow`, `Mathf.Exp`) are not computed: they are supplied as
    function values whose only known properties are the sign facts their types carry,
    which real square roots and powers have. */
module Numerics {

  datatype Option<T> = None | Some(value: T)

  datatype Vec3 = Vec3(x: real, y: real, z: real)

  const Zero: Vec3 := Vec3(0.0, 0.0, 0.0)

  function Add(a: Vec3, b: Vec3): Vec3 { Vec3(a.x + b.x, a.y + b.y, a.z + b.z) }

  function Sub(a: Vec3, b: Vec3): Vec3 { Vec3(a.x - b.x, a.y - b.y, a.z - b.z) }

  function Scale(a: Vec3, k: real): Vec3 { Vec3(a.x * k, a.y * k, a.z * k) }

  function Neg(a: Vec3): Vec3 { Vec3(-a.x, -a.y, -a.z) }

  function Dot(a: Vec3, b: Vec3): real { a.x * b.x + a.y * b.y + a.z * b.z }

  function LengthSquared(a: Vec3): real { Dot(a, a) }

  /** A basis given by its three column vectors, as Godot's `Basis.X/Y/Z`. */
  datatype Basis = Basis(x: Vec3, y: Vec3, z: Vec3)

  /** `basis * v`: the linear combination of the columns. */
  function Transform(b: Basis, v: Vec3): Vec3 {
    Add(Add(Scale(b.x, v.x), Scale(b.y, v.y)), Scale(b.z, v.z))
  }

  type PosReal = x: real | 0.0 < x witness 1.0

  /** The host's transcendental functions, as function values. Square roots are given on
      positive arguments, powers split by the sign of the base; the types carry the sign
      facts that real square roots and powers of positive numbers have. */
  datatype Math = Math(sqrtPos: PosReal -> PosReal,
                       powPositive: (PosReal, real) -> PosReal,
                       powOther: (real, real) -> real,
                       exp: real -> real,
                       cos: real -> real,
                       sin: real -> real)

  /** `Mathf.Sqrt` on arguments that are not negative; the square root of zero is zero. */
  function Sqrt(m: Math, x: real): (r: real)
    requires 0.0 <= x
    ensures 0.0 <= r
    ensures 0.0 < x <==> 0.0 < r
  {
    if x == 0.0 then 0.0 else m.sqrtPos(x)
  }

  /** `Mathf.Pow`; a positive base has a positive power. */
  function Pow(m: Math, x: real, y: real): (r: real)
    ensures 0.0 < x ==> 0.0 < r
  {
    if 0.0 < x then m.powPositive(x, y) else m.powOther(x, y)
  }

  /** `Mathf.Exp`. */
  function Exp(m: Math, x: real): real { m.exp(x) }

  /** The square root is exact: the property `Mathf.Sqrt` approximates. */
  ghost predicate ExactSqrt(m: Math) {
    forall x {:trigger Sqrt(m, x)} :: 0.0 <= x ==> Sqrt(m, x) * Sqrt(m, x) == x
  }

  /** `Vector3.Length()`. */
  function Length(m: Math, v: Vec3): (r: real)
    ensures 0.0 <= r
    ensures v == Zero ==> r == 0.0
  {
    SquaresNonNegative(v);
    Sqrt(m, LengthSquared(v))
  }

  /** `Vector3.Normalized()`: the zero vector stays zero, everything else is divided by
      its length. */
  function Normalized(m: Math, v: Vec3): Vec3 {
    SquaresNonNegative(v);
    if LengthSquared(v) == 0.0 then Zero else Scale(v, 1.0 / Sqrt(m, LengthSquared(v)))
  }

  lemma AddAssociative(a: Vec3, b: Vec3, c: Vec3)
    ensures Add(Add(a, b), c) == Add(a, Add(b, c))
  {
  }

  /** `Mathf.Max(float, float)`. */
  function MaxReal(a: real, b: real): real { if a > b then a else b }

  /** `Mathf.Max(int, int)` / `Math.Max(int, int)`. */
  function MaxInt(a: int, b: int): int { if a > b then a else b }

  /** `Mathf.Clamp(float, float, float)`: tests the lower bound first, so with
      `lo > hi` a value below `lo` still yields `lo`. */
  function ClampReal(v: real, lo: real, hi: real): (r: real)
    ensures lo <= hi ==> lo <= r <= hi
    ensures lo <= v <= hi ==> r == v
  {
    if v < lo then lo else if v > hi then hi else v
  }

  /** `Mathf.Clamp(int, int, int)`, same branch order as the real version. */
  function ClampInt(v: int, lo: int, hi: int): (r: int)
    ensures lo <= hi ==> lo <= r <= hi
    ensures lo <= v <= hi ==> r == v
  {
    if v < lo then lo else if v > hi then hi else v
  }

  /** `Mathf.Lerp(from, to, weight)`. */
  function Lerp(from: real, to: real, weight: real): (r: real)
    ensures weight == 0.0 ==> r == from
    ensures weight == 1.0 ==> r == to
  {
    from + (to - from) * weight
  }

  /** Multiplication under a name, so that sign facts about a product can be stated
      and reused without the solver's non-linear reasoning. */
  function Mul(x: real, y: real): real { x * y }

  lemma PositiveProduct(x: real, y: real)
    requires 0.0 < x && 0.0 < y
    ensures 0.0 < Mul(x, y)
  {
  }

  lemma NonNegativeProduct(x: real, y: real)
    requires 0.0 <= x && 0.0 <= y
    ensures 0.0 <= Mul(x, y)
  {
  }

  lemma SquareNonNegative(x: real)
    ensures 0.0 <= Mul(x, x)
  {
    if x < 0.0 {
      assert Mul(x, x) == Mul(-x, -x);
      NonNegativeProduct(-x, -x);
    } else {
      NonNegativeProduct(x, x);
    }
  }

  /** The sum of three squares is never negative. */
  lemma SquaresNonNegative(v: Vec3)
    ensures 0.0 <= LengthSquared(v)
    ensures LengthSquared(v) == 0.0 <==> v == Zero
  {
    assert LengthSquared(v) == Mul(Abs(v.x), Abs(v.x)) + Mul(Abs(v.y), Abs(v.y)) + Mul(Abs(v.z), Abs(v.z));
    NonNegativeProduct(Abs(v.x), Abs(v.x));
    NonNegativeProduct(Abs(v.y), Abs(v.y));
    NonNegativeProduct(Abs(v.z), Abs(v.z));
    if v.x != 0.0 { PositiveProduct(Abs(v.x), Abs(v.x)); }
    if v.y != 0.0 { PositiveProduct(Abs(v.y), Abs(v.y)); }
    if v.z != 0.0 { PositiveProduct(Abs(v.z), Abs(v.z)); }
  }

  function Abs(x: real): real { if x < 0.0 then -x else x }

  /** `Mathf.Epsilon`, the tolerance of `Mathf.IsEqualApprox`. */
  const Epsilon: real := 0.000001

  /** `Mathf.IsEqualApprox(a, b)` where `b` may be the NaN sentinel (`None`): NaN is
      never approximately equal to anything. */
  predicate IsEqualApprox(a: real, b: Option<real>) {
    match b
    case None => false
    case Some(bv) =>
      a == bv || Abs(a - bv) < MaxReal(Epsilon * Abs(a), Epsilon)
  }

  /** Rounded pi, as `Mathf.Pi`. */
  const Pi: real := 3.14159265358979

  function DegToRad(deg: real): real { deg * (Pi / 180.0) }

  function Ceil(x: real): (r: int)
    ensures x <= r as real < x + 1.0
  {
    -((-x).Floor)
  }

  const Int32Min: int := -0x8000_0000
  const Int32Max: int := 0x7FFF_FFFF

  /** `Mathf.CeilToInt`: ceiling, then a conversion to a 32-bit int; a value out of
      the int range converts to `int.MinValue` (the x64 conversion result). */
  function CeilToInt(x: real): (r: int)
    ensures Int32Min <= r <= Int32Max
    ensures Int32Min <= Ceil(x) <= Int32Max ==> r == Ceil(x)
  {
    var c := Ceil(x);
    if Int32Min <= c <= Int32Max then c else Int32Min
  }

  /** A C# `int`. */
  type Int32 = x: int | Int32Min <= x <= Int32Max

  /** Two's-complement wrap-around of C#'s unchecked `int` arithmetic. */
  function Wrap32(x: int): (r: Int32)
    ensures Int32Min <= x <= Int32Max ==> r == x
  {
    (x - Int32Min) % 0x1_0000_0000 + Int32Min
  }

  function MinInt(a: int, b: int): int { if a < b then a else b }
}
