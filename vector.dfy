/**
 * The three-component vector of sim/util/vector.py. The source subclasses a
 * numpy array of length 3; here a vector is a value, and the property setters
 * become functions that return the updated value.
 */
module Vectors {
  import opened Wrappers

  datatype Vec3 = Vec3(x: real, y: real, z: real)

  /**
   * `Vector3(x, y=None, z=None)`: a missing y and a missing z both default to x,
   * so `Vector3(a)` is (a, a, a) and `Vector3(a, b)` is (a, b, a).
   */
  function New(x: real, y: Option<real> := None, z: Option<real> := None): (v: Vec3)
    ensures At(v, 0) == x
    ensures At(v, 1) == y.GetOr(x)
    ensures At(v, 2) == z.GetOr(x)
  {
    Vec3(x, if y.None? then x else y.value, if z.None? then x else z.value)
  }

  /** `self[i]`: the array index behind the `.x`, `.y` and `.z` properties. */
  function At(v: Vec3, i: int): real
    requires 0 <= i < 3
  {
    if i == 0 then v.x else if i == 1 then v.y else v.z
  }

  /** The `.x` setter: index 0 takes the new value, the others keep theirs. */
  function SetX(v: Vec3, value: real): (r: Vec3)
    ensures At(r, 0) == value
    ensures forall i | 0 <= i < 3 && i != 0 :: At(r, i) == At(v, i)
  {
    v.(x := value)
  }

  /** The `.y` setter. */
  function SetY(v: Vec3, value: real): (r: Vec3)
    ensures At(r, 1) == value
    ensures forall i | 0 <= i < 3 && i != 1 :: At(r, i) == At(v, i)
  {
    v.(y := value)
  }

  /** The `.z` setter, used by the ground clamp. */
  function SetZ(v: Vec3, value: real): (r: Vec3)
    ensures At(r, 2) == value
    ensures forall i | 0 <= i < 3 && i != 2 :: At(r, i) == At(v, i)
  {
    v.(z := value)
  }

  /** `Vector3(0)`. */
  function Zero(): Vec3 {
    New(0.0)
  }

  function Add(a: Vec3, b: Vec3): Vec3 {
    Vec3(a.x + b.x, a.y + b.y, a.z + b.z)
  }

  function Sub(a: Vec3, b: Vec3): Vec3 {
    Vec3(a.x - b.x, a.y - b.y, a.z - b.z)
  }

  /** Multiplication of a vector by a scalar, on either side. */
  function Scale(k: real, v: Vec3): Vec3 {
    Vec3(k * v.x, k * v.y, k * v.z)
  }

  /** `residual.T @ residual`, the squared Euclidean norm. */
  function NormSq(v: Vec3): real {
    v.x * v.x + v.y * v.y + v.z * v.z
  }

  lemma NewFromOne(a: real)
    ensures New(a) == Vec3(a, a, a)
  {
  }

  /** With x and y given, z copies x rather than defaulting to 0. */
  lemma NewFromTwo(a: real, b: real)
    ensures New(a, Some(b)) == Vec3(a, b, a)
  {
  }

  lemma NewFromThree(a: real, b: real, c: real)
    ensures New(a, Some(b), Some(c)) == Vec3(a, b, c)
    ensures At(New(a, Some(b), Some(c)), 0) == a
    ensures At(New(a, Some(b), Some(c)), 1) == b
    ensures At(New(a, Some(b), Some(c)), 2) == c
  {
  }

  lemma NormSqNonNegative(v: Vec3)
    ensures NormSq(v) >= 0.0
  {
  }
}
