/** Small shared vocabulary: Rust's `Option`, the `(f32, f32, f32)` points the
    game passes around (as exact reals), and the `abs`/`min`/`max` of `f32`. */
module Common {

  datatype Option<T> = None | Some(value: T)

  /** A position in world space: (x, y, z), z pointing up. */
  type Point = (real, real, real)

  function Abs(x: real): (r: real)
    ensures r >= 0.0 && (r == x || r == -x)
  {
    if x < 0.0 then -x else x
  }

  function Min(a: real, b: real): (r: real)
    ensures r <= a && r <= b && (r == a || r == b)
  {
    if a <= b then a else b
  }

  function Max(a: real, b: real): (r: real)
    ensures r >= a && r >= b && (r == a || r == b)
  {
    if a >= b then a else b
  }
}
