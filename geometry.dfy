/**
 * Vectors, matrices and the math-library collaborators the renderer uses, over `real`.
 *
 * Matrix builders (glm::inverse, glm::lookAt, glm::ortho, glm::scale and the matrix
 * product) are kept symbolic: a `Mat4` is the term that built it.  Terms built from equal
 * arguments are equal; terms built differently are distinct values even where the
 * matrices they denote agree (`Inverse(Inverse(m))` is not `m`), so no contract of the
 * model states that two matrices differ.  The functions the
 * model cannot evaluate (std::pow, the homogeneous transform with its divide by w,
 * glm::length, glm::normalize) are supplied as the fields of a `Glm` value.
 */
module Geometry {

  datatype Vec3 = Vec3(x: real, y: real, z: real)

  datatype Vec4 = Vec4(x: real, y: real, z: real, w: real)

  function Add(a: Vec3, b: Vec3): Vec3 {
    Vec3(a.x + b.x, a.y + b.y, a.z + b.z)
  }

  function Sub(a: Vec3, b: Vec3): Vec3 {
    Vec3(a.x - b.x, a.y - b.y, a.z - b.z)
  }

  function Times(a: Vec3, s: real): Vec3 {
    Vec3(a.x * s, a.y * s, a.z * s)
  }

  function Div(a: Vec3, s: real): Vec3
    requires s != 0.0
  {
    Vec3(a.x / s, a.y / s, a.z / s)
  }

  /** Unary minus on a homogeneous vector (glm's `-v`). */
  function Neg(v: Vec4): Vec4 {
    Vec4(-v.x, -v.y, -v.z, -v.w)
  }

  /** The conversion glm::vec3(v4): drop the w component. */
  function Xyz(v: Vec4): Vec3 {
    Vec3(v.x, v.y, v.z)
  }

  /** The point a fraction `t` of the way from `a` to `b`, computed as the source does:
      `a + (b - a) * t`. */
  function Lerp(a: Vec3, b: Vec3, t: real): (r: Vec3)
    ensures t == 0.0 ==> r == a
    ensures t == 1.0 ==> r == b
  {
    Add(a, Times(Sub(b, a), t))
  }

  /** A 4x4 matrix, as the term that builds it. */
  datatype Mat4 =
    | Identity                                   // glm::mat4(1.0f)
    | Scaled(m: Mat4, factors: Vec3)             // glm::scale(m, factors)
    | Product(lhs: Mat4, rhs: Mat4)              // lhs * rhs
    | Inverse(m: Mat4)                           // glm::inverse(m)
    | LookAt(eye: Vec3, center: Vec3, up: Vec3)  // glm::lookAt(eye, center, up)
    | Ortho(left: real, right: real, bottom: real, top: real, zNear: real, zFar: real)

  /** The math-library functions the model treats as opaque. */
  datatype Glm = Glm(
    pow: (real, real) -> real,        // std::pow(base, exponent)
    unproject: (Mat4, Vec3) -> Vec3,  // m * vec4(p, 1.0), then divided by its w
    length: Vec3 -> real,             // glm::length
    normalize: Vec4 -> Vec4)          // glm::normalize

  /** The smallest integer not below `x` (std::ceil over the reals). */
  function Ceil(x: real): (n: int)
    ensures x <= n as real < x + 1.0
  {
    -((-x).Floor)
  }
}
