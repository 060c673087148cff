/** The small slice of vector and matrix arithmetic the scene code relies on.
    Numbers are reals: floating-point rounding is not modelled.  Matrices are
    stored column by column, as the linear-algebra library the program uses
    lays out its 16-element arrays. */
module Geometry {

  datatype Vec3 = Vec3(x: real, y: real, z: real)

  datatype Vec4 = Vec4(x: real, y: real, z: real, w: real)

  /** A 4x4 matrix given by its four columns. */
  datatype Mat4 = Mat4(c0: Vec4, c1: Vec4, c2: Vec4, c3: Vec4)

  function Add(a: Vec3, b: Vec3): Vec3 {
    Vec3(a.x + b.x, a.y + b.y, a.z + b.z)
  }

  function Sub(a: Vec3, b: Vec3): Vec3 {
    Vec3(a.x - b.x, a.y - b.y, a.z - b.z)
  }

  /** Componentwise product, the library's `multiply` on 3-vectors. */
  function Mul(a: Vec3, b: Vec3): Vec3 {
    Vec3(a.x * b.x, a.y * b.y, a.z * b.z)
  }

  function Splat(s: real): Vec3 {
    Vec3(s, s, s)
  }

  function Dot(a: Vec3, b: Vec3): real {
    a.x * b.x + a.y * b.y + a.z * b.z
  }

  /** The homogeneous point (p, 1). */
  function Point(p: Vec3): Vec4 {
    Vec4(p.x, p.y, p.z, 1.0)
  }

  /** The first three components of a 4-vector. */
  function Xyz(v: Vec4): Vec3 {
    Vec3(v.x, v.y, v.z)
  }

  /** Matrix times column vector, the library's `transformMat4` on 4-vectors. */
  function Transform(m: Mat4, v: Vec4): Vec4 {
    Vec4(m.c0.x * v.x + m.c1.x * v.y + m.c2.x * v.z + m.c3.x * v.w,
         m.c0.y * v.x + m.c1.y * v.y + m.c2.y * v.z + m.c3.y * v.w,
         m.c0.z * v.x + m.c1.z * v.y + m.c2.z * v.z + m.c3.z * v.w,
         m.c0.w * v.x + m.c1.w * v.y + m.c2.w * v.z + m.c3.w * v.w)
  }

  /** The product a * b: each column of b carried through a. */
  function MatMul(a: Mat4, b: Mat4): Mat4 {
    Mat4(Transform(a, b.c0), Transform(a, b.c1), Transform(a, b.c2), Transform(a, b.c3))
  }

  const Identity: Mat4 :=
    Mat4(Vec4(1.0, 0.0, 0.0, 0.0), Vec4(0.0, 1.0, 0.0, 0.0),
         Vec4(0.0, 0.0, 1.0, 0.0), Vec4(0.0, 0.0, 0.0, 1.0))

  lemma TransformIdentity(v: Vec4)
    ensures Transform(Identity, v) == v
  {
  }

  /** Multiplying by the identity on either side changes nothing. */
  lemma MatMulIdentity(m: Mat4)
    ensures MatMul(Identity, m) == m
    ensures MatMul(m, Identity) == m
  {
  }
}
