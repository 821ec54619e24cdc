/** The math helpers: a scalar clamp and two builders that fill a 4x4
    column-major matrix buffer of 16 entries.

    The native code works on single-precision floats; this model uses exact
    real arithmetic. A buffer is a sequence of reals. A builder writes entries
    0..15 of the buffer it is given and returns that buffer. Entries past 15,
    when the buffer is longer, are left as they were.
 */
module Utility {

  /** The number of entries a 4x4 matrix occupies. */
  const MatrixSize: int := 16

  /** The larger and smaller of two reals, used as a reference for clamp. */
  function Max(a: real, b: real): real { if a < b then b else a }
  function Min(a: real, b: real): real { if a < b then a else b }

  /** clamp: a value below min gives min; failing that, a value above max
      gives max; otherwise the value itself. The lower bound is tested first,
      so with min > max every value at or above min gives max. */
  function Clamp(value: real, min: real, max: real): (r: real)
    ensures value < min ==> r == min
    ensures min <= value && max < value ==> r == max
    ensures min <= value <= max ==> r == value
  {
    if value < min then min
    else if value > max then max
    else value
  }

  /** With ordered bounds the result lies between them. */
  lemma ClampInRange(value: real, min: real, max: real)
    requires min <= max
    ensures min <= Clamp(value, min, max) <= max
  {
  }

  /** With ordered bounds clamp agrees with the usual max(min, min(value, max)). */
  lemma ClampIsMaxOfMin(value: real, min: real, max: real)
    requires min <= max
    ensures Clamp(value, min, max) == Max(min, Min(value, max))
  {
  }

  /** With ordered bounds a value is returned unchanged exactly when it already
      lies between them. */
  lemma ClampFixedPoints(value: real, min: real, max: real)
    requires min <= max
    ensures Clamp(value, min, max) == value <==> min <= value <= max
  {
  }

  /** With ordered bounds clamping twice is clamping once. */
  lemma ClampIdempotent(value: real, min: real, max: real)
    requires min <= max
    ensures Clamp(Clamp(value, min, max), min, max) == Clamp(value, min, max)
  {
  }

  /** With ordered bounds clamp never reverses the order of two values. */
  lemma ClampMonotone(a: real, b: real, min: real, max: real)
    requires min <= max && a <= b
    ensures Clamp(a, min, max) <= Clamp(b, min, max)
  {
  }

  /** With inverted bounds the result is min for values below min and max for
      all others: it never lies between the bounds, because there is nothing
      between them. */
  lemma ClampInvertedBounds(value: real, min: real, max: real)
    requires max < min
    ensures Clamp(value, min, max) == if value < min then min else max
  {
  }

  // ---------------------------------------------------------------------------
  // Matrices
  // ---------------------------------------------------------------------------

  /** The buffer after the sixteen matrix entries have been written into it. */
  function Overwrite(out: seq<real>, m: seq<real>): (r: seq<real>)
    requires |out| >= MatrixSize && |m| == MatrixSize
    ensures |r| == |out|
    ensures forall i :: 0 <= i < MatrixSize ==> r[i] == m[i]
    ensures r[MatrixSize..] == out[MatrixSize..]
  {
    m + out[MatrixSize..]
  }

  /** The entries of a matrix that lie on its diagonal: 0, 5, 10 and 15. */
  predicate OnDiagonal(i: int) {
    0 <= i < MatrixSize && i % 5 == 0
  }

  /** buildIdentityMatrix: one on the diagonal, zero at the twelve other
      entries, the rest of the buffer untouched. */
  function BuildIdentityMatrix(out: seq<real>): (r: seq<real>)
    requires |out| >= MatrixSize
    ensures |r| == |out| && r[MatrixSize..] == out[MatrixSize..]
    ensures forall i :: 0 <= i < MatrixSize ==> r[i] == if OnDiagonal(i) then 1.0 else 0.0
  {
    Overwrite(out, [1.0, 0.0, 0.0, 0.0,
                    0.0, 1.0, 0.0, 0.0,
                    0.0, 0.0, 1.0, 0.0,
                    0.0, 0.0, 0.0, 1.0])
  }

  /** The entries buildOrthographicMatrix leaves at zero. Entry 11 is not one
      of them: it receives the depth translation. Entry 14 is. */
  predicate OrthoZeroEntry(i: int) {
    i in {1, 2, 3, 4, 6, 7, 8, 9, 12, 13, 14}
  }

  /** buildOrthographicMatrix, as written. The horizontal half-extent is
      halfHeight * aspect. Entry 0 is its reciprocal and entry 5 the reciprocal
      of halfHeight. Entry 10 is -2/(far - near) and entry 11 is
      -(far + near)/(far - near). Entry 15 is one and the eleven others are
      zero. The native code divides without a guard; over the reals the three
      divisors must be non-zero. */
  function BuildOrthographicMatrix(out: seq<real>, halfHeight: real, aspect: real, near: real, far: real): (r: seq<real>)
    requires |out| >= MatrixSize
    requires halfHeight != 0.0 && aspect != 0.0 && far != near
    ensures |r| == |out| && r[MatrixSize..] == out[MatrixSize..]
    ensures r[0] * (halfHeight * aspect) == 1.0
    ensures r[5] * halfHeight == 1.0
    ensures r[10] * (far - near) == -2.0
    ensures r[11] * (far - near) == -(far + near)
    ensures r[15] == 1.0
    ensures forall i :: 0 <= i < MatrixSize && OrthoZeroEntry(i) ==> r[i] == 0.0
  {
    var halfWidth := halfHeight * aspect;
    Overwrite(out, [1.0 / halfWidth, 0.0, 0.0, 0.0,
                    0.0, 1.0 / halfHeight, 0.0, 0.0,
                    0.0, 0.0, -2.0 / (far - near), -(far + near) / (far - near),
                    0.0, 0.0, 0.0, 1.0])
  }

  /** The orthographic matrix with the depth translation in entry 14, the
      fourth column's third row, where the column-major OpenGL layout expects
      it. Entry 11 is zero. Every other entry is as in BuildOrthographicMatrix. */
  function BuildOrthographicMatrixCorrected(out: seq<real>, halfHeight: real, aspect: real, near: real, far: real): (r: seq<real>)
    requires |out| >= MatrixSize
    requires halfHeight != 0.0 && aspect != 0.0 && far != near
    ensures |r| == |out| && r[MatrixSize..] == out[MatrixSize..]
    ensures r[0] * (halfHeight * aspect) == 1.0
    ensures r[5] * halfHeight == 1.0
    ensures r[10] * (far - near) == -2.0
    ensures r[14] * (far - near) == -(far + near)
    ensures r[11] == 0.0 && r[15] == 1.0
    ensures forall i :: 0 <= i < MatrixSize && i != 11 && i != 14 ==>
      r[i] == BuildOrthographicMatrix(out, halfHeight, aspect, near, far)[i]
  {
    var halfWidth := halfHeight * aspect;
    Overwrite(out, [1.0 / halfWidth, 0.0, 0.0, 0.0,
                    0.0, 1.0 / halfHeight, 0.0, 0.0,
                    0.0, 0.0, -2.0 / (far - near), 0.0,
                    0.0, 0.0, -(far + near) / (far - near), 1.0])
  }

  /** A point in homogeneous coordinates. */
  datatype Vec4 = Vec4(x: real, y: real, z: real, w: real)

  /** Multiplies a column-major matrix by a column vector: entry 4*c + r of the
      buffer is row r of column c. This is how the projection uniform is read
      when it is uploaded without transposition. */
  function Transform(m: seq<real>, v: Vec4): Vec4
    requires |m| >= MatrixSize
  {
    Vec4(m[0] * v.x + m[4] * v.y + m[8] * v.z + m[12] * v.w,
         m[1] * v.x + m[5] * v.y + m[9] * v.z + m[13] * v.w,
         m[2] * v.x + m[6] * v.y + m[10] * v.z + m[14] * v.w,
         m[3] * v.x + m[7] * v.y + m[11] * v.z + m[15] * v.w)
  }

  /** The corrected matrix is an orthographic projection: a point on the near
      plane (z = -near) lands at depth -1, a point on the far plane at depth +1,
      the homogeneous coordinate stays 1, and x and y are scaled by the
      reciprocal half-extents. */
  lemma CorrectedOrthoMapsDepthRange(out: seq<real>, halfHeight: real, aspect: real, near: real, far: real, x: real, y: real)
    requires |out| >= MatrixSize
    requires halfHeight != 0.0 && aspect != 0.0 && far != near
    ensures Transform(BuildOrthographicMatrixCorrected(out, halfHeight, aspect, near, far), Vec4(x, y, -near, 1.0)).z == -1.0
    ensures Transform(BuildOrthographicMatrixCorrected(out, halfHeight, aspect, near, far), Vec4(x, y, -far, 1.0)).z == 1.0
    ensures Transform(BuildOrthographicMatrixCorrected(out, halfHeight, aspect, near, far), Vec4(x, y, -near, 1.0)).w == 1.0
    ensures Transform(BuildOrthographicMatrixCorrected(out, halfHeight, aspect, near, far), Vec4(x, y, -far, 1.0)).w == 1.0
    ensures Transform(BuildOrthographicMatrixCorrected(out, halfHeight, aspect, near, far), Vec4(x, y, -near, 1.0)).x * (halfHeight * aspect) == x
    ensures Transform(BuildOrthographicMatrixCorrected(out, halfHeight, aspect, near, far), Vec4(x, y, -near, 1.0)).y * halfHeight == y
  {
    var m := BuildOrthographicMatrixCorrected(out, halfHeight, aspect, near, far);
    DepthTermsCombine(m[10], m[14], near, far);
  }

  /** The algebra behind the depth mapping: with a = -2/(far - near) and
      b = -(far + near)/(far - near), a*(-near) + b is -1 and a*(-far) + b is 1. */
  lemma DepthTermsCombine(a: real, b: real, near: real, far: real)
    requires far != near
    requires a * (far - near) == -2.0 && b * (far - near) == -(far + near)
    ensures a * -near + b == -1.0
    ensures a * -far + b == 1.0
  {
  }

  /** As written, the depth translation sits in entry 11, the fourth row of
      the third column, so it feeds the homogeneous coordinate instead of
      depth. With near = 1 and far = 3 a point on the near plane gets depth 1
      and homogeneous coordinate 3, so after the perspective divide it lands
      at depth 1/3 rather than -1. */
  lemma OrthoAsWrittenMisplacesNearPlane()
    ensures Transform(BuildOrthographicMatrix(seq(16, _ => 0.0), 1.0, 1.0, 1.0, 3.0), Vec4(0.0, 0.0, -1.0, 1.0)) == Vec4(0.0, 0.0, 1.0, 3.0)
    ensures Transform(BuildOrthographicMatrixCorrected(seq(16, _ => 0.0), 1.0, 1.0, 1.0, 3.0), Vec4(0.0, 0.0, -1.0, 1.0)) == Vec4(0.0, 0.0, -1.0, 1.0)
  {
  }

  /** As written, every point off the plane z = 0 gets a homogeneous
      coordinate other than 1 unless near = -far. */
  lemma OrthoAsWrittenSkewsHomogeneous(out: seq<real>, halfHeight: real, aspect: real, near: real, far: real, v: Vec4)
    requires |out| >= MatrixSize
    requires halfHeight != 0.0 && aspect != 0.0 && far != near
    requires v.w == 1.0 && v.z != 0.0
    ensures Transform(BuildOrthographicMatrix(out, halfHeight, aspect, near, far), v).w == 1.0 <==> far + near == 0.0
  {
  }

  /** The worked example: half-height 1, aspect 1, near 0.1, far 100 gives
      ones in entries 0, 5 and 15, -2/99.9 in entry 10 and -100.1/99.9 in
      entry 11. */
  lemma OrthoWorkedExample(out: seq<real>)
    requires |out| >= MatrixSize
    ensures var m := BuildOrthographicMatrix(out, 1.0, 1.0, 0.1, 100.0);
      m[0] == 1.0 && m[5] == 1.0 && m[10] == -2.0 / 99.9 && m[11] == -100.1 / 99.9 && m[15] == 1.0
  {
  }

  /** The identity and orthographic builders agree on the shape they share:
      zero off the diagonal in the first, second and fourth columns, and one in
      entry 15. With halfHeight = aspect = 1 the first two diagonal entries
      agree too. */
  lemma OrthoSharesIdentityShape(out: seq<real>, near: real, far: real)
    requires |out| >= MatrixSize && far != near
    ensures var o := BuildOrthographicMatrix(out, 1.0, 1.0, near, far);
      var e := BuildIdentityMatrix(out);
      forall i :: 0 <= i < MatrixSize && i != 10 && i != 11 ==> o[i] == e[i]
  {
  }

  /** The identity matrix leaves every point where it is. */
  lemma IdentityFixesPoints(out: seq<real>, v: Vec4)
    requires |out| >= MatrixSize
    ensures Transform(BuildIdentityMatrix(out), v) == v
  {
  }

  // ---------------------------------------------------------------------------
  // The builders on a caller's buffer
  // ---------------------------------------------------------------------------

  /** buildIdentityMatrix on the caller's buffer: writes the sixteen entries in
      place and returns the same buffer. */
  method BuildIdentityInto(buffer: array<real>) returns (r: array<real>)
    requires buffer.Length >= MatrixSize
    modifies buffer
    ensures r == buffer
    ensures buffer[..] == BuildIdentityMatrix(old(buffer[..]))
  {
    var m := BuildIdentityMatrix(buffer[..]);
    forall i | 0 <= i < MatrixSize {
      buffer[i] := m[i];
    }
    assert buffer[..] == m;
    r := buffer;
  }

  /** buildOrthographicMatrix on the caller's buffer: writes the sixteen
      entries in place and returns the same buffer. */
  method BuildOrthographicInto(buffer: array<real>, halfHeight: real, aspect: real, near: real, far: real) returns (r: array<real>)
    requires buffer.Length >= MatrixSize
    requires halfHeight != 0.0 && aspect != 0.0 && far != near
    modifies buffer
    ensures r == buffer
    ensures buffer[..] == BuildOrthographicMatrix(old(buffer[..]), halfHeight, aspect, near, far)
  {
    var m := BuildOrthographicMatrix(buffer[..], halfHeight, aspect, near, far);
    forall i | 0 <= i < MatrixSize {
      buffer[i] := m[i];
    }
    assert buffer[..] == m;
    r := buffer;
  }
}
