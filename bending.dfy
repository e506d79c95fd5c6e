/**
 * The discrete isometric bending constraint between two triangles that share
 * an edge:
 *
 *        i2
 *       /  \
 *     i0 -- i1
 *       \  /
 *        i3
 *
 * A constraint snapshots the four particle indices and their inverse masses,
 * and a constant 4x4 coefficient matrix Q built from the rest positions:
 * K = (C01 + C04, C02 + C03, -C01 - C02, -C03 - C04) from four cotangent
 * weights, KT = K reversed, Q[i,i] = K[i] * KT[i] and, for j < i,
 * Q[i,j] = Q[j,i] = factor * K[i] * KT[j] with factor = 3 / (area0 + area1).
 *
 * Single-precision floats are modelled as reals. The engine's vector magnitude
 * (a square root) and the cotangent of the angle between two edge vectors
 * (`1 / tan(angle(a, b))`) are foreign computations; they are parameters here.
 */
module Bending {
  import opened Vectors

  /** The particle store the constraint reads from: positions and inverse masses by particle id. */
  datatype ParticleModel = ParticleModel(positions: seq<Vec3>, inverseMasses: seq<real>)

  /** A 4x4 matrix as rows of entries; `m[i][j]` is the entry in row i, column j. */
  type Matrix = seq<seq<real>>

  predicate Is4x4(m: Matrix)
  {
    |m| == 4 && forall i :: 0 <= i < 4 ==> |m[i]| == 4
  }

  /** The constraint: its stencil's indices, their inverse masses, and Q. Nothing in the file changes it after creation. */
  datatype BendingFunction = BendingFunction(particles: seq<int>, inverseMasses: seq<real>, q: Matrix)

  predicate Valid(bf: BendingFunction)
  {
    |bf.particles| == 4 && |bf.inverseMasses| == 4 && Is4x4(bf.q)
  }

  /** The stored particle indices, in stencil order. */
  function GetParticles(bf: BendingFunction): (r: seq<int>)
    requires Valid(bf)
    ensures |r| == 4 && forall k :: 0 <= k < 4 ==> r[k] == bf.particles[k]
  {
    bf.particles
  }

  // ---------------------------------------------------------------------------
  // Inner products and areas

  /** `v^T v` of a 4-vector: the sum of the squares of its components. */
  function InnerProduct4(v: Vec4): (r: real)
    ensures r >= 0.0
  {
    Square(v.w) + Square(v.x) + Square(v.y) + Square(v.z)
  }

  /** `v^T v` of a 3-vector: the sum of the squares of its components. */
  function InnerProduct3(v: Vec3): (r: real)
    ensures r >= 0.0
  {
    Square(v.x) + Square(v.y) + Square(v.z)
  }

  /** `a * a`, never negative. */
  function Square(a: real): (r: real)
    ensures r >= 0.0
  {
    a * a
  }

  /** Only zero squares to zero. */
  lemma SquarePositive(a: real)
    requires a != 0.0
    ensures Square(a) > 0.0
  {
    if a > 0.0 {
      PositiveSquare(a);
    } else {
      NegativeSquare(a);
    }
  }

  lemma PositiveSquare(a: real)
    requires a > 0.0
    ensures Square(a) > 0.0
  {
    calc {
      Square(a);
      == a * a;
      > { PositiveProduct(a, a); }
      0.0;
    }
  }

  lemma NegativeSquare(a: real)
    requires a < 0.0
    ensures Square(a) > 0.0
  {
    calc {
      Square(a);
      == a * a;
      == (-a) * (-a);
      > { PositiveProduct(-a, -a); }
      0.0;
    }
  }

  lemma PositiveProduct(a: real, b: real)
    requires a > 0.0 && b > 0.0
    ensures a * b > 0.0
  {
  }

  /** `v^T v` of a 4-vector is zero exactly for the zero vector. */
  lemma InnerProduct4Zero(v: Vec4)
    ensures InnerProduct4(v) == 0.0 <==> v == Zero4
  {
    if v != Zero4 {
      assert v.w != 0.0 || v.x != 0.0 || v.y != 0.0 || v.z != 0.0;
      if v.w != 0.0 { SquarePositive(v.w); }
      else if v.x != 0.0 { SquarePositive(v.x); }
      else if v.y != 0.0 { SquarePositive(v.y); }
      else { SquarePositive(v.z); }
    }
  }

  /** `v^T v` of a 3-vector is zero exactly for the zero vector. */
  lemma InnerProduct3Zero(v: Vec3)
    ensures InnerProduct3(v) == 0.0 <==> v == Zero3
  {
    if v != Zero3 {
      assert v.x != 0.0 || v.y != 0.0 || v.z != 0.0;
      if v.x != 0.0 { SquarePositive(v.x); }
      else if v.y != 0.0 { SquarePositive(v.y); }
      else { SquarePositive(v.z); }
    }
  }

  /** What is assumed of the engine's vector magnitude: a non-negative square root of `v^T v`. */
  ghost predicate IsMagnitude(magnitude: Vec3 -> real)
  {
    forall v :: 0.0 <= magnitude(v) && Square(magnitude(v)) == InnerProduct3(v)
  }

  /** A magnitude is never negative, and it is zero exactly for the zero vector. */
  lemma MagnitudeZero(magnitude: Vec3 -> real, v: Vec3)
    requires IsMagnitude(magnitude)
    ensures magnitude(v) >= 0.0
    ensures magnitude(v) == 0.0 <==> v == Zero3
  {
    var n := magnitude(v);
    assert 0.0 <= n && Square(n) == InnerProduct3(v);
    InnerProduct3Zero(v);
    if n != 0.0 {
      SquarePositive(n);
    } else {
      assert Square(0.0) == 0.0;
    }
  }

  predicate InRange(positions: seq<Vec3>, i: int)
  {
    0 <= i < |positions|
  }

  /** The cross product of the two edges of triangle (i0, i1, i2) that leave i0. */
  function EdgeCross(i0: int, i1: int, i2: int, positions: seq<Vec3>): Vec3
    requires InRange(positions, i0) && InRange(positions, i1) && InRange(positions, i2)
  {
    Cross(Sub(positions[i1], positions[i0]), Sub(positions[i2], positions[i0]))
  }

  /**
   * Half the magnitude of the edge cross product. It is never negative, and it
   * is zero exactly when the cross product vanishes (a degenerate triangle).
   */
  function TriangleArea(i0: int, i1: int, i2: int, positions: seq<Vec3>, magnitude: Vec3 -> real): (r: real)
    requires InRange(positions, i0) && InRange(positions, i1) && InRange(positions, i2)
    requires IsMagnitude(magnitude)
    ensures r >= 0.0
    ensures r == 0.0 <==> EdgeCross(i0, i1, i2, positions) == Zero3
  {
    var c := EdgeCross(i0, i1, i2, positions);
    MagnitudeZero(magnitude, c);
    0.5 * magnitude(c)
  }

  // ---------------------------------------------------------------------------
  // The stencil's rest geometry

  predicate StencilInRange(i0: int, i1: int, i2: int, i3: int, positions: seq<Vec3>)
  {
    InRange(positions, i0) && InRange(positions, i1) && InRange(positions, i2) && InRange(positions, i3)
  }

  /** The sum of the two rest-triangle areas that `factor` divides by. */
  function AreaSum(i0: int, i1: int, i2: int, i3: int, positions: seq<Vec3>, magnitude: Vec3 -> real): real
    requires StencilInRange(i0, i1, i2, i3, positions) && IsMagnitude(magnitude)
  {
    TriangleArea(i0, i1, i2, positions, magnitude) + TriangleArea(i0, i1, i3, positions, magnitude)
  }

  /** The normalisation `3 / (area0 + area1)`. */
  function Factor(area0: real, area1: real): real
    requires area0 + area1 != 0.0
  {
    3.0 / (area0 + area1)
  }

  /** The coefficient vector K; its components cancel for any cotangent weights. */
  function KVector(c01: real, c02: real, c03: real, c04: real): (k: Vec4)
    ensures k.Sum() == 0.0
  {
    Vec4(c01 + c04, c02 + c03, -c01 - c02, -c03 - c04)
  }

  /** KT, the components of K in reverse order. */
  function KTVector(k: Vec4): (kt: Vec4)
    ensures forall i :: 0 <= i < 4 ==> kt.At(i) == k.At(3 - i)
  {
    Vec4(k.At(3), k.At(2), k.At(1), k.At(0))
  }

  /**
   * K of the stencil: the cotangent weights of the angles between the shared
   * edge e0 = p1 - p0 and each of e1 = p2 - p1, e2 = p0 - p2, e3 = p3 - p0 and
   * e4 = p1 - p3.
   */
  function StencilK(i0: int, i1: int, i2: int, i3: int, positions: seq<Vec3>, cotAngle: (Vec3, Vec3) -> real): Vec4
    requires StencilInRange(i0, i1, i2, i3, positions)
  {
    var p0, p1, p2, p3 := positions[i0], positions[i1], positions[i2], positions[i3];
    var e0 := Sub(p1, p0);
    KVector(cotAngle(e0, Sub(p2, p1)), cotAngle(e0, Sub(p0, p2)), cotAngle(e0, Sub(p3, p0)), cotAngle(e0, Sub(p1, p3)))
  }

  // ---------------------------------------------------------------------------
  // The coefficient matrix

  /**
   * Entry (i, j) of Q in closed form: the diagonal carries no factor, and an
   * off-diagonal entry holds the value the fill loop computes for its
   * lower-triangle position (row max(i, j), column min(i, j)).
   */
  function HessianEntry(k: Vec4, factor: real, i: int, j: int): real
    requires 0 <= i < 4 && 0 <= j < 4
  {
    var kt := KTVector(k);
    if i == j then k.At(i) * kt.At(i)
    else if j < i then factor * k.At(i) * kt.At(j)
    else factor * k.At(j) * kt.At(i)
  }

  /** Q as a value, entry by entry. */
  function HessianOf(k: Vec4, factor: real): (q: Matrix)
    ensures Is4x4(q)
  {
    seq(4, i requires 0 <= i < 4 => seq(4, j requires 0 <= j < 4 => HessianEntry(k, factor, i, j)))
  }

  /**
   * The entries the fill loop has written once its outer loop is at row i and
   * its inner loop at column j: the leading i x i block, the diagonal entry
   * (i, i), and the first j entries of row i and of column i.
   */
  ghost predicate Filled(i: int, j: int, r: int, c: int)
  {
    (r < i && c < i) || (r == i && c == i) || (r == i && c < j) || (c == i && r < j)
  }

  /** Q of the stencil at the given rest positions, as LocalHessianEnergy builds it. */
  function RestHessian(i0: int, i1: int, i2: int, i3: int, positions: seq<Vec3>,
                       magnitude: Vec3 -> real, cotAngle: (Vec3, Vec3) -> real): (q: Matrix)
    requires StencilInRange(i0, i1, i2, i3, positions) && IsMagnitude(magnitude)
    requires AreaSum(i0, i1, i2, i3, positions, magnitude) != 0.0
    ensures Is4x4(q)
  {
    HessianOf(StencilK(i0, i1, i2, i3, positions, cotAngle),
              Factor(TriangleArea(i0, i1, i2, positions, magnitude), TriangleArea(i0, i1, i3, positions, magnitude)))
  }

  /** The write counts `w` with entry (r, c) incremented. */
  ghost function Bump(w: seq<seq<nat>>, r: int, c: int): seq<seq<nat>>
    requires 0 <= r < |w| && 0 <= c < |w[r]|
  {
    w[r := w[r][c := w[r][c] + 1]]
  }

  /**
   * The nested fill loop: Q starts all zero and each entry is written in
   * place; the ghost `writes` counts, per entry, how often it was written.
   */
  method FillHessian(k: Vec4, kt: Vec4, factor: real) returns (q: Matrix, ghost writes: seq<seq<nat>>)
    requires kt == KTVector(k)
    ensures q == HessianOf(k, factor)
    ensures |writes| == 4 && forall i :: 0 <= i < 4 ==> |writes[i]| == 4
    ensures forall i, j :: 0 <= i < 4 && 0 <= j < 4 ==> writes[i][j] == 1
  {
    var m := new real[4, 4]((r, c) => 0.0);
    ghost var target := HessianOf(k, factor);
    ghost var w: seq<seq<nat>> := seq(4, r => seq(4, c => 0));

    for i := 0 to 4
      invariant |w| == 4 && forall r :: 0 <= r < 4 ==> |w[r]| == 4
      invariant forall r, c :: 0 <= r < 4 && 0 <= c < 4 ==>
        m[r, c] == (if r < i && c < i then target[r][c] else 0.0)
      invariant forall r, c :: 0 <= r < 4 && 0 <= c < 4 ==>
        w[r][c] == (if r < i && c < i then 1 else 0)
    {
      var d := k.At(i) * kt.At(i);
      assert d == target[i][i];
      m[i, i] := d;
      w := Bump(w, i, i);
      for j := 0 to i
        invariant |w| == 4 && forall r :: 0 <= r < 4 ==> |w[r]| == 4
        invariant forall r, c :: 0 <= r < 4 && 0 <= c < 4 ==>
          m[r, c] == (if Filled(i, j, r, c) then target[r][c] else 0.0)
        invariant forall r, c :: 0 <= r < 4 && 0 <= c < 4 ==>
          w[r][c] == (if Filled(i, j, r, c) then 1 else 0)
      {
        var v := factor * k.At(i) * kt.At(j);
        assert v == target[i][j] == target[j][i];
        m[j, i] := v;
        m[i, j] := v;
        w := Bump(Bump(w, j, i), i, j);
      }
    }

    q := seq(4, r requires 0 <= r < 4 reads m => seq(4, c requires 0 <= c < 4 reads m => m[r, c]));
    assert forall r :: 0 <= r < 4 ==> q[r] == target[r];
    writes := w;
  }

  /**
   * Builds Q for the stencil from the rest positions. The matrix starts all
   * zero and the nested loop writes its entries in place; the ghost `writes`
   * counts, per entry, how often the loop wrote it.
   */
  method LocalHessianEnergy(i0: int, i1: int, i2: int, i3: int, positions: seq<Vec3>,
                            magnitude: Vec3 -> real, cotAngle: (Vec3, Vec3) -> real)
    returns (q: Matrix, ghost writes: seq<seq<nat>>)
    requires StencilInRange(i0, i1, i2, i3, positions) && IsMagnitude(magnitude)
    requires AreaSum(i0, i1, i2, i3, positions, magnitude) != 0.0
    ensures q == RestHessian(i0, i1, i2, i3, positions, magnitude, cotAngle)
    ensures |writes| == 4 && forall i :: 0 <= i < 4 ==> |writes[i]| == 4
    ensures forall i, j :: 0 <= i < 4 && 0 <= j < 4 ==> writes[i][j] == 1
  {
    var area0 := TriangleArea(i0, i1, i2, positions, magnitude);
    var area1 := TriangleArea(i0, i1, i3, positions, magnitude);

    var e0 := Sub(positions[i1], positions[i0]);
    var e1 := Sub(positions[i2], positions[i1]);
    var e2 := Sub(positions[i0], positions[i2]);
    var e3 := Sub(positions[i3], positions[i0]);
    var e4 := Sub(positions[i1], positions[i3]);

    var c01 := cotAngle(e0, e1);
    var c02 := cotAngle(e0, e2);
    var c03 := cotAngle(e0, e3);
    var c04 := cotAngle(e0, e4);

    var factor := 3.0 / (area0 + area1);

    var k := KVector(c01, c02, c03, c04);
    var kt := KTVector(k);

    q, writes := FillHessian(k, kt, factor);
  }

  // ---------------------------------------------------------------------------
  // Creating a constraint

  /**
   * Snapshots the inverse masses of the four particles, builds Q from the
   * current positions and stores both with the indices in stencil order.
   */
  method Create(pm: ParticleModel, i0: int, i1: int, i2: int, i3: int,
                magnitude: Vec3 -> real, cotAngle: (Vec3, Vec3) -> real)
    returns (bf: BendingFunction)
    requires StencilInRange(i0, i1, i2, i3, pm.positions)
    requires 0 <= i0 < |pm.inverseMasses| && 0 <= i1 < |pm.inverseMasses|
    requires 0 <= i2 < |pm.inverseMasses| && 0 <= i3 < |pm.inverseMasses|
    requires IsMagnitude(magnitude)
    requires AreaSum(i0, i1, i2, i3, pm.positions, magnitude) != 0.0
    ensures Valid(bf)
    ensures GetParticles(bf) == [i0, i1, i2, i3]
    ensures bf.inverseMasses == [pm.inverseMasses[i0], pm.inverseMasses[i1], pm.inverseMasses[i2], pm.inverseMasses[i3]]
    ensures bf.q == RestHessian(i0, i1, i2, i3, pm.positions, magnitude, cotAngle)
  {
    var invM0 := pm.inverseMasses[i0];
    var invM1 := pm.inverseMasses[i1];
    var invM2 := pm.inverseMasses[i2];
    var invM3 := pm.inverseMasses[i3];

    var q, _ := LocalHessianEnergy(i0, i1, i2, i3, pm.positions, magnitude, cotAngle);

    bf := BendingFunction([i0, i1, i2, i3], [invM0, invM1, invM2, invM3], q);
  }

  // ---------------------------------------------------------------------------
  // Properties of K, KT and Q

  /** Reversing KT gives K back, and KT sums to zero whenever K does. */
  lemma KTReversal(k: Vec4)
    ensures KTVector(KTVector(k)) == k
    ensures KTVector(k).Sum() == k.Sum()
  {
  }

  /** Q is symmetric, for every K and every factor. */
  lemma HessianSymmetric(k: Vec4, factor: real)
    ensures forall i, j :: 0 <= i < 4 && 0 <= j < 4 ==> HessianOf(k, factor)[i][j] == HessianOf(k, factor)[j][i]
  {
  }

  /** The diagonal of Q is K[i] * K[3 - i], with no factor applied. */
  lemma HessianDiagonal(k: Vec4, factor: real)
    ensures forall i :: 0 <= i < 4 ==> HessianOf(k, factor)[i][i] == k.At(i) * k.At(3 - i)
  {
  }

  /** Below the diagonal Q[i][j] is factor * K[i] * KT[j]; the mirrored entry Q[j][i] holds the same value. */
  lemma HessianOffDiagonal(k: Vec4, factor: real)
    ensures forall i, j :: 0 <= j < i < 4 ==>
      HessianOf(k, factor)[i][j] == factor * k.At(i) * k.At(3 - j) &&
      HessianOf(k, factor)[j][i] == factor * k.At(i) * k.At(3 - j)
  {
    var q := HessianOf(k, factor);
    forall i, j | 0 <= j < i < 4
      ensures q[i][j] == factor * k.At(i) * k.At(3 - j) && q[j][i] == factor * k.At(i) * k.At(3 - j)
    {
      var kt := KTVector(k);
      assert kt.At(j) == k.At(3 - j);
      assert q[i][j] == HessianEntry(k, factor, i, j) == factor * k.At(i) * kt.At(j);
      assert q[j][i] == HessianEntry(k, factor, j, i) == factor * k.At(i) * kt.At(j);
    }
  }

  /** The sum of row i of a 4x4 matrix. */
  function RowSum(m: Matrix, i: int): real
    requires Is4x4(m) && 0 <= i < 4
  {
    m[i][0] + m[i][1] + m[i][2] + m[i][3]
  }

  /**
   * The first and last rows of Q sum to K[0] * K[3] * (1 - factor): they
   * vanish only when factor is 1 or K[0] * K[3] is zero.
   */
  lemma HessianOuterRowSums(k: Vec4, factor: real)
    requires k.Sum() == 0.0
    ensures RowSum(HessianOf(k, factor), 0) == k.x * k.w * (1.0 - factor)
    ensures RowSum(HessianOf(k, factor), 3) == k.x * k.w * (1.0 - factor)
  {
    var q := HessianOf(k, factor);
    var k0, k1, k2, k3, f := k.x, k.y, k.z, k.w, factor;
    assert q[0][0] == k0 * k3 && q[0][1] == f * k1 * k3 && q[0][2] == f * k2 * k3 && q[0][3] == f * k3 * k3;
    assert q[3][0] == f * k3 * k3 && q[3][1] == f * k3 * k2 && q[3][2] == f * k3 * k1 && q[3][3] == k3 * k0;
    OuterRowIdentity(k0, k1, k2, k3, f);
  }

  lemma OuterRowIdentity(k0: real, k1: real, k2: real, k3: real, f: real)
    requires k0 + k1 + k2 + k3 == 0.0
    ensures k0 * k3 + f * k1 * k3 + f * k2 * k3 + f * k3 * k3 == k0 * k3 * (1.0 - f)
    ensures f * k3 * k3 + f * k3 * k2 + f * k3 * k1 + k3 * k0 == k0 * k3 * (1.0 - f)
  {
    calc {
      k0 * k3 + f * k1 * k3 + f * k2 * k3 + f * k3 * k3;
      == k0 * k3 + f * k3 * (k1 + k2 + k3);
      == { assert k1 + k2 + k3 == -k0; }
      k0 * k3 + f * k3 * (-k0);
      == k0 * k3 * (1.0 - f);
    }
    calc {
      f * k3 * k3 + f * k3 * k2 + f * k3 * k1 + k3 * k0;
      == k3 * k0 + f * k3 * (k1 + k2 + k3);
      == { assert k1 + k2 + k3 == -k0; }
      k3 * k0 + f * k3 * (-k0);
      == k0 * k3 * (1.0 - f);
    }
  }

  /**
   * The two middle rows of Q sum to K[1] * K[2] * (1 - factor) +
   * factor * (K[1] * K[3] - K[0] * K[2]): the mirrored entries above the
   * diagonal hold factor * K[j] * KT[i] rather than factor * K[i] * KT[j].
   */
  lemma HessianInnerRowSums(k: Vec4, factor: real)
    requires k.Sum() == 0.0
    ensures RowSum(HessianOf(k, factor), 1) == k.y * k.z * (1.0 - factor) + factor * (k.y * k.w - k.x * k.z)
    ensures RowSum(HessianOf(k, factor), 2) == k.y * k.z * (1.0 - factor) + factor * (k.y * k.w - k.x * k.z)
  {
    var q := HessianOf(k, factor);
    var k0, k1, k2, k3, f := k.x, k.y, k.z, k.w, factor;
    assert q[1][0] == f * k1 * k3 && q[1][1] == k1 * k2 && q[1][2] == f * k2 * k2 && q[1][3] == f * k3 * k2;
    assert q[2][0] == f * k2 * k3 && q[2][1] == f * k2 * k2 && q[2][2] == k2 * k1 && q[2][3] == f * k3 * k1;
    InnerRowIdentity(k0, k1, k2, k3, f);
  }

  lemma InnerRowIdentity(k0: real, k1: real, k2: real, k3: real, f: real)
    requires k0 + k1 + k2 + k3 == 0.0
    ensures f * k1 * k3 + k1 * k2 + f * k2 * k2 + f * k3 * k2 == k1 * k2 * (1.0 - f) + f * (k1 * k3 - k0 * k2)
    ensures f * k2 * k3 + f * k2 * k2 + k2 * k1 + f * k3 * k1 == k1 * k2 * (1.0 - f) + f * (k1 * k3 - k0 * k2)
  {
    calc {
      f * k1 * k3 + k1 * k2 + f * k2 * k2 + f * k3 * k2;
      == k1 * k2 + f * k1 * k3 + f * k2 * (k2 + k3);
      == { assert k2 + k3 == -k0 - k1; }
      k1 * k2 + f * k1 * k3 + f * k2 * (-k0 - k1);
      == k1 * k2 * (1.0 - f) + f * (k1 * k3 - k0 * k2);
    }
    calc {
      f * k2 * k3 + f * k2 * k2 + k2 * k1 + f * k3 * k1;
      == k1 * k2 + f * k1 * k3 + f * k2 * (k2 + k3);
      == { assert k2 + k3 == -k0 - k1; }
      k1 * k2 + f * k1 * k3 + f * k2 * (-k0 - k1);
      == k1 * k2 * (1.0 - f) + f * (k1 * k3 - k0 * k2);
    }
  }

  /**
   * Q does not have zero row sums, even with factor 1: with cotangent weights
   * (c, 0, 0, 0), K is (c, 0, -c, 0) and row 1 of Q sums to factor * c * c,
   * which is non-zero whenever c and factor are.
   */
  lemma RowSumNotZero(c: real, factor: real)
    ensures RowSum(HessianOf(KVector(c, 0.0, 0.0, 0.0), factor), 1) == factor * c * c
  {
    var k := KVector(c, 0.0, 0.0, 0.0);
    assert k == Vec4(c, 0.0, -c, 0.0);
    HessianInnerRowSums(k, factor);
    calc {
      RowSum(HessianOf(k, factor), 1);
      == k.y * k.z * (1.0 - factor) + factor * (k.y * k.w - k.x * k.z);
      == 0.0 * (-c) * (1.0 - factor) + factor * (0.0 * 0.0 - c * (-c));
      == factor * c * c;
    }
  }

  // ---------------------------------------------------------------------------
  // Properties of the rest geometry

  /** `factor` is defined exactly when at least one of the two rest triangles is non-degenerate. */
  lemma FactorDefined(i0: int, i1: int, i2: int, i3: int, positions: seq<Vec3>, magnitude: Vec3 -> real)
    requires StencilInRange(i0, i1, i2, i3, positions) && IsMagnitude(magnitude)
    ensures AreaSum(i0, i1, i2, i3, positions, magnitude) != 0.0 <==>
      (EdgeCross(i0, i1, i2, positions) != Zero3 || EdgeCross(i0, i1, i3, positions) != Zero3)
  {
  }

  /** Every position moved by the same offset t. */
  function Translate(positions: seq<Vec3>, t: Vec3): (r: seq<Vec3>)
    ensures |r| == |positions|
    ensures forall i :: 0 <= i < |r| ==> r[i] == Add(positions[i], t)
  {
    seq(|positions|, i requires 0 <= i < |positions| => Add(positions[i], t))
  }

  /**
   * Q depends only on edge vectors: translating every rest position by the
   * same offset leaves the areas, K and hence Q unchanged.
   */
  lemma RestHessianTranslationInvariant(i0: int, i1: int, i2: int, i3: int, positions: seq<Vec3>, t: Vec3,
                                          magnitude: Vec3 -> real, cotAngle: (Vec3, Vec3) -> real)
    requires StencilInRange(i0, i1, i2, i3, positions) && IsMagnitude(magnitude)
    requires AreaSum(i0, i1, i2, i3, positions, magnitude) != 0.0
    ensures StencilInRange(i0, i1, i2, i3, Translate(positions, t))
    ensures AreaSum(i0, i1, i2, i3, Translate(positions, t), magnitude) == AreaSum(i0, i1, i2, i3, positions, magnitude)
    ensures RestHessian(i0, i1, i2, i3, Translate(positions, t), magnitude, cotAngle) ==
            RestHessian(i0, i1, i2, i3, positions, magnitude, cotAngle)
  {
    var moved := Translate(positions, t);
    var p0, p1, p2, p3 := positions[i0], positions[i1], positions[i2], positions[i3];
    SubTranslated(p1, p0, t);
    SubTranslated(p2, p0, t);
    SubTranslated(p3, p0, t);
    SubTranslated(p2, p1, t);
    SubTranslated(p0, p2, t);
    SubTranslated(p1, p3, t);
    assert EdgeCross(i0, i1, i2, moved) == EdgeCross(i0, i1, i2, positions);
    assert EdgeCross(i0, i1, i3, moved) == EdgeCross(i0, i1, i3, positions);
    assert StencilK(i0, i1, i2, i3, moved, cotAngle) == StencilK(i0, i1, i2, i3, positions, cotAngle);
  }
}
