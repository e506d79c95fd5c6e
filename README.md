# Isometric bending constraint

This project models the bending energy function of a cloth simulation. It is
declared in `Assets/Scripts/Simulation/EnergyFunctions/BendingFunction.cs`. A
bending function ties together four particles that form two triangles sharing
an edge: (i0, i1, i2) and (i0, i1, i3). When it is created it stores three things:

- the four particle indices;
- the inverse masses those particles have at that moment;
- a constant 4x4 coefficient matrix Q, computed from the rest positions.

Q is built from these quantities:

- the two triangle areas;
- four cotangent weights C01..C04 of the angles between the shared edge and the other edges;
- the vector K = (C01 + C04, C02 + C03, -C01 - C02, -C03 - C04) and its reversal KT;
- a nested loop that fills the diagonal with K[i] * KT[i] and the entries below and above it with factor * K[i] * KT[j], where factor = 3 / (area0 + area1).

`vectors.dfy` holds real-valued stand-ins for the engine's Vector3 and Vector4
value types. `bending.dfy` holds the constraint itself:

- `Create`, the constructor and `GetParticles`;
- both inner products and the triangle area;
- the construction of Q. `LocalHessianEnergy` computes the inputs, and `FillHessian` runs the in-place fill loop on a local 4x4 array.

The matrix is returned as a value because the engine's Matrix4x4 is a value
type. `HessianOf` gives Q entry by entry. The lemmas after it state what the
loop builds:

- K sums to zero, and KT is K reversed;
- Q is symmetric;
- the diagonal carries no factor;
- every entry is written exactly once;
- the actual row sums;
- Q is invariant under translation of the rest positions.

A discrete bending operator is expected to have zero row sums, so that a rigid
translation of the four particles costs no energy. The Q that this code builds
does not have them, even though K's components cancel:

- rows 0 and 3 sum to K[0] * K[3] * (1 - factor), which is zero only when factor is 1 or K[0] * K[3] is zero;
- rows 1 and 2 sum to K[1] * K[2] * (1 - factor) + factor * (K[1] * K[3] - K[0] * K[2]), which is in general non-zero even when factor is 1.

The reason is that an entry above the diagonal holds the value computed for its
mirror position below it. `RowSumNotZero` gives a concrete family of cotangent
weights with a non-zero row sum.

## Model

| member | source | states |
|---|---|---|
| Bending.Create | Assets/Scripts/Simulation/EnergyFunctions/BendingFunction.cs:52-62 | Creation stores the indices in stencil order and snapshots the four inverse masses in the same order. The stored Q is the rest-shape matrix of the current positions. |
| Bending.GetParticles | Assets/Scripts/Simulation/EnergyFunctions/BendingFunction.cs:65-68 | The result has four entries, and they are the stored indices in order. Together with `Create` this gives [i0, i1, i2, i3]. |
| Bending.TriangleArea | Assets/Scripts/Simulation/EnergyFunctions/BendingFunction.cs:70-73 | The area is never negative. It is zero exactly when the cross product of the two edges leaving i0 vanishes. |
| Bending.MagnitudeZero | Assets/Scripts/Simulation/EnergyFunctions/BendingFunction.cs:72 | A vector magnitude, taken as a non-negative square root of the inner product, is non-negative. It is zero exactly for the zero vector. |
| Bending.InnerProduct4 | Assets/Scripts/Simulation/EnergyFunctions/BendingFunction.cs:80-83 | V^T V of a 4-vector is never negative. |
| Bending.InnerProduct4Zero | Assets/Scripts/Simulation/EnergyFunctions/BendingFunction.cs:80-83 | V^T V of a 4-vector is zero if and only if the vector is zero. |
| Bending.InnerProduct3 | Assets/Scripts/Simulation/EnergyFunctions/BendingFunction.cs:90-93 | V^T V of a 3-vector is never negative. |
| Bending.InnerProduct3Zero | Assets/Scripts/Simulation/EnergyFunctions/BendingFunction.cs:90-93 | V^T V of a 3-vector is zero if and only if the vector is zero. |
| Bending.KVector | Assets/Scripts/Simulation/EnergyFunctions/BendingFunction.cs:118 | The components of K sum to zero for any four cotangent weights. |
| Bending.KTVector | Assets/Scripts/Simulation/EnergyFunctions/BendingFunction.cs:119 | KT[i] is K[3 - i] for every i. |
| Bending.KTReversal | Assets/Scripts/Simulation/EnergyFunctions/BendingFunction.cs:119 | Reversing KT gives K back, and KT has the same component sum as K. |
| Bending.HessianOf | Assets/Scripts/Simulation/EnergyFunctions/BendingFunction.cs:121-127 | Q is a 4x4 matrix. |
| Bending.FillHessian | Assets/Scripts/Simulation/EnergyFunctions/BendingFunction.cs:121-127 | The fill loop leaves exactly the closed-form Q and writes each of the 16 entries exactly once. Its loop invariant says that before row i the leading i x i block is final and the rest is still zero. |
| Bending.LocalHessianEnergy | Assets/Scripts/Simulation/EnergyFunctions/BendingFunction.cs:100-130 | The method returns the rest Q of the stencil, built from its two areas, its five edges and its cotangent weights. Every entry is written exactly once. |
| Bending.RestHessian | Assets/Scripts/Simulation/EnergyFunctions/BendingFunction.cs:100-130 | The rest Q of a stencil is a 4x4 matrix. |
| Bending.HessianSymmetric | Assets/Scripts/Simulation/EnergyFunctions/BendingFunction.cs:123-127 | Q[i][j] equals Q[j][i] for every K and every factor. |
| Bending.HessianDiagonal | Assets/Scripts/Simulation/EnergyFunctions/BendingFunction.cs:124 | Q[i][i] is K[i] * K[3 - i], without the factor. |
| Bending.HessianOffDiagonal | Assets/Scripts/Simulation/EnergyFunctions/BendingFunction.cs:125-126 | For j < i, both Q[i][j] and Q[j][i] are factor * K[i] * KT[j]. |
| Bending.HessianOuterRowSums | Assets/Scripts/Simulation/EnergyFunctions/BendingFunction.cs:118-127 | When K sums to zero, rows 0 and 3 of Q each sum to K[0] * K[3] * (1 - factor). |
| Bending.HessianInnerRowSums | Assets/Scripts/Simulation/EnergyFunctions/BendingFunction.cs:118-127 | When K sums to zero, rows 1 and 2 of Q each sum to K[1] * K[2] * (1 - factor) + factor * (K[1] * K[3] - K[0] * K[2]). |
| Bending.RowSumNotZero | Assets/Scripts/Simulation/EnergyFunctions/BendingFunction.cs:118-127 | With cotangent weights (c, 0, 0, 0), row 1 of Q sums to factor * c * c. So Q's rows do not sum to zero in general. |
| Bending.FactorDefined | Assets/Scripts/Simulation/EnergyFunctions/BendingFunction.cs:102-116 | The divisor of factor is non-zero exactly when at least one of the two rest triangles is non-degenerate. |
| Bending.RestHessianTranslationInvariant | Assets/Scripts/Simulation/EnergyFunctions/BendingFunction.cs:100-119 | Moving every rest position by the same offset leaves the stencil in range, the area sum unchanged and Q unchanged. |

## Left out

- `solve` is not modelled: its body is empty, so it has no behaviour to state.
- The cotangent weights `1 / tan(angle(a, b))` are a parameter `cotAngle`. The trigonometry, the degree/radian handling of the angle, and the infinite weight at a zero angle are not modelled.
- The vector magnitude is a parameter. It is assumed to be a non-negative square root of the inner product.
- Single-precision arithmetic is modelled with exact reals. The model has no rounding, NaN or infinities.
- LocalHessianEnergy: an area sum of zero makes the source's `3 / (area0 + area1)` evaluate to an infinite factor. The model instead requires a non-zero area sum of its callers. `FactorDefined` characterises when that holds.
- Create: indices outside the position or inverse-mass arrays raise an exception in the source. The model requires in-range indices instead.
- GetParticles: the source returns its internal index array by reference, so callers can overwrite the stored indices while Q stays as it was; the model returns a value, so this aliasing is not captured.
- The separately stored copies of the indices (`i0`..`i3`) and of the inverse masses (`invM0`..`invM3`) are not modelled. Nothing in the file reads them, and the arrays hold the same values.
- The particle model, the energy function base type and the engine's vector and matrix types are stand-ins. They hold only the fields and operations used here.
- Zero energy at the rest shape, and the handling of pinned particles, are not modelled. The file computes no energy or correction that they could be stated about.
