# DragonScale math core in Dafny

This project models the small 3D math library of DragonScale, the `Math` namespace, together with the two projection builders `DS::Frustum` and `DS::Perspective`. It proves properties of that model. Every C++ `float` is an exact Dafny `real`.

- **`vectors.dfy`, module `Vectors`** covers `Math::Vector3`.
  - The value is the datatype `Vector3`. The binary operators, unary `-`, `Dot`, `AbsDot`, `Cross` and `LengthSquared` are functions on it.
  - The class `Vector3Var` has the mutable fields `x`, `y` and `z`. The compound operators `+= -= *= /=` and the writable `operator[]` (`SetAt`) update them in place.
  - `CoordinateSystem` writes its two out-pointers; here they are two results.
- **`points.dfy`, module `Points`** covers `Math::Point3` in the same way, with the datatype `Point3` and the class `Point3Var`. A point minus a point is a `Vector3`.
- **`matrices.dfy`, module `Matrices`** covers `Math::Matrix4` and the free functions of `Matrix4.h`.
  - A `Matrix4` is its array `c` as a 4x4 `seq<seq<real>>`, indexed literally as `m[i][j]`. The library itself mixes row-first and column-first readings, so none is imposed.
  - It contains the three constructors, `Compare`, `==` and `!=`, and `GetTranspose`.
  - It contains both `Multiply` overloads. They are methods with the source's loops, proved against the specification functions `Product` and `Transform`.
  - It also contains `Scale`, `Translate`, `Shear` and `Euler`.
- **`matrix_inverse.dfy`, module `MatrixInverse`** covers `GetInverse`, which is Gauss-Jordan elimination with full pivoting.
  - It works in place on a 4x4 `array2` copy `minv`, with the bookkeeping arrays `ipiv`, `indxr` and `indxc`.
  - It performs row swaps during elimination and column swaps at the end.
  - It returns `Singular` where the source reports a zero pivot.
  - The in-place methods are proved to compute exactly the value function `InverseOf`. The contract of `InverseOf` states when it reports `Singular`; lemmas about it state that a diagonal matrix with no zero on its diagonal (the identity included) inverts to the diagonal of reciprocals.
- **`projection.dfy`, module `Projection`** covers `Frustum` and `Perspective`.
  - `Frustum` is the `glFrustum` matrix of section 2.11.2 of the OpenGL 2.1 specification, stored with the first index as the column.

`sqrtf`, `cosf`, `sinf` and `tanf` are function-valued parameters. Nothing is assumed about their values, except that a value the source divides by is nonzero: the square root in `CoordinateSystem`, and `tanf(fovY * PI_OVER_360) * zNear` in `Perspective`. `PI_OVER_360` is used by `Perspective` but defined in none of the files modelled, so it is a parameter too.

`PI_OVER_180` in `Matrix4.h` is 0.1745329251, which is pi/18 rather than pi/180. `Euler` computes `radX`, `radY` and `radZ` with it (`Matrix4.h:118-120`), never reads them, and takes `cosf` and `sinf` of the angles in degrees; the model leaves out the constant and the three unread values.

## Model

| member | source | states |
|---|---|---|
| Vectors.Abs | DragonScale/Vector3.h:41-43 | `fabsf` is non-negative and is `r` or `-r` |
| Vectors.Index | DragonScale/Vector3.cpp:106-110 | for `0 <= i <= 2`, component `i` is `x`, `y` or `z` |
| Vectors.With | DragonScale/Vector3.cpp:112-116 | writing through `operator[]` sets exactly component `i` and keeps the other two |
| Vectors.LengthSquared | DragonScale/Vector3.cpp:18-24 | the squared length is non-negative and is 0 for the zero vector |
| Vectors.Add | DragonScale/Vector3.cpp:30-36 | `+` is componentwise |
| Vectors.Sub | DragonScale/Vector3.cpp:38-44 | `-` is componentwise |
| Vectors.Mul | DragonScale/Vector3.cpp:46-52 | `*` multiplies every component by `s` |
| Vectors.Div | DragonScale/Vector3.cpp:54-64 | `/` needs `s != 0`, and the quotient multiplied by `s` is the vector again |
| Vectors.Neg | DragonScale/Vector3.cpp:102-104 | unary `-` is the additive inverse and equals multiplication by -1 |
| Vectors.AddSubCancel | DragonScale/Vector3.cpp:30-44 | `(a + b) - b == a` |
| Vectors.AddNegIsZero | DragonScale/Vector3.cpp:102-104 | `v + (-v)` is the zero vector |
| Vectors.Dot | DragonScale/Vector3.h:37-39 | the dot product is symmetric in its arguments and equals the squared length for `Dot(v, v)` |
| Vectors.AbsDot | DragonScale/Vector3.h:41-43 | `AbsDot` is non-negative and is `Dot` or `-Dot` |
| Vectors.DotSymmetric | DragonScale/Vector3.h:37-39 | `Dot(a, b) == Dot(b, a)` |
| Vectors.DotSelfIsLengthSquared | DragonScale/Vector3.h:37-39 | `Dot(v, v)` is `v.LengthSquared()` |
| Vectors.Cross | DragonScale/Vector3.h:45-49 | `Cross(a, b)` is orthogonal to `a` and to `b` |
| Vectors.QuarterTurnsOrthogonal | DragonScale/Vector3.h:56-63 | both candidates for `v2`, `(-z, 0, x)` and `(0, z, -y)` scaled by any `invLen`, are orthogonal to `v1` |
| Vectors.CrossAntiCommutative | DragonScale/Vector3.h:45-49 | `Cross(a, b) == -Cross(b, a)` |
| Vectors.CrossSelfIsZero | DragonScale/Vector3.h:45-49 | `Cross(v, v)` is the zero vector |
| Vectors.CoordinateSystemRadicand | DragonScale/Vector3.h:55-61 | the value under the square root, `x*x + z*z` when `fabsf(x) > fabsf(y)` and `y*y + z*z` otherwise, is non-negative and is 0 exactly for the zero vector |
| Vectors.SecondAxisOrthogonal | DragonScale/Vector3.h:56-62 | for a nonzero `invLen`, the `v2` of either branch is orthogonal to `v1`, and nonzero when `v1` is |
| Vectors.CoordinateSystem | DragonScale/Vector3.h:55-65 | whatever the square root, as long as it is nonzero: `v2` is exactly `(-v1.z*invLen, 0, v1.x*invLen)` when `fabsf(v1.x) > fabsf(v1.y)` and `(0, v1.z*invLen, -v1.y*invLen)` otherwise, with `invLen = 1/sqrtf` of that branch's radicand (`SecondAxis`); `v2` is orthogonal to `v1` and nonzero when `v1` is; `v3 == Cross(v1, v2)` is orthogonal to both |
| Vectors.Vector3Var.Void | DragonScale/Vector3.cpp:7-9 | the void constructor copies `z` into `y` and `x`: the three are equal, with no value promised |
| Vectors.Vector3Var.constructor | DragonScale/Vector3.cpp:11-13 | the three-argument constructor stores its arguments exactly |
| Vectors.Vector3Var.AddAssign | DragonScale/Vector3.cpp:66-72 | after `+=` the receiver is what `+` returns |
| Vectors.Vector3Var.SubAssign | DragonScale/Vector3.cpp:74-80 | after `-=` the receiver is what `-` returns |
| Vectors.Vector3Var.MulAssign | DragonScale/Vector3.cpp:82-88 | after `*=` the receiver is what `*` returns |
| Vectors.Vector3Var.DivAssign | DragonScale/Vector3.cpp:90-100 | `/=` needs `s != 0`, and afterwards the receiver is what `/` returns |
| Vectors.Vector3Var.SetAt | DragonScale/Vector3.cpp:112-116 | the writable `operator[]` changes component `i` only |
| Points.Index | DragonScale/Point3.cpp:102-106 | for `0 <= i <= 2`, coordinate `i` is `x`, `y` or `z` |
| Points.With | DragonScale/Point3.cpp:108-112 | writing through `operator[]` sets exactly coordinate `i` |
| Points.AddVector | DragonScale/Point3.cpp:18-24 | point `+` vector is componentwise |
| Points.SubVector | DragonScale/Point3.cpp:26-32 | point `-` vector is componentwise |
| Points.Diff | DragonScale/Point3.cpp:34-40 | point `-` point is the Vector3 of componentwise differences, and `q + (p - q) == p` |
| Points.Mul | DragonScale/Point3.cpp:42-48 | `*` scales every coordinate |
| Points.Div | DragonScale/Point3.cpp:50-60 | `/` needs `s != 0`, and the quotient multiplied by `s` is the point again |
| Points.Neg | DragonScale/Point3.cpp:98-100 | unary `-` reflects through the origin |
| Points.ScalarMul | DragonScale/Point3.h:35-37 | `f * p` scales every coordinate by `f`, the same as `p * f` |
| Points.DistanceSquared | DragonScale/Point3.h:43-45 | the squared distance is non-negative |
| Points.AddSubVectorCancel | DragonScale/Point3.cpp:18-32 | `(p + v) - v == p` |
| Points.DiffSelfIsZero | DragonScale/Point3.cpp:34-40 | `p - p` is the zero vector |
| Points.AddDiff | DragonScale/Point3.cpp:34-40 | `q + (p - q) == p` |
| Points.DistanceSquaredSymmetric | DragonScale/Point3.h:43-45 | `DistanceSquared(p1, p2) == DistanceSquared(p2, p1)` |
| Points.DistanceSquaredSelf | DragonScale/Point3.h:43-45 | `DistanceSquared(p, p) == 0` |
| Points.Point3Var.Void | DragonScale/Point3.cpp:7-9 | the void constructor yields the origin |
| Points.Point3Var.constructor | DragonScale/Point3.cpp:11-13 | the three-argument constructor stores its arguments exactly |
| Points.Point3Var.AddAssign | DragonScale/Point3.cpp:62-68 | after `+=` the receiver is what point `+` vector returns |
| Points.Point3Var.SubAssign | DragonScale/Point3.cpp:70-76 | after `-=` the receiver is what point `-` vector returns |
| Points.Point3Var.MulAssign | DragonScale/Point3.cpp:78-84 | after `*=` the receiver is what `*` returns |
| Points.Point3Var.DivAssign | DragonScale/Point3.cpp:86-96 | `/=` needs `s != 0`, and afterwards the receiver is what `/` returns |
| Points.Point3Var.SetAt | DragonScale/Point3.cpp:108-112 | the writable `operator[]` changes coordinate `i` only |
| Matrices.Identity | DragonScale/Matrix4.cpp:10-18 | the void constructor puts 1 on the four diagonal entries and 0 on the twelve others |
| Matrices.FromArray | DragonScale/Matrix4.cpp:20-22 | the array constructor copies all 16 entries unchanged |
| Matrices.Of16 | DragonScale/Matrix4.cpp:24-32 | the 16-argument constructor as written: `c[3][2]` is `t23`, and otherwise it is the intended constructor |
| Matrices.Of16Corrected | DragonScale/Matrix4.cpp:24-32 | the intended constructor puts `tij` at (i,j) for all 16 entries, `t32` at (3,2) and `t23` at (2,3) included |
| Matrices.Of16IgnoresT32 | DragonScale/Matrix4.cpp:31 | the result does not depend on `t32` |
| Matrices.Of16AgreesIff | DragonScale/Matrix4.cpp:28-31 | the written and the intended constructor agree exactly when `t23 == t32` |
| Matrices.Compare | DragonScale/Matrix4.cpp:37-47 | `Compare` answers `false` for every pair of matrices, a matrix against itself included |
| Matrices.CompareCorrected | DragonScale/Matrix4.cpp:37-47 | the same loops answering `true` at the end: true exactly when the matrices are equal |
| Matrices.Equal | DragonScale/Matrix4.cpp:118-120 | `==` is always false |
| Matrices.NotEqual | DragonScale/Matrix4.cpp:122-124 | `!=` is always true |
| Matrices.Transpose | DragonScale/Matrix4.cpp:49-54 | `GetTranspose` gives `r[i][j] == m[j][i]` except at (3,2), where `r[3][2] == m[3][2]`; the receiver is a value and is not changed |
| Matrices.TransposeCorrected | DragonScale/Matrix4.cpp:49-54 | through the intended constructor, `r[i][j] == m[j][i]` for all 16 entries |
| Matrices.TransposeCorrectedInvolution | DragonScale/Matrix4.cpp:49-54 | the intended transpose, applied twice, gives the matrix back |
| Matrices.TransposeIgnores23 | DragonScale/Matrix4.cpp:49-54 | `m[2][3]` is lost: changing it does not change the transpose |
| Matrices.TransposeTwiceIff | DragonScale/Matrix4.cpp:49-54 | transposing twice restores `m` exactly when `m[2][3] == m[3][2]` |
| Matrices.Set | DragonScale/Matrix4.h:74-82 | one entry write `c[i][j] = v`, as the builders do it: entry (i,j) becomes `v` and the other fifteen are kept |
| Matrices.ProductEntry | DragonScale/Matrix4.h:47-50 | entry (i,j) of the product is 0 when row i of `m1` is zero or column j of `m2` is zero |
| Matrices.Product | DragonScale/Matrix4.h:42-55 | the product as a value: entry (i,j) is `ProductEntry(m1, m2, i, j)`, the sum over k of `m1[i][k] * m2[k][j]`, for all 16 entries |
| Matrices.Multiply | DragonScale/Matrix4.h:42-55 | the loops write every entry, and entry (i,j) is the sum over k of `m1[i][k] * m2[k][j]` |
| Matrices.ProductIdentityLeft | DragonScale/Matrix4.h:42-55 | the identity is a left unit of the product |
| Matrices.ProductIdentityRight | DragonScale/Matrix4.h:42-55 | the identity is a right unit of the product |
| Matrices.Transform | DragonScale/Matrix4.h:62-72 | the identity maps `v` to itself, and every matrix maps the zero vector to the zero vector |
| Matrices.MultiplyVector | DragonScale/Matrix4.h:62-72 | component i of the result is `m[i][0]*v.x + m[i][1]*v.y + m[i][2]*v.z` |
| Matrices.TransformReadsUpperLeft | DragonScale/Matrix4.h:62-72 | the matrix-vector product reads only entries `[0..2][0..2]` |
| Matrices.TransformIdentity | DragonScale/Matrix4.h:62-72 | the identity maps every vector to itself |
| Matrices.Scale | DragonScale/Matrix4.h:74-82 | `Scale(s)` differs from the identity only at (0,0), (1,1) and (2,2), which hold `s.x`, `s.y` and `s.z` |
| Matrices.TransformScale | DragonScale/Matrix4.h:74-82 | the scale matrix times `v` is the componentwise product |
| Matrices.Translate | DragonScale/Matrix4.h:84-92 | `Translate(t)` differs from the identity only at (0,3), (1,3) and (2,3) |
| Matrices.TransformTranslate | DragonScale/Matrix4.h:84-92 | the translation matrix times `v` is `v` |
| Matrices.Shear | DragonScale/Matrix4.h:94-107 | `Shear` writes the six off-diagonal upper-left entries and keeps the diagonal and row and column 3 of the identity |
| Matrices.ShearIgnoresOwnAxes | DragonScale/Matrix4.h:94-107 | `x.x`, `y.y` and `z.z` are never read |
| Matrices.Euler | DragonScale/Matrix4.h:115-148 | row 3 and column 3 are those of the identity, whatever `cosf` and `sinf` return |
| MatrixInverse.DiagonalReciprocal | DragonScale/Matrix4.cpp:57-116 | the reciprocal diagonal has `1/m[i][i]` on the diagonal and 0 elsewhere |
| MatrixInverse.DiagonalReciprocalIsRightInverse | DragonScale/Matrix4.cpp:57-116 | for a diagonal matrix with no zero on its diagonal, `m` times the reciprocal diagonal is the identity |
| MatrixInverse.DiagonalReciprocalIsLeftInverse | DragonScale/Matrix4.cpp:57-116 | the reciprocal diagonal times `m` is the identity too |
| MatrixInverse.IdentityIsOwnReciprocal | DragonScale/Matrix4.cpp:10-18 | the identity is diagonal with no zero on its diagonal, and its reciprocal diagonal is itself |
| MatrixInverse.ScanRowOf | DragonScale/Matrix4.cpp:68-78 | the scan of row j keeps the incoming candidate or picks a column of row j; a column it picks is one of those visited, unpivoted, with `big == fabsf(minv[j][k])` |
| MatrixInverse.ScanRowFinds | DragonScale/Matrix4.cpp:68-78 | the scan of row j keeps or raises `big`; a candidate it picks in row j is an unpivoted column with `big == fabsf(minv[j][k])`; no unpivoted entry visited is larger, and every one after the candidate is smaller |
| MatrixInverse.ScanExtendsSearch | DragonScale/Matrix4.cpp:66-79 | scanning one more unpivoted row keeps the search invariant: the candidate is the last entry of greatest magnitude among the unpivoted rows and columns visited |
| MatrixInverse.PivotSearch | DragonScale/Matrix4.cpp:63-80 | the search over rows `0..j-1` leaves `irow < j`; it leaves `irow = icol = -1, big = 0` when it picks nothing, and otherwise an unpivoted row and column in range with `big` the magnitude of their entry |
| MatrixInverse.PivotSearchFinds | DragonScale/Matrix4.cpp:63-80 | after the search, `irow` is -1 exactly when every row is pivoted; otherwise `(irow, icol)` is unpivoted, `big` is its magnitude, no unpivoted entry is larger and every later one is smaller |
| MatrixInverse.SwapRowsOf | DragonScale/Matrix4.cpp:83-86 | rows `r1` and `r2` are exchanged and every other entry is kept |
| MatrixInverse.SwapColumnsOf | DragonScale/Matrix4.cpp:110-113 | columns `c1` and `c2` are exchanged and every other entry is kept |
| MatrixInverse.ScaleRowOf | DragonScale/Matrix4.cpp:95-96 | row `row` is multiplied by `s` and every other entry is kept |
| MatrixInverse.EliminateColumnOf | DragonScale/Matrix4.cpp:99-106 | the pivot row is kept; every other row has its column-`icol` entry cleared and `save` times the pivot row subtracted, `save` being its old column-`icol` entry |
| MatrixInverse.PivotStepOf | DragonScale/Matrix4.cpp:89-106 | once the pivot `p` sits at `(icol, icol)`, the step leaves `1/p` there: `minv[icol][icol] = 1` scaled by `pivinv = 1/p`, and its row is skipped by the elimination |
| MatrixInverse.PivotStepRow | DragonScale/Matrix4.cpp:93-96 | the rest of the pivot row is multiplied by `pivinv = 1/p` |
| MatrixInverse.PivotStepColumn | DragonScale/Matrix4.cpp:99-105 | the rest of the pivot column becomes `0 - pivinv * m[a][icol]` |
| MatrixInverse.PivotStepEliminates | DragonScale/Matrix4.cpp:99-105 | every other entry loses `m[a][icol]` times the new pivot-row entry of its column |
| MatrixInverse.StartStage | DragonScale/Matrix4.cpp:58-61 | the starting state is a copy of the matrix with `ipiv` all zero and nothing recorded, and it satisfies the bookkeeping invariant |
| MatrixInverse.StepPivot | DragonScale/Matrix4.cpp:63-80 | as `big` starts at 0 and some column is unpivoted, the search always finds a pivot, in range and in an unpivoted row and column |
| MatrixInverse.RecordPivot | DragonScale/Matrix4.cpp:81-88 | `++ipiv[icol]` with `indxr[i] = irow` and `indxc[i] = icol` keeps the bookkeeping invariant: `ipiv` flags exactly the distinct recorded pivot columns |
| MatrixInverse.SwapAndRecord | DragonScale/Matrix4.cpp:81-88 | after the row swap and the record, the invariant holds for one more step, `indxr[i]` and `indxc[i]` are the pivot, and the pivot entry is now at `(icol, icol)` |
| MatrixInverse.SearchAndSwap | DragonScale/Matrix4.cpp:63-88 | the same for the pivot that the search chooses |
| MatrixInverse.NextStage | DragonScale/Matrix4.cpp:62-106 | a step with a nonzero pivot keeps the bookkeeping invariant |
| MatrixInverse.BookkeepingComplete | DragonScale/Matrix4.cpp:81-88 | after four steps `ipiv` is all ones and `indxc` is a permutation of 0..3 |
| MatrixInverse.PivotIsZero | DragonScale/Matrix4.cpp:89-90 | after the swap the entry at `(icol, icol)` is 0 exactly when the `big` the search found is 0 |
| MatrixInverse.PivotIsZeroIff | DragonScale/Matrix4.cpp:64-90 | the pivot chosen is 0 exactly when every entry in the unpivoted rows and columns is 0 |
| MatrixInverse.ReduceFrom | DragonScale/Matrix4.cpp:62-107 | the outer loop from step i keeps four-entry bookkeeping arrays, and when it runs to the end the bookkeeping invariant holds after all four steps |
| MatrixInverse.ReduceFromOutcome | DragonScale/Matrix4.cpp:62-107 | when the outer loop runs to the end every column was the pivot column once; when it stops at a zero pivot, the unpivoted block of that stage is all zero |
| MatrixInverse.ReduceFromNext | DragonScale/Matrix4.cpp:62-107 | a step with a nonzero pivot leaves the outcome of the rest of the loop unchanged |
| MatrixInverse.SwapsFrom | DragonScale/Matrix4.cpp:109-114 | the column exchanges for j from 3 down to a given index; when every `indxr[j] == indxc[j]` in that range, the matrix is unchanged |
| MatrixInverse.InverseOf | DragonScale/Matrix4.cpp:57-116 | `GetInverse` on values is `Singular` exactly when the loop met a zero pivot, and then the unpivoted block is all zero; otherwise every column was the pivot column once |
| MatrixInverse.ZeroMatrixIsSingular | DragonScale/Matrix4.cpp:62-90 | the zero matrix is reported singular at the first step |
| MatrixInverse.DiagonalPivot | DragonScale/Matrix4.cpp:63-80 | on a diagonal matrix the search picks an unpivoted diagonal entry, which is nonzero |
| MatrixInverse.PivotStepOfDiagonal | DragonScale/Matrix4.cpp:93-106 | on a diagonal matrix one step only replaces the pivot by its reciprocal |
| MatrixInverse.DiagonalStep | DragonScale/Matrix4.cpp:62-106 | a step on a diagonal matrix has a nonzero pivot on the diagonal, inverts that entry only and records no exchange |
| MatrixInverse.DiagonalStageFinished | DragonScale/Matrix4.cpp:62-107 | once every index is pivoted, a diagonal stage holds the reciprocal diagonal |
| MatrixInverse.ReduceDiagonal | DragonScale/Matrix4.cpp:62-107 | on a diagonal matrix with no zero on its diagonal the loop runs all four steps, leaves a diagonal matrix and records `indxr == indxc` |
| MatrixInverse.DiagonalInverse | DragonScale/Matrix4.cpp:57-116 | `GetInverse` of a diagonal matrix with no zero on its diagonal is the reciprocal diagonal, a two-sided inverse by the two lemmas above |
| MatrixInverse.IdentityInverse | DragonScale/Matrix4.cpp:57-116 | `GetInverse` of the identity is the identity |
| MatrixInverse.ScanRow | DragonScale/Matrix4.cpp:68-78 | the inner pivot loop over row j on the arrays computes exactly the scan `ScanRowOf`; the `ipiv[k] > 1` report cannot happen |
| MatrixInverse.ChoosePivot | DragonScale/Matrix4.cpp:63-80 | the pivot search on the arrays computes exactly `PivotSearch` |
| MatrixInverse.SwapRows | DragonScale/Matrix4.cpp:83-86 | the array then holds `SwapRowsOf` of what it held |
| MatrixInverse.ScaleRow | DragonScale/Matrix4.cpp:95-96 | the array then holds `ScaleRowOf` of what it held |
| MatrixInverse.EliminateRow | DragonScale/Matrix4.cpp:100-105 | row j's column-`icol` entry is saved and cleared, then `save` times the pivot row is subtracted; every other row is kept |
| MatrixInverse.EliminateColumn | DragonScale/Matrix4.cpp:99-106 | the array then holds `EliminateColumnOf` of what it held |
| MatrixInverse.PivotStep | DragonScale/Matrix4.cpp:89-106 | it reports failure exactly when the pivot entry is 0, and then changes nothing; otherwise the array holds `PivotStepOf` of what it held |
| MatrixInverse.RecordAndSwap | DragonScale/Matrix4.cpp:81-88 | the four arrays then hold `SwapAndRecord` of the stage they held |
| MatrixInverse.SearchAndRecord | DragonScale/Matrix4.cpp:63-88 | the four arrays then hold `SearchAndSwap` of the stage they held, and the column returned is the pivot's |
| MatrixInverse.EliminationStep | DragonScale/Matrix4.cpp:63-106 | one outer step reports failure exactly when its pivot is zero; otherwise the four arrays hold `NextStage` of the stage they held |
| MatrixInverse.Reduce | DragonScale/Matrix4.cpp:58-107 | the outer loop on the arrays reports success exactly as `ReduceFrom` does and then holds its final stage; on success every column was the pivot column once, on failure the unpivoted block was all zero |
| MatrixInverse.SwapColumns | DragonScale/Matrix4.cpp:111-112 | the array then holds `SwapColumnsOf` of what it held |
| MatrixInverse.RestoreColumnOrder | DragonScale/Matrix4.cpp:109-114 | the final loop leaves the array holding `SwapsFrom(m, indxr, indxc, 0)`: columns `indxr[j]` and `indxc[j]` exchanged, wherever they differ, for j from 3 down to 0 |
| MatrixInverse.RestoredMatrix | DragonScale/Matrix4.cpp:109-115 | the result is the reduced matrix with its columns restored, copied out as by the array constructor |
| MatrixInverse.Inverse | DragonScale/Matrix4.cpp:57-116 | `GetInverse` on arrays computes exactly `InverseOf(m)`, so every lemma about `InverseOf` holds of it |
| Projection.FrustumOver | DragonScale/Utils.cpp:24-42 | needs `xPos != xNeg`, `yPos != yNeg` and `zFar != zNear`; the result is the transpose of the OpenGL matrix, with the six closed-form entries and the ten constant ones |
| Projection.GlFrustum | DragonScale/Utils.cpp:19-45 | the OpenGL matrix of a frustum symmetric about the axis has no skew: entries (0,2) and (1,2) are 0 |
| Projection.Frustum | DragonScale/Utils.cpp:19-45 | needs a nonzero width, height and depth; entry (i,j) is entry (j,i) of the OpenGL matrix |
| Projection.FrustumIgnoresStart | DragonScale/Utils.cpp:22-44 | all 16 entries are written, so the identity the local matrix starts as makes no difference |
| Projection.FrustumIsGlTransposed | DragonScale/Utils.cpp:19-45 | transposing `Frustum` gives exactly the matrix of section 2.11.2 of the OpenGL 2.1 specification |
| Projection.PerspectiveScale | DragonScale/Utils.cpp:48 | `scale = tanf(fovY * PI_OVER_360) * zNear` is 0 exactly when `zNear` is 0 or the tangent is 0 |
| Projection.Perspective | DragonScale/Utils.cpp:47-55 | for a nonzero `scale` and `aspect`, entries (2,0) and (2,1) are 0; (0,0) is `zNear/(aspect*scale)` and (1,1) is `zNear/scale`; the depth entries are those of `Frustum` |

## Left out

- `DragonScale/main.cpp` is left out. It is window, GL context and message-pump plumbing.
- `DS::LoadShaders` and `DS::SDLDie` are left out. They are file I/O, OpenGL and SDL calls, and process exit.
- `LookAt` is left out, because it depends on `Normalize`, that is, on a square root.
- `Vector3::Length`, `Normalize` and `Point3`'s `Distance` are left out. Each is a square root of a modelled quantity.
- IEEE float semantics are left out: NaN, infinities and rounding. Every result holds for exact real arithmetic only.
- `sqrtf`, `cosf`, `sinf` and `tanf` are parameters. Nothing is known about their values, except that a value the source divides by is required to be nonzero (see `Vectors.CoordinateSystem` and `Projection.Perspective` below).
- `PI_OVER_360` is a parameter of `Perspective`. The file that defines it is not part of this model.
- `Euler`: only the structure of row 3 and column 3 is stated. Its rotation entries are modelled as written, but nothing is proved about them, because they are trigonometric.
- The `Matrix4` operators `+`, `-`, `+=` and `-=` are left out. They are declared in `Matrix4.h` but no definition is part of this model.
- `Matrix.h` and `Vector.h` are left out. They hold declarations only.
- The `printf` diagnostics of `GetInverse` are left out. Only the control flow is kept.
- The empty destructors are left out.
- The default arguments of the three-argument `Vector3` and `Point3` constructors are left out. The Dafny constructors take all three values.
- MatrixInverse.Inverse: at a zero pivot the source prints a message and divides by zero. The model's inversion returns `Singular` at that point instead.
- MatrixInverse.Inverse: it is proved to compute `InverseOf`, and `InverseOf` is proved to return the reciprocal diagonal for a diagonal matrix with no zero on its diagonal. That `Multiply(m, m.GetInverse())` is the identity for every nonsingular `m` is not proved.
- MatrixInverse.ScanRow: the `ipiv[k] > 1` report is proved unreachable, so it has no counterpart in the model.
- Vectors.LengthSquared: positivity for a nonzero vector is not stated. Only non-negativity, and 0 for the zero vector, are stated.
- Vectors.CoordinateSystem: the two out-pointers become two fresh results, so aliasing is not modelled. In the source, `CoordinateSystem(v, &v, &w)` overwrites `v1` when it writes `*v2`, so `*v3` is `Cross` of the new `*v2` with itself, the zero vector; and when `v2 == v3` the write of `*v3` overwrites `*v2`.
- Vectors.CoordinateSystem: the model requires the supplied square root to be nonzero so that `1/sqrtf(...)` is defined. The source divides regardless.
- Projection.Perspective: the model requires a nonzero `scale`, a nonzero `aspect * scale` and `zFar != zNear`. These are the conditions under which `Frustum`'s divisions are defined. The source has no such check.

## Findings

| source | as written | input that shows it | evidently intended | confidence | as-written member | corrected member |
|---|---|---|---|---|---|---|
| DragonScale/Matrix4.cpp:46 | after the loops find no differing entry, `Compare` returns `false` | the identity compared with itself: `Compare`, and so `==`, is false, and `!=` is true | `return true` after the loops | high; not executed | Matrices.Compare | Matrices.CompareCorrected |
| DragonScale/Matrix4.cpp:31 | `c[3][2] = t23` | `t23 = 1`, `t32 = 2`: `c[3][2]` is 1 and `t32` is never read | `c[3][2] = t32` | high; not executed | Matrices.Of16AgreesIff | Matrices.Of16Corrected |
| DragonScale/Matrix4.cpp:49-54 | `GetTranspose` goes through the constructor of line 31 | `m[2][3] = 1`, `m[3][2] = 0`: the transpose has 0 at (3,2) instead of 1, and transposing twice does not give `m` back | the exact transpose | high; not executed | Matrices.TransposeTwiceIff | Matrices.TransposeCorrectedInvolution |

The operators `==`, `!=` and `GetTranspose` are modelled as written: `Matrices.Equal`, `Matrices.NotEqual` and `Matrices.Transpose`. The corrected definitions sit beside them. `Projection.FrustumIsGlTransposed` uses the corrected transpose, because it states a fact about the matrix itself.
