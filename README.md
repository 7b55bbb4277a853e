# FiPy mesh variables: shapes, the element-wise dot product, and two term weights

This project models part of FiPy, a finite-volume PDE solver:

- **Mesh variables.** `_MeshVariable` in `fipy/variables/meshVariable.py` is a field defined on a mesh.
  - Its value has shape `elementshape + meshShape`. The last axis runs over the cells or the faces of the mesh. The leading axes hold one element, which is a scalar, a vector or a tensor.
  - The model covers the construction rules for the element shape and the initial array, `getShape` and `getRank`, and `_globalToLocalValue`.
  - It covers the mesh-element by mesh-element dot product (`_dot`, `__dot`, `dot`, `rdot`) and the shape and mesh selection of the operator variables built from it.
  - It also covers the widening of a mesh-shaped mask in `setValue`, and `_axisClass`.
- **Implicit diffusion.** The face stencil of `ImplicitDiffusionTerm._getWeight`.
- **Explicit upwind convection.** The in-place relabelling of `ExplicitUpwindConvectionTerm._getWeight`.

Arrays are NumPy arrays. The model represents them as nested values (`Arrays.Tensor<T>`: a scalar, or a sequence of sub-arrays). A shape is a sequence of naturals, with NumPy's broadcasting rule written out in `Shapes`. Entries are integers. Every value in the `_testDot` examples (`meshVariable.py:348-372`) is an integer. The `getShape` doctest builds its fields from the float default `value=0.` but checks only their shapes. Nothing modelled here depends on floating point.

Modules:

| file | module | contents |
|---|---|---|
| `results.dfy` | `Results` | `Option`, `Result` |
| `shapes.dfy` | `Shapes` | NumPy shape broadcasting (`BroadcastShape`) and its algebra |
| `arrays.dfy` | `Arrays` | nested arrays: shape, indexing, broadcasting element-wise operations, sum along an axis, new axes, repeats |
| `dot.dfy` | `MeshVariableDot` | `_dot` and the result shape of `__dot`, as written and corrected |
| `meshvariable.dfy` | `MeshVariables` | construction, `getShape`/`getRank`, `_globalToLocalValue`, operator shape selection, `dot`/`rdot`, the `setValue` mask, `_axisClass`; the class `MeshVariable` |
| `dot_examples.dfy` | `MeshVariableExamples` | the documented shapes and every product listed in `_testDot` |
| `implicit_diffusion.dfy` | `ImplicitDiffusion` | the implicit diffusion stencil |
| `explicit_upwind.dfy` | `ExplicitUpwind` | the explicit upwind relabelling, on a shared weight object |
| `term_weights.dfy` | `TermWeights` | the weight roles and coefficient maps both terms use |

In three places the code does not do what its documentation and its callers evidently intend. The model keeps both versions (see Findings); the rest of the model uses the corrected one.

- **The opShape of `__dot`.** It drops the contracted axis whenever the left operand has element axes. `_dot` sums only when both operands have element axes, so a vector field dotted with a scalar field is predicted one axis short.
- **`_axisClass`.** Its docstring says that operating along the mesh elements gives a plain variable. The code compares the axis with `len(shape)`, which is never a valid axis, so a mesh axis given as a non-negative number is missed.
- **The `setValue` mask.** The mask must take the field's shape before `Variable.setValue` applies it. The code prepends the element dimensions in order, which yields them reversed.

## Model

| member | source | states |
|---|---|---|
| MeshVariables.RankShape | fipy/variables/meshVariable.py:61-62 | `rank * (dim,)`: `rank` copies of the mesh dimension; empty for a rank of zero or less |
| MeshVariables.SelectElementShape | fipy/variables/meshVariable.py:60-68 | no elementshape: `rank` copies of the dimension, or `()` without a rank; a given elementshape is kept, and fails with DimensionError exactly when a rank is given and differs from its length |
| MeshVariables.InitialArray | fipy/variables/meshVariable.py:70-79 | the value is accepted exactly when it broadcasts onto `elementshape + meshShape`, or does not broadcast and broadcasts after a trailing new axis; the stored array then has the field's shape |
| MeshVariables.InitialArrayAt | fipy/variables/meshVariable.py:73-76 | for a value that broadcasts directly, each stored entry is the value's entry at the trailing, broadcast-projected index |
| MeshVariables.InitialArrayNewAxisAt | fipy/variables/meshVariable.py:76-79 | for a value that only broadcasts as `value[..., newaxis]`, construction succeeds and each stored entry is the value's entry at the broadcast-projected index just before the mesh axis, whatever the mesh-element index |
| MeshVariables.Initialise | fipy/variables/meshVariable.py:60-87 | construction succeeds exactly when the element shape is consistent and the value fits; the stored elementshape is the selected one; the stored array exists exactly when a value is given, has shape `elementshape + meshShape`, and is the initial array `InitialArray` builds from the value |
| MeshVariables.MeshVariable.Create | fipy/variables/meshVariable.py:47-87 | the constructor succeeds or fails as `Initialise`, and a new valid variable holds the mesh, the selected elementshape and the initial array |
| MeshVariables.MeshVariable.GetShape | fipy/variables/meshVariable.py:157-159 | the shape is `elementshape` followed by the mesh shape, and is never empty |
| MeshVariables.MeshVariable.GetRank | fipy/variables/meshVariable.py:298-299 | the rank is `len(shape) - 1`, the length of the element shape |
| MeshVariables.GlobalToLocalValue | fipy/variables/meshVariable.py:89-97 | no value gives no value; a value whose last axis is not `globalNumber` long is returned unchanged; otherwise the last axis is indexed by `globalIDs`, and an out-of-range ID fails with `GlobalIDError` (Python's IndexError) |
| MeshVariables.GlobalToLocalAt | fipy/variables/meshVariable.py:95-96 | entry `j` of the local last axis is entry `globalIDs[j]` of the global one |
| MeshVariableDot.OpShape | fipy/variables/meshVariable.py:195-202 | result shape of `A.dot(B)`: the broadcast of `A[..., newaxis*(rankB-1), :]` with `B`, less the contracted axis when both operands have rank |
| MeshVariableDot.OpShapeAsWritten | fipy/variables/meshVariable.py:195-202 | the source's opShape, which drops axis `rankA-1` whenever `rankA > 0` |
| MeshVariableDot.OpShapeAsWrittenMispredicts | fipy/variables/meshVariable.py:201-202 | for a vector field dotted with a scalar field the source predicts `(6,)`, but the computed value has shape `(2, 6)` |
| MeshVariableDot.ProductShape | fipy/variables/meshVariable.py:198-200 | the element-wise product `a[index] * b` has the broadcast shape |
| MeshVariableDot.DotArrays | fipy/variables/meshVariable.py:173-179 | `_dot` succeeds exactly when OpShape does, and its value has shape OpShape |
| MeshVariableDot.ContractedShape | fipy/variables/meshVariable.py:179 | the sum along axis `rankA-1` has the product's shape with that axis removed |
| MeshVariableDot.ContractionAt | fipy/variables/meshVariable.py:173-179 | for `a` of shape `I+[n,m]` and `b` of shape `[n]+J+[m]`, `A.dot(B)` has shape `I+J+[m]` and entry `(i, j, c)` equal to the sum over `k` of `a[i,k,c] * b[k,j,c]` |
| MeshVariableDot.ScaledByRightAt | fipy/variables/meshVariable.py:175-177 | when `B` is a scalar field the product is `A` with each cell scaled by `B`'s value there |
| MeshVariableDot.ScaledByLeftAt | fipy/variables/meshVariable.py:175-177 | when `A` is a scalar field the product is `B` with each cell scaled by `A`'s value there |
| MeshVariableDot.DotAddRight | fipy/variables/meshVariable.py:173-179 | `A.dot(B + C) == A.dot(B) + A.dot(C)` entry by entry, for `A` of shape `I+[n,m]` and `B`, `C` of shape `[n]+J+[m]`; all three products exist |
| MeshVariableDot.DotAddLeft | fipy/variables/meshVariable.py:173-179 | `(A + B).dot(C) == A.dot(C) + B.dot(C)` entry by entry, for `A`, `B` of shape `I+[n,m]` and `C` of shape `[n]+J+[m]`; all three products exist |
| MeshVariableDot.ScaledByRightAddLeft | fipy/variables/meshVariable.py:175-177 | with a scalar field `B` on the right, `(A1 + A2).dot(B) == A1.dot(B) + A2.dot(B)` entry by entry |
| MeshVariableDot.ScaledByRightAddRight | fipy/variables/meshVariable.py:175-177 | with scalar fields on the right, `A.dot(B1 + B2) == A.dot(B1) + A.dot(B2)` entry by entry |
| MeshVariableDot.ScaledByLeftAddLeft | fipy/variables/meshVariable.py:175-177 | with scalar fields on the left, `(A1 + A2).dot(B) == A1.dot(B) + A2.dot(B)` entry by entry |
| MeshVariableDot.ScaledByLeftAddRight | fipy/variables/meshVariable.py:175-177 | with a scalar field `A` on the left, `A.dot(B1 + B2) == A.dot(B1) + A.dot(B2)` entry by entry |
| MeshVariables.DotOperands | fipy/variables/meshVariable.py:182-209 | with the corrected opShape of Findings row 1: `__dot` succeeds exactly when OpShape does; the result has that shape as shape and opShape, its value is `_dot`'s, its mesh is `A`'s or else `B`'s, and its elementshape is the opShape less its last axis |
| MeshVariables.MeshVariable.Dot | fipy/variables/meshVariable.py:211-228 | with the corrected opShape: `self.dot(other)` has shape `OpShape(self.shape, other.shape)`, lives on `self`'s mesh, and holds `_dot(self, other)` |
| MeshVariables.MeshVariable.Rdot | fipy/variables/meshVariable.py:230-247 | with the corrected opShape: `self.rdot(other)` is the product with the operands swapped: shape `OpShape(other.shape, self.shape)`, value `_dot(other, self)` |
| MeshVariables.RdotIsSwappedDot | fipy/variables/meshVariable.py:247 | `x.rdot(y)` equals `y.dot(x)` for two mesh variables, and lives on `y`'s mesh |
| MeshVariables.ReduceOrKeeps | fipy/variables/meshVariable.py:274-275 | `reduce(or)` keeps the first operand when it is truthy |
| MeshVariables.ReduceOrFirstTruthy | fipy/variables/meshVariable.py:274-275 | `reduce(or)` returns the first truthy operand |
| MeshVariables.ReduceOrNoneTruthy | fipy/variables/meshVariable.py:274-275 | with no truthy operand, `reduce(or)` returns the last one |
| MeshVariables.MeshSelection | fipy/variables/meshVariable.py:274-275 | the operator's mesh is the mesh of the first operand that has one |
| MeshVariables.FirstKnown | fipy/variables/meshVariable.py:276-279 | the operator's opShape is the given one, or else the first operand's that is known; it is unknown exactly when all are unknown |
| MeshVariables.FirstOpShape | fipy/variables/meshVariable.py:276-279 | the loop finds the same shape as `FirstKnown` |
| MeshVariables.ElementShapeSelection | fipy/variables/meshVariable.py:285-286 | `reduce(or)` over the operands' element shapes gives the first non-empty one, or the last operand's when none is non-empty |
| MeshVariables.OperatorRank | fipy/variables/meshVariable.py:293-294 | the rank is `len(opShape) - 1`, defined exactly when an opShape is known, and is the number of element axes when the element shape is `opShape[:-1]` |
| MeshVariables.OperatorShape | fipy/variables/meshVariable.py:272-294 | the operator takes the first known opShape and the first operand mesh; with an opShape its elementshape is that shape less its last axis, and its rank is the length of that elementshape; without one its elementshape is the first non-empty operand element shape, or the last operand's |
| MeshVariables.MeshVariable.SetValueMask | fipy/variables/meshVariable.py:301-309 | corrected (Findings row 2): a mask of the mesh's shape, on a field with a longer shape, is widened to `elementshape + meshShape`; any other mask is passed on unchanged |
| MeshVariables.WidenedShape | fipy/variables/meshVariable.py:306-307 | the widened mask has shape `elementshape + meshShape` |
| MeshVariables.WidenedSlices | fipy/variables/meshVariable.py:306-307 | every element slice of the widened mask is the original mask |
| MeshVariables.WidenedInner | fipy/variables/meshVariable.py:306-307 | repeating over one more element axis first is widening by the longer element shape |
| MeshVariables.MaskAsWrittenReversed | fipy/variables/meshVariable.py:306-307 | the source's loop widens by the element shape reversed |
| MeshVariables.MaskAsWrittenTransposed | fipy/variables/meshVariable.py:306-307 | for elementshape `(2, 3)` on six cells the source's mask has shape `(3, 2, 6)`, not the field's `(2, 3, 6)` |
| MeshVariables.MaskAsWrittenPalindrome | fipy/variables/meshVariable.py:306-307 | for a palindromic elementshape the source's mask is the intended one |
| MeshVariables.RankShapePalindrome | fipy/variables/meshVariable.py:61-62 | an element shape derived from the rank is palindromic, so the source's mask is right for it |
| MeshVariables.AxisClass | fipy/variables/meshVariable.py:311-320 | corrected (Findings row 3): no axis, or the mesh axis counted from either end, gives a plain variable; any other in-range axis keeps a mesh variable |
| MeshVariables.AxisClassAsWritten | fipy/variables/meshVariable.py:317 | the source's test: no axis, `len(shape)` or `-1` give a plain variable |
| MeshVariables.AxisClassAsWrittenMissesMeshAxis | fipy/variables/meshVariable.py:317 | on a `(2, 6)` field, axis 1 (the mesh axis) gives a mesh variable as written; axis 2 (out of range) gives a plain one |
| MeshVariableExamples.Grid | fipy/variables/meshVariable.py:146 | `Grid2D(nx=2, ny=3)` has dimension 2, 6 cells and 17 faces |
| MeshVariableExamples.ZeroField | fipy/variables/meshVariable.py:60-79 | a field built from the scalar 0 has element shape `rank * (dim,)`, or `()` without a rank |
| MeshVariableExamples.GridShapes | fipy/variables/meshVariable.py:60-64 | on a 2-D mesh a field of the default value has element shape `()` without a rank and `(2,)` for rank one |
| MeshVariableExamples.GridFieldShapes | fipy/variables/meshVariable.py:142-159 | those fields have shape `(n,)` and `(2, n)`, `n` the number of cells or of faces |
| MeshVariableExamples.DocumentedShapes | fipy/variables/meshVariable.py:146-155 | on `Grid2D(nx=2, ny=3)`: a cell variable `(6,)`, its face value `(17,)`, its gradient `(2, 6)` and its face gradient `(2, 17)` |
| MeshVariableExamples.CellFieldStored | fipy/variables/meshVariable.py:351-372 | a rank-`r` cell field built from `value[..., newaxis]` stores that value broadcast over the cells |
| MeshVariableExamples.VectorField | fipy/variables/meshVariable.py:351-354 | `v1` and `v2` hold `(x, y)` in every cell |
| MeshVariableExamples.TensorField | fipy/variables/meshVariable.py:356-361 | `t21` and `t22` hold their 2x2 matrix in every cell |
| MeshVariableExamples.Rank3Field | fipy/variables/meshVariable.py:363-372 | `t31` and `t32` hold their 2x2x2 array in every cell |
| MeshVariableExamples.VectorDotVector | fipy/variables/meshVariable.py:173-179 | vector · vector: shape `(cells,)`, each cell the inner product |
| MeshVariableExamples.VectorDotTensor | fipy/variables/meshVariable.py:173-179 | vector · rank-2: shape `(2, cells)`, `sum_k v[k] t[k, j]` |
| MeshVariableExamples.TensorDotVector | fipy/variables/meshVariable.py:173-179 | rank-2 · vector: shape `(2, cells)`, `sum_k t[i, k] v[k]` |
| MeshVariableExamples.TensorDotTensor | fipy/variables/meshVariable.py:173-179 | rank-2 · rank-2: the matrix product in every cell |
| MeshVariableExamples.VectorDotRank3 | fipy/variables/meshVariable.py:173-179 | vector · rank-3: shape `(2, 2, cells)`, contracting the first axis of the rank-3 array |
| MeshVariableExamples.Rank3DotVector | fipy/variables/meshVariable.py:173-179 | rank-3 · vector: shape `(2, 2, cells)`, contracting the last element axis of the rank-3 array |
| MeshVariableExamples.TensorDotRank3 | fipy/variables/meshVariable.py:173-179 | rank-2 · rank-3: shape `(2, 2, 2, cells)` |
| MeshVariableExamples.Rank3DotTensor | fipy/variables/meshVariable.py:173-179 | rank-3 · rank-2: shape `(2, 2, 2, cells)` |
| MeshVariableExamples.Rank3DotRank3 | fipy/variables/meshVariable.py:173-179 | rank-3 · rank-3: shape `(2, 2, 2, 2, cells)` |
| MeshVariableExamples.V1DotV2 | fipy/variables/meshVariable.py:377-378 | `v1.dot(v2)` is 18 in every cell, shape `(6,)` on the grid |
| MeshVariableExamples.V1DotT22 | fipy/variables/meshVariable.py:379-380 | `v1.dot(t22)` is `[21 26]` in every cell, shape `(2, 6)` |
| MeshVariableExamples.V1DotT31 | fipy/variables/meshVariable.py:381-383 | `v1.dot(t31)` is `[[21 26] [31 36]]` in every cell, shape `(2, 2, 6)` |
| MeshVariableExamples.T21DotV1 | fipy/variables/meshVariable.py:385-386 | `t21.dot(v1)` is `[13 23]` in every cell, shape `(2, 6)` |
| MeshVariableExamples.T21DotT22 | fipy/variables/meshVariable.py:387-389 | `t21.dot(t22)` is `[[21 26] [37 46]]` in every cell |
| MeshVariableExamples.T21DotT31 | fipy/variables/meshVariable.py:390-395 | `t21.dot(t31)` holds the eight listed values, shape `(2, 2, 2, 6)` |
| MeshVariableExamples.T31DotV1 | fipy/variables/meshVariable.py:397-399 | `t31.dot(v1)` is `[[18 28] [28 38]]` in every cell |
| MeshVariableExamples.T31DotT21 | fipy/variables/meshVariable.py:400-405 | `t31.dot(t21)` holds the eight listed values, shape `(2, 2, 2, 6)` |
| MeshVariableExamples.T31DotT32 | fipy/variables/meshVariable.py:406-418 | `t31.dot(t32)` holds the sixteen listed values, shape `(2, 2, 2, 2, 6)` |
| Shapes.BroadcastAlignedAxes | fipy/variables/meshVariable.py:76 | NumPy's rule on shapes padded to equal length: they broadcast exactly when each axis pair agrees or contains a 1, and each result axis is the other operand's length where one of the pair is 1, otherwise their common length |
| Shapes.BroadcastCommutes | fipy/variables/meshVariable.py:200 | broadcasting is symmetric |
| Shapes.BroadcastSelf | fipy/variables/meshVariable.py:76 | a shape broadcasts with itself to itself |
| Shapes.BroadcastScalar | fipy/variables/meshVariable.py:76 | a scalar value broadcasts onto any array shape |
| Arrays.ZipShape | fipy/variables/meshVariable.py:177 | an element-wise NumPy operation on two broadcast-compatible arrays has the broadcast shape |
| Arrays.SumAxisAt | fipy/variables/meshVariable.py:179 | `numerix.sum(x, axis)` at an index is the total of `x` along that axis at that index |
| ImplicitDiffusion.Weight | fipy/terms/implicitDiffusionTerm.py:54-62 | the weight is implicit only; its four entries are -1 on each cell's diagonal and +1 off it, so each row sums to zero and the two cells are symmetric |
| ImplicitDiffusion.MeshIndependent | fipy/terms/implicitDiffusionTerm.py:54 | the weight does not depend on the mesh |
| ExplicitUpwind.Relabelled | fipy/terms/explicitUpwindConvectionTerm.py:59-61 | with an `implicit` entry, `explicit` takes its coefficients, overwriting any earlier one, and `implicit` is removed; every other role is unchanged; without `implicit` the weight is unchanged |
| ExplicitUpwind.RelabelledIdempotent | fipy/terms/explicitUpwindConvectionTerm.py:59-61 | relabelling twice is relabelling once |
| ExplicitUpwind.GetWeight | fipy/terms/explicitUpwindConvectionTerm.py:57-63 | the parent's weight object is changed in place to the relabelled weight and returned, the same object |

## Left out

- The parallel branch of `_getGlobalValue` (`meshVariable.py:99-114`). It gathers values across MPI processes, which is I/O outside this model. The sequential branch returns the value unchanged and needs no model.
- Lazy evaluation, caching and the operator-variable machinery of `Variable`. `fipy/variables/variable.py` is not part of this model. Operators are modelled by the value and the attributes they compute.
- `Variable.__init__`'s storage of the initial value (`variable.py` is not part of this model). It is modelled as NumPy broadcasting of the value into the zero array of the field's shape. A value whose broadcast shape exists but differs from the field's shape fails with `ValueShapeError`.
- MeshVariables.DotOperands: uses the corrected opShape (`MeshVariableDot.OpShape`), not the one lines 195-202 compute. The two differ only when the left operand has element axes and the right one is a scalar field; see Findings row 1 and `MeshVariableDot.OpShapeAsWritten`.
- MeshVariables.MeshVariable.Dot: the same corrected opShape as `DotOperands`.
- MeshVariables.MeshVariable.Rdot: the same corrected opShape as `DotOperands`.
- MeshVariableExamples.DocumentedShapes: the face value, gradient and face gradient are built by construction with the matching kind and rank. The operators `getArithmeticFaceValue`, `getGrad` and `getFaceGrad` that produce them are not part of this model.
- MeshVariables.MeshVariable.SetValueMask: computes the mask only. The masked write done by `Variable.setValue` is not modelled.
- `_shapeClassAndOther` (`meshVariable.py:249-266`) and its projection of `other` onto the mesh. It depends on `Variable._shapeClassAndOther`, which is not part of this model. `Dot` and `Rdot` take `other` already as an operand with a known shape and mesh, and `_Constant` wrapping is likewise outside the model.
- `_getitemClass` (`meshVariable.py:322-328`): its index shape comes from `numerix._indexShape`, which is not part of this model.
- `__getstate__`, `__str__`/`__repr__`, physical units and names. None of them affects shapes or values.
- Floating-point values. Entries are integers. The `_testDot` values are all integers. The float default `value=0.` of the `getShape` doctest is modelled as `0`, which leaves its shapes unchanged.
- `_getShapeFromMesh` of the abstract base, which returns `None`, and the concrete cell and face subclasses. `ShapeFromMesh` stands in for `CellVariable` (`(numberOfCells,)`) and `FaceVariable` (`(numberOfFaces,)`).
- The geometry of `Grid2D`. Only its dimension and its cell and face counts (`Grid2D`) are modelled.
- `mesh = mesh or value.mesh` (`meshVariable.py:81-82`). The initial value is modelled as an array, never as another mesh variable.
- MeshVariables.GlobalToLocalValue: `globalIDs` are naturals. Negative IDs, which NumPy's `value[..., globalIDs]` (`meshVariable.py:96`) counts from the end, are not modelled.
- MeshVariables.OperatorShape: requires at least one operand. `reduce` over an empty list raises, and every operator has operands.
- MeshVariables.MeshVariable.Dot: requires the variable to hold a value. A variable created with `value=None` has no array to multiply. The source accepts the call and fails only when the result is evaluated by `_dot`.
- MeshVariables.MeshVariable.Rdot: requires the variable to hold a value, for the same reason as `Dot`. The source accepts the call and fails only when `_dot` evaluates the result.
- MeshVariableExamples.V1DotV2 and the other instance lemmas hold on every two-dimensional mesh with any number of cells, not only on `Grid2D(nx=2, ny=3)`. Grid's six cells give the documented shapes.
- `valueShape is not ()` (`meshVariable.py:95`) is an identity test. It is modelled as "the shape is non-empty".
- `DimensionError` is raised but not imported in `meshVariable.py`. The model treats it as the intended error outcome.
- The parent `UpwindConvectionTerm._getWeight` and its upwind α rule (`upwindConvectionTerm.py` is not part of this model). `ExplicitUpwind.GetWeight` takes the parent's weight object as a parameter.
- ExplicitUpwind.GetWeight: the coefficient dictionaries inside the weight are values. After the relabelling, `weight['explicit']` and the parent's former `weight['implicit']` are the same dictionary object in the source, and that aliasing is not modelled.

## Findings

| source | as written | input that shows it | evidently intended | confidence | as-written member | corrected member |
|---|---|---|---|---|---|---|
| fipy/variables/meshVariable.py:201-202 | the opShape drops axis `rankA-1` whenever `rankA > 0` | a rank-1 field of shape `(2, 6)` dotted with a scalar field `(6,)`: the predicted opShape is `(6,)`, but `_dot` multiplies without summing (lines 175-177), so the value has shape `(2, 6)` | drop the contracted axis only when both ranks are positive, as `_dot` sums | not executed | MeshVariableDot.OpShapeAsWrittenMispredicts | MeshVariableDot.OpShape |
| fipy/variables/meshVariable.py:306-307 | each pass prepends a new axis of length `dim`, so the element axes come out in reverse order | elementshape `(2, 3)` on six cells: the mask has shape `(3, 2, 6)` against a field of shape `(2, 3, 6)` | the mask has the field's shape `elementshape + meshShape` | not executed | MeshVariables.MaskAsWrittenTransposed | MeshVariables.MeshVariable.SetValueMask |
| fipy/variables/meshVariable.py:317 | the mesh axis is recognised as `len(self.shape)` or `-1` | shape `(2, 6)`, `axis=1`: the mesh axis, yet a mesh-variable class is returned; `axis=2` is out of range yet returns the plain class | the mesh axis is `len(self.shape) - 1` or `-1` | not executed | MeshVariables.AxisClassAsWrittenMissesMeshAxis | MeshVariables.AxisClass |
