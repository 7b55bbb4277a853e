/** The shapes and values of the examples in the documentation of
    fipy/variables/meshVariable.py (`getShape`, lines 142-156, and `_testDot`,
    lines 343-418): fields on a 2 by 3 grid, six cells and seventeen faces,
    whose initial values are constant over the cells. */
module MeshVariableExamples {
  import opened Results
  import opened Shapes
  import opened Arrays
  import opened MeshVariableDot
  import opened MeshVariables

  function Grid(): (m: Mesh)
    ensures m == Mesh(2, 6, 17)
  {
    Grid2D(2, 3)
  }

  /** A field built with the scalar value 0 (the default) has the element
      shape chosen from the rank, followed by the mesh shape. */
  lemma ZeroField(mesh: Mesh, kind: Kind, rank: Option<int>)
    ensures Initialise(mesh, kind, rank, None, Some(Scalar(0)), []).Success?
    ensures Initialise(mesh, kind, rank, None, Some(Scalar(0)), []).value.elementshape
         == if rank.Some? then RankShape(mesh.dim, rank.value) else []
  {
    var es := if rank.Some? then RankShape(mesh.dim, rank.value) else [];
    BroadcastScalar(es + ShapeFromMesh(kind, mesh));
  }

  lemma RankOne(dim: nat)
    ensures RankShape(dim, 1) == [dim]
  {
  }

  /** On a two-dimensional mesh a field of the default value has the element
      shape `()` when no rank is given and `(2,)` for rank one: a cell
      variable has shape `(numberOfCells,)`, its face value
      `(numberOfFaces,)`, its gradient `(2, numberOfCells)` and its face
      gradient `(2, numberOfFaces)` (`(6,)`, `(17,)`, `(2, 6)` and `(2, 17)`
      on `Grid()`). */
  lemma GridShapes(mesh: Mesh, kind: Kind)
    requires mesh.dim == 2
    ensures Initialise(mesh, kind, None, None, Some(Scalar(0)), []).Success?
    ensures Initialise(mesh, kind, Some(1), None, Some(Scalar(0)), []).Success?
    ensures Initialise(mesh, kind, None, None, Some(Scalar(0)), []).value.elementshape == []
    ensures Initialise(mesh, kind, Some(1), None, Some(Scalar(0)), []).value.elementshape == [2]
  {
    ZeroField(mesh, kind, None);
    ZeroField(mesh, kind, Some(1));
    RankOne(mesh.dim);
  }

  /** The full shapes of those fields: `(numberOfCells,)` or
      `(numberOfFaces,)`, with a leading axis of length 2 for rank one. */
  lemma {:induction false} GridFieldShapes(mesh: Mesh, kind: Kind, n: nat)
    requires mesh.dim == 2 && n == if kind == CellField then mesh.numberOfCells else mesh.numberOfFaces
    ensures var a := Initialise(mesh, kind, None, None, Some(Scalar(0)), []);
      a.Success? && a.value.elementshape + ShapeFromMesh(kind, mesh) == [n]
    ensures var a := Initialise(mesh, kind, Some(1), None, Some(Scalar(0)), []);
      a.Success? && a.value.elementshape + ShapeFromMesh(kind, mesh) == [2, n]
  {
    GridShapes(mesh, kind);
    var e0 := Initialise(mesh, kind, None, None, Some(Scalar(0)), []).value.elementshape;
    var e1 := Initialise(mesh, kind, Some(1), None, Some(Scalar(0)), []).value.elementshape;
    assert ShapeFromMesh(kind, mesh) == [n];
    calc {
      e0 + [n];
    ==  { assert e0 == []; }
      [] + [n];
    ==
      [n];
    }
    calc {
      e1 + [n];
    ==  { assert e1 == [2]; }
      [2] + [n];
    ==
      [2, n];
    }
  }

  /** The shapes in the documentation of `getShape` on `Grid2D(nx=2, ny=3)`:
      a scalar cell variable `(6,)`, its face value `(17,)`, its gradient
      `(2, 6)` and its face gradient `(2, 17)`, each the element shape
      followed by the mesh shape. */
  lemma DocumentedShapes(mesh: Mesh)
    requires mesh == Grid()
    ensures var a := Initialise(mesh, CellField, None, None, Some(Scalar(0)), []);
      a.Success? && a.value.elementshape + ShapeFromMesh(CellField, mesh) == [6]
    ensures var a := Initialise(mesh, FaceField, None, None, Some(Scalar(0)), []);
      a.Success? && a.value.elementshape + ShapeFromMesh(FaceField, mesh) == [17]
    ensures var a := Initialise(mesh, CellField, Some(1), None, Some(Scalar(0)), []);
      a.Success? && a.value.elementshape + ShapeFromMesh(CellField, mesh) == [2, 6]
    ensures var a := Initialise(mesh, FaceField, Some(1), None, Some(Scalar(0)), []);
      a.Success? && a.value.elementshape + ShapeFromMesh(FaceField, mesh) == [2, 17]
  {
    GridFieldShapes(mesh, CellField, 6);
    GridFieldShapes(mesh, FaceField, 17);
  }

  // ---------------------------------------------------------------------------
  // Fields whose value is constant over the cells

  /** `value[..., newaxis]` broadcasts against a field of shape `es + [m]`. */
  lemma ConstantOverCells(es: Shape, m: nat)
    ensures BroadcastShape(es + [m], es + [1]) == Some(es + [m])
  {
    BroadcastSelfAligned(es);
    BroadcastOnesRight([m]);
    assert Ones(1) == [1];
    BroadcastConcat(es, [m], es, [1], es, [m]);
    PadFull(es + [m]);
    PadFull(es + [1]);
  }

  lemma RankOfTwos(es: Shape)
    requires forall i :: 0 <= i < |es| ==> es[i] == 2
    ensures RankShape(2, |es|) == es
  {
  }

  /** A cell field of rank `|es|` on a two-dimensional mesh, built from a
      value of shape `es + [1]`, stores that value broadcast over the cells. */
  lemma CellFieldStored(mesh: Mesh, es: Shape, v: Tensor<int>)
    requires mesh.dim == 2 && forall i :: 0 <= i < |es| ==> es[i] == 2
    requires HasShape(v, es + [1])
    ensures BroadcastShape(es + [mesh.numberOfCells], es + [1]) == Some(es + [mesh.numberOfCells])
    ensures Initialise(mesh, CellField, Some(|es|), None, Some(v), es + [1]).Success?
    ensures Initialise(mesh, CellField, Some(|es|), None, Some(v), es + [1]).value.stored
         == Some(InitialArray(es + [mesh.numberOfCells], v, es + [1]).value)
  {
    RankOfTwos(es);
    ConstantOverCells(es, mesh.numberOfCells);
  }

  lemma ProjTrailing(p: seq<nat>, es: Shape, c: nat)
    requires |p| == |es| && InBounds(p, es)
    ensures Proj(p + [c], es + [1]) == p + [0]
  {
    ProjConcat(p, [c], es, [1]);
    ProjIdentity(p, es);
    assert Proj([c], [1]) == [0];
  }

  /** The array such a field stores. */
  function CellValue(mesh: Mesh, es: Shape, v: Tensor<int>): (t: Tensor<int>)
    requires mesh.dim == 2 && forall i :: 0 <= i < |es| ==> es[i] == 2
    requires HasShape(v, es + [1])
    ensures Initialise(mesh, CellField, Some(|es|), None, Some(v), es + [1]).Success?
    ensures Initialise(mesh, CellField, Some(|es|), None, Some(v), es + [1]).value.stored == Some(t)
    ensures HasShape(t, es + [mesh.numberOfCells])
  {
    CellFieldStored(mesh, es, v);
    InitialArray(es + [mesh.numberOfCells], v, es + [1]).value
  }

  /** Such a field holds the value in every cell: its entry at `p + [c]` is
      the value's at `p + [0]`. */
  lemma CellFieldAt(mesh: Mesh, es: Shape, v: Tensor<int>, p: seq<nat>, c: nat, q: seq<nat>, r: seq<nat>)
    requires mesh.dim == 2 && forall i :: 0 <= i < |es| ==> es[i] == 2
    requires HasShape(v, es + [1]) && |p| == |es| && InBounds(p, es) && c < mesh.numberOfCells
    requires q == p + [c] && r == p + [0]
    ensures At(CellValue(mesh, es, v), q) == At(v, r)
  {
    var S := es + [mesh.numberOfCells];
    CellFieldStored(mesh, es, v);
    InBoundsConcat(p, [c], es, [mesh.numberOfCells]);
    InitialArrayAt(S, v, es + [1], q);
    assert q[|S| - |es + [1]|..] == q;
    ProjTrailing(p, es, c);
  }

  /** `array([x, y])[..., newaxis]`. */
  function Column(x: int, y: int): Tensor<int> {
    Array([Array([Scalar(x)]), Array([Scalar(y)])])
  }

  /** `array([[a, b], [c, d]])[..., newaxis]`. */
  function Square(a: int, b: int, c: int, d: int): Tensor<int> {
    Array([Column(a, b), Column(c, d)])
  }

  lemma ColumnShape(x: int, y: int)
    ensures HasShape(Column(x, y), [2] + [1])
  {
    assert [2] + [1] == [2, 1];
    assert [2, 1][1..] == [1] && [1][1..] == [];
  }

  lemma SquareShape(a: int, b: int, c: int, d: int)
    ensures HasShape(Square(a, b, c, d), [2, 2] + [1])
  {
    ColumnShape(a, b);
    ColumnShape(c, d);
    assert [2, 2] + [1] == [2, 2, 1];
    assert [2, 2, 1][1..] == [2] + [1];
  }

  lemma ColumnAt(x: int, y: int, i: nat)
    requires i < 2
    ensures At(Column(x, y), [i, 0]) == if i == 0 then x else y
  {
    assert [i, 0][1..] == [0] && [0][1..] == [];
    var cell := Column(x, y).items[i];
    assert Sub(Column(x, y), [i, 0]) == Sub(cell, [0]) == Sub(cell.items[0], []);
  }

  lemma SquareAt(a: int, b: int, c: int, d: int, i: nat, j: nat)
    requires i < 2 && j < 2
    ensures At(Square(a, b, c, d), [i, j, 0])
         == if i == 0 then (if j == 0 then a else b) else (if j == 0 then c else d)
  {
    assert [i, j, 0][1..] == [j, 0];
    ColumnAt(if i == 0 then a else c, if i == 0 then b else d, j);
  }

  /** The value of the rank-one cell field built from `array([x, y])[..., newaxis]`. */
  function VectorValue(mesh: Mesh, x: int, y: int): Tensor<int>
    requires mesh.dim == 2
  {
    ColumnShape(x, y);
    CellValue(mesh, [2], Column(x, y))
  }

  lemma VectorEntry(mesh: Mesh, x: int, y: int, i: nat, e: nat)
    requires mesh.dim == 2 && i < 2 && e < mesh.numberOfCells
    ensures At(VectorValue(mesh, x, y), [i, e]) == if i == 0 then x else y
  {
    ColumnShape(x, y);
    CellFieldAt(mesh, [2], Column(x, y), [i], e, [i, e], [i, 0]);
    ColumnAt(x, y, i);
  }

  lemma VectorShape(mesh: Mesh, x: int, y: int)
    requires mesh.dim == 2
    ensures HasShape(VectorValue(mesh, x, y), [2, mesh.numberOfCells])
  {
    ColumnShape(x, y);
    assert [2] + [mesh.numberOfCells] == [2, mesh.numberOfCells];
  }

  /** Cell `e` of a vector field holds `[x, y]`. */
  predicate VectorCell(t: Tensor<int>, e: nat, x: int, y: int) {
    At(t, [0, e]) == x && At(t, [1, e]) == y
  }

  /** A vector field on `m` cells holding `[x, y]` in every cell. */
  predicate VectorIn(t: Tensor<int>, m: nat, x: int, y: int) {
    HasShape(t, [2, m]) && forall e :: 0 <= e < m ==> VectorCell(t, e, x, y)
  }

  /** The vector cell field of `_testDot` with value
      `array([x, y])[..., newaxis]`: `x` and `y` in every cell. */
  function VectorField(mesh: Mesh, x: int, y: int): (t: Tensor<int>)
    requires mesh.dim == 2
    ensures VectorIn(t, mesh.numberOfCells, x, y)
  {
    VectorShape(mesh, x, y);
    forall e | 0 <= e < mesh.numberOfCells ensures VectorCell(VectorValue(mesh, x, y), e, x, y) {
      VectorEntry(mesh, x, y, 0, e);
      VectorEntry(mesh, x, y, 1, e);
    }
    VectorValue(mesh, x, y)
  }

  /** The value of the rank-two cell field built from
      `array([[a, b], [c, d]])[..., newaxis]`. */
  function TensorValue(mesh: Mesh, a: int, b: int, c: int, d: int): Tensor<int>
    requires mesh.dim == 2
  {
    SquareShape(a, b, c, d);
    CellValue(mesh, [2, 2], Square(a, b, c, d))
  }

  lemma TensorEntry(mesh: Mesh, a: int, b: int, c: int, d: int, i: nat, j: nat, e: nat)
    requires mesh.dim == 2 && i < 2 && j < 2 && e < mesh.numberOfCells
    ensures At(TensorValue(mesh, a, b, c, d), [i, j, e])
         == if i == 0 then (if j == 0 then a else b) else (if j == 0 then c else d)
  {
    SquareShape(a, b, c, d);
    CellFieldAt(mesh, [2, 2], Square(a, b, c, d), [i, j], e, [i, j, e], [i, j, 0]);
    SquareAt(a, b, c, d, i, j);
  }

  lemma TensorShape(mesh: Mesh, a: int, b: int, c: int, d: int)
    requires mesh.dim == 2
    ensures HasShape(TensorValue(mesh, a, b, c, d), [2, 2, mesh.numberOfCells])
  {
    SquareShape(a, b, c, d);
    assert [2, 2] + [mesh.numberOfCells] == [2, 2, mesh.numberOfCells];
  }

  lemma TensorEntries(mesh: Mesh, a: int, b: int, c: int, d: int, e: nat)
    requires mesh.dim == 2 && e < mesh.numberOfCells
    ensures TensorCell(TensorValue(mesh, a, b, c, d), e, a, b, c, d)
  {
    TensorEntry(mesh, a, b, c, d, 0, 0, e);
    TensorEntry(mesh, a, b, c, d, 0, 1, e);
    TensorEntry(mesh, a, b, c, d, 1, 0, e);
    TensorEntry(mesh, a, b, c, d, 1, 1, e);
  }

  /** Cell `e` of a rank-two field holds `[[a, b], [c, d]]`. */
  predicate TensorCell(t: Tensor<int>, e: nat, a: int, b: int, c: int, d: int) {
    At(t, [0, 0, e]) == a && At(t, [0, 1, e]) == b && At(t, [1, 0, e]) == c && At(t, [1, 1, e]) == d
  }

  /** A rank-two field on `m` cells holding `[[a, b], [c, d]]` in every cell. */
  predicate TensorIn(t: Tensor<int>, m: nat, a: int, b: int, c: int, d: int) {
    HasShape(t, [2, 2, m]) && forall e :: 0 <= e < m ==> TensorCell(t, e, a, b, c, d)
  }

  /** The rank-two cell field of `_testDot` with value
      `array([[a, b], [c, d]])[..., newaxis]`. */
  function TensorField(mesh: Mesh, a: int, b: int, c: int, d: int): (t: Tensor<int>)
    requires mesh.dim == 2
    ensures TensorIn(t, mesh.numberOfCells, a, b, c, d)
  {
    TensorShape(mesh, a, b, c, d);
    forall e | 0 <= e < mesh.numberOfCells ensures TensorCell(TensorValue(mesh, a, b, c, d), e, a, b, c, d) {
      TensorEntries(mesh, a, b, c, d, e);
    }
    TensorValue(mesh, a, b, c, d)
  }

  /** `array([[[a, b], [c, d]], [[e, f], [g, h]]])[..., newaxis]`. */
  function Cube(a: int, b: int, c: int, d: int, e: int, f: int, g: int, h: int): Tensor<int> {
    Array([Square(a, b, c, d), Square(e, f, g, h)])
  }

  lemma CubeShape(a: int, b: int, c: int, d: int, e: int, f: int, g: int, h: int)
    ensures HasShape(Cube(a, b, c, d, e, f, g, h), [2, 2, 2] + [1])
  {
    SquareShape(a, b, c, d);
    SquareShape(e, f, g, h);
    assert [2, 2, 2] + [1] == [2, 2, 2, 1];
    assert [2, 2, 2, 1][1..] == [2, 2] + [1];
  }

  lemma CubeAt(a: int, b: int, c: int, d: int, e: int, f: int, g: int, h: int, i: nat, j: nat, k: nat)
    requires i < 2 && j < 2 && k < 2
    ensures At(Cube(a, b, c, d, e, f, g, h), [i, j, k, 0])
         == if i == 0 then At(Square(a, b, c, d), [j, k, 0]) else At(Square(e, f, g, h), [j, k, 0])
  {
    assert [i, j, k, 0][1..] == [j, k, 0];
  }

  /** The value of the rank-three cell field built from
      `array([[[a, b], [c, d]], [[e, f], [g, h]]])[..., newaxis]`. */
  function Rank3Value(mesh: Mesh, a: int, b: int, c: int, d: int, e: int, f: int, g: int, h: int): Tensor<int>
    requires mesh.dim == 2
  {
    CubeShape(a, b, c, d, e, f, g, h);
    CellValue(mesh, [2, 2, 2], Cube(a, b, c, d, e, f, g, h))
  }

  lemma Rank3Entry(mesh: Mesh, a: int, b: int, c: int, d: int, e: int, f: int, g: int, h: int,
                   i: nat, j: nat, k: nat, x: nat)
    requires mesh.dim == 2 && i < 2 && j < 2 && k < 2 && x < mesh.numberOfCells
    ensures At(Rank3Value(mesh, a, b, c, d, e, f, g, h), [i, j, k, x])
         == if i == 0 then (if j == 0 then (if k == 0 then a else b) else (if k == 0 then c else d))
            else (if j == 0 then (if k == 0 then e else f) else (if k == 0 then g else h))
  {
    CubeShape(a, b, c, d, e, f, g, h);
    CellFieldAt(mesh, [2, 2, 2], Cube(a, b, c, d, e, f, g, h), [i, j, k], x, [i, j, k, x], [i, j, k, 0]);
    CubeAt(a, b, c, d, e, f, g, h, i, j, k);
    SquareAt(a, b, c, d, j, k);
    SquareAt(e, f, g, h, j, k);
  }

  lemma Rank3Shape(mesh: Mesh, a: int, b: int, c: int, d: int, e: int, f: int, g: int, h: int)
    requires mesh.dim == 2
    ensures HasShape(Rank3Value(mesh, a, b, c, d, e, f, g, h), [2, 2, 2, mesh.numberOfCells])
  {
    CubeShape(a, b, c, d, e, f, g, h);
    assert [2, 2, 2] + [mesh.numberOfCells] == [2, 2, 2, mesh.numberOfCells];
  }

  /** Cell `x` of a rank-three field holds `[[[a, b], [c, d]], [[e, f], [g, h]]]`. */
  predicate Rank3Cell(t: Tensor<int>, x: nat, a: int, b: int, c: int, d: int, e: int, f: int, g: int, h: int) {
    At(t, [0, 0, 0, x]) == a && At(t, [0, 0, 1, x]) == b && At(t, [0, 1, 0, x]) == c && At(t, [0, 1, 1, x]) == d &&
    At(t, [1, 0, 0, x]) == e && At(t, [1, 0, 1, x]) == f && At(t, [1, 1, 0, x]) == g && At(t, [1, 1, 1, x]) == h
  }

  lemma Rank3Entries(mesh: Mesh, a: int, b: int, c: int, d: int, e: int, f: int, g: int, h: int, x: nat)
    requires mesh.dim == 2 && x < mesh.numberOfCells
    ensures Rank3Cell(Rank3Value(mesh, a, b, c, d, e, f, g, h), x, a, b, c, d, e, f, g, h)
  {
    Rank3Entry(mesh, a, b, c, d, e, f, g, h, 0, 0, 0, x);
    Rank3Entry(mesh, a, b, c, d, e, f, g, h, 0, 0, 1, x);
    Rank3Entry(mesh, a, b, c, d, e, f, g, h, 0, 1, 0, x);
    Rank3Entry(mesh, a, b, c, d, e, f, g, h, 0, 1, 1, x);
    Rank3Entry(mesh, a, b, c, d, e, f, g, h, 1, 0, 0, x);
    Rank3Entry(mesh, a, b, c, d, e, f, g, h, 1, 0, 1, x);
    Rank3Entry(mesh, a, b, c, d, e, f, g, h, 1, 1, 0, x);
    Rank3Entry(mesh, a, b, c, d, e, f, g, h, 1, 1, 1, x);
  }

  /** A rank-three field on `m` cells holding
      `[[[a, b], [c, d]], [[e, f], [g, h]]]` in every cell. */
  predicate Rank3In(t: Tensor<int>, m: nat, a: int, b: int, c: int, d: int, e: int, f: int, g: int, h: int) {
    HasShape(t, [2, 2, 2, m]) && forall x :: 0 <= x < m ==> Rank3Cell(t, x, a, b, c, d, e, f, g, h)
  }

  /** The rank-three cell field of `_testDot` with value
      `array([[[a, b], [c, d]], [[e, f], [g, h]]])[..., newaxis]`. */
  function Rank3Field(mesh: Mesh, a: int, b: int, c: int, d: int, e: int, f: int, g: int, h: int): (t: Tensor<int>)
    requires mesh.dim == 2
    ensures Rank3In(t, mesh.numberOfCells, a, b, c, d, e, f, g, h)
  {
    Rank3Shape(mesh, a, b, c, d, e, f, g, h);
    forall x | 0 <= x < mesh.numberOfCells ensures Rank3Cell(Rank3Value(mesh, a, b, c, d, e, f, g, h), x, a, b, c, d, e, f, g, h) {
      Rank3Entries(mesh, a, b, c, d, e, f, g, h, x);
    }
    Rank3Value(mesh, a, b, c, d, e, f, g, h)
  }

  // ---------------------------------------------------------------------------
  // Products of vectors and rank-two tensors in two dimensions, over `m` cells

  lemma Total2(xs: seq<int>)
    requires |xs| == 2
    ensures Total(xs) == xs[0] + xs[1]
  {
    assert Total(xs[1..]) == xs[1] + Total(xs[1..][1..]);
    assert xs[1..][1..] == [];
  }

  /** The contraction theorem for two-component vectors, with the shapes
      and indices of the operands and of the product named: each entry of
      the product is a sum of two products. */
  lemma ContractionAt2(a: Tensor<int>, sa: Shape, I: Shape, m: nat, b: Tensor<int>, sb: Shape, J: Shape,
                       i: seq<nat>, j: seq<nat>, c: nat, S: Shape, p: seq<nat>,
                       pa0: seq<nat>, pa1: seq<nat>, pb0: seq<nat>, pb1: seq<nat>)
    requires sa == I + [2, m] && sb == [2] + J + [m] && S == I + J + [m] && p == i + j + [c]
    requires pa0 == i + [0, c] && pa1 == i + [1, c] && pb0 == [0] + j + [c] && pb1 == [1] + j + [c]
    requires HasShape(a, sa) && HasShape(b, sb)
    requires |i| == |I| && InBounds(i, I) && |j| == |J| && InBounds(j, J) && c < m
    ensures OpShape(sa, sb) == Success(S)
    ensures DotArrays(a, sa, b, sb).Success?
    ensures At(DotArrays(a, sa, b, sb).value, p) == At(a, pa0) * At(b, pb0) + At(a, pa1) * At(b, pb1)
  {
    ContractionAt(a, I, 2, m, b, J, i, j, c);
    Total2(seq(2, k requires 0 <= k < 2 => At(a, i + [k, c]) * At(b, [k] + j + [c])));
  }

  /** A vector dotted with a vector is, in each cell, the sum of the
      products of their components, with shape `(m,)`. */
  lemma VectorDotVector(a: Tensor<int>, b: Tensor<int>, m: nat, e: nat)
    requires HasShape(a, [2, m]) && HasShape(b, [2, m]) && e < m
    ensures OpShape([2, m], [2, m]) == Success([m])
    ensures DotArrays(a, [2, m], b, [2, m]).Success?
    ensures At(DotArrays(a, [2, m], b, [2, m]).value, [e]) == At(a, [0, e]) * At(b, [0, e]) + At(a, [1, e]) * At(b, [1, e])
  {
    ContractionAt2(a, [2, m], [], m, b, [2, m], [], [], [], e, [m], [e], [0, e], [1, e], [0, e], [1, e]);
  }

  /** A vector dotted with a rank-two tensor contracts the tensor's first
      axis, with shape `(2, m)`. */
  lemma VectorDotTensor(a: Tensor<int>, b: Tensor<int>, m: nat, j: nat, e: nat)
    requires HasShape(a, [2, m]) && HasShape(b, [2, 2, m]) && j < 2 && e < m
    ensures OpShape([2, m], [2, 2, m]) == Success([2, m])
    ensures DotArrays(a, [2, m], b, [2, 2, m]).Success?
    ensures At(DotArrays(a, [2, m], b, [2, 2, m]).value, [j, e])
         == At(a, [0, e]) * At(b, [0, j, e]) + At(a, [1, e]) * At(b, [1, j, e])
  {
    ContractionAt2(a, [2, m], [], m, b, [2, 2, m], [2], [], [j], e, [2, m], [j, e], [0, e], [1, e], [0, j, e], [1, j, e]);
  }

  /** A rank-two tensor dotted with a vector contracts the tensor's second
      axis, with shape `(2, m)`. */
  lemma TensorDotVector(a: Tensor<int>, b: Tensor<int>, m: nat, i: nat, e: nat)
    requires HasShape(a, [2, 2, m]) && HasShape(b, [2, m]) && i < 2 && e < m
    ensures OpShape([2, 2, m], [2, m]) == Success([2, m])
    ensures DotArrays(a, [2, 2, m], b, [2, m]).Success?
    ensures At(DotArrays(a, [2, 2, m], b, [2, m]).value, [i, e])
         == At(a, [i, 0, e]) * At(b, [0, e]) + At(a, [i, 1, e]) * At(b, [1, e])
  {
    ContractionAt2(a, [2, 2, m], [2], m, b, [2, m], [], [i], [], e, [2, m], [i, e], [i, 0, e], [i, 1, e], [0, e], [1, e]);
  }

  /** The product of two rank-two tensors is, in each cell, their matrix
      product, with shape `(2, 2, m)`. */
  lemma TensorDotTensor(a: Tensor<int>, b: Tensor<int>, m: nat, i: nat, j: nat, e: nat)
    requires HasShape(a, [2, 2, m]) && HasShape(b, [2, 2, m]) && i < 2 && j < 2 && e < m
    ensures OpShape([2, 2, m], [2, 2, m]) == Success([2, 2, m])
    ensures DotArrays(a, [2, 2, m], b, [2, 2, m]).Success?
    ensures At(DotArrays(a, [2, 2, m], b, [2, 2, m]).value, [i, j, e])
         == At(a, [i, 0, e]) * At(b, [0, j, e]) + At(a, [i, 1, e]) * At(b, [1, j, e])
  {
    ContractionAt2(a, [2, 2, m], [2], m, b, [2, 2, m], [2], [i], [j], e, [2, 2, m], [i, j, e],
                   [i, 0, e], [i, 1, e], [0, j, e], [1, j, e]);
  }

  /** A vector dotted with a rank-three tensor contracts the tensor's first
      axis, with shape `(2, 2, m)`. */
  lemma VectorDotRank3(a: Tensor<int>, b: Tensor<int>, m: nat, j: nat, k: nat, e: nat)
    requires HasShape(a, [2, m]) && HasShape(b, [2, 2, 2, m]) && j < 2 && k < 2 && e < m
    ensures OpShape([2, m], [2, 2, 2, m]) == Success([2, 2, m])
    ensures DotArrays(a, [2, m], b, [2, 2, 2, m]).Success?
    ensures At(DotArrays(a, [2, m], b, [2, 2, 2, m]).value, [j, k, e])
         == At(a, [0, e]) * At(b, [0, j, k, e]) + At(a, [1, e]) * At(b, [1, j, k, e])
  {
    ContractionAt2(a, [2, m], [], m, b, [2, 2, 2, m], [2, 2], [], [j, k], e, [2, 2, m], [j, k, e],
                   [0, e], [1, e], [0, j, k, e], [1, j, k, e]);
  }

  /** A rank-three tensor dotted with a vector contracts the tensor's last
      element axis, with shape `(2, 2, m)`. */
  lemma Rank3DotVector(a: Tensor<int>, b: Tensor<int>, m: nat, i: nat, j: nat, e: nat)
    requires HasShape(a, [2, 2, 2, m]) && HasShape(b, [2, m]) && i < 2 && j < 2 && e < m
    ensures OpShape([2, 2, 2, m], [2, m]) == Success([2, 2, m])
    ensures DotArrays(a, [2, 2, 2, m], b, [2, m]).Success?
    ensures At(DotArrays(a, [2, 2, 2, m], b, [2, m]).value, [i, j, e])
         == At(a, [i, j, 0, e]) * At(b, [0, e]) + At(a, [i, j, 1, e]) * At(b, [1, e])
  {
    ContractionAt2(a, [2, 2, 2, m], [2, 2], m, b, [2, m], [], [i, j], [], e, [2, 2, m], [i, j, e],
                   [i, j, 0, e], [i, j, 1, e], [0, e], [1, e]);
  }

  /** A rank-two tensor dotted with a rank-three tensor, with shape
      `(2, 2, 2, m)`. */
  lemma TensorDotRank3(a: Tensor<int>, b: Tensor<int>, m: nat, i: nat, j: nat, k: nat, e: nat)
    requires HasShape(a, [2, 2, m]) && HasShape(b, [2, 2, 2, m]) && i < 2 && j < 2 && k < 2 && e < m
    ensures OpShape([2, 2, m], [2, 2, 2, m]) == Success([2, 2, 2, m])
    ensures DotArrays(a, [2, 2, m], b, [2, 2, 2, m]).Success?
    ensures At(DotArrays(a, [2, 2, m], b, [2, 2, 2, m]).value, [i, j, k, e])
         == At(a, [i, 0, e]) * At(b, [0, j, k, e]) + At(a, [i, 1, e]) * At(b, [1, j, k, e])
  {
    ContractionAt2(a, [2, 2, m], [2], m, b, [2, 2, 2, m], [2, 2], [i], [j, k], e, [2, 2, 2, m], [i, j, k, e],
                   [i, 0, e], [i, 1, e], [0, j, k, e], [1, j, k, e]);
  }

  /** A rank-three tensor dotted with a rank-two tensor, with shape
      `(2, 2, 2, m)`. */
  lemma Rank3DotTensor(a: Tensor<int>, b: Tensor<int>, m: nat, i: nat, j: nat, k: nat, e: nat)
    requires HasShape(a, [2, 2, 2, m]) && HasShape(b, [2, 2, m]) && i < 2 && j < 2 && k < 2 && e < m
    ensures OpShape([2, 2, 2, m], [2, 2, m]) == Success([2, 2, 2, m])
    ensures DotArrays(a, [2, 2, 2, m], b, [2, 2, m]).Success?
    ensures At(DotArrays(a, [2, 2, 2, m], b, [2, 2, m]).value, [i, j, k, e])
         == At(a, [i, j, 0, e]) * At(b, [0, k, e]) + At(a, [i, j, 1, e]) * At(b, [1, k, e])
  {
    ContractionAt2(a, [2, 2, 2, m], [2, 2], m, b, [2, 2, m], [2], [i, j], [k], e, [2, 2, 2, m], [i, j, k, e],
                   [i, j, 0, e], [i, j, 1, e], [0, k, e], [1, k, e]);
  }

  /** Two rank-three tensors, with shape `(2, 2, 2, 2, m)`. */
  lemma Rank3DotRank3(a: Tensor<int>, b: Tensor<int>, m: nat, i: nat, j: nat, k: nat, l: nat, e: nat)
    requires HasShape(a, [2, 2, 2, m]) && HasShape(b, [2, 2, 2, m]) && i < 2 && j < 2 && k < 2 && l < 2 && e < m
    ensures OpShape([2, 2, 2, m], [2, 2, 2, m]) == Success([2, 2, 2, 2, m])
    ensures DotArrays(a, [2, 2, 2, m], b, [2, 2, 2, m]).Success?
    ensures At(DotArrays(a, [2, 2, 2, m], b, [2, 2, 2, m]).value, [i, j, k, l, e])
         == At(a, [i, j, 0, e]) * At(b, [0, k, l, e]) + At(a, [i, j, 1, e]) * At(b, [1, k, l, e])
  {
    ContractionAt2(a, [2, 2, 2, m], [2, 2], m, b, [2, 2, 2, m], [2, 2], [i, j], [k, l], e, [2, 2, 2, 2, m],
                   [i, j, k, l, e], [i, j, 0, e], [i, j, 1, e], [0, k, l, e], [1, k, l, e]);
  }

  // ---------------------------------------------------------------------------
  // The reference values of `_testDot`, in every cell of a mesh with `m`
  // cells: `v1` and `v2` are `VectorField(mesh, 2, 3)` and
  // `VectorField(mesh, 3, 4)`, `t21` and `t22` are
  // `TensorField(mesh, 2, 3, 4, 5)` and `TensorField(mesh, 3, 4, 5, 6)`,
  // `t31` and `t32` are `Rank3Field(mesh, 3, 4, 5, 6, 5, 6, 7, 8)` and
  // `Rank3Field(mesh, 2, 3, 4, 5, 4, 5, 6, 7)`.

  /** `v1.dot(v2)` is 18 in every cell, with shape `(m,)`. */
  lemma V1DotV2(v1: Tensor<int>, v2: Tensor<int>, m: nat, x: nat)
    requires VectorIn(v1, m, 2, 3) && VectorIn(v2, m, 3, 4) && x < m
    ensures OpShape([2, m], [2, m]) == Success([m])
    ensures DotArrays(v1, [2, m], v2, [2, m]).Success?
    ensures At(DotArrays(v1, [2, m], v2, [2, m]).value, [x]) == 18
  {
    assert VectorCell(v1, x, 2, 3);
    assert VectorCell(v2, x, 3, 4);
    VectorDotVector(v1, v2, m, x);
  }

  /** `v1.dot(t22)` is `[21, 26]` in every cell, with shape `(2, m)`. */
  lemma V1DotT22(v1: Tensor<int>, t22: Tensor<int>, m: nat, x: nat)
    requires VectorIn(v1, m, 2, 3) && TensorIn(t22, m, 3, 4, 5, 6) && x < m
    ensures OpShape([2, m], [2, 2, m]) == Success([2, m])
    ensures DotArrays(v1, [2, m], t22, [2, 2, m]).Success?
    ensures var r := DotArrays(v1, [2, m], t22, [2, 2, m]).value;
      At(r, [0, x]) == 21 && At(r, [1, x]) == 26
  {
    assert VectorCell(v1, x, 2, 3);
    assert TensorCell(t22, x, 3, 4, 5, 6);
    VectorDotTensor(v1, t22, m, 0, x);
    VectorDotTensor(v1, t22, m, 1, x);
  }

  /** `v1.dot(t31)` is `[[21, 26], [31, 36]]` in every cell, with shape
      `(2, 2, m)`. */
  lemma V1DotT31(v1: Tensor<int>, t31: Tensor<int>, m: nat, x: nat)
    requires VectorIn(v1, m, 2, 3) && Rank3In(t31, m, 3, 4, 5, 6, 5, 6, 7, 8) && x < m
    ensures OpShape([2, m], [2, 2, 2, m]) == Success([2, 2, m])
    ensures DotArrays(v1, [2, m], t31, [2, 2, 2, m]).Success?
    ensures var r := DotArrays(v1, [2, m], t31, [2, 2, 2, m]).value;
      At(r, [0, 0, x]) == 21 && At(r, [0, 1, x]) == 26 && At(r, [1, 0, x]) == 31 && At(r, [1, 1, x]) == 36
  {
    assert VectorCell(v1, x, 2, 3);
    assert Rank3Cell(t31, x, 3, 4, 5, 6, 5, 6, 7, 8);
    VectorDotRank3(v1, t31, m, 0, 0, x);
    VectorDotRank3(v1, t31, m, 0, 1, x);
    VectorDotRank3(v1, t31, m, 1, 0, x);
    VectorDotRank3(v1, t31, m, 1, 1, x);
  }

  /** `t21.dot(v1)` is `[13, 23]` in every cell, with shape `(2, m)`. */
  lemma T21DotV1(t21: Tensor<int>, v1: Tensor<int>, m: nat, x: nat)
    requires TensorIn(t21, m, 2, 3, 4, 5) && VectorIn(v1, m, 2, 3) && x < m
    ensures OpShape([2, 2, m], [2, m]) == Success([2, m])
    ensures DotArrays(t21, [2, 2, m], v1, [2, m]).Success?
    ensures var r := DotArrays(t21, [2, 2, m], v1, [2, m]).value;
      At(r, [0, x]) == 13 && At(r, [1, x]) == 23
  {
    assert TensorCell(t21, x, 2, 3, 4, 5);
    assert VectorCell(v1, x, 2, 3);
    TensorDotVector(t21, v1, m, 0, x);
    TensorDotVector(t21, v1, m, 1, x);
  }

  /** `t21.dot(t22)` is `[[21, 26], [37, 46]]` in every cell, with shape
      `(2, 2, m)`. */
  lemma T21DotT22(t21: Tensor<int>, t22: Tensor<int>, m: nat, x: nat)
    requires TensorIn(t21, m, 2, 3, 4, 5) && TensorIn(t22, m, 3, 4, 5, 6) && x < m
    ensures OpShape([2, 2, m], [2, 2, m]) == Success([2, 2, m])
    ensures DotArrays(t21, [2, 2, m], t22, [2, 2, m]).Success?
    ensures var r := DotArrays(t21, [2, 2, m], t22, [2, 2, m]).value;
      At(r, [0, 0, x]) == 21 && At(r, [0, 1, x]) == 26 && At(r, [1, 0, x]) == 37 && At(r, [1, 1, x]) == 46
  {
    assert TensorCell(t21, x, 2, 3, 4, 5);
    assert TensorCell(t22, x, 3, 4, 5, 6);
    TensorDotTensor(t21, t22, m, 0, 0, x);
    TensorDotTensor(t21, t22, m, 0, 1, x);
    TensorDotTensor(t21, t22, m, 1, 0, x);
    TensorDotTensor(t21, t22, m, 1, 1, x);
  }

  /** `t21.dot(t31)` is `[[[21, 26], [31, 36]], [[37, 46], [55, 64]]]` in
      every cell, with shape `(2, 2, 2, m)`. */
  lemma T21DotT31(t21: Tensor<int>, t31: Tensor<int>, m: nat, x: nat)
    requires TensorIn(t21, m, 2, 3, 4, 5) && Rank3In(t31, m, 3, 4, 5, 6, 5, 6, 7, 8) && x < m
    ensures OpShape([2, 2, m], [2, 2, 2, m]) == Success([2, 2, 2, m])
    ensures DotArrays(t21, [2, 2, m], t31, [2, 2, 2, m]).Success?
    ensures var r := DotArrays(t21, [2, 2, m], t31, [2, 2, 2, m]).value;
      At(r, [0, 0, 0, x]) == 21 && At(r, [0, 0, 1, x]) == 26 && At(r, [0, 1, 0, x]) == 31 && At(r, [0, 1, 1, x]) == 36 &&
      At(r, [1, 0, 0, x]) == 37 && At(r, [1, 0, 1, x]) == 46 && At(r, [1, 1, 0, x]) == 55 && At(r, [1, 1, 1, x]) == 64
  {
    assert TensorCell(t21, x, 2, 3, 4, 5);
    assert Rank3Cell(t31, x, 3, 4, 5, 6, 5, 6, 7, 8);
    TensorDotRank3(t21, t31, m, 0, 0, 0, x);
    forall i: nat, j: nat, k: nat | i < 2 && j < 2 && k < 2
      ensures At(DotArrays(t21, [2, 2, m], t31, [2, 2, 2, m]).value, [i, j, k, x])
           == At(t21, [i, 0, x]) * At(t31, [0, j, k, x]) + At(t21, [i, 1, x]) * At(t31, [1, j, k, x])
    {
      TensorDotRank3(t21, t31, m, i, j, k, x);
    }
  }

  /** `t31.dot(v1)` is `[[18, 28], [28, 38]]` in every cell, with shape
      `(2, 2, m)`. */
  lemma T31DotV1(t31: Tensor<int>, v1: Tensor<int>, m: nat, x: nat)
    requires Rank3In(t31, m, 3, 4, 5, 6, 5, 6, 7, 8) && VectorIn(v1, m, 2, 3) && x < m
    ensures OpShape([2, 2, 2, m], [2, m]) == Success([2, 2, m])
    ensures DotArrays(t31, [2, 2, 2, m], v1, [2, m]).Success?
    ensures var r := DotArrays(t31, [2, 2, 2, m], v1, [2, m]).value;
      At(r, [0, 0, x]) == 18 && At(r, [0, 1, x]) == 28 && At(r, [1, 0, x]) == 28 && At(r, [1, 1, x]) == 38
  {
    assert Rank3Cell(t31, x, 3, 4, 5, 6, 5, 6, 7, 8);
    assert VectorCell(v1, x, 2, 3);
    Rank3DotVector(t31, v1, m, 0, 0, x);
    Rank3DotVector(t31, v1, m, 0, 1, x);
    Rank3DotVector(t31, v1, m, 1, 0, x);
    Rank3DotVector(t31, v1, m, 1, 1, x);
  }

  /** `t31.dot(t21)` is `[[[22, 29], [34, 45]], [[34, 45], [46, 61]]]` in
      every cell, with shape `(2, 2, 2, m)`. */
  lemma T31DotT21(t31: Tensor<int>, t21: Tensor<int>, m: nat, x: nat)
    requires Rank3In(t31, m, 3, 4, 5, 6, 5, 6, 7, 8) && TensorIn(t21, m, 2, 3, 4, 5) && x < m
    ensures OpShape([2, 2, 2, m], [2, 2, m]) == Success([2, 2, 2, m])
    ensures DotArrays(t31, [2, 2, 2, m], t21, [2, 2, m]).Success?
    ensures var r := DotArrays(t31, [2, 2, 2, m], t21, [2, 2, m]).value;
      At(r, [0, 0, 0, x]) == 22 && At(r, [0, 0, 1, x]) == 29 && At(r, [0, 1, 0, x]) == 34 && At(r, [0, 1, 1, x]) == 45 &&
      At(r, [1, 0, 0, x]) == 34 && At(r, [1, 0, 1, x]) == 45 && At(r, [1, 1, 0, x]) == 46 && At(r, [1, 1, 1, x]) == 61
  {
    assert Rank3Cell(t31, x, 3, 4, 5, 6, 5, 6, 7, 8);
    assert TensorCell(t21, x, 2, 3, 4, 5);
    Rank3DotTensor(t31, t21, m, 0, 0, 0, x);
    forall i: nat, j: nat, k: nat | i < 2 && j < 2 && k < 2
      ensures At(DotArrays(t31, [2, 2, 2, m], t21, [2, 2, m]).value, [i, j, k, x])
           == At(t31, [i, j, 0, x]) * At(t21, [0, k, x]) + At(t31, [i, j, 1, x]) * At(t21, [1, k, x])
    {
      Rank3DotTensor(t31, t21, m, i, j, k, x);
    }
  }

  /** `t31.dot(t32)` in every cell, with shape `(2, 2, 2, 2, m)`: the block
      `[i, j]` is `t31[i, j, 0] * t32[0] + t31[i, j, 1] * t32[1]`. */
  lemma T31DotT32(t31: Tensor<int>, t32: Tensor<int>, m: nat, x: nat)
    requires Rank3In(t31, m, 3, 4, 5, 6, 5, 6, 7, 8) && Rank3In(t32, m, 2, 3, 4, 5, 4, 5, 6, 7) && x < m
    ensures OpShape([2, 2, 2, m], [2, 2, 2, m]) == Success([2, 2, 2, 2, m])
    ensures DotArrays(t31, [2, 2, 2, m], t32, [2, 2, 2, m]).Success?
    ensures var r := DotArrays(t31, [2, 2, 2, m], t32, [2, 2, 2, m]).value;
      At(r, [0, 0, 0, 0, x]) == 22 && At(r, [0, 0, 0, 1, x]) == 29 && At(r, [0, 0, 1, 0, x]) == 36 && At(r, [0, 0, 1, 1, x]) == 43 &&
      At(r, [0, 1, 0, 0, x]) == 34 && At(r, [0, 1, 0, 1, x]) == 45 && At(r, [0, 1, 1, 0, x]) == 56 && At(r, [0, 1, 1, 1, x]) == 67 &&
      At(r, [1, 0, 0, 0, x]) == 34 && At(r, [1, 0, 0, 1, x]) == 45 && At(r, [1, 0, 1, 0, x]) == 56 && At(r, [1, 0, 1, 1, x]) == 67 &&
      At(r, [1, 1, 0, 0, x]) == 46 && At(r, [1, 1, 0, 1, x]) == 61 && At(r, [1, 1, 1, 0, x]) == 76 && At(r, [1, 1, 1, 1, x]) == 91
  {
    assert Rank3Cell(t31, x, 3, 4, 5, 6, 5, 6, 7, 8);
    assert Rank3Cell(t32, x, 2, 3, 4, 5, 4, 5, 6, 7);
    Rank3DotRank3(t31, t32, m, 0, 0, 0, 0, x);
    forall i: nat, j: nat, k: nat, l: nat | i < 2 && j < 2 && k < 2 && l < 2
      ensures At(DotArrays(t31, [2, 2, 2, m], t32, [2, 2, 2, m]).value, [i, j, k, l, x])
           == At(t31, [i, j, 0, x]) * At(t32, [0, k, l, x]) + At(t31, [i, j, 1, x]) * At(t32, [1, k, l, x])
    {
      Rank3DotRank3(t31, t32, m, i, j, k, l, x);
    }
  }
}
