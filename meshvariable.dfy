/** `_MeshVariable` (fipy/variables/meshVariable.py): a field defined over the
    cells or the faces of a mesh. Its shape is its element shape (`()` for a
    scalar, `(d,)` for a vector, ...) followed by the mesh shape, so the axis
    that runs over the mesh elements is always the last one. */
module MeshVariables {
  import opened Results
  import opened Shapes
  import opened Arrays
  import opened MeshVariableDot

  // ---------------------------------------------------------------------------
  // Meshes and element shapes

  /** What the shape logic reads of a mesh: its spatial dimension and how many
      cells and faces it has. */
  datatype Mesh = Mesh(dim: nat, numberOfCells: nat, numberOfFaces: nat)

  /** A structured two-dimensional grid of `nx` by `ny` cells, with its
      `nx * (ny + 1)` horizontal and `ny * (nx + 1)` vertical faces. */
  function Grid2D(nx: nat, ny: nat): Mesh {
    Mesh(2, nx * ny, nx * (ny + 1) + ny * (nx + 1))
  }

  /** The concrete subclass: a cell variable or a face variable. */
  datatype Kind = CellField | FaceField

  /** `_getShapeFromMesh` of the concrete subclass: one axis over the cells or
      over the faces. */
  function ShapeFromMesh(kind: Kind, mesh: Mesh): Shape {
    match kind
    case CellField => [mesh.numberOfCells]
    case FaceField => [mesh.numberOfFaces]
  }

  /** Construction fails on an element shape that contradicts the rank, or on
      an initial value that cannot be stored in the field's array. */
  datatype InitError = DimensionError | ValueShapeError

  /** `rank * (dim,)`: Python repeats a tuple zero times for a negative count. */
  function RankShape(dim: nat, rank: int): (r: Shape)
    ensures |r| == if rank < 0 then 0 else rank
    ensures forall i :: 0 <= i < |r| ==> r[i] == dim
  {
    seq(if rank < 0 then 0 else rank, _ => dim)
  }

  /** The element shape `__init__` settles on (meshVariable.py, lines 60-68):
      the explicit one when it agrees with `rank`, otherwise `rank` copies of
      the mesh dimension, otherwise a scalar. */
  function SelectElementShape(dim: nat, rank: Option<int>, elementshape: Option<Shape>): (r: Result<Shape, InitError>)
    ensures elementshape.None? ==> r.Success?
    ensures elementshape.None? && rank.None? ==> r.value == []
    ensures elementshape.None? && rank.Some? ==> forall i :: 0 <= i < |r.value| ==> r.value[i] == dim
    ensures elementshape.Some? ==> (r.Failure? <==> rank.Some? && |elementshape.value| != rank.value)
    ensures elementshape.Some? && r.Success? ==> r.value == elementshape.value
    ensures r.Success? && rank.Some? && rank.value >= 0 ==> |r.value| == rank.value
    ensures r.Failure? ==> r.error == DimensionError
  {
    match elementshape
    case None => if rank.Some? then Success(RankShape(dim, rank.value)) else Success([])
    case Some(es) => if rank.Some? && |es| != rank.value then Failure(DimensionError) else Success(es)
  }

  // ---------------------------------------------------------------------------
  // The initial value

  /** `value[..., numerix.newaxis]`: a trailing axis of length one. */
  function WithTrailingAxis(v: Tensor<int>, sv: Shape): (r: Tensor<int>)
    requires HasShape(v, sv)
    ensures HasShape(r, sv + [1])
  {
    ExpandShape(v, sv, |sv|, 1);
    assert sv[..|sv|] + Ones(1) + sv[|sv|..] == sv + [1];
    Expand(v, |sv|, 1)
  }

  /** The array a field of shape `S` starts with, for an initial value `v` of
      shape `sv` (meshVariable.py, lines 72-79): `v` broadcast into zeros of
      shape `S`; a value that does not broadcast against `S` is first given a
      trailing axis, so that it is constant over the mesh elements. */
  function InitialArray(S: Shape, v: Tensor<int>, sv: Shape): (r: Result<Tensor<int>, InitError>)
    requires HasShape(v, sv)
    ensures r.Success? <==>
      BroadcastShape(S, sv) == Some(S) || (BroadcastShape(S, sv).None? && BroadcastShape(S, sv + [1]) == Some(S))
    ensures r.Success? ==> HasShape(r.value, S)
  {
    PadFull(S);
    if BroadcastShape(S, sv).Some? then
      if BroadcastShape(S, sv) == Some(S) then
        BroadcastIntoShape(v, sv, S);
        Success(BroadcastInto(v, sv, S))
      else Failure(ValueShapeError)
    else if BroadcastShape(S, sv + [1]) == Some(S) then
      var w := WithTrailingAxis(v, sv);
      BroadcastIntoShape(w, sv + [1], S);
      Success(BroadcastInto(w, sv + [1], S))
    else Failure(ValueShapeError)
  }

  /** Each entry of the initial array is the value read at the trailing part
      of its index, axes of length one read at 0. */
  lemma InitialArrayAt(S: Shape, v: Tensor<int>, sv: Shape, p: seq<nat>)
    requires HasShape(v, sv) && BroadcastShape(S, sv) == Some(S)
    requires InBounds(p, S) && |p| == |S|
    ensures InitialArray(S, v, sv).Success?
    ensures At(InitialArray(S, v, sv).value, p) == At(v, Proj(p[|S| - |sv|..], sv))
  {
    PadFull(S);
    BroadcastIntoAt(v, sv, S, p);
  }

  /** An axis of a shape that broadcasts into `S` without changing it is 1
      or `S`'s length there. */
  lemma {:induction false} BroadcastIntoAxis(S: Shape, P: Shape, i: nat)
    requires |P| == |S| && BroadcastAligned(S, P) == Some(S) && i < |S|
    ensures P[i] == 1 || P[i] == S[i]
  {
    BroadcastAlignedAxes(S, P);
    assert Compatible(S[i], P[i]);
    assert BroadcastAligned(S, P).value[i] == BroadcastDim(S[i], P[i]);
  }

  /** Axis `k` of a shape broadcast into `S` without changing it is 1 or
      the length of the aligned axis of `S`. */
  lemma {:induction false} PadAxis(S: Shape, st: Shape, k: nat)
    requires |st| <= |S| && BroadcastAligned(S, Pad(st, |S|)) == Some(S) && k < |st|
    ensures st[k] == 1 || st[k] == S[|S| - |st| + k]
  {
    var P := Pad(st, |S|);
    assert P[|S| - |st|..][k] == st[k];
    BroadcastIntoAxis(S, P, |S| - |st| + k);
  }

  /** One axis of a projected index stays below the value's length there,
      when that length is 1 or the length the index is bounded by. */
  lemma {:induction false} ProjAxisInBounds(p: seq<nat>, off: nat, st: Shape, k: nat, n: nat)
    requires |p| == off + |st| && k < |st| && p[off + k] < n && (st[k] == 1 || st[k] == n)
    ensures Proj(p[off..], st)[k] < st[k]
  {
    assert p[off..][k] == p[off + k];
  }

  /** The broadcast-projected index of an in-bounds index lies within the
      value's shape. */
  lemma {:induction false} ProjInBounds(p: seq<nat>, S: Shape, st: Shape)
    requires |st| <= |S| && BroadcastAligned(S, Pad(st, |S|)) == Some(S)
    requires InBounds(p, S) && |p| == |S|
    ensures InBounds(Proj(p[|S| - |st|..], st), st)
  {
    var off := |S| - |st|;
    forall k | 0 <= k < |st|
      ensures Proj(p[off..], st)[k] < st[k]
    {
      PadAxis(S, st, k);
      ProjAxisInBounds(p, off, st, k, S[off + k]);
    }
  }

  /** The array stored for a value that only broadcasts after
      `value[..., newaxis]`. */
  lemma {:induction false} InitialArrayNewAxis(S: Shape, v: Tensor<int>, sv: Shape)
    requires HasShape(v, sv) && BroadcastShape(S, sv).None? && BroadcastShape(S, sv + [1]) == Some(S)
    ensures |sv| < |S| && BroadcastAligned(S, Pad(sv + [1], |S|)) == Some(S)
    ensures InitialArray(S, v, sv) == Success(BroadcastInto(WithTrailingAxis(v, sv), sv + [1], S))
  {
    PadFull(S);
  }

  /** Projecting an index onto `sv + [1]` reads the new axis at 0. */
  lemma {:induction false} ProjTrailingOne(q: seq<nat>, x: nat, sv: Shape)
    requires |q| == |sv|
    ensures Proj(q + [x], sv + [1]) == Proj(q, sv) + Zeros(1)
  {
    ProjConcat(q, [x], sv, [1]);
    assert Proj([x], [1]) == Zeros(1);
  }

  /** `v[..., newaxis]` read at an index of `v` followed by 0 is `v` there. */
  lemma {:induction false} TrailingAxisAt(v: Tensor<int>, sv: Shape, r: seq<nat>)
    requires HasShape(v, sv) && |r| == |sv| && InBounds(r, sv)
    ensures At(WithTrailingAxis(v, sv), r + Zeros(1)) == At(v, r)
  {
    ExpandSub(v, sv, |sv|, 1, r, []);
    assert r + Zeros(1) + [] == r + Zeros(1);
    assert r + [] == r;
  }

  /** Reading the broadcast of an array with a trailing axis of length one
      reads that axis at 0, whatever the last index. */
  lemma {:induction false} TrailingOneAt(S: Shape, w: Tensor<int>, sv: Shape, p: seq<nat>)
    requires HasShape(w, sv + [1]) && |sv| < |S| && BroadcastAligned(S, Pad(sv + [1], |S|)) == Some(S)
    requires InBounds(p, S) && |p| == |S|
    ensures InBounds(Proj(p[|S| - |sv| - 1..|S| - 1], sv), sv)
    ensures At(BroadcastInto(w, sv + [1], S), p) == At(w, Proj(p[|S| - |sv| - 1..|S| - 1], sv) + Zeros(1))
  {
    var sw := sv + [1];
    var tail := p[|S| - |sw|..];
    var q := p[|S| - |sv| - 1..|S| - 1];
    BroadcastIntoAt(w, sw, S, p);
    assert tail == q + [p[|S| - 1]];
    ProjTrailingOne(q, p[|S| - 1], sv);
    ProjInBounds(p, S, sw);
    PrefixInBounds(Proj(tail, sw), sw, |sv|);
    assert Proj(tail, sw)[..|sv|] == Proj(q, sv);
  }

  lemma {:induction false} PrefixInBounds(r: seq<nat>, s: Shape, n: nat)
    requires InBounds(r, s) && n <= |r|
    ensures InBounds(r[..n], s)
  {
  }

  /** Reading the broadcast of `v[..., newaxis]` ignores the last index. */
  lemma {:induction false} NewAxisAt(S: Shape, v: Tensor<int>, sv: Shape, p: seq<nat>)
    requires HasShape(v, sv) && |sv| < |S| && BroadcastAligned(S, Pad(sv + [1], |S|)) == Some(S)
    requires InBounds(p, S) && |p| == |S|
    ensures At(BroadcastInto(WithTrailingAxis(v, sv), sv + [1], S), p) == At(v, Proj(p[|S| - |sv| - 1..|S| - 1], sv))
  {
    var q := Proj(p[|S| - |sv| - 1..|S| - 1], sv);
    TrailingOneAt(S, WithTrailingAxis(v, sv), sv, p);
    TrailingAxisAt(v, sv, q);
  }

  /** For a value that only broadcasts after `value[..., newaxis]`, each
      entry of the initial array reads the value at the part of its index
      just before the mesh axis: the mesh-element index is ignored, so the
      value is constant over the mesh elements. */
  lemma {:induction false} InitialArrayNewAxisAt(S: Shape, v: Tensor<int>, sv: Shape, p: seq<nat>)
    requires HasShape(v, sv) && BroadcastShape(S, sv).None? && BroadcastShape(S, sv + [1]) == Some(S)
    requires InBounds(p, S) && |p| == |S|
    ensures |sv| < |S|
    ensures InitialArray(S, v, sv).Success?
    ensures At(InitialArray(S, v, sv).value, p) == At(v, Proj(p[|S| - |sv| - 1..|S| - 1], sv))
  {
    InitialArrayNewAxis(S, v, sv);
    NewAxisAt(S, v, sv, p);
  }

  /** What construction settles on: the element shape and the stored array
      (`None` for `value=None`). */
  datatype Initial = Initial(elementshape: Shape, stored: Option<Tensor<int>>)

  function Initialise(mesh: Mesh, kind: Kind, rank: Option<int>, elementshape: Option<Shape>,
                      value: Option<Tensor<int>>, sv: Shape): (r: Result<Initial, InitError>)
    requires value.Some? ==> HasShape(value.value, sv)
    ensures r.Success? <==> (SelectElementShape(mesh.dim, rank, elementshape).Success? &&
      (value.Some? ==> InitialArray(SelectElementShape(mesh.dim, rank, elementshape).value + ShapeFromMesh(kind, mesh), value.value, sv).Success?))
    ensures r.Success? ==> r.value.elementshape == SelectElementShape(mesh.dim, rank, elementshape).value
    ensures r.Success? ==> (r.value.stored.Some? <==> value.Some?)
    ensures r.Success? && r.value.stored.Some? ==> HasShape(r.value.stored.value, r.value.elementshape + ShapeFromMesh(kind, mesh))
    ensures r.Success? && value.Some? ==>
      r.value.stored == Some(InitialArray(r.value.elementshape + ShapeFromMesh(kind, mesh), value.value, sv).value)
  {
    match SelectElementShape(mesh.dim, rank, elementshape)
    case Failure(e) => Failure(e)
    case Success(es) =>
      match value
      case None => Success(Initial(es, None))
      case Some(v) =>
        match InitialArray(es + ShapeFromMesh(kind, mesh), v, sv)
        case Failure(e) => Failure(e)
        case Success(a) => Success(Initial(es, Some(a)))
  }

  // ---------------------------------------------------------------------------
  // Mask widening in `setValue`

  /** `numerix.repeat(t[numerix.newaxis, ...], repeats=n, axis=0)`. */
  lemma CopiesShape<T>(t: Tensor<T>, s: Shape, n: nat)
    requires HasShape(t, s)
    ensures HasShape(Copies(t, n), [n] + s)
  {
    assert ([n] + s)[1..] == s;
  }

  /** A mask widened across the element axes `es`, outermost first: one
      copy-axis per entry of `es`, in the order of `es`. */
  function Widened<T>(w: Tensor<T>, es: Shape): Tensor<T>
    decreases |es|
  {
    if |es| == 0 then w else Copies(Widened(w, es[1..]), es[0])
  }

  lemma {:induction false} WidenedShape<T>(w: Tensor<T>, sw: Shape, es: Shape)
    requires HasShape(w, sw)
    ensures HasShape(Widened(w, es), es + sw)
    decreases |es|
  {
    if |es| == 0 {
      assert es + sw == sw;
    } else {
      WidenedShape(w, sw, es[1..]);
      CopiesShape(Widened(w, es[1..]), es[1..] + sw, es[0]);
      assert [es[0]] + (es[1..] + sw) == es + sw;
    }
  }

  /** Every slice of the widened mask along the element axes is the mask. */
  lemma {:induction false} WidenedSlices<T>(w: Tensor<T>, es: Shape, p: seq<nat>)
    requires |p| == |es| && InBounds(p, es)
    ensures Sub(Widened(w, es), p) == w
    decreases |es|
  {
    if |es| > 0 {
      WidenedSlices(w, es[1..], p[1..]);
    }
  }

  /** The loop of `setValue` as written (meshVariable.py, lines 306-307): each
      entry of the element shape, taken in order, prepends a copy-axis. */
  function MaskAsWritten<T>(w: Tensor<T>, es: Shape): Tensor<T>
    decreases |es|
  {
    if |es| == 0 then w else MaskAsWritten(Copies(w, es[0]), es[1..])
  }

  function Reverse(s: Shape): (r: Shape)
    ensures |r| == |s|
    decreases |s|
  {
    if |s| == 0 then [] else Reverse(s[1..]) + [s[0]]
  }

  lemma {:induction false} WidenedInner<T>(w: Tensor<T>, es: Shape, n: nat)
    ensures Widened(Copies(w, n), es) == Widened(w, es + [n])
    decreases |es|
  {
    if |es| == 0 {
      assert Widened(w, [n]) == Copies(Widened(w, []), n);
    } else {
      assert (es + [n])[0] == es[0] && (es + [n])[1..] == es[1..] + [n];
      WidenedInner(w, es[1..], n);
    }
  }

  /** As written, the loop widens across the element shape reversed. */
  lemma {:induction false} MaskAsWrittenReversed<T>(w: Tensor<T>, es: Shape)
    ensures MaskAsWritten(w, es) == Widened(w, Reverse(es))
    decreases |es|
  {
    if |es| > 0 {
      MaskAsWrittenReversed(Copies(w, es[0]), es[1..]);
      WidenedInner(w, Reverse(es[1..]), es[0]);
    }
  }

  /** For a vector-of-vectors field with element shape `(2, 3)` on six cells,
      the mask as written has shape `(3, 2, 6)` rather than the field's
      `(2, 3, 6)`. */
  lemma MaskAsWrittenTransposed<T>(w: Tensor<T>)
    requires HasShape(w, [6])
    ensures HasShape(MaskAsWritten(w, [2, 3]), [3, 2, 6])
    ensures !HasShape(MaskAsWritten(w, [2, 3]), [2, 3, 6])
  {
    MaskAsWrittenReversed(w, [2, 3]);
    assert Reverse([2, 3]) == [3, 2] by {
      assert Reverse([3]) == [3] by { assert [2, 3][1..] == [3]; assert Reverse([]) == []; }
    }
    WidenedShape(w, [6], [3, 2]);
    assert [3, 2] + [6] == [3, 2, 6];
  }

  /** Where the element shape reads the same backwards (every element shape
      chosen from a rank is), the loop as written widens correctly. */
  lemma MaskAsWrittenPalindrome<T>(w: Tensor<T>, es: Shape)
    requires Reverse(es) == es
    ensures MaskAsWritten(w, es) == Widened(w, es)
  {
    MaskAsWrittenReversed(w, es);
  }

  lemma {:induction false} RankShapePalindrome(dim: nat, rank: int)
    ensures Reverse(RankShape(dim, rank)) == RankShape(dim, rank)
  {
    var s := RankShape(dim, rank);
    ReverseAt(s);
  }

  lemma {:induction false} ReverseAt(s: Shape)
    ensures forall i :: 0 <= i < |s| ==> Reverse(s)[i] == s[|s| - 1 - i]
    decreases |s|
  {
    if |s| > 0 {
      ReverseAt(s[1..]);
    }
  }

  // ---------------------------------------------------------------------------
  // Restricting a global value to the local cells

  /** Indexing with an ID past the end of the last axis raises `IndexError`. */
  datatype GlobalIDError = IDOutOfRange

  /** `_globalToLocalValue` (meshVariable.py, lines 90-97): a value whose last
      axis has the global length is read at `globalIDs` along that axis;
      `None` and every other value pass through unchanged. */
  function GlobalToLocalValue(value: Option<Tensor<int>>, vs: Shape, globalNumber: nat, globalIDs: seq<nat>)
    : (r: Result<Option<Tensor<int>>, GlobalIDError>)
    requires value.Some? ==> HasShape(value.value, vs)
    ensures value.None? ==> r == Success(None)
    ensures value.Some? && (|vs| == 0 || vs[|vs| - 1] != globalNumber) ==> r == Success(value)
    ensures value.Some? && |vs| > 0 && vs[|vs| - 1] == globalNumber ==>
      (r.Success? <==> forall j :: 0 <= j < |globalIDs| ==> globalIDs[j] < globalNumber)
    ensures value.Some? && |vs| > 0 && vs[|vs| - 1] == globalNumber && r.Success? ==>
      r.value.Some? && HasShape(r.value.value, vs[..|vs| - 1] + [|globalIDs|])
  {
    match value
    case None => Success(None)
    case Some(v) =>
      if |vs| > 0 && vs[|vs| - 1] == globalNumber then
        if forall j :: 0 <= j < |globalIDs| ==> globalIDs[j] < globalNumber then
          TakeLastShape(v, vs, globalIDs);
          Success(Some(TakeLast(v, |vs| - 1, globalIDs)))
        else Failure(IDOutOfRange)
      else Success(value)
  }

  /** The restricted value at local position `j` is the global value at
      `globalIDs[j]`. */
  lemma GlobalToLocalAt(v: Tensor<int>, vs: Shape, globalIDs: seq<nat>, p: seq<nat>, j: nat)
    requires HasShape(v, vs) && |vs| > 0
    requires forall k :: 0 <= k < |globalIDs| ==> globalIDs[k] < vs[|vs| - 1]
    requires |p| == |vs| - 1 && InBounds(p, vs) && j < |globalIDs|
    ensures GlobalToLocalValue(Some(v), vs, vs[|vs| - 1], globalIDs).Success?
    ensures Sub(GlobalToLocalValue(Some(v), vs, vs[|vs| - 1], globalIDs).value.value, p + [j])
         == Sub(v, p + [globalIDs[j]])
  {
    TakeLastSub(v, vs, globalIDs, p, j);
  }

  // ---------------------------------------------------------------------------
  // Operator results

  /** The attributes an operand offers `_MeshOperatorVariable`: its mesh, the
      `opShape` of an operator result (`None` for a plain field), its element
      shape, and its shape and value. */
  datatype Operand = Operand(mesh: Option<Mesh>, opShape: Option<Shape>, elementshape: Option<Shape>,
                             shape: Shape, value: Tensor<int>)

  /** `reduce(lambda a, b: a or b, [x] + xs)`: a left fold of Python's `or`. */
  function ReduceOr<T>(x: T, xs: seq<T>, truthy: T -> bool): T
    decreases |xs|
  {
    if |xs| == 0 then x else ReduceOr(if truthy(x) then x else xs[0], xs[1..], truthy)
  }

  lemma {:induction false} ReduceOrKeeps<T>(x: T, xs: seq<T>, truthy: T -> bool)
    requires truthy(x)
    ensures ReduceOr(x, xs, truthy) == x
    decreases |xs|
  {
    if |xs| > 0 {
      ReduceOrKeeps(x, xs[1..], truthy);
    }
  }

  /** Reducing with `or` yields the first truthy item... */
  lemma {:induction false} ReduceOrFirstTruthy<T>(x: T, xs: seq<T>, truthy: T -> bool, i: nat)
    requires i <= |xs| && truthy(([x] + xs)[i])
    requires forall k :: 0 <= k < i ==> !truthy(([x] + xs)[k])
    ensures ReduceOr(x, xs, truthy) == ([x] + xs)[i]
    decreases |xs|
  {
    if i == 0 {
      ReduceOrKeeps(x, xs, truthy);
    } else {
      assert !truthy(([x] + xs)[0]);
      assert forall k :: 0 <= k < i - 1 ==> ([xs[0]] + xs[1..])[k] == ([x] + xs)[k + 1];
      assert ([xs[0]] + xs[1..])[i - 1] == ([x] + xs)[i];
      ReduceOrFirstTruthy(xs[0], xs[1..], truthy, i - 1);
    }
  }

  /** ... or the last item when none is truthy. */
  lemma {:induction false} ReduceOrNoneTruthy<T>(x: T, xs: seq<T>, truthy: T -> bool)
    requires !truthy(x) && forall k :: 0 <= k < |xs| ==> !truthy(xs[k])
    ensures ReduceOr(x, xs, truthy) == ([x] + xs)[|xs|]
    decreases |xs|
  {
    if |xs| > 0 {
      ReduceOrNoneTruthy(xs[0], xs[1..], truthy);
      assert ([xs[0]] + xs[1..])[|xs| - 1] == ([x] + xs)[|xs|];
    }
  }

  predicate IsMesh(m: Option<Mesh>) { m.Some? }

  /** A tuple is truthy when it is given and not empty. */
  predicate NonEmptyShape(s: Option<Shape>) { s.Some? && |s.value| > 0 }

  /** The first of `opShape` and the operands' `opShape`s that is not
      `None`, or `None` when all are. */
  function FirstKnown(opShape: Option<Shape>, vars: seq<Operand>): (r: Option<Shape>)
    ensures r.None? <==> opShape.None? && forall i :: 0 <= i < |vars| ==> vars[i].opShape.None?
    ensures r.Some? && opShape.None? ==>
      exists i :: 0 <= i < |vars| && r == vars[i].opShape && forall k :: 0 <= k < i ==> vars[k].opShape.None?
    ensures opShape.Some? ==> r == opShape
    decreases |vars|
  {
    if opShape.Some? || |vars| == 0 then opShape
    else
      var r := FirstKnown(vars[0].opShape, vars[1..]);
      assert r.Some? && vars[0].opShape.None? ==>
        exists i :: 0 < i < |vars| && r == vars[i].opShape && forall k :: 0 <= k < i ==> vars[k].opShape.None?
      by {
        if r.Some? && vars[0].opShape.None? {
          var i :| 0 <= i < |vars[1..]| && r == vars[1..][i].opShape && forall k :: 0 <= k < i ==> vars[1..][k].opShape.None?;
          assert r == vars[i + 1].opShape;
        }
      }
      r
  }

  /** The loop of `_MeshOperatorVariable.__init__` (meshVariable.py, lines
      276-279) that looks for the first known shape. */
  method FirstOpShape(opShape: Option<Shape>, vars: seq<Operand>) returns (r: Option<Shape>)
    ensures r == FirstKnown(opShape, vars)
  {
    r := opShape;
    var i := 0;
    assert vars[0..] == vars;
    while r.None? && i < |vars|
      invariant 0 <= i <= |vars|
      invariant r.None? ==> FirstKnown(opShape, vars) == FirstKnown(None, vars[i..])
      invariant r.Some? ==> r == FirstKnown(opShape, vars)
    {
      assert vars[i..][0] == vars[i] && vars[i..][1..] == vars[i + 1..];
      r := vars[i].opShape;
      i := i + 1;
    }
  }

  /** What `_MeshOperatorVariable.__init__` passes on to its base class. */
  datatype OperatorAttributes = OperatorAttributes(mesh: Option<Mesh>, opShape: Option<Shape>, elementshape: Option<Shape>)

  /** `s[:-1]`, which is `()` for `()`. */
  function DropLast(s: Shape): (r: Shape)
    ensures |r| == if |s| == 0 then 0 else |s| - 1
    ensures forall i :: 0 <= i < |r| ==> r[i] == s[i]
  {
    if |s| == 0 then [] else s[..|s| - 1]
  }

  /** The mesh of the first operand that has one. */
  lemma MeshSelection(vars: seq<Operand>)
    requires |vars| > 0
    ensures var ms := seq(|vars|, i requires 0 <= i < |vars| => vars[i].mesh);
      var r := ReduceOr(ms[0], ms[1..], IsMesh);
      (r.Some? <==> exists i :: 0 <= i < |vars| && vars[i].mesh.Some?) &&
      (r.Some? ==> exists i :: 0 <= i < |vars| && r == vars[i].mesh && forall k :: 0 <= k < i ==> vars[k].mesh.None?)
  {
    var ms := seq(|vars|, i requires 0 <= i < |vars| => vars[i].mesh);
    var r := ReduceOr(ms[0], ms[1..], IsMesh);
    assert [ms[0]] + ms[1..] == ms;
    if i :| 0 <= i < |vars| && vars[i].mesh.Some? {
      var j := FirstMesh(vars, i);
      ReduceOrFirstTruthy(ms[0], ms[1..], IsMesh, j);
    } else {
      assert forall k :: 0 <= k < |ms[1..]| ==> !IsMesh(ms[1..][k]) by {
        forall k | 0 <= k < |ms[1..]| ensures !IsMesh(ms[1..][k]) {
          assert ms[1..][k] == vars[k + 1].mesh;
        }
      }
      ReduceOrNoneTruthy(ms[0], ms[1..], IsMesh);
    }
  }

  /** The first operand, at or before `i`, that has a mesh. */
  ghost function FirstMesh(vars: seq<Operand>, i: nat): (j: nat)
    requires i < |vars| && vars[i].mesh.Some?
    ensures j <= i && vars[j].mesh.Some? && forall k :: 0 <= k < j ==> vars[k].mesh.None?
  {
    if exists k :: 0 <= k < i && vars[k].mesh.Some? then
      var k :| 0 <= k < i && vars[k].mesh.Some?;
      FirstMesh(vars, k)
    else i
  }

  /** The first operand, at or before `i`, whose element shape is a
      non-empty tuple. */
  ghost function FirstElementShape(vars: seq<Operand>, i: nat): (j: nat)
    requires i < |vars| && NonEmptyShape(vars[i].elementshape)
    ensures j <= i && NonEmptyShape(vars[j].elementshape)
    ensures forall k :: 0 <= k < j ==> !NonEmptyShape(vars[k].elementshape)
  {
    if exists k :: 0 <= k < i && NonEmptyShape(vars[k].elementshape) then
      var k :| 0 <= k < i && NonEmptyShape(vars[k].elementshape);
      FirstElementShape(vars, k)
    else i
  }

  /** Without an `opShape`, the element shape `reduce(or)` picks from the
      operands: the first non-empty one, or the last operand's when there is
      none. */
  lemma {:induction false} ElementShapeSelection(vars: seq<Operand>)
    requires |vars| > 0
    ensures var es := seq(|vars|, i requires 0 <= i < |vars| => vars[i].elementshape);
      var r := ReduceOr(es[0], es[1..], NonEmptyShape);
      (NonEmptyShape(r) <==> exists i :: 0 <= i < |vars| && NonEmptyShape(vars[i].elementshape)) &&
      (NonEmptyShape(r) ==>
         exists i :: 0 <= i < |vars| && r == vars[i].elementshape &&
           forall k :: 0 <= k < i ==> !NonEmptyShape(vars[k].elementshape)) &&
      (!NonEmptyShape(r) ==> r == vars[|vars| - 1].elementshape)
  {
    var es := seq(|vars|, i requires 0 <= i < |vars| => vars[i].elementshape);
    assert [es[0]] + es[1..] == es;
    if i :| 0 <= i < |vars| && NonEmptyShape(vars[i].elementshape) {
      var j := FirstElementShape(vars, i);
      ReduceOrFirstTruthy(es[0], es[1..], NonEmptyShape, j);
    } else {
      assert forall k :: 0 <= k < |es[1..]| ==> !NonEmptyShape(es[1..][k]) by {
        forall k | 0 <= k < |es[1..]| ensures !NonEmptyShape(es[1..][k]) {
          assert es[1..][k] == vars[k + 1].elementshape;
        }
      }
      ReduceOrNoneTruthy(es[0], es[1..], NonEmptyShape);
    }
  }

  /** `_MeshOperatorVariable.getRank`: `len(self.opShape) - 1`; `len(None)`
      raises, so there is no rank without an `opShape`. With the element
      shape `opShape[:-1]` of a non-empty `opShape`, the rank counts the
      element axes. */
  function OperatorRank(a: OperatorAttributes): (r: Option<int>)
    ensures r.Some? <==> a.opShape.Some?
    ensures r.Some? ==> r.value + 1 == |a.opShape.value|
    ensures a.opShape.Some? && |a.opShape.value| > 0 && a.elementshape == Some(DropLast(a.opShape.value)) ==>
      r == Some(|a.elementshape.value|)
  {
    if a.opShape.Some? then Some(|a.opShape.value| - 1) else None
  }

  /** `_MeshOperatorVariable.__init__` (meshVariable.py, lines 272-291): the
      mesh of the first operand that has one, the first known `opShape`, and
      the element shape taken from that `opShape` or else from the operands.
      With a known, non-empty `opShape`, the rank counts the element axes. */
  function OperatorShape(opShape: Option<Shape>, vars: seq<Operand>): (r: OperatorAttributes)
    requires |vars| > 0
    ensures r.opShape == FirstKnown(opShape, vars)
    ensures r.opShape.Some? ==> r.elementshape == Some(DropLast(r.opShape.value))
    ensures r.opShape.Some? && |r.opShape.value| > 0 ==> OperatorRank(r) == Some(|r.elementshape.value|)
    ensures r.opShape.None? ==> OperatorRank(r).None?
    ensures r.mesh.Some? <==> exists i :: 0 <= i < |vars| && vars[i].mesh.Some?
    ensures r.mesh.Some? ==>
      exists i :: 0 <= i < |vars| && r.mesh == vars[i].mesh && forall k :: 0 <= k < i ==> vars[k].mesh.None?
    ensures r.opShape.None? ==>
      (NonEmptyShape(r.elementshape) <==> exists i :: 0 <= i < |vars| && NonEmptyShape(vars[i].elementshape))
    ensures r.opShape.None? && NonEmptyShape(r.elementshape) ==>
      exists i :: 0 <= i < |vars| && r.elementshape == vars[i].elementshape &&
        forall k :: 0 <= k < i ==> !NonEmptyShape(vars[k].elementshape)
    ensures r.opShape.None? && !NonEmptyShape(r.elementshape) ==> r.elementshape == vars[|vars| - 1].elementshape
  {
    var selected := FirstKnown(opShape, vars);
    var meshes := seq(|vars|, i requires 0 <= i < |vars| => vars[i].mesh);
    var shapes := seq(|vars|, i requires 0 <= i < |vars| => vars[i].elementshape);
    MeshSelection(vars);
    ElementShapeSelection(vars);
    OperatorAttributes(
      ReduceOr(meshes[0], meshes[1..], IsMesh),
      selected,
      if selected.Some? then Some(DropLast(selected.value)) else ReduceOr(shapes[0], shapes[1..], NonEmptyShape))
  }

  /** `A.dot(B)` as an operator result: the value `_dot` computes, the shape
      `__dot` predicts (corrected), the mesh of `A` or else of `B`, and the
      element shape and rank that follow from the shape. */
  function DotOperands(A: Operand, B: Operand): (r: Result<Operand, DotError>)
    requires HasShape(A.value, A.shape) && HasShape(B.value, B.shape)
    ensures r.Success? <==> OpShape(A.shape, B.shape).Success?
    ensures r.Success? ==> r.value.shape == OpShape(A.shape, B.shape).value && r.value.opShape == Some(r.value.shape)
    ensures r.Success? ==> HasShape(r.value.value, r.value.shape)
    ensures r.Success? ==> r.value.mesh == if A.mesh.Some? then A.mesh else B.mesh
    ensures r.Success? ==> r.value.elementshape == Some(DropLast(r.value.shape))
    ensures r.Success? ==> r.value.value == DotArrays(A.value, A.shape, B.value, B.shape).value
  {
    match DotArrays(A.value, A.shape, B.value, B.shape)
    case Failure(e) => Failure(e)
    case Success(v) =>
      var s := OpShape(A.shape, B.shape).value;
      var attrs := OperatorShape(Some(s), [A, B]);
      assert [A.mesh, B.mesh][1..] == [B.mesh];
      Success(Operand(attrs.mesh, Some(s), attrs.elementshape, s, v))
  }

  // ---------------------------------------------------------------------------
  // Reductions along an axis

  /** The class of a reduction's result: a plain variable when the reduction
      runs along the mesh elements, otherwise a mesh operator variable. */
  datatype ResultClass = PlainVariableClass | MeshOperatorClass

  /** `_axisClass` as written (meshVariable.py, line 317): it compares the
      axis with `len(self.shape)`, one past the last axis, so of the axes in
      range only `-1` is taken to run along the mesh elements. */
  function AxisClassAsWritten(shape: Shape, axis: Option<int>): (r: ResultClass)
    ensures axis.Some? && -|shape| <= axis.value < |shape| ==>
      (r == PlainVariableClass <==> axis.value == -1)
  {
    if axis.None? || axis.value == |shape| || axis.value == -1 then PlainVariableClass else MeshOperatorClass
  }

  /** An axis in range, counted from the front. */
  function NormalAxis(axis: int, rank: nat): int {
    if axis < 0 then axis + rank else axis
  }

  /** `_axisClass` comparing with the last axis, the one over the mesh
      elements: a plain variable exactly for a reduction over all axes or
      along the mesh axis, however that axis is written. */
  function AxisClass(shape: Shape, axis: Option<int>): (r: ResultClass)
    ensures axis.None? ==> r == PlainVariableClass
    ensures axis.Some? && -|shape| <= axis.value < |shape| ==>
      (r == PlainVariableClass <==> NormalAxis(axis.value, |shape|) == |shape| - 1)
  {
    if axis.None? || axis.value == |shape| - 1 || axis.value == -1 then PlainVariableClass else MeshOperatorClass
  }

  /** A reduction along the mesh axis of a vector field, written `axis=1`:
      as written it is taken for one along the element axis. */
  lemma AxisClassAsWrittenMissesMeshAxis()
    ensures AxisClassAsWritten([2, 6], Some(1)) == MeshOperatorClass
    ensures AxisClass([2, 6], Some(1)) == PlainVariableClass
    ensures AxisClassAsWritten([2, 6], Some(2)) == PlainVariableClass
  {
  }

  // ---------------------------------------------------------------------------
  // The field

  class MeshVariable {
    var mesh: Mesh
    var kind: Kind
    var elementshape: Shape
    /** The stored array; `None` for a field constructed with `value=None`. */
    var value: Option<Tensor<int>>
    /** The shape the base `Variable` reports for its value: `()` when it has none. */
    var valueShape: Shape

    function MeshShape(): Shape
      reads this
    {
      ShapeFromMesh(kind, mesh)
    }

    /** The stored array, when there is one, has the element shape followed
        by the mesh shape. */
    predicate Valid()
      reads this
    {
      (value.Some? ==> valueShape == elementshape + MeshShape() && HasShape(value.value, valueShape))
      && (value.None? ==> valueShape == [])
    }

    constructor Init(mesh: Mesh, kind: Kind, elementshape: Shape, value: Option<Tensor<int>>)
      requires value.Some? ==> HasShape(value.value, elementshape + ShapeFromMesh(kind, mesh))
      ensures Valid()
      ensures this.mesh == mesh && this.kind == kind && this.elementshape == elementshape && this.value == value
    {
      this.mesh := mesh;
      this.kind := kind;
      this.elementshape := elementshape;
      this.value := value;
      this.valueShape := if value.Some? then elementshape + ShapeFromMesh(kind, mesh) else [];
    }

    /** `_MeshVariable.__init__` (meshVariable.py, lines 60-87). */
    static method Create(mesh: Mesh, kind: Kind, rank: Option<int>, elementshape: Option<Shape>,
                         value: Option<Tensor<int>>, sv: Shape)
      returns (r: Result<MeshVariable, InitError>)
      requires value.Some? ==> HasShape(value.value, sv)
      ensures r.Success? <==> Initialise(mesh, kind, rank, elementshape, value, sv).Success?
      ensures r.Failure? ==> r.error == Initialise(mesh, kind, rank, elementshape, value, sv).error
      ensures r.Success? ==> fresh(r.value) && r.value.Valid() && r.value.mesh == mesh && r.value.kind == kind
      ensures r.Success? ==> r.value.elementshape == Initialise(mesh, kind, rank, elementshape, value, sv).value.elementshape
      ensures r.Success? ==> r.value.value == Initialise(mesh, kind, rank, elementshape, value, sv).value.stored
    {
      var init := Initialise(mesh, kind, rank, elementshape, value, sv);
      if init.Failure? {
        r := Failure(init.error);
      } else {
        var v := new MeshVariable.Init(mesh, kind, init.value.elementshape, init.value.stored);
        r := Success(v);
      }
    }

    /** `getShape` (meshVariable.py, lines 157-159): the shape of the stored
        array, or else the element shape followed by the mesh shape. */
    function GetShape(): (r: Shape)
      reads this
      ensures Valid() ==> r == elementshape + MeshShape()
      ensures |r| > 0
    {
      if |valueShape| > 0 then valueShape else elementshape + MeshShape()
    }

    /** `getRank`: the number of element axes. */
    function GetRank(): (r: int)
      reads this
      ensures Valid() ==> r == |elementshape|
      ensures r >= 0
    {
      |GetShape()| - 1
    }

    /** The field as an operand: a plain field has no `opShape`. */
    function AsOperand(): (o: Operand)
      reads this
      requires value.Some?
      ensures Valid() ==> HasShape(o.value, o.shape)
      ensures o.shape == GetShape() && o.mesh == Some(mesh)
    {
      Operand(Some(mesh), None, Some(elementshape), GetShape(), value.value)
    }

    /** `dot` (meshVariable.py, lines 211-228): `self . other` element by
        element; the result lives on this field's mesh. */
    function Dot(other: Operand): (r: Result<Operand, DotError>)
      reads this
      requires Valid() && value.Some? && HasShape(other.value, other.shape)
      ensures r.Success? <==> OpShape(GetShape(), other.shape).Success?
      ensures r.Success? ==> r.value.shape == OpShape(GetShape(), other.shape).value && r.value.mesh == Some(mesh)
      ensures r.Success? ==> HasShape(r.value.value, r.value.shape)
      ensures r.Success? ==> r.value.value == DotArrays(value.value, GetShape(), other.value, other.shape).value
    {
      DotOperands(AsOperand(), other)
    }

    /** `rdot` (meshVariable.py, lines 230-247): `other . self`, the same
        product with the operands swapped. */
    function Rdot(other: Operand): (r: Result<Operand, DotError>)
      reads this
      requires Valid() && value.Some? && HasShape(other.value, other.shape)
      ensures r.Success? <==> OpShape(other.shape, GetShape()).Success?
      ensures r.Success? ==> r.value.shape == OpShape(other.shape, GetShape()).value
      ensures r.Success? ==> r.value.mesh == if other.mesh.Some? then other.mesh else Some(mesh)
      ensures r.Success? ==> r.value.value == DotArrays(other.value, other.shape, value.value, GetShape()).value
    {
      DotOperands(other, AsOperand())
    }

    /** The mask `setValue` hands on to the base class (meshVariable.py,
        lines 301-309): a mask with the mesh shape but not the field's shape
        is widened across the element axes; any other mask is passed on. */
    method SetValueMask(where: Option<Tensor<bool>>, sw: Shape) returns (mask: Option<Tensor<bool>>)
      requires Valid()
      requires where.Some? ==> HasShape(where.value, sw)
      ensures mask == if where.Some? && sw != GetShape() && sw == MeshShape()
                      then Some(Widened(where.value, elementshape)) else where
      ensures mask.Some? ==> HasShape(mask.value, if sw == MeshShape() then GetShape() else sw)
    {
      if where.Some? && sw != GetShape() && sw == MeshShape() {
        var w := where.value;
        var i := |elementshape|;
        while i > 0
          invariant 0 <= i <= |elementshape|
          invariant w == Widened(where.value, elementshape[i..])
        {
          i := i - 1;
          assert elementshape[i..][1..] == elementshape[i + 1..];
          w := Copies(w, elementshape[i]);
        }
        assert elementshape[0..] == elementshape;
        WidenedShape(where.value, sw, elementshape);
        mask := Some(w);
      } else {
        mask := where;
      }
    }
  }

  /** `x.rdot(y)` is `y.dot(x)`: the same product, on `y`'s mesh. */
  lemma RdotIsSwappedDot(x: MeshVariable, y: MeshVariable)
    requires x.Valid() && x.value.Some? && y.Valid() && y.value.Some?
    ensures x.Rdot(y.AsOperand()) == y.Dot(x.AsOperand())
    ensures x.Rdot(y.AsOperand()).Success? ==> x.Rdot(y.AsOperand()).value.mesh == Some(y.mesh)
  {
  }
}
