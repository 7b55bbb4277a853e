/** The mesh-element by mesh-element scalar product of `_MeshVariable`
    (`_dot`, `__dot`, `dot`, `rdot` in fipy/variables/meshVariable.py).

    The last axis of every operand runs over the mesh elements (cells or
    faces); the axes before it are the element axes. `A.dot(B)` contracts the
    last element axis of `A` with the first element axis of `B`, cell by
    cell: the value is computed by `_dot` on arrays, and `__dot` predicts the
    shape of that value before it is computed. */
module MeshVariableDot {
  import opened Results
  import opened Shapes
  import opened Arrays

  /** `a[index]` on a zero-dimensional array raises `IndexError`; operands
      whose shapes do not broadcast raise as well. */
  datatype DotError = IndexError | BroadcastError

  /** How many `numerix.newaxis` entries `__dot` puts in the index:
      `rankB - 1`, and none when that is negative. */
  function NewAxes(sb: Shape): nat {
    if |sb| >= 2 then |sb| - 2 else 0
  }

  /** The shape of `A[index]`, index being `(..., newaxis * (rankB - 1), :)`:
      new axes of length one just before the mesh axis. */
  function IndexedShape(sa: Shape, sb: Shape): (r: Shape)
    requires |sa| > 0
    ensures |r| == |sa| + NewAxes(sb)
  {
    sa[..|sa| - 1] + Ones(NewAxes(sb)) + sa[|sa| - 1..]
  }

  function Mul(x: int, y: int): int { x * y }

  /** `a[index] * b`, with NumPy broadcasting. */
  function Product(a: Tensor<int>, sa: Shape, b: Tensor<int>, sb: Shape): Tensor<int>
    requires |sa| > 0
  {
    var si := IndexedShape(sa, sb);
    var n := Max(|si|, |sb|);
    ZipWith(Lift(Expand(a, |sa| - 1, NewAxes(sb)), n - |si|), Lift(b, n - |sb|), Mul)
  }

  /** The shape `__dot` predicts (meshVariable.py, lines 195-202), as
      written: axis `rankA - 1` is dropped whenever `rankA > 0`. */
  function OpShapeAsWritten(sa: Shape, sb: Shape): (r: Result<Shape, DotError>)
    ensures |sa| <= 1 || |sb| >= 2 ==> r == OpShape(sa, sb)
    ensures |sa| >= 2 && |sb| <= 1 && r.Success? ==> |r.value| == |sa| - 1
  {
    if |sa| == 0 then Failure(IndexError)
    else match BroadcastShape(IndexedShape(sa, sb), sb)
      case None => Failure(BroadcastError)
      case Some(s) => if |sa| - 1 > 0 then Success(Without(s, |sa| - 2)) else Success(s)
  }

  /** The shape of `A.dot(B)`, with the axis dropped only when `_dot` sums it
      out, that is when both ranks are positive. */
  function OpShape(sa: Shape, sb: Shape): (r: Result<Shape, DotError>)
    ensures r.Success? ==> |r.value| == if |sa| >= 2 && |sb| >= 2 then |sa| + |sb| - 3 else Max(|sa| + NewAxes(sb), |sb|)
    ensures r.Failure? <==> |sa| == 0 || BroadcastShape(IndexedShape(sa, sb), sb).None?
  {
    if |sa| == 0 then Failure(IndexError)
    else match BroadcastShape(IndexedShape(sa, sb), sb)
      case None => Failure(BroadcastError)
      case Some(s) => if |sa| - 1 > 0 && |sb| - 1 > 0 then Success(Without(s, |sa| - 2)) else Success(s)
  }

  lemma ProductShape(a: Tensor<int>, sa: Shape, b: Tensor<int>, sb: Shape)
    requires |sa| > 0 && HasShape(a, sa) && HasShape(b, sb)
    requires BroadcastShape(IndexedShape(sa, sb), sb).Some?
    ensures HasShape(Product(a, sa, b, sb), BroadcastShape(IndexedShape(sa, sb), sb).value)
  {
    var si, k := IndexedShape(sa, sb), NewAxes(sb);
    var n := Max(|si|, |sb|);
    ExpandShape(a, sa, |sa| - 1, k);
    LiftShape(Expand(a, |sa| - 1, k), si, n - |si|);
    LiftShape(b, sb, n - |sb|);
    ZipShape(Lift(Expand(a, |sa| - 1, k), n - |si|), Lift(b, n - |sb|), Pad(si, n), Pad(sb, n), Mul);
  }

  /** `_dot(a, b, index)` (meshVariable.py, lines 173-179) on arrays `a` and
      `b` of shapes `sa` and `sb`, with the index `__dot` builds: a plain
      broadcast product when either operand has no element axis, otherwise
      that product summed over axis `rankA - 1`. Its value has the shape
      `OpShape` predicts, and it fails exactly when that prediction fails. */
  function DotArrays(a: Tensor<int>, sa: Shape, b: Tensor<int>, sb: Shape): (r: Result<Tensor<int>, DotError>)
    requires HasShape(a, sa) && HasShape(b, sb)
    ensures r.Failure? <==> OpShape(sa, sb).Failure?
    ensures r.Failure? ==> r.error == OpShape(sa, sb).error
    ensures r.Success? ==> HasShape(r.value, OpShape(sa, sb).value)
  {
    if |sa| == 0 then Failure(IndexError)
    else if BroadcastShape(IndexedShape(sa, sb), sb).None? then Failure(BroadcastError)
    else
      var s := BroadcastShape(IndexedShape(sa, sb), sb).value;
      var p := Product(a, sa, b, sb);
      ContractedShape(a, sa, b, sb);
      if |sa| - 1 <= 0 || |sb| - 1 <= 0 then Success(p) else Success(SumAxis(p, s, |sa| - 2))
  }

  /** The value `_dot` computes has the shape `__dot` predicts, once corrected. */
  lemma ContractedShape(a: Tensor<int>, sa: Shape, b: Tensor<int>, sb: Shape)
    requires |sa| > 0 && HasShape(a, sa) && HasShape(b, sb)
    requires BroadcastShape(IndexedShape(sa, sb), sb).Some?
    ensures var s := BroadcastShape(IndexedShape(sa, sb), sb).value;
      OpShape(sa, sb).Success? &&
      if |sa| - 1 <= 0 || |sb| - 1 <= 0 then HasShape(Product(a, sa, b, sb), OpShape(sa, sb).value)
      else |sa| - 2 < |s| && HasShape(SumAxis(Product(a, sa, b, sb), s, |sa| - 2), OpShape(sa, sb).value)
  {
    var s := BroadcastShape(IndexedShape(sa, sb), sb).value;
    ProductShape(a, sa, b, sb);
    if |sa| - 1 > 0 && |sb| - 1 > 0 {
      SumAxisShape(Product(a, sa, b, sb), s, |sa| - 2);
    }
  }

  // ---------------------------------------------------------------------------
  // The contraction rule, entry by entry

  /** With both ranks positive, `A[index]` and `B` broadcast to
      `I + [n] + J + [m]`: `A`'s free axes, the contracted axis, `B`'s free
      axes, the mesh axis. */
  lemma {:induction false} ContractedBroadcast(I: Shape, n: nat, J: Shape, m: nat)
    ensures IndexedShape(I + [n, m], [n] + J + [m]) == I + [n] + Ones(|J|) + [m]
    ensures BroadcastAligned(I + [n] + Ones(|J|) + [m], Ones(|I|) + ([n] + J + [m])) == Some(I + [n] + J + [m])
    ensures BroadcastShape(IndexedShape(I + [n, m], [n] + J + [m]), [n] + J + [m]) == Some(I + [n] + J + [m])
  {
    var sa, sb := I + [n, m], [n] + J + [m];
    SplitLast(I, n, m);
    var si := I + [n] + Ones(|J|) + [m];
    BroadcastOnesRight(I);
    BroadcastSelfAligned([n]);
    BroadcastOnesLeft(J);
    BroadcastSelfAligned([m]);
    BroadcastConcat4(I, [n], Ones(|J|), [m], Ones(|I|), [n], J, [m], I, [n], J, [m]);
    Assoc4(Ones(|I|), [n], J, [m]);
    PadFull(si);
  }

  lemma SplitLast(I: Shape, n: nat, m: nat)
    ensures (I + [n, m])[..|I| + 1] == I + [n] && (I + [n, m])[|I| + 1..] == [m]
  {
  }

  /** Where an index `i + [k] + j + [c]` of the broadcast product reads its
      two factors. */
  lemma {:induction false} ContractedIndex(I: Shape, n: nat, m: nat, J: Shape, i: seq<nat>, k: nat, j: seq<nat>, c: nat)
    requires |i| == |I| && InBounds(i, I) && |j| == |J| && InBounds(j, J) && k < n && c < m
    ensures InBounds(i + [k] + j + [c], I + [n] + J + [m])
    ensures Proj(i + [k] + j + [c], I + [n] + Ones(|J|) + [m]) == i + [k] + Zeros(|J|) + [c]
    ensures Proj(i + [k] + j + [c], Ones(|I|) + ([n] + J + [m])) == Zeros(|I|) + ([k] + j + [c])
    ensures InBounds(i + [k, c], I + [n, m]) && InBounds([k] + j + [c], [n] + J + [m])
  {
    InBoundsConcat(i, [k], I, [n]);
    InBoundsConcat(i + [k], j, I + [n], J);
    InBoundsConcat(i + [k] + j, [c], I + [n] + J, [m]);
    InBoundsConcat([k], j, [n], J);
    InBoundsConcat([k] + j, [c], [n] + J, [m]);
    InBoundsConcat(i + [k], [c], I + [n], [m]);
    assert i + [k] + [c] == i + [k, c] && I + [n] + [m] == I + [n, m];
    ProjConcat(i, [k], I, [n]);
    ProjConcat(i + [k], j, I + [n], Ones(|J|));
    ProjConcat(i + [k] + j, [c], I + [n] + Ones(|J|), [m]);
    ProjIdentity(i, I);
    ProjIdentity([k], [n]);
    ProjIdentity([c], [m]);
    ProjOnes(j);
    ProjConcat(i, [k] + j + [c], Ones(|I|), [n] + J + [m]);
    ProjOnes(i);
    ProjIdentity([k] + j + [c], [n] + J + [m]);
  }

  /** One entry of `A[index] * B` when both ranks are positive. */
  lemma {:induction false} ContractedProductAt(a: Tensor<int>, I: Shape, n: nat, m: nat, b: Tensor<int>, J: Shape,
                            i: seq<nat>, k: nat, j: seq<nat>, c: nat)
    requires HasShape(a, I + [n, m]) && HasShape(b, [n] + J + [m])
    requires |i| == |I| && InBounds(i, I) && |j| == |J| && InBounds(j, J) && k < n && c < m
    ensures At(Product(a, I + [n, m], b, [n] + J + [m]), i + [k] + j + [c])
         == At(a, i + [k, c]) * At(b, [k] + j + [c])
  {
    var sa, sb := I + [n, m], [n] + J + [m];
    ContractedBroadcast(I, n, J, m);
    ContractedIndex(I, n, m, J, i, k, j, c);
    var si := I + [n] + Ones(|J|) + [m];
    var pb := Ones(|I|) + sb;
    var ai := Expand(a, |sa| - 1, |J|);
    ExpandShape(a, sa, |sa| - 1, |J|);
    var lb := Lift(b, |I|);
    LiftShape(b, sb, |I|);
    assert Product(a, sa, b, sb) == ZipWith(ai, lb, Mul);
    var idx := i + [k] + j + [c];
    ZipSub(ai, lb, si, pb, Mul, idx);
    assert i + [k] + Zeros(|J|) + [c] == (i + [k]) + Zeros(|J|) + [c];
    ExpandSub(a, sa, |sa| - 1, |J|, i + [k], [c]);
    assert i + [k] + [c] == i + [k, c];
    LiftSub(b, |I|, [k] + j + [c]);
    SubShape(a, sa, i + [k, c]);
    SubShape(b, sb, [k] + j + [c]);
  }

  lemma ContractedAxes(I: Shape, n: nat, J: Shape, m: nat)
    ensures Without(I + [n] + J + [m], |I|) == I + J + [m]
    ensures (I + [n] + J + [m])[|I|] == n
  {
    var S := I + [n] + J + [m];
    assert S[..|I|] == I && S[|I| + 1..] == J + [m];
  }

  lemma InsertContracted(i: seq<nat>, j: seq<nat>, c: nat, k: nat)
    ensures Insert(i + j + [c], |i|, k) == i + [k] + j + [c]
  {
    var p := i + j + [c];
    assert p[..|i|] == i && p[|i|..] == j + [c];
  }

  /** The contraction rule of `A.dot(B)`: for `A` of shape `I + [n, m]` and
      `B` of shape `[n] + J + [m]`, the value has shape `I + J + [m]` and its
      entry `(i, j, c)` is the sum over `k` of `A[i, k, c] * B[k, j, c]`. */
  lemma {:induction false} ContractionAt(a: Tensor<int>, I: Shape, n: nat, m: nat, b: Tensor<int>, J: Shape,
                      i: seq<nat>, j: seq<nat>, c: nat)
    requires HasShape(a, I + [n, m]) && HasShape(b, [n] + J + [m])
    requires |i| == |I| && InBounds(i, I) && |j| == |J| && InBounds(j, J) && c < m
    ensures OpShape(I + [n, m], [n] + J + [m]) == Success(I + J + [m])
    ensures DotArrays(a, I + [n, m], b, [n] + J + [m]).Success?
    ensures At(DotArrays(a, I + [n, m], b, [n] + J + [m]).value, i + j + [c])
         == Total(seq(n, k requires 0 <= k < n => At(a, i + [k, c]) * At(b, [k] + j + [c])))
  {
    var sa, sb := I + [n, m], [n] + J + [m];
    var S := I + [n] + J + [m];
    ContractedBroadcast(I, n, J, m);
    ContractedAxes(I, n, J, m);
    var p := Product(a, sa, b, sb);
    ProductShape(a, sa, b, sb);
    assert DotArrays(a, sa, b, sb) == Success(SumAxis(p, S, |I|));
    InBoundsConcat(i, j, I, J);
    InBoundsConcat(i + j, [c], I + J, [m]);
    SumAxisAt(p, S, |I|, i + j + [c]);
    var xs := seq(n, k requires 0 <= k < n => At(p, Insert(i + j + [c], |I|, k)));
    var ys := seq(n, k requires 0 <= k < n => At(a, i + [k, c]) * At(b, [k] + j + [c]));
    forall k | 0 <= k < n ensures xs[k] == ys[k] {
      InsertContracted(i, j, c, k);
      ContractedProductAt(a, I, n, m, b, J, i, k, j, c);
    }
    assert xs == ys;
  }

  // ---------------------------------------------------------------------------
  // Operands with only the mesh axis: plain multiplication

  lemma {:induction false} RightScalarShapes(I: Shape, m: nat)
    ensures IndexedShape(I + [m], [m]) == I + [m]
    ensures BroadcastAligned(I + [m], Ones(|I|) + [m]) == Some(I + [m])
    ensures BroadcastShape(I + [m], [m]) == Some(I + [m])
  {
    var sa := I + [m];
    assert sa[..|sa| - 1] == I && sa[|sa| - 1..] == [m];
    assert I + Ones(0) + [m] == sa;
    BroadcastOnesRight(I);
    BroadcastSelfAligned([m]);
    BroadcastConcat(I, [m], Ones(|I|), [m], I, [m]);
    PadFull(sa);
  }

  lemma {:induction false} LeftScalarShapes(J: Shape, m: nat)
    requires |J| > 0
    ensures IndexedShape([m], J + [m]) == Ones(|J| - 1) + [m]
    ensures Pad(Ones(|J| - 1) + [m], |J| + 1) == Ones(|J|) + [m]
    ensures BroadcastAligned(Ones(|J|) + [m], J + [m]) == Some(J + [m])
    ensures BroadcastShape([m], J + [m]) == Some(J + [m])
  {
    assert [m][..0] + Ones(|J| - 1) + [m][0..] == Ones(|J| - 1) + [m];
    assert Ones(1) + (Ones(|J| - 1) + [m]) == Ones(|J|) + [m];
    BroadcastOnesLeft(J);
    BroadcastSelfAligned([m]);
    BroadcastConcat(Ones(|J|), [m], J, [m], J, [m]);
    PadFull(J + [m]);
  }

  /** When `B` has only the mesh axis (`rankB <= 0`), `A.dot(B)` is plain
      multiplication: every element of `A` is scaled by `B` at the same mesh
      element, and the shape is that of `A`. */
  lemma {:induction false} ScaledByRightAt(a: Tensor<int>, I: Shape, m: nat, b: Tensor<int>, i: seq<nat>, c: nat)
    requires HasShape(a, I + [m]) && HasShape(b, [m])
    requires |i| == |I| && InBounds(i, I) && c < m
    ensures OpShape(I + [m], [m]) == Success(I + [m])
    ensures DotArrays(a, I + [m], b, [m]).Success?
    ensures At(DotArrays(a, I + [m], b, [m]).value, i + [c]) == At(a, i + [c]) * At(b, [c])
  {
    var sa, sb := I + [m], [m];
    RightScalarShapes(I, m);
    var e := Expand(a, |I|, 0);
    ExpandShape(a, sa, |I|, 0);
    assert sa[..|I|] + Ones(0) + sa[|I|..] == sa;
    LiftShape(b, sb, |I|);
    assert DotArrays(a, sa, b, sb) == Success(ZipWith(e, Lift(b, |I|), Mul));
    InBoundsConcat(i, [c], I, [m]);
    ZipSub(e, Lift(b, |I|), sa, Ones(|I|) + [m], Mul, i + [c]);
    ProjIdentity(i + [c], sa);
    ProjConcat(i, [c], Ones(|I|), [m]);
    ProjOnes(i);
    ProjIdentity([c], [m]);
    assert i + Zeros(0) + [c] == i + [c];
    ExpandSub(a, sa, |I|, 0, i, [c]);
    LiftSub(b, |I|, [c]);
    SubShape(a, sa, i + [c]);
    SubShape(b, sb, [c]);
  }

  /** When `A` has only the mesh axis and `B` has element axes, `A.dot(B)`
      scales every element of `B` by `A` at the same mesh element. */
  lemma {:induction false} ScaledByLeftAt(a: Tensor<int>, m: nat, b: Tensor<int>, J: Shape, j: seq<nat>, c: nat)
    requires HasShape(a, [m]) && HasShape(b, J + [m]) && |J| > 0
    requires |j| == |J| && InBounds(j, J) && c < m
    ensures OpShape([m], J + [m]) == Success(J + [m])
    ensures DotArrays(a, [m], b, J + [m]).Success?
    ensures At(DotArrays(a, [m], b, J + [m]).value, j + [c]) == At(a, [c]) * At(b, j + [c])
  {
    var sa, sb := [m], J + [m];
    LeftScalarShapes(J, m);
    var la := Lift(a, |J|);
    assert Lift(Expand(a, 0, |J| - 1), 1) == la;
    LiftShape(a, sa, |J|);
    assert DotArrays(a, sa, b, sb) == Success(ZipWith(la, b, Mul));
    InBoundsConcat(j, [c], J, [m]);
    ZipSub(la, b, Ones(|J|) + [m], sb, Mul, j + [c]);
    ProjIdentity(j + [c], sb);
    ProjConcat(j, [c], Ones(|J|), [m]);
    ProjOnes(j);
    ProjIdentity([c], [m]);
    LiftSub(a, |J|, [c]);
    SubShape(a, sa, [c]);
    SubShape(b, sb, j + [c]);
  }

  // ---------------------------------------------------------------------------
  // Bilinearity: `A.dot(B + C) == A.dot(B) + A.dot(C)`, and likewise on the left

  lemma MulAddLeft(x: int, y: int, z: int)
    ensures (x + y) * z == x * z + y * z
  {
  }

  lemma MulAddRight(x: int, y: int, z: int)
    ensures x * (y + z) == x * y + x * z
  {
  }

  /** The sums of products behind `A.dot(B + C)` add up term by term. */
  lemma {:induction false} ContractedTotalsAddRight(a: Tensor<int>, I: Shape, n: nat, m: nat,
                                                    b1: Tensor<int>, b2: Tensor<int>, J: Shape,
                                                    i: seq<nat>, j: seq<nat>, c: nat)
    requires HasShape(a, I + [n, m]) && HasShape(b1, [n] + J + [m]) && HasShape(b2, [n] + J + [m])
    requires |i| == |I| && InBounds(i, I) && |j| == |J| && InBounds(j, J) && c < m
    ensures Total(seq(n, k requires 0 <= k < n => At(a, i + [k, c]) * At(Add(b1, b2), [k] + j + [c])))
         == Total(seq(n, k requires 0 <= k < n => At(a, i + [k, c]) * At(b1, [k] + j + [c])))
          + Total(seq(n, k requires 0 <= k < n => At(a, i + [k, c]) * At(b2, [k] + j + [c])))
  {
    var xs := seq(n, k requires 0 <= k < n => At(a, i + [k, c]) * At(b1, [k] + j + [c]));
    var ys := seq(n, k requires 0 <= k < n => At(a, i + [k, c]) * At(b2, [k] + j + [c]));
    var zs := seq(n, k requires 0 <= k < n => At(a, i + [k, c]) * At(Add(b1, b2), [k] + j + [c]));
    forall k | 0 <= k < n ensures zs[k] == xs[k] + ys[k] {
      ContractedIndex(I, n, m, J, i, k, j, c);
      AddAt(b1, b2, [n] + J + [m], [k] + j + [c]);
      MulAddRight(At(a, i + [k, c]), At(b1, [k] + j + [c]), At(b2, [k] + j + [c]));
    }
    TotalAdd(xs, ys, zs);
  }

  /** The sums of products behind `(A + B).dot(C)` add up term by term. */
  lemma {:induction false} ContractedTotalsAddLeft(a1: Tensor<int>, a2: Tensor<int>, I: Shape, n: nat, m: nat,
                                                   b: Tensor<int>, J: Shape, i: seq<nat>, j: seq<nat>, c: nat)
    requires HasShape(a1, I + [n, m]) && HasShape(a2, I + [n, m]) && HasShape(b, [n] + J + [m])
    requires |i| == |I| && InBounds(i, I) && |j| == |J| && InBounds(j, J) && c < m
    ensures Total(seq(n, k requires 0 <= k < n => At(Add(a1, a2), i + [k, c]) * At(b, [k] + j + [c])))
         == Total(seq(n, k requires 0 <= k < n => At(a1, i + [k, c]) * At(b, [k] + j + [c])))
          + Total(seq(n, k requires 0 <= k < n => At(a2, i + [k, c]) * At(b, [k] + j + [c])))
  {
    var xs := seq(n, k requires 0 <= k < n => At(a1, i + [k, c]) * At(b, [k] + j + [c]));
    var ys := seq(n, k requires 0 <= k < n => At(a2, i + [k, c]) * At(b, [k] + j + [c]));
    var zs := seq(n, k requires 0 <= k < n => At(Add(a1, a2), i + [k, c]) * At(b, [k] + j + [c]));
    forall k | 0 <= k < n ensures zs[k] == xs[k] + ys[k] {
      ContractedIndex(I, n, m, J, i, k, j, c);
      AddAt(a1, a2, I + [n, m], i + [k, c]);
      MulAddLeft(At(a1, i + [k, c]), At(a2, i + [k, c]), At(b, [k] + j + [c]));
    }
    TotalAdd(xs, ys, zs);
  }

  /** The contraction is additive in its right operand, entry by entry. */
  lemma {:induction false} DotAddRight(a: Tensor<int>, I: Shape, n: nat, m: nat, b1: Tensor<int>, b2: Tensor<int>, J: Shape,
                                       i: seq<nat>, j: seq<nat>, c: nat)
    requires HasShape(a, I + [n, m]) && HasShape(b1, [n] + J + [m]) && HasShape(b2, [n] + J + [m])
    requires |i| == |I| && InBounds(i, I) && |j| == |J| && InBounds(j, J) && c < m
    ensures HasShape(Add(b1, b2), [n] + J + [m])
    ensures DotArrays(a, I + [n, m], Add(b1, b2), [n] + J + [m]).Success?
    ensures DotArrays(a, I + [n, m], b1, [n] + J + [m]).Success?
    ensures DotArrays(a, I + [n, m], b2, [n] + J + [m]).Success?
    ensures At(DotArrays(a, I + [n, m], Add(b1, b2), [n] + J + [m]).value, i + j + [c])
         == At(DotArrays(a, I + [n, m], b1, [n] + J + [m]).value, i + j + [c])
          + At(DotArrays(a, I + [n, m], b2, [n] + J + [m]).value, i + j + [c])
  {
    AddShape(b1, b2, [n] + J + [m]);
    ContractionAt(a, I, n, m, b1, J, i, j, c);
    ContractionAt(a, I, n, m, b2, J, i, j, c);
    ContractionAt(a, I, n, m, Add(b1, b2), J, i, j, c);
    ContractedTotalsAddRight(a, I, n, m, b1, b2, J, i, j, c);
  }

  /** The contraction is additive in its left operand, entry by entry. */
  lemma {:induction false} DotAddLeft(a1: Tensor<int>, a2: Tensor<int>, I: Shape, n: nat, m: nat, b: Tensor<int>, J: Shape,
                                      i: seq<nat>, j: seq<nat>, c: nat)
    requires HasShape(a1, I + [n, m]) && HasShape(a2, I + [n, m]) && HasShape(b, [n] + J + [m])
    requires |i| == |I| && InBounds(i, I) && |j| == |J| && InBounds(j, J) && c < m
    ensures HasShape(Add(a1, a2), I + [n, m])
    ensures DotArrays(Add(a1, a2), I + [n, m], b, [n] + J + [m]).Success?
    ensures DotArrays(a1, I + [n, m], b, [n] + J + [m]).Success?
    ensures DotArrays(a2, I + [n, m], b, [n] + J + [m]).Success?
    ensures At(DotArrays(Add(a1, a2), I + [n, m], b, [n] + J + [m]).value, i + j + [c])
         == At(DotArrays(a1, I + [n, m], b, [n] + J + [m]).value, i + j + [c])
          + At(DotArrays(a2, I + [n, m], b, [n] + J + [m]).value, i + j + [c])
  {
    AddShape(a1, a2, I + [n, m]);
    ContractionAt(a1, I, n, m, b, J, i, j, c);
    ContractionAt(a2, I, n, m, b, J, i, j, c);
    ContractionAt(Add(a1, a2), I, n, m, b, J, i, j, c);
    ContractedTotalsAddLeft(a1, a2, I, n, m, b, J, i, j, c);
  }

  /** With a scalar field on the right, the product is additive in the left
      operand, entry by entry. */
  lemma {:induction false} ScaledByRightAddLeft(a1: Tensor<int>, a2: Tensor<int>, I: Shape, m: nat, b: Tensor<int>,
                                                i: seq<nat>, c: nat)
    requires HasShape(a1, I + [m]) && HasShape(a2, I + [m]) && HasShape(b, [m])
    requires |i| == |I| && InBounds(i, I) && c < m
    ensures HasShape(Add(a1, a2), I + [m])
    ensures DotArrays(Add(a1, a2), I + [m], b, [m]).Success?
    ensures DotArrays(a1, I + [m], b, [m]).Success? && DotArrays(a2, I + [m], b, [m]).Success?
    ensures At(DotArrays(Add(a1, a2), I + [m], b, [m]).value, i + [c])
         == At(DotArrays(a1, I + [m], b, [m]).value, i + [c]) + At(DotArrays(a2, I + [m], b, [m]).value, i + [c])
  {
    AddShape(a1, a2, I + [m]);
    ScaledByRightAt(a1, I, m, b, i, c);
    ScaledByRightAt(a2, I, m, b, i, c);
    ScaledByRightAt(Add(a1, a2), I, m, b, i, c);
    InBoundsConcat(i, [c], I, [m]);
    AddAt(a1, a2, I + [m], i + [c]);
    MulAddLeft(At(a1, i + [c]), At(a2, i + [c]), At(b, [c]));
  }

  /** With a scalar field on the right, the product is additive in that
      field, entry by entry. */
  lemma {:induction false} ScaledByRightAddRight(a: Tensor<int>, I: Shape, m: nat, b1: Tensor<int>, b2: Tensor<int>,
                                                 i: seq<nat>, c: nat)
    requires HasShape(a, I + [m]) && HasShape(b1, [m]) && HasShape(b2, [m])
    requires |i| == |I| && InBounds(i, I) && c < m
    ensures HasShape(Add(b1, b2), [m])
    ensures DotArrays(a, I + [m], Add(b1, b2), [m]).Success?
    ensures DotArrays(a, I + [m], b1, [m]).Success? && DotArrays(a, I + [m], b2, [m]).Success?
    ensures At(DotArrays(a, I + [m], Add(b1, b2), [m]).value, i + [c])
         == At(DotArrays(a, I + [m], b1, [m]).value, i + [c]) + At(DotArrays(a, I + [m], b2, [m]).value, i + [c])
  {
    AddShape(b1, b2, [m]);
    ScaledByRightAt(a, I, m, b1, i, c);
    ScaledByRightAt(a, I, m, b2, i, c);
    ScaledByRightAt(a, I, m, Add(b1, b2), i, c);
    AddAt(b1, b2, [m], [c]);
    MulAddRight(At(a, i + [c]), At(b1, [c]), At(b2, [c]));
  }

  /** With a scalar field on the left, the product is additive in that
      field, entry by entry. */
  lemma {:induction false} ScaledByLeftAddLeft(a1: Tensor<int>, a2: Tensor<int>, m: nat, b: Tensor<int>, J: Shape,
                                               j: seq<nat>, c: nat)
    requires HasShape(a1, [m]) && HasShape(a2, [m]) && HasShape(b, J + [m]) && |J| > 0
    requires |j| == |J| && InBounds(j, J) && c < m
    ensures HasShape(Add(a1, a2), [m])
    ensures DotArrays(Add(a1, a2), [m], b, J + [m]).Success?
    ensures DotArrays(a1, [m], b, J + [m]).Success? && DotArrays(a2, [m], b, J + [m]).Success?
    ensures At(DotArrays(Add(a1, a2), [m], b, J + [m]).value, j + [c])
         == At(DotArrays(a1, [m], b, J + [m]).value, j + [c]) + At(DotArrays(a2, [m], b, J + [m]).value, j + [c])
  {
    AddShape(a1, a2, [m]);
    ScaledByLeftAt(a1, m, b, J, j, c);
    ScaledByLeftAt(a2, m, b, J, j, c);
    ScaledByLeftAt(Add(a1, a2), m, b, J, j, c);
    AddAt(a1, a2, [m], [c]);
    MulAddLeft(At(a1, [c]), At(a2, [c]), At(b, j + [c]));
  }

  /** With a scalar field on the left, the product is additive in the right
      operand, entry by entry. */
  lemma {:induction false} ScaledByLeftAddRight(a: Tensor<int>, m: nat, b1: Tensor<int>, b2: Tensor<int>, J: Shape,
                                                j: seq<nat>, c: nat)
    requires HasShape(a, [m]) && HasShape(b1, J + [m]) && HasShape(b2, J + [m]) && |J| > 0
    requires |j| == |J| && InBounds(j, J) && c < m
    ensures HasShape(Add(b1, b2), J + [m])
    ensures DotArrays(a, [m], Add(b1, b2), J + [m]).Success?
    ensures DotArrays(a, [m], b1, J + [m]).Success? && DotArrays(a, [m], b2, J + [m]).Success?
    ensures At(DotArrays(a, [m], Add(b1, b2), J + [m]).value, j + [c])
         == At(DotArrays(a, [m], b1, J + [m]).value, j + [c]) + At(DotArrays(a, [m], b2, J + [m]).value, j + [c])
  {
    AddShape(b1, b2, J + [m]);
    ScaledByLeftAt(a, m, b1, J, j, c);
    ScaledByLeftAt(a, m, b2, J, j, c);
    ScaledByLeftAt(a, m, Add(b1, b2), J, j, c);
    InBoundsConcat(j, [c], J, [m]);
    AddAt(b1, b2, J + [m], j + [c]);
    MulAddRight(At(a, [c]), At(b1, j + [c]), At(b2, j + [c]));
  }

  // ---------------------------------------------------------------------------
  // The shape `__dot` predicts, as written, against the value `_dot` computes

  /** A vector field dotted with a scalar field on six cells: `__dot` as
      written predicts shape `(6,)`, but `_dot` multiplies without summing
      and the value has shape `(2, 6)`. */
  lemma OpShapeAsWrittenMispredicts(a: Tensor<int>, b: Tensor<int>)
    requires HasShape(a, [2, 6]) && HasShape(b, [6])
    ensures OpShapeAsWritten([2, 6], [6]) == Success([6])
    ensures OpShape([2, 6], [6]) == Success([2, 6])
    ensures DotArrays(a, [2, 6], b, [6]).Success?
    ensures HasShape(DotArrays(a, [2, 6], b, [6]).value, [2, 6])
    ensures !HasShape(DotArrays(a, [2, 6], b, [6]).value, [6])
  {
    RightScalarShapes([2], 6);
    assert [2] + [6] == [2, 6];
    assert Without([2, 6], 0) == [6];
    var v := DotArrays(a, [2, 6], b, [6]).value;
    assert |v.items| == 2;
  }
}
