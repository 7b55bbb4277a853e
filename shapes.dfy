/** Array shapes and NumPy's broadcasting rule, the rule behind
    `numerix._broadcastShape`: the shorter shape is padded on the left with
    ones, then each pair of aligned axes must be equal or contain a 1. */
module Shapes {
  import opened Results

  type Shape = seq<nat>

  function Max(a: nat, b: nat): nat { if a < b then b else a }

  /** `k` axes of length one. */
  function Ones(k: nat): (r: Shape)
    ensures |r| == k
    ensures forall i :: 0 <= i < k ==> r[i] == 1
  {
    seq(k, _ => 1)
  }

  /** The index `0` along each of `k` axes. */
  function Zeros(k: nat): (r: seq<nat>)
    ensures |r| == k
    ensures forall i :: 0 <= i < k ==> r[i] == 0
  {
    seq(k, _ => 0)
  }

  /** Left-pads `s` with ones up to length `n`. */
  function Pad(s: Shape, n: nat): (r: Shape)
    requires |s| <= n
    ensures |r| == n && r[n - |s|..] == s
  {
    Ones(n - |s|) + s
  }

  /** Two axis lengths can be broadcast together. */
  predicate Compatible(x: nat, y: nat) {
    x == y || x == 1 || y == 1
  }

  /** The length of the broadcast axis. */
  function BroadcastDim(x: nat, y: nat): nat
    requires Compatible(x, y)
  {
    if x == 1 then y else x
  }

  /** Broadcasting of two shapes of the same length, axis by axis. */
  function BroadcastAligned(a: Shape, b: Shape): (r: Option<Shape>)
    requires |a| == |b|
    ensures r.Some? ==> |r.value| == |a|
  {
    if |a| == 0 then Some([])
    else if !Compatible(a[0], b[0]) then None
    else match BroadcastAligned(a[1..], b[1..])
      case None => None
      case Some(rest) => Some([BroadcastDim(a[0], b[0])] + rest)
  }

  /** Aligned shapes broadcast exactly when every pair of axes is compatible,
      and then each result axis is the other operand's length where one of
      the pair is 1, otherwise their common length. */
  lemma {:induction false} BroadcastAlignedAxes(a: Shape, b: Shape)
    requires |a| == |b|
    ensures BroadcastAligned(a, b).Some? <==> forall i :: 0 <= i < |a| ==> Compatible(a[i], b[i])
    ensures BroadcastAligned(a, b).Some? ==>
      forall i :: 0 <= i < |a| ==> BroadcastAligned(a, b).value[i] == BroadcastDim(a[i], b[i])
    decreases |a|
  {
    if |a| > 0 {
      BroadcastAlignedAxes(a[1..], b[1..]);
      if Compatible(a[0], b[0]) && BroadcastAligned(a[1..], b[1..]).Some? {
        var r := BroadcastAligned(a, b).value;
        forall i | 0 < i < |a| ensures r[i] == BroadcastDim(a[i], b[i]) {
          assert a[1..][i - 1] == a[i] && b[1..][i - 1] == b[i];
        }
      } else if Compatible(a[0], b[0]) {
        var k :| 0 <= k < |a| - 1 && !Compatible(a[1..][k], b[1..][k]);
        assert !Compatible(a[k + 1], b[k + 1]);
      }
    }
  }

  /** NumPy's broadcasting rule (`numerix._broadcastShape`): `None` when the
      shapes cannot be broadcast together. */
  function BroadcastShape(a: Shape, b: Shape): (r: Option<Shape>)
    ensures r.Some? ==> |r.value| == Max(|a|, |b|)
  {
    var n := Max(|a|, |b|);
    BroadcastAligned(Pad(a, n), Pad(b, n))
  }

  /** Broadcasting is symmetric in its operands. */
  lemma BroadcastCommutes(a: Shape, b: Shape)
    ensures BroadcastShape(a, b) == BroadcastShape(b, a)
  {
    var n := Max(|a|, |b|);
    var pa, pb := Pad(a, n), Pad(b, n);
    BroadcastAlignedAxes(pa, pb);
    BroadcastAlignedAxes(pb, pa);
    if BroadcastAligned(pa, pb).Some? {
      var r, r' := BroadcastAligned(pa, pb).value, BroadcastAligned(pb, pa).value;
      assert forall i :: 0 <= i < n ==> r[i] == r'[i];
      assert r == r';
    }
  }

  /** A shape broadcasts with itself to itself. */
  lemma BroadcastSelf(s: Shape)
    ensures BroadcastShape(s, s) == Some(s)
  {
    assert Pad(s, |s|) == s;
    BroadcastAlignedAxes(s, s);
    var r := BroadcastAligned(s, s).value;
    assert forall i :: 0 <= i < |s| ==> r[i] == s[i];
    assert r == s;
  }

  /** Broadcasting against a shape of length zero (a plain number) is the identity. */
  lemma BroadcastScalar(s: Shape)
    ensures BroadcastShape(s, []) == Some(s)
  {
    assert Pad(s, |s|) == s;
    BroadcastAlignedAxes(s, Pad([], |s|));
    var r := BroadcastAligned(s, Pad([], |s|)).value;
    assert forall i :: 0 <= i < |s| ==> r[i] == s[i];
    assert r == s;
  }

  /** Aligned broadcasting works block by block. */
  lemma {:induction false} BroadcastConcat(a1: Shape, a2: Shape, b1: Shape, b2: Shape, r1: Shape, r2: Shape)
    requires |a1| == |b1| && |a2| == |b2|
    requires BroadcastAligned(a1, b1) == Some(r1) && BroadcastAligned(a2, b2) == Some(r2)
    ensures BroadcastAligned(a1 + a2, b1 + b2) == Some(r1 + r2)
    decreases |a1|
  {
    if |a1| == 0 {
      assert a1 + a2 == a2 && b1 + b2 == b2 && r1 + r2 == r2;
    } else {
      var A, B := a1 + a2, b1 + b2;
      var d := BroadcastDim(a1[0], b1[0]);
      assert Compatible(a1[0], b1[0]) && BroadcastAligned(a1[1..], b1[1..]) == Some(r1[1..]) && r1 == [d] + r1[1..] by {
        HeadStep(a1, b1);
      }
      assert BroadcastAligned(A[1..], B[1..]) == Some(r1[1..] + r2) by {
        assert A[1..] == a1[1..] + a2 && B[1..] == b1[1..] + b2;
        BroadcastConcat(a1[1..], a2, b1[1..], b2, r1[1..], r2);
      }
      assert BroadcastAligned(A, B) == Some([d] + (r1[1..] + r2)) by {
        assert A[0] == a1[0] && B[0] == b1[0];
        HeadStep(A, B);
      }
      assert r1 + r2 == [d] + (r1[1..] + r2);
    }
  }

  /** One step of `BroadcastAligned`. */
  lemma HeadStep(a: Shape, b: Shape)
    requires |a| == |b| > 0
    ensures BroadcastAligned(a, b).Some? <==> Compatible(a[0], b[0]) && BroadcastAligned(a[1..], b[1..]).Some?
    ensures BroadcastAligned(a, b).Some? ==>
      BroadcastAligned(a, b).value == [BroadcastDim(a[0], b[0])] + BroadcastAligned(a[1..], b[1..]).value
  {
  }

  /** Axes of length one broadcast to the other operand's axes. */
  lemma BroadcastOnesLeft(s: Shape)
    ensures BroadcastAligned(Ones(|s|), s) == Some(s)
  {
    BroadcastAlignedAxes(Ones(|s|), s);
    var r := BroadcastAligned(Ones(|s|), s).value;
    assert r == s;
  }

  lemma BroadcastOnesRight(s: Shape)
    ensures BroadcastAligned(s, Ones(|s|)) == Some(s)
  {
    BroadcastAlignedAxes(s, Ones(|s|));
    var r := BroadcastAligned(s, Ones(|s|)).value;
    assert r == s;
  }

  /** Block-wise broadcasting over four blocks. */
  lemma BroadcastConcat4(a1: Shape, a2: Shape, a3: Shape, a4: Shape, b1: Shape, b2: Shape, b3: Shape, b4: Shape,
                         r1: Shape, r2: Shape, r3: Shape, r4: Shape)
    requires |a1| == |b1| && |a2| == |b2| && |a3| == |b3| && |a4| == |b4|
    requires BroadcastAligned(a1, b1) == Some(r1) && BroadcastAligned(a2, b2) == Some(r2)
    requires BroadcastAligned(a3, b3) == Some(r3) && BroadcastAligned(a4, b4) == Some(r4)
    ensures BroadcastAligned(a1 + a2 + a3 + a4, b1 + b2 + b3 + b4) == Some(r1 + r2 + r3 + r4)
  {
    BroadcastConcat(a1, a2, b1, b2, r1, r2);
    BroadcastConcat(a1 + a2, a3, b1 + b2, b3, r1 + r2, r3);
    BroadcastConcat(a1 + a2 + a3, a4, b1 + b2 + b3, b4, r1 + r2 + r3, r4);
  }

  lemma PadFull(s: Shape)
    ensures Pad(s, |s|) == s
  {
    assert Ones(0) + s == s;
  }

  lemma Assoc4<X>(a: seq<X>, b: seq<X>, c: seq<X>, d: seq<X>)
    ensures a + (b + c + d) == a + b + c + d
  {
  }
}
