/** N-dimensional arrays as nested values, with the handful of NumPy
    operations the mesh-variable code relies on: broadcasting element-wise
    operations, `newaxis` insertion, `repeat`, `take` along the last axis and
    `sum` along an axis. */
module Arrays {
  import opened Results
  import opened Shapes

  /** A NumPy array: a number, or a sequence of sub-arrays along the first axis. */
  datatype Tensor<T> = Scalar(v: T) | Array(items: seq<Tensor<T>>)

  /** `t` is a rectangular array of shape `s`. */
  predicate HasShape<T>(t: Tensor<T>, s: Shape)
    decreases t
  {
    if |s| == 0 then t.Scalar?
    else t.Array? && |t.items| == s[0] && forall i :: 0 <= i < |t.items| ==> HasShape(t.items[i], s[1..])
  }

  /** `p` indexes the leading `|p|` axes of an array of shape `s`. */
  predicate InBounds(p: seq<nat>, s: Shape) {
    |p| <= |s| && forall k :: 0 <= k < |p| ==> p[k] < s[k]
  }

  /** The sub-array `t[p[0], p[1], ...]`; an index out of range stops the descent. */
  function Sub<T>(t: Tensor<T>, p: seq<nat>): Tensor<T>
    decreases |p|
  {
    if |p| == 0 then t
    else if t.Array? && p[0] < |t.items| then Sub(t.items[p[0]], p[1..])
    else t
  }

  /** The number stored at full index `p`. */
  function At(t: Tensor<int>, p: seq<nat>): int {
    var e := Sub(t, p);
    if e.Scalar? then e.v else 0
  }

  lemma {:induction false} SubShape<T>(t: Tensor<T>, s: Shape, p: seq<nat>)
    requires HasShape(t, s) && InBounds(p, s)
    ensures HasShape(Sub(t, p), s[|p|..])
    decreases |p|
  {
    if |p| > 0 {
      SubShape(t.items[p[0]], s[1..], p[1..]);
      assert s[1..][|p| - 1..] == s[|p|..];
    }
  }

  /** Indexing in two steps is indexing with the concatenated index. */
  lemma {:induction false} SubConcat<T>(t: Tensor<T>, s: Shape, p: seq<nat>, q: seq<nat>)
    requires HasShape(t, s) && InBounds(p, s)
    ensures Sub(t, p + q) == Sub(Sub(t, p), q)
    decreases |p|
  {
    if |p| > 0 {
      assert (p + q)[0] == p[0] && (p + q)[1..] == p[1..] + q;
      assert Sub(t, p + q) == Sub(t.items[p[0]], p[1..] + q);
      assert Sub(t, p) == Sub(t.items[p[0]], p[1..]);
      SubConcat(t.items[p[0]], s[1..], p[1..], q);
    } else {
      assert p + q == q;
    }
  }

  /** Element `[i]` of a one-step index. */
  lemma SubCons<T>(t: Tensor<T>, s: Shape, i: nat, q: seq<nat>)
    requires HasShape(t, s) && |s| > 0 && i < s[0]
    ensures Sub(t, [i] + q) == Sub(t.items[i], q)
  {
    assert ([i] + q)[1..] == q;
  }

  // ---------------------------------------------------------------------------
  // Constant arrays and leading singleton axes

  /** An array of shape `s` with every entry `x` (`numerix.zeros` for `x = 0`). */
  function Fill<T>(s: Shape, x: T): Tensor<T>
    decreases |s|
  {
    if |s| == 0 then Scalar(x) else Array(seq(s[0], _ => Fill(s[1..], x)))
  }

  lemma {:induction false} FillShape<T>(s: Shape, x: T)
    ensures HasShape(Fill(s, x), s)
    decreases |s|
  {
    if |s| > 0 {
      FillShape(s[1..], x);
    }
  }

  lemma {:induction false} FillAt(s: Shape, p: seq<nat>)
    requires InBounds(p, s) && |p| == |s|
    ensures At(Fill(s, 0), p) == 0
    decreases |s|
  {
    if |s| > 0 {
      FillAt(s[1..], p[1..]);
    }
  }

  /** `t[newaxis, ..., newaxis, ...]`: `k` new leading axes of length one. */
  function Lift<T>(t: Tensor<T>, k: nat): Tensor<T>
  {
    if k == 0 then t else Array([Lift(t, k - 1)])
  }

  lemma {:induction false} LiftShape<T>(t: Tensor<T>, s: Shape, k: nat)
    requires HasShape(t, s)
    ensures HasShape(Lift(t, k), Ones(k) + s)
  {
    if k > 0 {
      LiftShape(t, s, k - 1);
      assert (Ones(k) + s)[0] == 1;
      assert (Ones(k) + s)[1..] == Ones(k - 1) + s;
    } else {
      assert Ones(k) + s == s;
    }
  }

  lemma {:induction false} LiftSub<T>(t: Tensor<T>, k: nat, p: seq<nat>)
    ensures Sub(Lift(t, k), Zeros(k) + p) == Sub(t, p)
  {
    if k > 0 {
      assert (Zeros(k) + p)[0] == 0;
      assert (Zeros(k) + p)[1..] == Zeros(k - 1) + p;
      LiftSub(t, k - 1, p);
    } else {
      assert Zeros(k) + p == p;
    }
  }

  // ---------------------------------------------------------------------------
  // Broadcasting element-wise operations

  /** `f(a, b)` element by element, NumPy-style, for operands whose shapes have
      the same length: an axis of length one is stretched to match the other. */
  function ZipWith<T>(a: Tensor<T>, b: Tensor<T>, f: (T, T) -> T): Tensor<T>
    decreases a
  {
    match a
    case Scalar(x) => if b.Scalar? then Scalar(f(x, b.v)) else a
    case Array(xs) =>
      if b.Scalar? then a
      else
        var ys := b.items;
        var n := if |xs| == |ys| then |xs| else if |xs| == 1 then |ys| else if |ys| == 1 then |xs| else 0;
        Array(seq(n, i requires 0 <= i < n =>
          ZipWith(xs[if |xs| == 1 then 0 else i], ys[if |ys| == 1 then 0 else i], f)))
  }

  /** The index into an operand of shape `s` that broadcasting reads for
      index `p` of the result: axes of length one are always read at 0. */
  function Proj(p: seq<nat>, s: Shape): (r: seq<nat>)
    requires |p| <= |s|
    ensures |r| == |p|
  {
    seq(|p|, k requires 0 <= k < |p| => if s[k] == 1 then 0 else p[k])
  }

  lemma ProjIdentity(p: seq<nat>, s: Shape)
    requires InBounds(p, s)
    ensures Proj(p, s) == p
  {
  }

  lemma ProjConcat(p1: seq<nat>, p2: seq<nat>, s1: Shape, s2: Shape)
    requires |p1| == |s1| && |p2| <= |s2|
    ensures Proj(p1 + p2, s1 + s2) == Proj(p1, s1) + Proj(p2, s2)
  {
    var l, r := Proj(p1 + p2, s1 + s2), Proj(p1, s1) + Proj(p2, s2);
    forall x | 0 <= x < |l| ensures l[x] == r[x] {
      if x >= |p1| {
        assert (p1 + p2)[x] == p2[x - |p1|] && (s1 + s2)[x] == s2[x - |p1|];
      }
    }
  }

  lemma ProjOnes(p: seq<nat>)
    ensures Proj(p, Ones(|p|)) == Zeros(|p|)
  {
  }

  lemma InBoundsConcat(p1: seq<nat>, p2: seq<nat>, s1: Shape, s2: Shape)
    requires |p1| == |s1| && InBounds(p1, s1) && InBounds(p2, s2)
    ensures InBounds(p1 + p2, s1 + s2)
  {
    forall x | 0 <= x < |p1 + p2| ensures (p1 + p2)[x] < (s1 + s2)[x] {
      if x >= |p1| {
        assert (p1 + p2)[x] == p2[x - |p1|] && (s1 + s2)[x] == s2[x - |p1|];
      }
    }
  }

  lemma {:induction false} ZipShape<T>(a: Tensor<T>, b: Tensor<T>, sa: Shape, sb: Shape, f: (T, T) -> T)
    requires |sa| == |sb| && HasShape(a, sa) && HasShape(b, sb)
    requires BroadcastAligned(sa, sb).Some?
    ensures HasShape(ZipWith(a, b, f), BroadcastAligned(sa, sb).value)
    decreases a
  {
    if |sa| > 0 {
      var s := BroadcastAligned(sa, sb).value;
      assert s[1..] == BroadcastAligned(sa[1..], sb[1..]).value;
      var xs, ys := a.items, b.items;
      var r := ZipWith(a, b, f);
      forall i | 0 <= i < |r.items|
        ensures HasShape(r.items[i], s[1..])
      {
        ZipShape(xs[if |xs| == 1 then 0 else i], ys[if |ys| == 1 then 0 else i], sa[1..], sb[1..], f);
      }
    }
  }

  /** Indexing a broadcast result is broadcasting the indexed operands. */
  lemma {:induction false} ZipSub<T>(a: Tensor<T>, b: Tensor<T>, sa: Shape, sb: Shape, f: (T, T) -> T, p: seq<nat>)
    requires |sa| == |sb| && HasShape(a, sa) && HasShape(b, sb)
    requires BroadcastAligned(sa, sb).Some? && InBounds(p, BroadcastAligned(sa, sb).value)
    ensures Sub(ZipWith(a, b, f), p) == ZipWith(Sub(a, Proj(p, sa)), Sub(b, Proj(p, sb)), f)
    decreases |p|
  {
    if |p| == 0 {
      assert Proj(p, sa) == [] && Proj(p, sb) == [];
    } else {
      BroadcastHead(sa, sb);
      var xs, ys := a.items, b.items;
      var i := p[0];
      var ia, ib := if |xs| == 1 then 0 else i, if |ys| == 1 then 0 else i;
      ZipItem(a, b, sa, sb, f, i);
      var pa, pb := Proj(p, sa), Proj(p, sb);
      assert pa[0] == ia && pa[1..] == Proj(p[1..], sa[1..]);
      assert pb[0] == ib && pb[1..] == Proj(p[1..], sb[1..]);
      SubStep(ZipWith(a, b, f), p);
      SubStep(a, pa);
      SubStep(b, pb);
      ZipSub(xs[ia], ys[ib], sa[1..], sb[1..], f, p[1..]);
    }
  }

  /** One step of indexing. */
  lemma SubStep<T>(t: Tensor<T>, p: seq<nat>)
    requires t.Array? && |p| > 0 && p[0] < |t.items|
    ensures Sub(t, p) == Sub(t.items[p[0]], p[1..])
  {
  }

  /** Broadcasting aligned shapes settles the first axis, then the rest. */
  lemma BroadcastHead(sa: Shape, sb: Shape)
    requires |sa| == |sb| > 0 && BroadcastAligned(sa, sb).Some?
    ensures Compatible(sa[0], sb[0]) && BroadcastAligned(sa[1..], sb[1..]).Some?
    ensures BroadcastAligned(sa, sb).value
         == [BroadcastDim(sa[0], sb[0])] + BroadcastAligned(sa[1..], sb[1..]).value
  {
  }

  /** One item of a broadcast result, read from the items broadcasting selects. */
  lemma ZipItem<T>(a: Tensor<T>, b: Tensor<T>, sa: Shape, sb: Shape, f: (T, T) -> T, i: nat)
    requires |sa| == |sb| && |sa| > 0 && HasShape(a, sa) && HasShape(b, sb)
    requires Compatible(sa[0], sb[0]) && i < BroadcastDim(sa[0], sb[0])
    ensures ZipWith(a, b, f).Array? && |ZipWith(a, b, f).items| == BroadcastDim(sa[0], sb[0])
    ensures ZipWith(a, b, f).items[i]
         == ZipWith(a.items[if sa[0] == 1 then 0 else i], b.items[if sb[0] == 1 then 0 else i], f)
  {
  }

  /** Element-wise sum of two arrays of the same shape. */
  function Add(a: Tensor<int>, b: Tensor<int>): Tensor<int> {
    ZipWith(a, b, Plus)
  }

  function Plus(x: int, y: int): int { x + y }

  lemma AddShape(a: Tensor<int>, b: Tensor<int>, s: Shape)
    requires HasShape(a, s) && HasShape(b, s)
    ensures HasShape(Add(a, b), s)
  {
    BroadcastSelfAligned(s);
    ZipShape(a, b, s, s, Plus);
  }

  lemma AddAt(a: Tensor<int>, b: Tensor<int>, s: Shape, p: seq<nat>)
    requires HasShape(a, s) && HasShape(b, s) && InBounds(p, s) && |p| == |s|
    ensures At(Add(a, b), p) == At(a, p) + At(b, p)
  {
    BroadcastSelfAligned(s);
    ZipSub(a, b, s, s, Plus, p);
    ProjIdentity(p, s);
    SubShape(a, s, p);
    SubShape(b, s, p);
    assert s[|p|..] == [];
  }

  lemma BroadcastSelfAligned(s: Shape)
    ensures BroadcastAligned(s, s) == Some(s)
  {
    BroadcastAlignedAxes(s, s);
    var r := BroadcastAligned(s, s).value;
    assert forall i :: 0 <= i < |s| ==> r[i] == s[i];
    assert r == s;
  }

  /** `array[...] = t` into `array = numerix.zeros(S)`: `t`, of shape `st`,
      broadcast into an array of shape `S`. */
  function BroadcastInto(t: Tensor<int>, st: Shape, S: Shape): Tensor<int>
    requires |st| <= |S|
  {
    ZipWith(Fill(S, 0), Lift(t, |S| - |st|), Plus)
  }

  lemma BroadcastIntoShape(t: Tensor<int>, st: Shape, S: Shape)
    requires HasShape(t, st) && |st| <= |S| && BroadcastAligned(S, Pad(st, |S|)) == Some(S)
    ensures HasShape(BroadcastInto(t, st, S), S)
  {
    FillShape(S, 0);
    LiftShape(t, st, |S| - |st|);
    ZipShape(Fill(S, 0), Lift(t, |S| - |st|), S, Pad(st, |S|), Plus);
  }

  /** Each entry of the broadcast array reads `t` at the trailing part of its
      index, with axes of length one read at 0. */
  lemma BroadcastIntoAt(t: Tensor<int>, st: Shape, S: Shape, p: seq<nat>)
    requires HasShape(t, st) && |st| <= |S| && BroadcastAligned(S, Pad(st, |S|)) == Some(S)
    requires InBounds(p, S) && |p| == |S|
    ensures At(BroadcastInto(t, st, S), p) == At(t, Proj(p[|S| - |st|..], st))
  {
    var k := |S| - |st|;
    FillShape(S, 0);
    LiftShape(t, st, k);
    ZipSub(Fill(S, 0), Lift(t, k), S, Pad(st, |S|), Plus, p);
    ProjIdentity(p, S);
    assert p == p[..k] + p[k..];
    ProjConcat(p[..k], p[k..], Ones(k), st);
    ProjOnes(p[..k]);
    LiftSub(t, k, Proj(p[k..], st));
    FillAt(S, p);
    SubShape(Fill(S, 0), S, p);
    assert S[|p|..] == [];
  }

  // ---------------------------------------------------------------------------
  // Sums along an axis

  function Total(xs: seq<int>): int {
    if |xs| == 0 then 0 else xs[0] + Total(xs[1..])
  }

  /** The total of entrywise sums is the sum of the totals. */
  lemma {:induction false} TotalAdd(xs: seq<int>, ys: seq<int>, zs: seq<int>)
    requires |xs| == |ys| == |zs|
    requires forall k :: 0 <= k < |zs| ==> zs[k] == xs[k] + ys[k]
    ensures Total(zs) == Total(xs) + Total(ys)
    decreases |zs|
  {
    if |zs| > 0 {
      TotalAdd(xs[1..], ys[1..], zs[1..]);
    }
  }

  /** The element-wise sum of `items`, each of shape `sub`; zeros when empty. */
  function SumItems(items: seq<Tensor<int>>, sub: Shape): Tensor<int>
    decreases |items|
  {
    if |items| == 0 then Fill(sub, 0) else Add(items[0], SumItems(items[1..], sub))
  }

  /** `numerix.sum(t, axis=axis)` for an array `t` of shape `s`. */
  function SumAxis(t: Tensor<int>, s: Shape, axis: nat): Tensor<int>
    requires axis < |s|
    decreases t
  {
    if t.Scalar? then t
    else if axis == 0 then SumItems(t.items, s[1..])
    else Array(seq(|t.items|, i requires 0 <= i < |t.items| => SumAxis(t.items[i], s[1..], axis - 1)))
  }

  /** The shape `s` with axis `axis` removed. */
  function Without(s: Shape, axis: nat): (r: Shape)
    requires axis < |s|
    ensures |r| == |s| - 1
  {
    s[..axis] + s[axis + 1..]
  }

  lemma {:induction false} SumItemsShape(items: seq<Tensor<int>>, sub: Shape)
    requires forall k :: 0 <= k < |items| ==> HasShape(items[k], sub)
    ensures HasShape(SumItems(items, sub), sub)
    decreases |items|
  {
    if |items| == 0 {
      FillShape(sub, 0);
    } else {
      SumItemsShape(items[1..], sub);
      AddShape(items[0], SumItems(items[1..], sub), sub);
    }
  }

  lemma {:induction false} SumItemsAt(items: seq<Tensor<int>>, sub: Shape, p: seq<nat>)
    requires forall k :: 0 <= k < |items| ==> HasShape(items[k], sub)
    requires InBounds(p, sub) && |p| == |sub|
    ensures At(SumItems(items, sub), p) == Total(seq(|items|, k requires 0 <= k < |items| => At(items[k], p)))
    decreases |items|
  {
    var xs := seq(|items|, k requires 0 <= k < |items| => At(items[k], p));
    if |items| == 0 {
      FillAt(sub, p);
    } else {
      SumItemsShape(items[1..], sub);
      SumItemsAt(items[1..], sub, p);
      AddAt(items[0], SumItems(items[1..], sub), sub, p);
      assert xs[1..] == seq(|items[1..]|, k requires 0 <= k < |items[1..]| => At(items[1..][k], p));
    }
  }

  lemma {:induction false} SumAxisShape(t: Tensor<int>, s: Shape, axis: nat)
    requires axis < |s| && HasShape(t, s)
    ensures HasShape(SumAxis(t, s, axis), Without(s, axis))
    decreases t
  {
    if axis == 0 {
      SumItemsShape(t.items, s[1..]);
      assert Without(s, 0) == s[1..];
    } else {
      assert Without(s, axis)[1..] == Without(s[1..], axis - 1);
      forall i | 0 <= i < |t.items|
        ensures HasShape(SumAxis(t.items[i], s[1..], axis - 1), Without(s[1..], axis - 1))
      {
        SumAxisShape(t.items[i], s[1..], axis - 1);
      }
    }
  }

  /** The index `p` of the summed array with `k` put back at axis `axis`. */
  function Insert(p: seq<nat>, axis: nat, k: nat): seq<nat>
    requires axis <= |p|
  {
    p[..axis] + [k] + p[axis..]
  }

  /** Each entry of a sum along an axis adds up the entries along that axis. */
  lemma {:induction false} SumAxisAt(t: Tensor<int>, s: Shape, axis: nat, p: seq<nat>)
    requires axis < |s| && HasShape(t, s)
    requires InBounds(p, Without(s, axis)) && |p| == |s| - 1
    ensures At(SumAxis(t, s, axis), p)
         == Total(seq(s[axis], k requires 0 <= k < s[axis] => At(t, Insert(p, axis, k))))
    decreases t
  {
    if axis == 0 {
      SumAxisZeroAt(t, s, p);
    } else {
      var xs := seq(s[axis], k requires 0 <= k < s[axis] => At(t, Insert(p, axis, k)));
      var i := p[0];
      assert Without(s, axis)[0] == s[0];
      var u := t.items[i];
      var r := SumAxis(t, s, axis);
      assert r.Array? && |r.items| == |t.items| && r.items[i] == SumAxis(u, s[1..], axis - 1);
      SubStep(r, p);
      assert Without(s, axis)[1..] == Without(s[1..], axis - 1);
      SumAxisAt(u, s[1..], axis - 1, p[1..]);
      var ys := seq(s[1..][axis - 1], k requires 0 <= k < s[1..][axis - 1] => At(u, Insert(p[1..], axis - 1, k)));
      forall k | 0 <= k < s[axis]
        ensures ys[k] == xs[k]
      {
        assert Insert(p, axis, k) == [i] + Insert(p[1..], axis - 1, k);
        SubCons(t, s, i, Insert(p[1..], axis - 1, k));
      }
      assert ys == xs;
    }
  }

  lemma SumAxisZeroAt(t: Tensor<int>, s: Shape, p: seq<nat>)
    requires 0 < |s| && HasShape(t, s)
    requires InBounds(p, s[1..]) && |p| == |s| - 1
    ensures At(SumAxis(t, s, 0), p)
         == Total(seq(s[0], k requires 0 <= k < s[0] => At(t, Insert(p, 0, k))))
  {
    var xs := seq(s[0], k requires 0 <= k < s[0] => At(t, Insert(p, 0, k)));
    SumItemsAt(t.items, s[1..], p);
    forall k | 0 <= k < s[0]
      ensures At(t.items[k], p) == xs[k]
    {
      assert Insert(p, 0, k) == [k] + p;
      SubCons(t, s, k, p);
    }
    assert seq(|t.items|, k requires 0 <= k < |t.items| => At(t.items[k], p)) == xs;
  }

  // ---------------------------------------------------------------------------
  // New axes inside the shape, repetition, and taking along the last axis

  /** `t[(slice,) * d + (newaxis,) * k + (...,)]`: `k` new axes of length one
      after the first `d` axes. */
  function Expand<T>(t: Tensor<T>, d: nat, k: nat): Tensor<T>
    decreases t
  {
    if d == 0 then Lift(t, k)
    else match t
      case Scalar(_) => t
      case Array(xs) => Array(seq(|xs|, i requires 0 <= i < |xs| => Expand(xs[i], d - 1, k)))
  }

  lemma {:induction false} ExpandShape<T>(t: Tensor<T>, s: Shape, d: nat, k: nat)
    requires HasShape(t, s) && d <= |s|
    ensures HasShape(Expand(t, d, k), s[..d] + Ones(k) + s[d..])
    decreases t
  {
    if d == 0 {
      LiftShape(t, s, k);
      assert s[..0] + Ones(k) + s[0..] == Ones(k) + s;
    } else {
      assert (s[..d] + Ones(k) + s[d..])[1..] == s[1..][..d - 1] + Ones(k) + s[1..][d - 1..];
      forall i | 0 <= i < |t.items|
        ensures HasShape(Expand(t.items[i], d - 1, k), s[1..][..d - 1] + Ones(k) + s[1..][d - 1..])
      {
        ExpandShape(t.items[i], s[1..], d - 1, k);
      }
    }
  }

  lemma {:induction false} ExpandSub<T>(t: Tensor<T>, s: Shape, d: nat, k: nat, q: seq<nat>, r: seq<nat>)
    requires HasShape(t, s) && |q| == d && InBounds(q, s)
    ensures Sub(Expand(t, d, k), q + Zeros(k) + r) == Sub(t, q + r)
    decreases d
  {
    if d == 0 {
      assert q + Zeros(k) + r == Zeros(k) + r;
      assert q + r == r;
      LiftSub(t, k, r);
    } else {
      assert (q + Zeros(k) + r)[0] == q[0] && (q + Zeros(k) + r)[1..] == q[1..] + Zeros(k) + r;
      assert (q + r)[0] == q[0] && (q + r)[1..] == q[1..] + r;
      ExpandSub(t.items[q[0]], s[1..], d - 1, k, q[1..], r);
    }
  }

  /** `numerix.repeat(t[newaxis, ...], n, axis=0)`: `n` copies along a new first axis. */
  function Copies<T>(t: Tensor<T>, n: nat): Tensor<T> {
    Array(seq(n, _ => t))
  }

  /** `t[..., ids]` for `t` with `d + 1` axes: the last axis read at `ids`. */
  function TakeLast<T>(t: Tensor<T>, d: nat, ids: seq<nat>): Tensor<T>
    decreases t
  {
    match t
    case Scalar(_) => t
    case Array(xs) =>
      if d == 0 then Array(seq(|ids|, j requires 0 <= j < |ids| => if ids[j] < |xs| then xs[ids[j]] else t))
      else Array(seq(|xs|, i requires 0 <= i < |xs| => TakeLast(xs[i], d - 1, ids)))
  }

  lemma {:induction false} TakeLastShape<T>(t: Tensor<T>, s: Shape, ids: seq<nat>)
    requires |s| > 0 && HasShape(t, s)
    requires forall j :: 0 <= j < |ids| ==> ids[j] < s[|s| - 1]
    ensures HasShape(TakeLast(t, |s| - 1, ids), s[..|s| - 1] + [|ids|])
    decreases t
  {
    if |s| > 1 {
      assert (s[..|s| - 1] + [|ids|])[1..] == s[1..][..|s| - 2] + [|ids|];
      forall i | 0 <= i < |t.items|
        ensures HasShape(TakeLast(t.items[i], |s| - 2, ids), s[1..][..|s| - 2] + [|ids|])
      {
        TakeLastShape(t.items[i], s[1..], ids);
      }
    }
  }

  lemma {:induction false} TakeLastSub<T>(t: Tensor<T>, s: Shape, ids: seq<nat>, p: seq<nat>, j: nat)
    requires |s| > 0 && HasShape(t, s)
    requires forall j :: 0 <= j < |ids| ==> ids[j] < s[|s| - 1]
    requires |p| == |s| - 1 && InBounds(p, s) && j < |ids|
    ensures Sub(TakeLast(t, |s| - 1, ids), p + [j]) == Sub(t, p + [ids[j]])
    decreases t
  {
    if |s| > 1 {
      assert (p + [j])[0] == p[0] && (p + [j])[1..] == p[1..] + [j];
      assert (p + [ids[j]])[0] == p[0] && (p + [ids[j]])[1..] == p[1..] + [ids[j]];
      TakeLastSub(t.items[p[0]], s[1..], ids, p[1..], j);
    } else {
      assert p + [j] == [j];
      assert p + [ids[j]] == [ids[j]];
    }
  }
}
