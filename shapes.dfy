/**
  Shapes, strides and the dense stand-in operand.

  Everything here belongs to the containers that the two expression nodes
  consume (their shapes, their per-container `broadcast_shape` and
  `is_trivial_broadcast`, and their element access). That code is not part of
  this model; it is given here as small helpers with stated contracts,
  following NumPy broadcasting: shapes are aligned on their LAST axis, missing
  leading axes count as extent 1, and an extent of 1 matches any extent.
*/
module Shapes {

  datatype Option<T> = None | Some(value: T)

  /** The extents of an expression, outermost axis first. */
  type Shape = seq<nat>

  /** Memory layout tag reported by an expression. */
  datatype Layout = RowMajor | ColumnMajor | Dynamic

  /** Number of elements of a shape (`compute_size`): the product of its extents. */
  function Product(s: Shape): nat
  {
    if |s| == 0 then 1 else s[0] * Product(s[1..])
  }

  /** `make_sequence<shape_type>(n, 1)`: a rank-n shape of ones. */
  function Ones(n: nat): (r: Shape)
    ensures |r| == n
    ensures forall j :: 0 <= j < n ==> r[j] == 1
  {
    seq(n, _ => 1)
  }

  /**
    The extent that a shape `x` of rank at most `n` contributes to axis `j` of
    a rank-`n` shape once its missing leading axes are padded with 1.
  */
  function Extent(x: Shape, n: nat, j: nat): nat
    requires |x| <= n && j < n
  {
    if j < n - |x| then 1 else x[j - (n - |x|)]
  }

  /** `x` broadcasts to `t` without changing `t`. */
  predicate Fits(x: Shape, t: Shape)
  {
    |x| <= |t| &&
    forall j :: 0 <= j < |t| ==> Extent(x, |t|, j) == 1 || Extent(x, |t|, j) == t[j]
  }

  /** `x` can be broadcast together with `t`: no aligned axis holds two different extents other than 1. */
  predicate Compatible(x: Shape, t: Shape)
    requires |x| <= |t|
  {
    forall j :: 0 <= j < |t| ==> Extent(x, |t|, j) == 1 || t[j] == 1 || Extent(x, |t|, j) == t[j]
  }

  /** The outcome of one container's `broadcast_shape`: the updated target and the "trivial" answer. */
  datatype Merge = Merge(shape: Shape, trivial: bool)

  /**
    A container's `broadcast_shape(output)`: every axis of `output` that is 1
    takes the input's aligned extent, and an aligned pair of different
    extents, neither of them 1, is a broadcast error (None). The answer is
    "trivial" when the ranks agree and the updated target equals the input.
  */
  function BroadcastInto(input: Shape, output: Shape): (r: Option<Merge>)
    requires |input| <= |output|
    ensures r.Some? <==> Compatible(input, output)
    ensures r.Some? ==> |r.value.shape| == |output| && Fits(input, r.value.shape)
    ensures r.Some? ==> forall j :: 0 <= j < |output| && output[j] != 1 ==> r.value.shape[j] == output[j]
    ensures r.Some? ==> forall j :: 0 <= j < |output| && output[j] == 1 ==> r.value.shape[j] == Extent(input, |output|, j)
    ensures r.Some? ==> (r.value.trivial <==> |input| == |output| && r.value.shape == input)
  {
    if !Compatible(input, output) then None
    else
      var n := |output|;
      var s := seq(n, j requires 0 <= j < n => if output[j] == 1 then Extent(input, n, j) else output[j]);
      assert |input| == n && s == input ==> forall j :: 0 <= j < n ==> s[j] == Extent(input, n, j);
      assert (|input| == n && forall j :: 0 <= j < n ==> s[j] == Extent(input, n, j)) ==> s == input;
      Some(Merge(s, |input| == n && s == input))
  }

  /** Two shapes disagree on an aligned axis of a rank-`n` target: the broadcast error. */
  predicate Conflict(x: Shape, y: Shape, n: nat)
    requires |x| <= n && |y| <= n
  {
    exists j :: 0 <= j < n && Extent(x, n, j) != 1 && Extent(y, n, j) != 1 && Extent(x, n, j) != Extent(y, n, j)
  }

  /**
    The stride of axis `a` of a row-major container: the product of the
    extents to its right, and 0 on an axis of extent 1 (so that an index on a
    broadcast axis never moves the data pointer).
  */
  function Stride(s: Shape, a: nat): nat
    requires a < |s|
  {
    if s[a] == 1 then 0 else Product(s[a + 1..])
  }

  /** The strides of every axis, as a container reports them. */
  function Strides(s: Shape): (r: seq<nat>)
    ensures |r| == |s|
    ensures forall a :: 0 <= a < |s| ==> r[a] == Stride(s, a)
  {
    seq(|s|, a requires 0 <= a < |s| => Stride(s, a))
  }

  /** The data offset of a full multi-index: the sum of index times stride over all axes. */
  function Offset(s: Shape, idx: seq<nat>): nat
    requires |idx| == |s|
  {
    if |s| == 0 then 0 else idx[0] * Stride(s, 0) + Offset(s[1..], idx[1..])
  }

  /** A full multi-index addresses an element: each index is below its extent, except on unit axes. */
  predicate InBounds(s: Shape, idx: seq<nat>)
  {
    |idx| == |s| && forall a :: 0 <= a < |s| ==> s[a] == 1 || idx[a] < s[a]
  }

  /** The last `r` indices: what an operand of rank `r` keeps of a longer multi-index. */
  function Trailing(idx: seq<nat>, r: nat): seq<nat>
    requires r <= |idx|
  {
    idx[|idx| - r..]
  }

  /** A container of shape `s` accepts `idx`: at least its rank of indices, the trailing ones in bounds. */
  predicate Accepts(s: Shape, idx: seq<nat>)
  {
    |s| <= |idx| && InBounds(s, Trailing(idx, |s|))
  }

  lemma {:induction false} StrideOfTail(s: Shape, a: nat)
    requires 0 < |s| && a + 1 < |s|
    ensures Stride(s[1..], a) == Stride(s, a + 1)
  {
    assert s[1..][a + 1..] == s[a + 2..];
  }

  lemma {:induction false} MulLeft(a: nat, b: nat, c: nat)
    requires a < b
    ensures a * c + c <= b * c
  {
    assert (b - a) * c >= c by {
      assert b - a >= 1;
    }
  }

  /** Every in-bounds multi-index addresses an element of the data. */
  lemma {:induction false} OffsetInRange(s: Shape, idx: seq<nat>)
    requires InBounds(s, idx)
    ensures Offset(s, idx) < Product(s)
  {
    if |s| > 0 {
      assert InBounds(s[1..], idx[1..]) by {
        forall a | 0 <= a < |s| - 1 ensures s[1..][a] == 1 || idx[1..][a] < s[1..][a] {
          assert s[1..][a] == s[a + 1];
        }
      }
      OffsetInRange(s[1..], idx[1..]);
      var p := Product(s[1..]);
      assert s[1..] == s[0 + 1..];
      if s[0] != 1 {
        MulLeft(idx[0], s[0], p);
      }
    }
  }

  /** Moving one index by `n` moves the offset by `n` strides of that axis. */
  lemma {:induction false} OffsetShift(s: Shape, idx: seq<nat>, a: nat, v: nat)
    requires |idx| == |s| && a < |s|
    ensures Offset(s, idx[a := v]) + idx[a] * Stride(s, a) == Offset(s, idx) + v * Stride(s, a)
  {
    if a == 0 {
      assert idx[a := v][1..] == idx[1..];
    } else {
      assert idx[a := v][1..] == idx[1..][a - 1 := v];
      OffsetShift(s[1..], idx[1..], a - 1, v);
      StrideOfTail(s, a - 1);
    }
  }

  /** The all-zero multi-index addresses the first element. */
  lemma {:induction false} OffsetOfZeros(s: Shape, idx: seq<nat>)
    requires |idx| == |s| && forall a :: 0 <= a < |s| ==> idx[a] == 0
    ensures Offset(s, idx) == 0
  {
    if |s| > 0 {
      OffsetOfZeros(s[1..], idx[1..]);
    }
  }

  /** A shape that fits a target accepts every in-bounds index of that target. */
  lemma FitsAccepts(x: Shape, t: Shape, idx: seq<nat>)
    requires Fits(x, t) && InBounds(t, idx)
    ensures Accepts(x, idx)
  {
    var n := |t|;
    forall a | 0 <= a < |x| ensures x[a] == 1 || Trailing(idx, |x|)[a] < x[a] {
      var j := n - |x| + a;
      assert Extent(x, n, j) == x[a];
      assert Trailing(idx, |x|)[a] == idx[j];
    }
  }

  /**
    The flat position `i` of a row-major traversal of `s`, as a multi-index
    (the order in which a broadcast iterator visits a shape).
  */
  function Unravel(s: Shape, i: nat): (idx: seq<nat>)
    requires i < Product(s)
    ensures |idx| == |s|
    decreases |s|
  {
    if |s| == 0 then []
    else
      var p := Product(s[1..]);
      assert p > 0;
      DivBelow(i, s[0], p);
      [i / p] + Unravel(s[1..], i % p)
  }

  lemma {:induction false} DivBelow(i: nat, m: nat, p: nat)
    requires i < m * p
    ensures p > 0 && i / p < m && i % p < p
  {
    if p == 0 {
      assert false;
    }
  }

  /** Unravelling gives an in-bounds multi-index. */
  lemma {:induction false} UnravelInBounds(s: Shape, i: nat)
    requires i < Product(s)
    ensures InBounds(s, Unravel(s, i))
  {
    if |s| > 0 {
      var p := Product(s[1..]);
      DivBelow(i, s[0], p);
      var idx := Unravel(s, i);
      assert idx[0] < s[0];
      assert idx[1..] == Unravel(s[1..], i % p);
      UnravelInBounds(s[1..], i % p);
      forall a | 0 <= a < |s| ensures s[a] == 1 || idx[a] < s[a] {
        if a > 0 {
          assert idx[a] == idx[1..][a - 1];
          assert s[a] == s[1..][a - 1];
        }
      }
    }
  }

  /** The offset of an unravelled position is that position again (ravel after unravel is the identity). */
  lemma {:induction false} UnravelRoundTrip(s: Shape, i: nat)
    requires i < Product(s)
    ensures Offset(s, Unravel(s, i)) == i
  {
    if |s| > 0 {
      var p := Product(s[1..]);
      DivBelow(i, s[0], p);
      var idx := Unravel(s, i);
      var q, rem := i / p, i % p;
      assert i == q * p + rem;
      assert idx[0] == q;
      assert idx[1..] == Unravel(s[1..], rem);
      UnravelRoundTrip(s[1..], rem);
      var stride := Stride(s, 0);
      assert Offset(s, idx) == q * stride + rem;
      assert s[1..] == s[0 + 1..];
      if s[0] == 1 {
        assert q == 0 && stride == 0;
      } else {
        assert stride == p;
      }
    }
  }
}
