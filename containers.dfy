/**
  The stand-in operands and their cursors.

  The dense containers, their steppers and their flat iterators belong to
  code that is not part of this model. They are given here with the
  behaviour the expression nodes rely on: row-major storage, strides that
  are 0 on unit axes, and steppers that skip the leading axes of a
  broadcast target that the container does not have.
*/
module Containers {
  import opened Shapes

  /** A dense integer container: its shape, its row-major data and the layout tag it reports. */
  datatype Dense = Dense(shape: Shape, data: seq<int>, layout: Layout)
  {
    predicate Valid()
    {
      |data| == Product(shape)
    }

    function Rank(): nat
    {
      |shape|
    }

    /**
      Element access `e(i...)` and `e.element(first, last)`: leading indices
      beyond the container's rank are dropped, and an index on a unit axis
      reads position 0 of that axis.
    */
    function At(idx: seq<nat>): int
      requires Valid() && Accepts(shape, idx)
    {
      OffsetInRange(shape, Trailing(idx, |shape|));
      data[Offset(shape, Trailing(idx, |shape|))]
    }

    /** The container's `broadcast_shape(target)`. */
    function BroadcastShape(target: Shape): Option<Merge>
      requires |shape| <= |target|
    {
      BroadcastInto(shape, target)
    }

    /** The container's `is_trivial_broadcast(strides)`: the given strides are exactly its own. */
    function IsTrivialBroadcast(strides: seq<nat>): bool
    {
      strides == Strides(shape)
    }
  }

  /**
    A container's stepper for a broadcast target of rank `offset + |shape|`:
    the data position `ptr`, moved along the target's axes. Axes below
    `offset` are the leading axes the container does not have.
  */
  datatype Stepper = Stepper(shape: Shape, offset: nat, ptr: int)
  {
    /** The rank of the target shape this stepper walks. */
    function TargetRank(): nat
    {
      offset + |shape|
    }

    function Step(dim: nat, n: nat): Stepper
      requires dim < TargetRank()
    {
      if dim < offset then this else this.(ptr := ptr + n * Stride(shape, dim - offset))
    }

    function StepBack(dim: nat, n: nat): Stepper
      requires dim < TargetRank()
    {
      if dim < offset then this else this.(ptr := ptr - n * Stride(shape, dim - offset))
    }

    /** Back from the last position of axis `dim` to its first: minus the axis' back-stride. */
    function Reset(dim: nat): Stepper
      requires dim < TargetRank()
    {
      if dim < offset then this
      else
        var a := dim - offset;
        this.(ptr := ptr - Stride(shape, a) * (shape[a] as int - 1))
    }

    /** Past the last element of the data. */
    function ToEnd(): Stepper
    {
      this.(ptr := Product(shape))
    }

    /** The stepper stands on target multi-index `idx`. */
    ghost predicate Over(idx: seq<nat>)
    {
      |idx| == TargetRank() && ptr == Offset(shape, idx[offset..])
    }
  }

  /** `stepper_begin(target)`: the first element, for a target of rank at least the container's. */
  function StepperBegin(shape: Shape, target: Shape): (st: Stepper)
    requires |shape| <= |target|
    ensures st.shape == shape && st.TargetRank() == |target|
  {
    Stepper(shape, |target| - |shape|, 0)
  }

  /** `stepper_end(target)`: one past the last element. */
  function StepperEnd(shape: Shape, target: Shape): (st: Stepper)
    requires |shape| <= |target|
    ensures st.shape == shape && st.TargetRank() == |target|
  {
    Stepper(shape, |target| - |shape|, Product(shape))
  }

  /** The moves an expression's stepper forwards to the stepper of its operand. */
  datatype Move = StepBy(dim: nat, n: nat) | StepBackBy(dim: nat, n: nat) | ResetAxis(dim: nat) | ToEndMove

  /** The move can be made by a stepper walking a target of rank `rank`. */
  predicate Applies(m: Move, rank: nat)
  {
    m.ToEndMove? || m.dim < rank
  }

  /** One child's `step`, `step_back`, `reset` or `to_end`; none of them changes what the child walks. */
  function Apply(st: Stepper, m: Move): (r: Stepper)
    requires Applies(m, st.TargetRank())
    ensures r.shape == st.shape && r.offset == st.offset
  {
    match m
    case StepBy(dim, n) => st.Step(dim, n)
    case StepBackBy(dim, n) => st.StepBack(dim, n)
    case ResetAxis(dim) => st.Reset(dim)
    case ToEndMove => st.ToEnd()
  }

  /** A flat (storage-order) iterator of a container: a position in its data. */
  datatype Cursor = Cursor(pos: nat)
  {
    function Next(): Cursor
    {
      Cursor(pos + 1)
    }
  }

  /** The begin stepper stands on the all-zero index of its target. */
  lemma BeginOverZeros(shape: Shape, target: Shape, idx: seq<nat>)
    requires |shape| <= |target| && |idx| == |target|
    requires forall j :: 0 <= j < |idx| ==> idx[j] == 0
    ensures StepperBegin(shape, target).Over(idx)
  {
    var st := StepperBegin(shape, target);
    OffsetOfZeros(shape, idx[st.offset..]);
  }

  /** `step(dim, n)` moves the stepper `n` positions along axis `dim` of the target. */
  lemma {:induction false} StepMoves(st: Stepper, idx: seq<nat>, dim: nat, n: nat)
    requires st.Over(idx) && dim < |idx|
    ensures st.Step(dim, n).Over(idx[dim := idx[dim] + n])
  {
    var idx' := idx[dim := idx[dim] + n];
    if dim < st.offset {
      assert idx'[st.offset..] == idx[st.offset..];
    } else {
      var a := dim - st.offset;
      assert idx'[st.offset..] == idx[st.offset..][a := idx[dim] + n];
      OffsetShift(st.shape, idx[st.offset..], a, idx[dim] + n);
    }
  }

  /** `step_back(dim, n)` moves the stepper `n` positions back along axis `dim`. */
  lemma {:induction false} StepBackMoves(st: Stepper, idx: seq<nat>, dim: nat, n: nat)
    requires st.Over(idx) && dim < |idx| && n <= idx[dim]
    ensures st.StepBack(dim, n).Over(idx[dim := idx[dim] - n])
  {
    var idx' := idx[dim := idx[dim] - n];
    if dim < st.offset {
      assert idx'[st.offset..] == idx[st.offset..];
    } else {
      var a := dim - st.offset;
      var sub := idx[st.offset..];
      var stride := Stride(st.shape, a);
      assert sub[a] == idx[dim];
      assert idx'[st.offset..] == sub[a := idx[dim] - n];
      OffsetShift(st.shape, sub, a, idx[dim] - n);
      assert (idx[dim] - n) * stride == idx[dim] * stride - n * stride;
    }
  }

  /**
    `reset(dim)` on the last position of axis `dim` (for the container's own
    extent on that axis, or any position on a unit or missing axis) brings
    the stepper back to position 0 of that axis.
  */
  lemma {:induction false} ResetRewinds(st: Stepper, idx: seq<nat>, dim: nat)
    requires st.Over(idx) && dim < |idx|
    requires st.offset <= dim && st.shape[dim - st.offset] != 1 ==> idx[dim] + 1 == st.shape[dim - st.offset]
    ensures st.Reset(dim).Over(idx[dim := 0])
  {
    var idx' := idx[dim := 0];
    if dim < st.offset {
      assert idx'[st.offset..] == idx[st.offset..];
    } else {
      var a := dim - st.offset;
      var sub := idx[st.offset..];
      var stride := Stride(st.shape, a);
      assert sub[a] == idx[dim];
      assert idx'[st.offset..] == sub[a := 0];
      OffsetShift(st.shape, sub, a, 0);
      assert Offset(st.shape, sub[a := 0]) + idx[dim] * stride == Offset(st.shape, sub);
      if st.shape[a] == 1 {
        assert stride == 0;
      } else {
        assert idx[dim] == st.shape[a] as int - 1;
      }
      assert idx[dim] * stride == stride * (st.shape[a] as int - 1);
    }
  }
}
