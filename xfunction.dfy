/**
  The lazy N-ary function node (`xfunction`) with its composite iterator
  and stepper.

  A node holds an ordered sequence of operands, a functor applied to one
  value per operand, and a memo of its broadcast shape (`m_shape`,
  `m_shape_computed`). Nothing is evaluated at construction: the shape is
  computed by the first `shape()` call, and element values only when they
  are accessed or dereferenced.
*/
module LazyFunction {
  import opened Shapes
  import opened Containers

  /** A value, or the broadcast error raised by the operand at index `operand`. */
  datatype Result<T> = Ok(value: T) | BroadcastError(operand: nat)

  /**
    `compute_dimension()`: the maximum operand rank, folded from 0 in
    operand order.
  */
  function ComputeDimension(ops: seq<Dense>): (r: nat)
    ensures forall k :: 0 <= k < |ops| ==> ops[k].Rank() <= r
    ensures |ops| == 0 ==> r == 0
    ensures |ops| > 0 ==> exists k :: 0 <= k < |ops| && ops[k].Rank() == r
  {
    if |ops| == 0 then 0
    else
      var d := ComputeDimension(ops[..|ops| - 1]);
      assert forall k :: 0 <= k < |ops| - 1 ==> ops[..|ops| - 1][k] == ops[k];
      if d < ops[|ops| - 1].Rank() then ops[|ops| - 1].Rank() else d
  }

  /** Two layouts merge to their common kind, or to Dynamic when they differ. */
  function MergeLayouts(l: Layout, r: Layout): Layout
  {
    if l == r then l else Dynamic
  }

  /**
    `compute_layout(l...)`: the layouts merged pairwise. With no layout at
    all the result is Dynamic.
  */
  function ComputeLayout(ls: seq<Layout>): (r: Layout)
    ensures |ls| > 0 && (forall i :: 0 <= i < |ls| ==> ls[i] == ls[0]) ==> r == ls[0]
    ensures !(|ls| > 0 && forall i :: 0 <= i < |ls| ==> ls[i] == ls[0]) ==> r == Dynamic
  {
    if |ls| == 0 then Dynamic
    else if |ls| == 1 then ls[0]
    else
      var rest := ComputeLayout(ls[1..]);
      assert (forall i :: 0 <= i < |ls| ==> ls[i] == ls[0]) <==>
             ls[1..][0] == ls[0] && forall i :: 0 <= i < |ls| - 1 ==> ls[1..][i] == ls[1..][0];
      MergeLayouts(ls[0], rest)
  }

  /**
    What `broadcast_shape(s)` leaves: either the merged target together with
    the answers the operands gave, in the order they were asked, or the
    broadcast error of operand `operand`, raised while the target held
    `partial`.
  */
  datatype Broadcast = Merged(shape: Shape, answers: seq<bool>) | Incompatible(operand: nat, partial: Shape)

  /** Operands whose ranks do not exceed `n`: the target ranks `broadcast_shape` is given. */
  predicate RanksAtMost(ops: seq<Dense>, n: nat)
  {
    forall k :: 0 <= k < |ops| ==> ops[k].Rank() <= n
  }

  /**
    The fold of `broadcast_shape` over the operands, in operand order. Every
    operand is asked, whatever the earlier ones answered; only a broadcast
    error stops the fold.
  */
  function BroadcastFold(ops: seq<Dense>, s: Shape): (r: Broadcast)
    requires RanksAtMost(ops, |s|)
    ensures r.Merged? ==> |r.shape| == |s| && |r.answers| == |ops|
    ensures r.Incompatible? ==> r.operand < |ops| && |r.partial| == |s|
    decreases |ops|
  {
    if |ops| == 0 then Merged(s, [])
    else
      var last := ops[|ops| - 1];
      match BroadcastFold(ops[..|ops| - 1], s)
      case Incompatible(i, p) => Incompatible(i, p)
      case Merged(sh, answers) =>
        match last.BroadcastShape(sh)
        case None => Incompatible(|ops| - 1, sh)
        case Some(m) => Merged(m.shape, answers + [m.trivial])
  }

  /** The fold over a prefix is the prefix of the fold. */
  lemma PrefixFold(ops: seq<Dense>, s: Shape, k: nat)
    requires RanksAtMost(ops, |s|) && k < |ops|
    ensures ops[..k + 1][..k] == ops[..k]
    ensures BroadcastFold(ops[..k + 1], s) ==
      match BroadcastFold(ops[..k], s)
      case Incompatible(i, p) => Incompatible(i, p)
      case Merged(sh, answers) =>
        match ops[k].BroadcastShape(sh)
        case None => Incompatible(k, sh)
        case Some(m) => Merged(m.shape, answers + [m.trivial])
  {
    assert ops[..k + 1][..k] == ops[..k];
  }

  /** Once the fold over a prefix has failed, the fold over the whole sequence fails with the same error. */
  lemma {:induction false} FailureSticks(ops: seq<Dense>, s: Shape, k: nat)
    requires RanksAtMost(ops, |s|) && k <= |ops|
    requires BroadcastFold(ops[..k], s).Incompatible?
    ensures BroadcastFold(ops, s) == BroadcastFold(ops[..k], s)
    decreases |ops| - k
  {
    if k == |ops| {
      assert ops[..k] == ops;
    } else {
      PrefixFold(ops, s, k);
      FailureSticks(ops, s, k + 1);
    }
  }

  /**
    The merged target is a common broadcast shape: every operand fits it,
    and every extent of the original target other than 1 is kept.
  */
  lemma {:induction false} FoldFits(ops: seq<Dense>, s: Shape)
    requires RanksAtMost(ops, |s|) && BroadcastFold(ops, s).Merged?
    ensures forall k :: 0 <= k < |ops| ==> Fits(ops[k].shape, BroadcastFold(ops, s).shape)
    ensures forall j :: 0 <= j < |s| && s[j] != 1 ==> BroadcastFold(ops, s).shape[j] == s[j]
  {
    if |ops| > 0 {
      var init := ops[..|ops| - 1];
      var last := ops[|ops| - 1];
      FoldFits(init, s);
      var sh := BroadcastFold(init, s).shape;
      var m := last.BroadcastShape(sh).value;
      forall k | 0 <= k < |ops| ensures Fits(ops[k].shape, m.shape) {
        if k < |ops| - 1 {
          assert init[k] == ops[k];
          FitsKept(ops[k].shape, sh, m.shape);
        }
      }
    }
  }

  /** Replacing only unit extents of a target keeps every shape that fitted it fitting. */
  lemma FitsKept(x: Shape, sh: Shape, sh': Shape)
    requires Fits(x, sh) && |sh'| == |sh|
    requires forall j :: 0 <= j < |sh| && sh[j] != 1 ==> sh'[j] == sh[j]
    ensures Fits(x, sh')
  {
  }

  /**
    The merged target is minimal: an axis differs from the original target
    only where that target was 1, and then it takes an extent some operand
    has on that axis.
  */
  lemma {:induction false} FoldMinimal(ops: seq<Dense>, s: Shape)
    requires RanksAtMost(ops, |s|) && BroadcastFold(ops, s).Merged?
    ensures forall j :: 0 <= j < |s| ==>
      var sh := BroadcastFold(ops, s).shape;
      sh[j] == s[j] || (s[j] == 1 && exists k :: 0 <= k < |ops| && Extent(ops[k].shape, |s|, j) == sh[j])
  {
    if |ops| > 0 {
      var init := ops[..|ops| - 1];
      var last := ops[|ops| - 1];
      FoldMinimal(init, s);
      var sh := BroadcastFold(init, s).shape;
      var m := last.BroadcastShape(sh).value;
      forall j | 0 <= j < |s|
        ensures m.shape[j] == s[j] || (s[j] == 1 && exists k :: 0 <= k < |ops| && Extent(ops[k].shape, |s|, j) == m.shape[j])
      {
        if m.shape[j] != s[j] {
          if sh[j] == 1 {
            assert m.shape[j] == Extent(last.shape, |s|, j);
            assert s[j] == 1 by {
              if s[j] != 1 {
                FoldFits(init, s);
              }
            }
          } else {
            assert m.shape[j] == sh[j];
            var k :| 0 <= k < |init| && Extent(init[k].shape, |s|, j) == sh[j];
            assert ops[k] == init[k];
          }
        }
      }
    }
  }

  /** A failed fold stopped at an operand that conflicts with the target merged from the operands before it. */
  lemma {:induction false} FoldFailure(ops: seq<Dense>, s: Shape)
    requires RanksAtMost(ops, |s|) && BroadcastFold(ops, s).Incompatible?
    ensures var r := BroadcastFold(ops, s);
      RanksAtMost(ops[..r.operand], |s|) &&
      BroadcastFold(ops[..r.operand], s).Merged? &&
      BroadcastFold(ops[..r.operand], s).shape == r.partial &&
      !Compatible(ops[r.operand].shape, r.partial)
  {
    var init := ops[..|ops| - 1];
    if BroadcastFold(init, s).Incompatible? {
      FoldFailure(init, s);
      var i := BroadcastFold(init, s).operand;
      assert init[..i] == ops[..i];
      assert init[i] == ops[i];
    } else {
      assert ops[..|ops| - 1] == init;
    }
  }

  /**
    From a target of ones, broadcasting succeeds exactly when no two
    operands hold different extents, neither of them 1, on an aligned axis.
  */
  lemma BroadcastSucceedsIff(ops: seq<Dense>, n: nat)
    requires RanksAtMost(ops, n)
    ensures BroadcastFold(ops, Ones(n)).Merged? <==>
      forall i, k :: 0 <= i < k < |ops| ==> !Conflict(ops[i].shape, ops[k].shape, n)
  {
    var s := Ones(n);
    var r := BroadcastFold(ops, s);
    if r.Merged? {
      FoldFits(ops, s);
      forall i, k | 0 <= i < k < |ops| ensures !Conflict(ops[i].shape, ops[k].shape, n) {
        assert Fits(ops[i].shape, r.shape) && Fits(ops[k].shape, r.shape);
      }
    } else {
      FoldFailure(ops, s);
      var k := r.operand;
      var init := ops[..k];
      FoldMinimal(init, s);
      var j :| 0 <= j < n && Extent(ops[k].shape, n, j) != 1 && r.partial[j] != 1 && Extent(ops[k].shape, n, j) != r.partial[j];
      var i :| 0 <= i < |init| && Extent(init[i].shape, n, j) == r.partial[j];
      assert init[i] == ops[i];
      assert Conflict(ops[i].shape, ops[k].shape, n);
    }
  }

  /** The cursors of a flat iterator positioned `n` elements past `cs`. */
  function Advance(cs: seq<Cursor>, n: nat): (r: seq<Cursor>)
    ensures |r| == |cs| && forall k :: 0 <= k < |cs| ==> r[k].pos == cs[k].pos + n
  {
    seq(|cs|, k requires 0 <= k < |cs| => Cursor(cs[k].pos + n))
  }

  /** Each operand's `cbegin()`. */
  function FlatBegin(ops: seq<Dense>): (r: seq<Cursor>)
    ensures |r| == |ops| && forall k :: 0 <= k < |ops| ==> r[k].pos == 0
  {
    seq(|ops|, _ => Cursor(0))
  }

  /** Each operand's `cend()`. */
  function FlatEnd(ops: seq<Dense>): (r: seq<Cursor>)
    ensures |r| == |ops| && forall k :: 0 <= k < |ops| ==> r[k].pos == |ops[k].data|
  {
    seq(|ops|, k requires 0 <= k < |ops| => Cursor(|ops[k].data|))
  }

  /**
    Advanced `n` times from `begin()`, a node's flat iterator equals `end()`
    exactly when every operand holds `n` elements: flat iteration over
    operands of different sizes never meets `end()`.
  */
  lemma FlatEndReachedIff(ops: seq<Dense>, n: nat)
    ensures Advance(FlatBegin(ops), n) == FlatEnd(ops) <==> forall k :: 0 <= k < |ops| ==> |ops[k].data| == n
  {
    if forall k :: 0 <= k < |ops| ==> |ops[k].data| == n {
      assert forall k :: 0 <= k < |ops| ==> Advance(FlatBegin(ops), n)[k] == FlatEnd(ops)[k];
    } else {
      var k :| 0 <= k < |ops| && |ops[k].data| != n;
      assert Advance(FlatBegin(ops), n)[k] != FlatEnd(ops)[k];
    }
  }

  /** Every child stepper stands on target index `idx`. */
  ghost predicate OverAll(cs: seq<Stepper>, idx: seq<nat>)
  {
    forall k :: 0 <= k < |cs| ==> cs[k].Over(idx)
  }

  /** Children that all walk targets of rank above `dim`. */
  predicate Walks(cs: seq<Stepper>, dim: nat)
  {
    forall k :: 0 <= k < |cs| ==> dim < cs[k].TargetRank()
  }

  /** `step(dim, n)` applied to every child. */
  function StepAll(cs: seq<Stepper>, dim: nat, n: nat): (r: seq<Stepper>)
    requires Walks(cs, dim)
    ensures |r| == |cs| && forall k :: 0 <= k < |cs| ==> r[k] == cs[k].Step(dim, n)
  {
    seq(|cs|, k requires 0 <= k < |cs| => cs[k].Step(dim, n))
  }

  /** `step_back(dim, n)` applied to every child. */
  function StepBackAll(cs: seq<Stepper>, dim: nat, n: nat): (r: seq<Stepper>)
    requires Walks(cs, dim)
    ensures |r| == |cs| && forall k :: 0 <= k < |cs| ==> r[k] == cs[k].StepBack(dim, n)
  {
    seq(|cs|, k requires 0 <= k < |cs| => cs[k].StepBack(dim, n))
  }

  /** `reset(dim)` applied to every child. */
  function ResetAll(cs: seq<Stepper>, dim: nat): (r: seq<Stepper>)
    requires Walks(cs, dim)
    ensures |r| == |cs| && forall k :: 0 <= k < |cs| ==> r[k] == cs[k].Reset(dim)
  {
    seq(|cs|, k requires 0 <= k < |cs| => cs[k].Reset(dim))
  }

  /** `to_end()` applied to every child. */
  function ToEndAll(cs: seq<Stepper>): (r: seq<Stepper>)
    ensures |r| == |cs| && forall k :: 0 <= k < |cs| ==> r[k] == cs[k].ToEnd()
  {
    seq(|cs|, k requires 0 <= k < |cs| => cs[k].ToEnd())
  }

  /** Each operand's `stepper_begin(target)`. */
  function BeginAll(ops: seq<Dense>, target: Shape): (r: seq<Stepper>)
    requires RanksAtMost(ops, |target|)
    ensures |r| == |ops| && forall k :: 0 <= k < |ops| ==> r[k] == StepperBegin(ops[k].shape, target)
  {
    seq(|ops|, k requires 0 <= k < |ops| => StepperBegin(ops[k].shape, target))
  }

  /** Each operand's `stepper_end(target)`. */
  function EndAll(ops: seq<Dense>, target: Shape): (r: seq<Stepper>)
    requires RanksAtMost(ops, |target|)
    ensures |r| == |ops| && forall k :: 0 <= k < |ops| ==> r[k] == StepperEnd(ops[k].shape, target)
  {
    seq(|ops|, k requires 0 <= k < |ops| => StepperEnd(ops[k].shape, target))
  }

  /** The children of a composite stepper over `ops` for a target of rank `n`. */
  ghost predicate ChildrenOf(cs: seq<Stepper>, ops: seq<Dense>, n: nat)
  {
    |cs| == |ops| &&
    forall k :: 0 <= k < |cs| ==> cs[k].shape == ops[k].shape && cs[k].TargetRank() == n
  }

  /** Every cursor stands on its operand's storage position of multi-index `idx`. */
  ghost predicate CursorsAt(cs: seq<Cursor>, ops: seq<Dense>, idx: seq<nat>)
  {
    |cs| == |ops| &&
    forall k :: 0 <= k < |ops| ==>
      |ops[k].shape| <= |idx| && cs[k].pos == Offset(ops[k].shape, Trailing(idx, |ops[k].shape|))
  }

  /** What the cursors dereference to, in operand order. */
  function CursorValues(ops: seq<Dense>, cs: seq<Cursor>): (vs: seq<int>)
    requires |cs| == |ops| && forall k :: 0 <= k < |cs| ==> cs[k].pos < |ops[k].data|
    ensures |vs| == |cs| && forall k :: 0 <= k < |cs| ==> vs[k] == ops[k].data[cs[k].pos]
  {
    seq(|cs|, k requires 0 <= k < |cs| => ops[k].data[cs[k].pos])
  }

  /** What the child steppers dereference to, in operand order. */
  function StepperValues(ops: seq<Dense>, cs: seq<Stepper>): (vs: seq<int>)
    requires |cs| == |ops| && forall k :: 0 <= k < |cs| ==> 0 <= cs[k].ptr < |ops[k].data|
    ensures |vs| == |cs| && forall k :: 0 <= k < |cs| ==> vs[k] == ops[k].data[cs[k].ptr]
  {
    seq(|cs|, k requires 0 <= k < |cs| => ops[k].data[cs[k].ptr])
  }

  /** The begin steppers all stand on the all-zero index of the target. */
  lemma {:induction false} BeginAllOverZeros(ops: seq<Dense>, target: Shape)
    requires RanksAtMost(ops, |target|)
    ensures OverAll(BeginAll(ops, target), seq(|target|, _ => 0))
  {
    var zeros: seq<nat> := seq(|target|, _ => 0);
    forall k | 0 <= k < |ops| ensures BeginAll(ops, target)[k].Over(zeros) {
      BeginOverZeros(ops[k].shape, target, zeros);
    }
  }

  /** Stepping every child along `dim` moves the composite to the next index along `dim`. */
  lemma {:induction false} StepAllMoves(cs: seq<Stepper>, idx: seq<nat>, dim: nat, n: nat)
    requires OverAll(cs, idx) && dim < |idx| && Walks(cs, dim)
    ensures OverAll(StepAll(cs, dim, n), idx[dim := idx[dim] + n])
  {
    forall k | 0 <= k < |cs| ensures StepAll(cs, dim, n)[k].Over(idx[dim := idx[dim] + n]) {
      StepMoves(cs[k], idx, dim, n);
    }
  }

  /** Stepping every child back along `dim` moves the composite back along `dim`. */
  lemma {:induction false} StepBackAllMoves(cs: seq<Stepper>, idx: seq<nat>, dim: nat, n: nat)
    requires OverAll(cs, idx) && dim < |idx| && n <= idx[dim] && Walks(cs, dim)
    ensures OverAll(StepBackAll(cs, dim, n), idx[dim := idx[dim] - n])
  {
    forall k | 0 <= k < |cs| ensures StepBackAll(cs, dim, n)[k].Over(idx[dim := idx[dim] - n]) {
      StepBackMoves(cs[k], idx, dim, n);
    }
  }

  /**
    On the last index of axis `dim` of a target every child fits, resetting
    every child brings the composite back to index 0 of that axis.
  */
  lemma {:induction false} ResetAllRewinds(cs: seq<Stepper>, target: Shape, idx: seq<nat>, dim: nat)
    requires OverAll(cs, idx) && |idx| == |target| && dim < |idx| && idx[dim] + 1 == target[dim]
    requires forall k :: 0 <= k < |cs| ==> Fits(cs[k].shape, target)
    ensures Walks(cs, dim)
    ensures OverAll(ResetAll(cs, dim), idx[dim := 0])
  {
    forall k | 0 <= k < |cs| ensures ResetAll(cs, dim)[k].Over(idx[dim := 0]) {
      var st := cs[k];
      if st.offset <= dim {
        assert Extent(st.shape, |target|, dim) == st.shape[dim - st.offset];
      }
      ResetRewinds(st, idx, dim);
    }
  }

  /** `to_end()` on every child gives exactly the children of `stepper_end(target)`. */
  lemma ToEndAllIsEnd(cs: seq<Stepper>, ops: seq<Dense>, target: Shape)
    requires ChildrenOf(cs, ops, |target|) && RanksAtMost(ops, |target|)
    ensures ToEndAll(cs) == EndAll(ops, target)
  {
    assert forall k :: 0 <= k < |cs| ==> ToEndAll(cs)[k] == EndAll(ops, target)[k];
  }

  /** The binary `+` used as a node's functor. */
  function Plus(vs: seq<int>): int
  {
    if |vs| == 2 then vs[0] + vs[1] else 0
  }

  /**
    A lazy element-wise function node. `ops` and `f` are fixed at
    construction; `shapeCache` and `shapeComputed` are the memo that the
    first `Shape()` call fills.
  */
  class XFunction {
    const ops: seq<Dense>
    const f: seq<int> -> int
    var shapeCache: Shape
    var shapeComputed: bool

    /** The broadcast of all operands into a target of `dimension()` ones. */
    function OperandBroadcast(): Broadcast
    {
      BroadcastFold(ops, Ones(ComputeDimension(ops)))
    }

    ghost predicate Valid()
      reads this
    {
      (forall k :: 0 <= k < |ops| ==> ops[k].Valid()) &&
      (shapeComputed ==> OperandBroadcast().Merged? && shapeCache == OperandBroadcast().shape)
    }

    /** Construction stores the functor and the operands and computes nothing. */
    constructor (f: seq<int> -> int, ops: seq<Dense>)
      requires forall k :: 0 <= k < |ops| ==> ops[k].Valid()
      ensures Valid() && this.f == f && this.ops == ops
      ensures !shapeComputed && shapeCache == []
    {
      this.f := f;
      this.ops := ops;
      shapeCache := [];
      shapeComputed := false;
    }

    /** `dimension()`: the cached rank once the shape is known, `compute_dimension()` before. */
    function Dimension(): (r: nat)
      reads this
      requires Valid()
      ensures r == ComputeDimension(ops)
      ensures forall k :: 0 <= k < |ops| ==> ops[k].Rank() <= r
    {
      if shapeComputed then |shapeCache| else ComputeDimension(ops)
    }

    /** The memo after a `shape()` call that found it computed (`wasComputed`) or not. */
    ghost predicate ShapeCalled(wasComputed: bool, wasCache: Shape)
      reads this
    {
      if wasComputed then shapeComputed && shapeCache == wasCache
      else match OperandBroadcast()
        case Merged(s, _) => shapeComputed && shapeCache == s
        case Incompatible(_, p) => !shapeComputed && shapeCache == p
    }

    /**
      `shape()`: the first call fills the memo with `dimension()` ones,
      broadcasts every operand into it and marks it computed; later calls
      return the memo unchanged. A broadcast error leaves the memo marked
      not computed.
    */
    method Shape() returns (r: Result<Shape>)
      requires Valid()
      modifies this
      ensures Valid() && ShapeCalled(old(shapeComputed), old(shapeCache))
      ensures r.Ok? <==> shapeComputed
      ensures r.Ok? ==> r.value == shapeCache
      ensures r.BroadcastError? ==> OperandBroadcast().Incompatible? && r.operand == OperandBroadcast().operand
    {
      if !shapeComputed {
        shapeCache := Ones(ComputeDimension(ops));
        var b, _ := BroadcastShape(shapeCache);
        match b
        case Incompatible(k, p) =>
          shapeCache := p;
          return BroadcastError(k);
        case Merged(s, _) =>
          shapeCache := s;
          shapeComputed := true;
      }
      r := Ok(shapeCache);
    }

    /** `size()`: the number of elements of `shape()`. */
    method Size() returns (r: Result<nat>)
      requires Valid()
      modifies this
      ensures Valid() && ShapeCalled(old(shapeComputed), old(shapeCache))
      ensures r.Ok? <==> shapeComputed
      ensures r.Ok? ==> r.value == Product(shapeCache)
      ensures r.BroadcastError? ==> OperandBroadcast().Incompatible? && r.operand == OperandBroadcast().operand
    {
      var s := Shape();
      match s
      case Ok(sh) => r := Ok(Product(sh));
      case BroadcastError(k) => r := BroadcastError(k);
    }

    /** `layout()`: the operands' common layout, or Dynamic when they disagree. */
    function Layout(): (r: Layout)
      ensures |ops| > 0 && (forall k :: 0 <= k < |ops| ==> ops[k].layout == ops[0].layout) ==> r == ops[0].layout
      ensures |ops| == 0 || (exists k :: 0 <= k < |ops| && ops[k].layout != ops[0].layout) ==> r == Dynamic
    {
      var ls := seq(|ops|, k requires 0 <= k < |ops| => ops[k].layout);
      assert forall k :: 0 <= k < |ops| ==> ls[k] == ops[k].layout;
      ComputeLayout(ls)
    }

    /** Every operand is a valid container that accepts `idx`. */
    predicate Addressable(idx: seq<nat>)
    {
      forall k :: 0 <= k < |ops| ==> ops[k].Valid() && Accepts(ops[k].shape, idx)
    }

    /** The operands' elements at `idx`, in operand order. */
    function OperandValues(idx: seq<nat>): (vs: seq<int>)
      requires Addressable(idx)
      ensures |vs| == |ops| && forall k :: 0 <= k < |ops| ==> vs[k] == ops[k].At(idx)
    {
      seq(|ops|, k requires 0 <= k < |ops| => ops[k].At(idx))
    }

    /**
      `operator()(i...)`: the functor applied to every operand's element at
      the same indices. Each operand drops the indices beyond its rank from
      the front, so any extra leading indices give the same element.
    */
    function Call(idx: seq<nat>): (r: int)
      requires Addressable(idx)
      ensures forall pre: seq<nat> :: Addressable(pre + idx) && f(OperandValues(pre + idx)) == r
    {
      LeadingIndicesIgnored(this, idx);
      f(OperandValues(idx))
    }

    /** `element(first, last)`: the functor applied to every operand's `element` over the same range. */
    function Element(idx: seq<nat>): (r: int)
      requires Addressable(idx)
      ensures r == Call(idx)
    {
      f(seq(|ops|, k requires 0 <= k < |ops| => ops[k].At(idx)))
    }

    /** `operator[](xindex)`: `element` over the whole index. */
    function Index(idx: seq<nat>): (r: int)
      requires Addressable(idx)
      ensures r == f(OperandValues(idx))
    {
      Element(idx)
    }

    /** `operator[](i)`: `operator()` with the single index `i`. */
    function IndexFlat(i: nat): (r: int)
      requires Addressable([i])
      ensures r == f(OperandValues([i]))
    {
      Call([i])
    }

    /**
      `broadcast_shape(s)`: folds every operand's `broadcast_shape` into `s`,
      asking each operand even after an earlier one answered false; the
      answer is the conjunction of theirs.
    */
    method BroadcastShape(s: Shape) returns (r: Broadcast, trivial: bool)
      requires RanksAtMost(ops, |s|)
      ensures r == BroadcastFold(ops, s)
      ensures r.Merged? ==> |r.answers| == |ops|
      ensures r.Merged? ==> (trivial <==> forall i :: 0 <= i < |r.answers| ==> r.answers[i])
      ensures r.Incompatible? ==> !trivial
    {
      var sh := s;
      var answers: seq<bool> := [];
      trivial := true;
      var k := 0;
      while k < |ops|
        invariant 0 <= k <= |ops|
        invariant RanksAtMost(ops[..k], |s|)
        invariant BroadcastFold(ops[..k], s) == Merged(sh, answers)
        invariant trivial <==> forall i :: 0 <= i < |answers| ==> answers[i]
      {
        PrefixFold(ops, s, k);
        var m := ops[k].BroadcastShape(sh);
        if m.None? {
          FailureSticks(ops, s, k + 1);
          return Incompatible(k, sh), false;
        }
        // the operand is asked first, so it is visited even when `trivial` is already false
        ghost var asked := answers;
        trivial := m.value.trivial && trivial;
        answers := answers + [m.value.trivial];
        assert forall i :: 0 <= i < |asked| ==> answers[i] == asked[i];
        assert answers[|asked|] == m.value.trivial;
        sh := m.value.shape;
        k := k + 1;
      }
      assert ops[..|ops|] == ops;
      r := Merged(sh, answers);
    }

    /**
      `is_trivial_broadcast(strides)`: the conjunction of the operands'
      answers, but an operand is asked only while every earlier one answered
      true. `queries` counts the operands asked.
    */
    method IsTrivialBroadcast(strides: seq<nat>) returns (r: bool, queries: nat)
      ensures r <==> forall k :: 0 <= k < |ops| ==> ops[k].IsTrivialBroadcast(strides)
      ensures queries <= |ops|
      ensures forall k :: 0 <= k && k + 1 < queries ==> ops[k].IsTrivialBroadcast(strides)
      ensures r ==> queries == |ops|
      ensures !r ==> 0 < queries && !ops[queries - 1].IsTrivialBroadcast(strides)
    {
      r := true;
      queries := 0;
      var k := 0;
      while k < |ops|
        invariant 0 <= queries <= k <= |ops|
        invariant r <==> forall i :: 0 <= i < k ==> ops[i].IsTrivialBroadcast(strides)
        invariant forall i :: 0 <= i && i + 1 < queries ==> ops[i].IsTrivialBroadcast(strides)
        invariant r ==> queries == k
        invariant !r ==> 0 < queries && !ops[queries - 1].IsTrivialBroadcast(strides)
      {
        if r {
          queries := queries + 1;
          r := ops[k].IsTrivialBroadcast(strides);
        }
        k := k + 1;
      }
    }

    /** `begin()`: an iterator over every operand's `cbegin()`. */
    method Begin() returns (it: XFunctionIterator)
      ensures fresh(it) && it.Valid() && it.node == this && it.children == FlatBegin(ops)
    {
      it := new XFunctionIterator(this, FlatBegin(ops));
    }

    /** `end()`: an iterator over every operand's `cend()`. */
    method End() returns (it: XFunctionIterator)
      ensures fresh(it) && it.Valid() && it.node == this && it.children == FlatEnd(ops)
    {
      it := new XFunctionIterator(this, FlatEnd(ops));
    }

    /** `stepper_begin(target)`: a stepper over every operand's `stepper_begin(target)`. */
    method StepperBegin(target: Shape) returns (st: XFunctionStepper)
      requires RanksAtMost(ops, |target|)
      ensures fresh(st) && st.Valid() && st.node == this && st.rank == |target|
      ensures st.children == BeginAll(ops, target)
    {
      st := new XFunctionStepper(this, |target|, BeginAll(ops, target));
    }

    /** `stepper_end(target)`: a stepper over every operand's `stepper_end(target)`. */
    method StepperEnd(target: Shape) returns (st: XFunctionStepper)
      requires RanksAtMost(ops, |target|)
      ensures fresh(st) && st.Valid() && st.node == this && st.rank == |target|
      ensures st.children == EndAll(ops, target)
    {
      st := new XFunctionStepper(this, |target|, EndAll(ops, target));
    }
  }

  /** A flat iterator of a node: the owning node and one operand cursor per operand. */
  class XFunctionIterator {
    const node: XFunction
    var children: seq<Cursor>

    ghost predicate Valid()
      reads this
    {
      |children| == |node.ops|
    }

    constructor (node: XFunction, children: seq<Cursor>)
      requires |children| == |node.ops|
      ensures Valid() && this.node == node && this.children == children
    {
      this.node := node;
      this.children := children;
    }

    /** Prefix `++`: every child cursor moves one element forward. */
    method Increment()
      requires Valid()
      modifies this
      ensures Valid() && children == Advance(old(children), 1)
    {
      ghost var before := children;
      var k := 0;
      while k < |children|
        invariant 0 <= k <= |children| == |before|
        invariant forall i :: 0 <= i < k ==> children[i] == before[i].Next()
        invariant forall i :: k <= i < |children| ==> children[i] == before[i]
      {
        children := children[k := children[k].Next()];
        k := k + 1;
      }
    }

    /** Postfix `++`: moves like prefix `++` and returns a copy of the iterator as it was. */
    method PostIncrement() returns (prev: XFunctionIterator)
      requires Valid()
      modifies this
      ensures Valid() && children == Advance(old(children), 1)
      ensures fresh(prev) && prev.Valid() && prev.node == node && prev.children == old(children)
    {
      prev := new XFunctionIterator(node, children);
      Increment();
    }

    /** Every child cursor stands on an element of its operand. */
    predicate Dereferenceable()
      reads this
    {
      |children| == |node.ops| &&
      forall k :: 0 <= k < |children| ==> children[k].pos < |node.ops[k].data|
    }

    /**
      `operator*`: the node's functor applied to the dereferenced children,
      in operand order. When every child stands on its operand's storage
      position of one multi-index, that is the node's element there.
    */
    function Deref(): (r: int)
      reads this
      requires Dereferenceable()
      ensures forall idx :: CursorsAt(children, node.ops, idx) && node.Addressable(idx) ==> r == node.Call(idx)
    {
      CursorValuesRead(node, children);
      node.f(CursorValues(node.ops, children))
    }

    /** `equal`: the same owning node and pairwise-equal children. */
    function Equal(rhs: XFunctionIterator): (r: bool)
      reads this, rhs
      ensures r <==> node == rhs.node && |children| == |rhs.children| &&
                     forall k :: 0 <= k < |children| ==> children[k] == rhs.children[k]
    {
      node == rhs.node && children == rhs.children
    }
  }

  /** A stepper of a node: the owning node and one operand stepper per operand. */
  class XFunctionStepper {
    const node: XFunction
    ghost const rank: nat
    var children: seq<Stepper>

    ghost predicate Valid()
      reads this
    {
      ChildrenOf(children, node.ops, rank)
    }

    constructor (node: XFunction, ghost rank: nat, children: seq<Stepper>)
      requires ChildrenOf(children, node.ops, rank)
      ensures Valid() && this.node == node && this.rank == rank && this.children == children
    {
      this.node := node;
      this.rank := rank;
      this.children := children;
    }

    /** `for_each`: the same move applied to every child, in operand order. */
    method ForEach(m: Move)
      requires Valid() && Applies(m, rank)
      modifies this
      ensures Valid()
      ensures |children| == |old(children)|
      ensures forall k :: 0 <= k < |children| ==> children[k] == Apply(old(children)[k], m)
    {
      ghost var before := children;
      var k := 0;
      while k < |children|
        invariant 0 <= k <= |children| == |before|
        invariant forall i :: 0 <= i < k ==> children[i] == Apply(before[i], m)
        invariant forall i :: k <= i < |children| ==> children[i] == before[i]
        invariant ChildrenOf(children, node.ops, rank)
      {
        children := children[k := Apply(children[k], m)];
        k := k + 1;
      }
    }

    /** `step(dim, n)` on every child. */
    method Step(dim: nat, n: nat)
      requires Valid() && dim < rank
      modifies this
      ensures Valid() && children == StepAll(old(children), dim, n)
    {
      ForEach(StepBy(dim, n));
    }

    /** `step_back(dim, n)` on every child. */
    method StepBack(dim: nat, n: nat)
      requires Valid() && dim < rank
      modifies this
      ensures Valid() && children == StepBackAll(old(children), dim, n)
    {
      ForEach(StepBackBy(dim, n));
    }

    /** `reset(dim)` on every child. */
    method Reset(dim: nat)
      requires Valid() && dim < rank
      modifies this
      ensures Valid() && children == ResetAll(old(children), dim)
    {
      ForEach(ResetAxis(dim));
    }

    /** `to_end()` on every child. */
    method ToEnd()
      requires Valid()
      modifies this
      ensures Valid() && children == ToEndAll(old(children))
    {
      ForEach(ToEndMove);
    }

    /** Every child stands on an element of its operand. */
    predicate Dereferenceable()
      reads this
    {
      |children| == |node.ops| &&
      forall k :: 0 <= k < |children| ==> 0 <= children[k].ptr < |node.ops[k].data|
    }

    /**
      `operator*`: the node's functor applied to the dereferenced children,
      in operand order. When every child stands on one target index, that
      is the node's element there.
    */
    function Deref(): (r: int)
      reads this
      requires Dereferenceable()
      ensures Valid() ==> forall idx :: OverAll(children, idx) && node.Addressable(idx) ==> r == node.Call(idx)
    {
      StepperValuesRead(node, children);
      node.f(StepperValues(node.ops, children))
    }

    /** `equal`: the same owning node and pairwise-equal children. */
    function Equal(rhs: XFunctionStepper): (r: bool)
      reads this, rhs
      ensures r <==> node == rhs.node && |children| == |rhs.children| &&
                     forall k :: 0 <= k < |children| ==> children[k] == rhs.children[k]
    {
      node == rhs.node && children == rhs.children
    }
  }

  /** Operands drop excess leading indices, so extra leading indices reach the same elements. */
  lemma LeadingIndicesIgnored(node: XFunction, idx: seq<nat>)
    requires node.Addressable(idx)
    ensures forall pre: seq<nat> :: node.Addressable(pre + idx) && node.OperandValues(pre + idx) == node.OperandValues(idx)
  {
    forall pre: seq<nat>
      ensures node.Addressable(pre + idx) && node.OperandValues(pre + idx) == node.OperandValues(idx)
    {
      forall k | 0 <= k < |node.ops|
        ensures Trailing(pre + idx, |node.ops[k].shape|) == Trailing(idx, |node.ops[k].shape|)
      {
        var n := |node.ops[k].shape|;
        assert (pre + idx)[|pre + idx| - n..] == idx[|idx| - n..];
      }
    }
  }

  /** Cursors standing on the storage positions of an accepted index read the operands' elements there. */
  lemma CursorValuesRead(node: XFunction, cs: seq<Cursor>)
    requires |cs| == |node.ops| && forall k :: 0 <= k < |cs| ==> cs[k].pos < |node.ops[k].data|
    ensures forall idx :: CursorsAt(cs, node.ops, idx) && node.Addressable(idx) ==>
      CursorValues(node.ops, cs) == node.OperandValues(idx)
  {
    forall idx | CursorsAt(cs, node.ops, idx) && node.Addressable(idx)
      ensures CursorValues(node.ops, cs) == node.OperandValues(idx)
    {
      assert forall k :: 0 <= k < |cs| ==> CursorValues(node.ops, cs)[k] == node.OperandValues(idx)[k];
    }
  }

  /** Child steppers standing on an accepted target index point into storage, at the operands' elements there. */
  lemma StepperValuesAt(node: XFunction, cs: seq<Stepper>, idx: seq<nat>)
    requires |cs| == |node.ops| && OverAll(cs, idx) && node.Addressable(idx)
    requires forall k :: 0 <= k < |cs| ==> cs[k].shape == node.ops[k].shape
    ensures forall k :: 0 <= k < |cs| ==> 0 <= cs[k].ptr < |node.ops[k].data|
    ensures StepperValues(node.ops, cs) == node.OperandValues(idx)
  {
    var ops := node.ops;
    forall k | 0 <= k < |ops|
      ensures 0 <= cs[k].ptr < |ops[k].data| && ops[k].data[cs[k].ptr] == ops[k].At(idx)
    {
      assert idx[cs[k].offset..] == Trailing(idx, |ops[k].shape|);
      OffsetInRange(ops[k].shape, Trailing(idx, |ops[k].shape|));
    }
    assert forall k :: 0 <= k < |cs| ==> StepperValues(ops, cs)[k] == node.OperandValues(idx)[k];
  }

  /** Child steppers of the operands' shapes that stand on one accepted target index read the operands' elements there. */
  lemma StepperValuesRead(node: XFunction, cs: seq<Stepper>)
    requires |cs| == |node.ops| && forall k :: 0 <= k < |cs| ==> 0 <= cs[k].ptr < |node.ops[k].data|
    ensures (forall k :: 0 <= k < |cs| ==> cs[k].shape == node.ops[k].shape) ==>
      forall idx :: OverAll(cs, idx) && node.Addressable(idx) ==> StepperValues(node.ops, cs) == node.OperandValues(idx)
  {
    forall idx | (forall k :: 0 <= k < |cs| ==> cs[k].shape == node.ops[k].shape) && OverAll(cs, idx) && node.Addressable(idx)
      ensures StepperValues(node.ops, cs) == node.OperandValues(idx)
    {
      assert forall k :: 0 <= k < |cs| ==> StepperValues(node.ops, cs)[k] == node.OperandValues(idx)[k] by {
        forall k | 0 <= k < |cs| ensures StepperValues(node.ops, cs)[k] == node.OperandValues(idx)[k] {
          assert idx[cs[k].offset..] == Trailing(idx, |node.ops[k].shape|);
        }
      }
    }
  }

  /**
    A stepper whose children stand on an index the node accepts
    dereferences to the node's element at that index: stepping and
    dereferencing computes exactly what `operator()` computes.
  */
  lemma DerefAtIndex(st: XFunctionStepper, idx: seq<nat>)
    requires st.Valid() && OverAll(st.children, idx) && st.node.Addressable(idx)
    ensures st.Dereferenceable() && st.Deref() == st.node.Call(idx)
  {
    StepperValuesAt(st.node, st.children, idx);
  }

  /** Every index inside the memoised shape is accepted by every operand. */
  lemma ShapeIndicesAddressable(node: XFunction, idx: seq<nat>)
    requires node.Valid() && node.shapeComputed && InBounds(node.shapeCache, idx)
    ensures node.Addressable(idx)
  {
    var s := Ones(ComputeDimension(node.ops));
    FoldFits(node.ops, s);
    forall k | 0 <= k < |node.ops| ensures Accepts(node.ops[k].shape, idx) {
      FitsAccepts(node.ops[k].shape, node.shapeCache, idx);
    }
  }

  /**
    For operands of one common shape, flat iteration visits the elements in
    the row-major order of that shape: an iterator `n` increments past
    `begin()` dereferences to the node's element at the `n`-th index.
  */
  lemma FlatOrderIsRowMajor(it: XFunctionIterator, s: Shape, n: nat)
    requires it.Valid() && it.children == Advance(FlatBegin(it.node.ops), n)
    requires forall k :: 0 <= k < |it.node.ops| ==> it.node.ops[k].Valid() && it.node.ops[k].shape == s
    requires n < Product(s)
    ensures it.node.Addressable(Unravel(s, n))
    ensures it.Dereferenceable() && it.Deref() == it.node.Call(Unravel(s, n))
  {
    var idx := Unravel(s, n);
    UnravelInBounds(s, n);
    UnravelRoundTrip(s, n);
    assert Trailing(idx, |s|) == idx;
    assert CursorsAt(it.children, it.node.ops, idx);
  }

  /** The operands of the `a + b` scenario: a 3x4 matrix of 1..12 and a row of 1..4. */
  function MatrixA(): Dense
  {
    Dense([3, 4], [1, 2, 3, 4, 5, 6, 7, 8, 9, 10, 11, 12], RowMajor)
  }

  function RowB(): Dense
  {
    Dense([4], [1, 2, 3, 4], RowMajor)
  }

  /**
    `a + b` with shapes (3, 4) and (4): the broadcast shape is (3, 4), and
    the row operand is not trivially broadcast.
  */
  lemma PlusShape(node: XFunction)
    requires node.ops == [MatrixA(), RowB()]
    ensures node.OperandBroadcast() == Merged([3, 4], [true, false])
  {
    var a, b := MatrixA(), RowB();
    assert [a, b][..1] == [a];
    assert [a, b][..1][..0] == [];
    assert ComputeDimension([a, b]) == 2;
    assert Ones(2) == [1, 1];
    assert BroadcastInto([3, 4], [1, 1]).value.shape == [3, 4];
    assert BroadcastInto([4], [3, 4]).value.shape == [3, 4];
    assert BroadcastFold([a], [1, 1]) == Merged([3, 4], [true]);
  }

  /** Row 1, columns 1 to 3 of `a + b` hold 8, 10 and 12. */
  lemma PlusRowOne(node: XFunction, j: nat)
    requires node.ops == [MatrixA(), RowB()] && node.f == Plus && 1 <= j < 4
    ensures node.Addressable([1, j]) && node.Call([1, j]) == 6 + 2 * j
  {
    var a, b := MatrixA(), RowB();
    OperandsAtRowOne(j);
    assert node.OperandValues([1, j]) == [a.At([1, j]), b.At([1, j])];
  }

  /** The two operands' elements at (1, j): the matrix holds 5 + j and the row j + 1. */
  lemma OperandsAtRowOne(j: nat)
    requires 1 <= j < 4
    ensures MatrixA().Valid() && Accepts([3, 4], [1, j]) && MatrixA().At([1, j]) == 5 + j
    ensures RowB().Valid() && Accepts([4], [1, j]) && RowB().At([1, j]) == j + 1
  {
    MatrixAt(j);
    RowAt(j);
  }

  lemma MatrixAt(j: nat)
    requires 1 <= j < 4
    ensures MatrixA().Valid() && Accepts([3, 4], [1, j]) && MatrixA().At([1, j]) == 5 + j
  {
    var a := MatrixA();
    assert Product([3, 4]) == 12 by {
      assert [3, 4][1..] == [4];
      assert Product([4]) == 4;
    }
    assert Trailing([1, j], 2) == [1, j];
    assert Offset([3, 4], [1, j]) == 4 + j by {
      assert [3, 4][1..] == [4] && [1, j][1..] == [j];
      assert Stride([3, 4], 0) == 4;
      OffsetOfSingle(4, j);
    }
    assert a.At([1, j]) == a.data[4 + j];
    if j == 1 {
      assert a.data[5] == 6;
    } else if j == 2 {
      assert a.data[6] == 7;
    } else {
      assert a.data[7] == 8;
    }
  }

  lemma RowAt(j: nat)
    requires 1 <= j < 4
    ensures RowB().Valid() && Accepts([4], [1, j]) && RowB().At([1, j]) == j + 1
  {
    assert Product([4]) == 4;
    assert Trailing([1, j], 1) == [j];
    OffsetOfSingle(4, j);
  }

  lemma OffsetOfSingle(m: nat, j: nat)
    requires 1 < m
    ensures Offset([m], [j]) == j
  {
    assert [m][1..] == [] && [j][1..] == [];
    assert Stride([m], 0) == 1;
  }

  /**
    A node with no operand has rank 0: its memoised shape is the empty
    shape, so `shape()` succeeds with it and the node holds one element.
  */
  lemma NoOperands(node: XFunction)
    requires node.Valid() && node.ops == []
    ensures node.Dimension() == 0
    ensures node.OperandBroadcast() == Merged([], [])
    ensures node.shapeComputed ==> node.shapeCache == [] && Product(node.shapeCache) == 1
  {
    assert ComputeDimension(node.ops) == 0;
    assert Ones(0) == [];
  }
}
