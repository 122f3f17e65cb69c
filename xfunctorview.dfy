/**
  The writable projection view (`xfunctorview`) with its iterator and
  stepper.

  A view holds a reference to one operand and a functor that projects each
  operand element to one of its components. Reads apply the functor to the
  operand's element; writes go through the functor's reference into the
  operand's storage and change only the projected component. Here the
  operand is a dense container of complex-like pairs and the functor picks
  the real or the imaginary part.
*/
module FunctorView {
  import opened Shapes
  import opened Containers

  /** An operand element with two components, like a complex number. */
  datatype Pair = Pair(re: int, im: int)

  /** The projection functor: which component of an element the view exposes. */
  datatype Projection = RealPart | ImagPart
  {
    /** The projected component: what `functor(x)` reads. */
    function Get(p: Pair): int
    {
      if this == RealPart then p.re else p.im
    }

    /** The component the functor does not expose. */
    function Rest(p: Pair): int
    {
      if this == RealPart then p.im else p.re
    }

    /**
      An assignment through the reference `functor(x)` returns: the
      projected component becomes `v` and the other one is kept.
    */
    function Put(p: Pair, v: int): (r: Pair)
      ensures Get(r) == v && Rest(r) == Rest(p)
      ensures Get(p) == v ==> r == p
    {
      if this == RealPart then p.(re := v) else p.(im := v)
    }
  }

  /** The operand: a row-major container of pairs whose storage a view writes through. */
  class PairArray {
    const shape: Shape
    const layout: Layout
    const data: array<Pair>

    predicate Valid()
    {
      data.Length == Product(shape)
    }

    constructor (shape: Shape, layout: Layout, init: seq<Pair>)
      requires |init| == Product(shape)
      ensures Valid() && this.shape == shape && this.layout == layout
      ensures fresh(data) && data[..] == init
    {
      this.shape := shape;
      this.layout := layout;
      data := new Pair[|init|](i requires 0 <= i < |init| => init[i]);
    }

    /** The storage position the operand's element access `e(i...)` reaches. */
    function Position(idx: seq<nat>): (q: nat)
      requires Valid() && Accepts(shape, idx)
      ensures q < data.Length
    {
      OffsetInRange(shape, Trailing(idx, |shape|));
      Offset(shape, Trailing(idx, |shape|))
    }

    /** The operand's element at `idx`. */
    function At(idx: seq<nat>): Pair
      reads data
      requires Valid() && Accepts(shape, idx)
    {
      data[Position(idx)]
    }
  }

  /**
    An expression's value at flat position `i` of a row-major traversal of
    `s`, once broadcast to `s`.
  */
  function BroadcastAt(rhs: Dense, s: Shape, i: nat): int
    requires rhs.Valid() && Fits(rhs.shape, s) && i < Product(s)
  {
    UnravelInBounds(s, i);
    FitsAccepts(rhs.shape, s, Unravel(s, i));
    rhs.At(Unravel(s, i))
  }

  /**
    The temporary that `broadcast(e, s)` evaluates to: the expression's
    values over the row-major traversal of `s`.
  */
  function Evaluated(rhs: Dense, s: Shape): (r: seq<int>)
    requires rhs.Valid() && Fits(rhs.shape, s)
    ensures |r| == Product(s)
  {
    seq(Product(s), i requires 0 <= i < Product(s) => BroadcastAt(rhs, s, i))
  }

  /**
    Broadcasting an expression to its own shape gives back its data: the
    direct assignment and the broadcast one write the same values.
  */
  lemma DirectIsBroadcast(rhs: Dense)
    requires rhs.Valid()
    ensures Fits(rhs.shape, rhs.shape)
    ensures Evaluated(rhs, rhs.shape) == rhs.data
  {
    var s := rhs.shape;
    assert forall j :: 0 <= j < |s| ==> Extent(s, |s|, j) == s[j];
    var ev := Evaluated(rhs, s);
    forall i | 0 <= i < |ev| ensures ev[i] == rhs.data[i] {
      UnravelInBounds(s, i);
      UnravelRoundTrip(s, i);
      assert Trailing(Unravel(s, i), |s|) == Unravel(s, i);
    }
  }

  /** The operand drops excess leading indices, so extra leading indices reach the same position. */
  lemma PositionIgnoresLeading(e: PairArray, idx: seq<nat>)
    requires e.Valid() && Accepts(e.shape, idx)
    ensures forall pre: seq<nat> :: Accepts(e.shape, pre + idx) && e.Position(pre + idx) == e.Position(idx)
  {
    forall pre: seq<nat> ensures Trailing(pre + idx, |e.shape|) == Trailing(idx, |e.shape|) {
      var n := |e.shape|;
      assert (pre + idx)[|pre + idx| - n..] == idx[|idx| - n..];
    }
  }

  /** A stepper of the operand's shape standing on an accepted target index points at that index's position. */
  lemma StepperPosition(e: PairArray, st: Stepper)
    ensures e.Valid() && st.shape == e.shape ==>
      forall idx :: st.Over(idx) && Accepts(e.shape, idx) ==> st.ptr == e.Position(idx)
  {
    forall idx | e.Valid() && st.shape == e.shape && st.Over(idx) && Accepts(e.shape, idx)
      ensures st.ptr == e.Position(idx)
    {
      assert idx[st.offset..] == Trailing(idx, |e.shape|);
    }
  }

  /** A view over operand `e` through functor `functor`. */
  class XFunctorView {
    const e: PairArray
    const functor: Projection

    /** The view stores a reference to the operand and the functor; nothing is copied. */
    constructor (e: PairArray, functor: Projection)
      ensures this.e == e && this.functor == functor
    {
      this.e := e;
      this.functor := functor;
    }

    /** `size()`: the operand's size. */
    function Size(): (r: nat)
      requires e.Valid()
      ensures r == e.data.Length
    {
      Product(e.shape)
    }

    /** `dimension()`: the operand's rank, the number of axes of `shape()`. */
    function Dimension(): (r: nat)
      ensures r == |Shape()|
    {
      |e.shape|
    }

    /** `shape()`: the operand's shape, whose extents multiply to the operand's size. */
    function Shape(): (r: Shape)
      ensures e.Valid() ==> Product(r) == e.data.Length
    {
      e.shape
    }

    /** `layout()`: the operand's layout. */
    function Layout(): (r: Layout)
      ensures r == e.layout
    {
      e.layout
    }

    /** `broadcast_shape(s)`: the operand's answer. */
    function BroadcastShape(target: Shape): (r: Option<Merge>)
      requires |e.shape| <= |target|
      ensures r.Some? <==> Compatible(Shape(), target)
      ensures r.Some? ==> |r.value.shape| == |target| && Fits(Shape(), r.value.shape)
      ensures r.Some? ==> (r.value.trivial <==> Dimension() == |target| && r.value.shape == Shape())
    {
      BroadcastInto(e.shape, target)
    }

    /** `is_trivial_broadcast(strides)`: the operand's answer. */
    function IsTrivialBroadcast(strides: seq<nat>): (r: bool)
      ensures r <==> |strides| == Dimension() && forall a :: 0 <= a < |strides| ==> strides[a] == Stride(Shape(), a)
    {
      strides == Strides(e.shape)
    }

    /**
      `operator()(i...)`: the functor applied to the operand's element at the
      same indices. It is the component that writing back leaves the element
      as it is, and extra leading indices read the same element.
    */
    function Get(idx: seq<nat>): (r: int)
      reads e.data
      requires e.Valid() && Accepts(e.shape, idx)
      ensures functor.Put(e.At(idx), r) == e.At(idx)
      ensures forall pre: seq<nat> :: Accepts(e.shape, pre + idx) && functor.Get(e.At(pre + idx)) == r
    {
      PositionIgnoresLeading(e, idx);
      functor.Get(e.At(idx))
    }

    /** `operator[](index)`: the same element as `operator()` with the index's entries. */
    function Index(idx: seq<nat>): (r: int)
      reads e.data
      requires e.Valid() && Accepts(e.shape, idx)
      ensures r == Get(idx)
    {
      functor.Get(e.data[e.Position(idx)])
    }

    /** `operator[](i)`: `operator()(i)`. */
    function IndexFlat(i: nat): (r: int)
      reads e.data
      requires e.Valid() && Accepts(e.shape, [i])
      ensures r == Get([i])
    {
      Get([i])
    }

    /** `element(first, last)`: the functor applied to the operand's `element(first, last)`. */
    function Element(idx: seq<nat>): (r: int)
      reads e.data
      requires e.Valid() && Accepts(e.shape, idx)
      ensures r == Get(idx)
    {
      functor.Get(e.data[e.Position(idx)])
    }

    /**
      Assignment through the reference `operator()(i...)` returns: the
      projected component of that element becomes `v`; its other component
      and every other element are unchanged.
    */
    method Set(idx: seq<nat>, v: int)
      requires e.Valid() && Accepts(e.shape, idx)
      modifies e.data
      ensures Get(idx) == v
      ensures functor.Rest(e.At(idx)) == functor.Rest(old(e.At(idx)))
      ensures forall q :: 0 <= q < e.data.Length && q != e.Position(idx) ==> e.data[q] == old(e.data[q])
    {
      var q := e.Position(idx);
      e.data[q] := functor.Put(e.data[q], v);
    }

    /**
      Scalar `operator=`: `std::fill(begin(), end(), v)`, a write through
      every position of the view in storage order.
    */
    method Fill(v: int)
      requires e.Valid()
      modifies e.data
      ensures forall q :: 0 <= q < e.data.Length ==> e.data[q] == functor.Put(old(e.data[q]), v)
      ensures forall q :: 0 <= q < e.data.Length ==>
        functor.Get(e.data[q]) == v && functor.Rest(e.data[q]) == functor.Rest(old(e.data[q]))
    {
      var it := Begin();
      var last := End();
      while !it.Equal(last)
        invariant fresh(it) && fresh(last) && it != last
        invariant it.e == e && it.functor == functor
        invariant last.wrapped == Cursor(e.data.Length)
        invariant it.wrapped.pos <= e.data.Length
        invariant forall q :: 0 <= q < it.wrapped.pos ==> e.data[q] == functor.Put(old(e.data[q]), v)
        invariant forall q :: it.wrapped.pos <= q < e.data.Length ==> e.data[q] == old(e.data[q])
        decreases e.data.Length - it.wrapped.pos
      {
        it.Write(v);
        it.Increment();
      }
    }

    /**
      `assign_temporary_impl(tmp)`: copies the temporary's values, in order,
      into successive positions from `xbegin()`.
    */
    method AssignTemporary(tmp: seq<int>)
      requires e.Valid() && |tmp| <= e.data.Length
      modifies e.data
      ensures forall q :: 0 <= q < |tmp| ==> e.data[q] == functor.Put(old(e.data[q]), tmp[q])
      ensures forall q :: |tmp| <= q < e.data.Length ==> e.data[q] == old(e.data[q])
    {
      var it := XBegin();
      var k := 0;
      while k < |tmp|
        invariant 0 <= k <= |tmp|
        invariant fresh(it) && it.e == e && it.functor == functor && it.wrapped == Cursor(k)
        invariant forall q :: 0 <= q < k ==> e.data[q] == functor.Put(old(e.data[q]), tmp[q])
        invariant forall q :: k <= q < e.data.Length ==> e.data[q] == old(e.data[q])
      {
        it.Write(tmp[k]);
        it.Increment();
        k := k + 1;
      }
    }

    /**
      Expression `operator=`: an expression of the view's own rank and
      extents is assigned directly; any other is first broadcast to the
      view's shape. The view's shape never changes, so an expression that
      does not fit it is a broadcast error (`ok` false) and nothing is
      written.
    */
    method Assign(rhs: Dense) returns (ok: bool)
      requires e.Valid() && rhs.Valid()
      modifies e.data
      ensures ok <==> Fits(rhs.shape, e.shape)
      ensures ok ==> forall q :: 0 <= q < e.data.Length ==>
        e.data[q] == functor.Put(old(e.data[q]), Evaluated(rhs, e.shape)[q])
      ensures !ok ==> e.data[..] == old(e.data[..])
    {
      if |rhs.shape| == Dimension() && rhs.shape == Shape() {
        DirectIsBroadcast(rhs);
        AssignTemporary(rhs.data);
        return true;
      }
      if !Fits(rhs.shape, e.shape) {
        return false;
      }
      AssignTemporary(Evaluated(rhs, e.shape));
      return true;
    }

    /** `begin()`: an iterator wrapping the operand's `begin()`. */
    method Begin() returns (it: XFunctorIterator)
      ensures fresh(it) && it.e == e && it.functor == functor && it.wrapped == Cursor(0)
    {
      it := new XFunctorIterator(e, Cursor(0), functor);
    }

    /** `end()`: an iterator wrapping the operand's `end()`. */
    method End() returns (it: XFunctorIterator)
      ensures fresh(it) && it.e == e && it.functor == functor && it.wrapped == Cursor(e.data.Length)
    {
      it := new XFunctorIterator(e, Cursor(e.data.Length), functor);
    }

    /** `xbegin()` and `cxbegin()`: the operand's broadcast iterator over its own shape, at its first element. */
    method XBegin() returns (it: XFunctorIterator)
      ensures fresh(it) && it.e == e && it.functor == functor && it.wrapped == Cursor(0)
    {
      it := new XFunctorIterator(e, Cursor(0), functor);
    }

    /** `xend()` and `cxend()`: the operand's broadcast iterator past its last element. */
    method XEnd() returns (it: XFunctorIterator)
      ensures fresh(it) && it.e == e && it.functor == functor && it.wrapped == Cursor(e.data.Length)
    {
      it := new XFunctorIterator(e, Cursor(e.data.Length), functor);
    }

    /** The const `xbegin()` as written: it wraps the operand's `cxend()`, not its `cxbegin()`. */
    method XBeginConstAsWritten() returns (it: XFunctorIterator)
      ensures fresh(it) && it.e == e && it.functor == functor && it.wrapped == Cursor(e.data.Length)
    {
      it := new XFunctorIterator(e, Cursor(e.data.Length), functor);
    }

    /** `stepper_begin(target)`: a stepper wrapping the operand's `stepper_begin(target)`. */
    method StepperBegin(target: Shape) returns (st: XFunctorStepper)
      requires |e.shape| <= |target|
      ensures fresh(st) && st.e == e && st.functor == functor
      ensures st.wrapped == Containers.StepperBegin(e.shape, target)
    {
      st := new XFunctorStepper(e, Containers.StepperBegin(e.shape, target), functor);
    }

    /** `stepper_end(target)`: a stepper wrapping the operand's `stepper_end(target)`. */
    method StepperEnd(target: Shape) returns (st: XFunctorStepper)
      requires |e.shape| <= |target|
      ensures fresh(st) && st.e == e && st.functor == functor
      ensures st.wrapped == Containers.StepperEnd(e.shape, target)
    {
      st := new XFunctorStepper(e, Containers.StepperEnd(e.shape, target), functor);
    }
  }

  /**
    An iterator of a view: the wrapped operand iterator `wrapped` over the
    storage of `e`, and the functor it applies on dereference.
  */
  class XFunctorIterator {
    const e: PairArray
    const functor: Projection
    var wrapped: Cursor

    constructor (e: PairArray, wrapped: Cursor, functor: Projection)
      ensures this.e == e && this.wrapped == wrapped && this.functor == functor
    {
      this.e := e;
      this.wrapped := wrapped;
      this.functor := functor;
    }

    /** Prefix `++`: the wrapped iterator moves one element forward. */
    method Increment()
      modifies this
      ensures wrapped == old(wrapped).Next()
    {
      wrapped := wrapped.Next();
    }

    /** Postfix `++`: moves like prefix `++` and returns a copy of the iterator as it was. */
    method PostIncrement() returns (prev: XFunctorIterator)
      modifies this
      ensures wrapped == old(wrapped).Next()
      ensures fresh(prev) && prev.e == e && prev.functor == functor && prev.wrapped == old(wrapped)
    {
      prev := new XFunctorIterator(e, wrapped, functor);
      wrapped := wrapped.Next();
    }

    predicate Dereferenceable()
      reads this
    {
      wrapped.pos < e.data.Length
    }

    /**
      `operator*`: the functor applied to the wrapped iterator's element:
      writing it back leaves the element as it is, and at the storage
      position of an index it is the view's element there.
    */
    function Deref(): (r: int)
      reads this, e.data
      requires Dereferenceable()
      ensures functor.Put(e.data[wrapped.pos], r) == e.data[wrapped.pos]
      ensures e.Valid() ==> forall idx :: Accepts(e.shape, idx) && wrapped.pos == e.Position(idx) ==> r == functor.Get(e.At(idx))
    {
      functor.Get(e.data[wrapped.pos])
    }

    /** Assignment through `*it`: only the projected component of the wrapped element changes. */
    method Write(v: int)
      requires Dereferenceable()
      modifies e.data
      ensures Deref() == v
      ensures e.data[wrapped.pos] == functor.Put(old(e.data[wrapped.pos]), v)
      ensures forall q :: 0 <= q < e.data.Length && q != wrapped.pos ==> e.data[q] == old(e.data[q])
    {
      e.data[wrapped.pos] := functor.Put(e.data[wrapped.pos], v);
    }

    /** `equal`: the wrapped iterators are equal; the functor plays no part. */
    function Equal(rhs: XFunctorIterator): (r: bool)
      reads this, rhs
      ensures r <==> wrapped.pos == rhs.wrapped.pos
    {
      wrapped == rhs.wrapped
    }
  }

  /** A stepper of a view: the wrapped operand stepper and the functor it applies on dereference. */
  class XFunctorStepper {
    const e: PairArray
    const functor: Projection
    var wrapped: Stepper

    constructor (e: PairArray, wrapped: Stepper, functor: Projection)
      ensures this.e == e && this.wrapped == wrapped && this.functor == functor
    {
      this.e := e;
      this.wrapped := wrapped;
      this.functor := functor;
    }

    /** `step`, `step_back`, `reset` and `to_end`: the move is made by the wrapped stepper alone. */
    method Forward(m: Move)
      requires Applies(m, wrapped.TargetRank())
      modifies this
      ensures wrapped == Apply(old(wrapped), m)
    {
      wrapped := Apply(wrapped, m);
    }

    /** `step(dim, n)`. */
    method Step(dim: nat, n: nat)
      requires dim < wrapped.TargetRank()
      modifies this
      ensures wrapped == old(wrapped).Step(dim, n)
    {
      Forward(StepBy(dim, n));
    }

    /** `step_back(dim, n)`. */
    method StepBack(dim: nat, n: nat)
      requires dim < wrapped.TargetRank()
      modifies this
      ensures wrapped == old(wrapped).StepBack(dim, n)
    {
      Forward(StepBackBy(dim, n));
    }

    /** `reset(dim)`. */
    method Reset(dim: nat)
      requires dim < wrapped.TargetRank()
      modifies this
      ensures wrapped == old(wrapped).Reset(dim)
    {
      Forward(ResetAxis(dim));
    }

    /** `to_end()`. */
    method ToEnd()
      modifies this
      ensures wrapped == old(wrapped).ToEnd()
    {
      Forward(ToEndMove);
    }

    predicate Dereferenceable()
      reads this
    {
      0 <= wrapped.ptr < e.data.Length
    }

    /**
      `operator*`: the functor applied to the wrapped stepper's element:
      writing it back leaves the element as it is, and on a target index it
      is the view's element there.
    */
    function Deref(): (r: int)
      reads this, e.data
      requires Dereferenceable()
      ensures functor.Put(e.data[wrapped.ptr], r) == e.data[wrapped.ptr]
      ensures e.Valid() && wrapped.shape == e.shape ==>
        forall idx :: wrapped.Over(idx) && Accepts(e.shape, idx) ==> r == functor.Get(e.At(idx))
    {
      StepperPosition(e, wrapped);
      functor.Get(e.data[wrapped.ptr])
    }

    /** Assignment through `*st`: only the projected component of the wrapped element changes. */
    method Write(v: int)
      requires Dereferenceable()
      modifies e.data
      ensures Deref() == v
      ensures e.data[wrapped.ptr] == functor.Put(old(e.data[wrapped.ptr]), v)
      ensures forall q :: 0 <= q < e.data.Length && q != wrapped.ptr ==> e.data[q] == old(e.data[q])
    {
      e.data[wrapped.ptr] := functor.Put(e.data[wrapped.ptr], v);
    }

    /** `equal`: the wrapped steppers are equal; the functor plays no part. */
    function Equal(rhs: XFunctorStepper): (r: bool)
      reads this, rhs
      ensures r <==> wrapped.shape == rhs.wrapped.shape && wrapped.offset == rhs.wrapped.offset && wrapped.ptr == rhs.wrapped.ptr
    {
      wrapped == rhs.wrapped
    }
  }

  /** `size()`, `dimension()`, `shape()` and `layout()` are the operand's own answers. */
  lemma ViewQueriesAreOperands(v: XFunctorView)
    requires v.e.Valid()
    ensures v.Size() == Product(v.e.shape) == v.e.data.Length
    ensures v.Dimension() == |v.e.shape| && v.Shape() == v.e.shape && v.Layout() == v.e.layout
  {
  }

  /** `broadcast_shape` and `is_trivial_broadcast` are the operand's own answers. */
  lemma ViewBroadcastIsOperands(v: XFunctorView, target: Shape, strides: seq<nat>)
    requires |v.e.shape| <= |target|
    ensures v.BroadcastShape(target) == BroadcastInto(v.e.shape, target)
    ensures v.IsTrivialBroadcast(strides) <==> strides == Strides(v.e.shape)
  {
  }

  /**
    A view's stepper standing on target index `idx` dereferences to the
    view's element at `idx`, and writing through it is writing through
    `operator()(idx...)`.
  */
  lemma StepperReadsView(v: XFunctorView, st: XFunctorStepper, idx: seq<nat>)
    requires v.e.Valid() && st.e == v.e && st.functor == v.functor && st.wrapped.shape == v.e.shape
    requires st.wrapped.Over(idx) && Accepts(v.e.shape, idx)
    ensures st.Dereferenceable() && st.wrapped.ptr == v.e.Position(idx)
    ensures st.Deref() == v.Get(idx)
  {
    assert idx[st.wrapped.offset..] == Trailing(idx, |v.e.shape|);
    assert st.wrapped.ptr == v.e.Position(idx);
    assert st.e.data[st.wrapped.ptr] == v.e.At(idx);
  }

  /** An iterator `n` steps from `begin()` of a non-empty view dereferences to the view at flat position `n`. */
  lemma IteratorReadsView(v: XFunctorView, it: XFunctorIterator, n: nat)
    requires v.e.Valid() && it.e == v.e && it.functor == v.functor && it.wrapped == Cursor(n) && n < v.Size()
    ensures it.Dereferenceable()
    ensures Accepts(v.e.shape, Unravel(v.e.shape, n)) && it.Deref() == v.Get(Unravel(v.e.shape, n))
  {
    var s := v.e.shape;
    UnravelInBounds(s, n);
    UnravelRoundTrip(s, n);
    assert Trailing(Unravel(s, n), |s|) == Unravel(s, n);
  }

  /** Two view iterators over the same positions are equal whatever functors they carry. */
  lemma IteratorEqualIgnoresFunctor(a: XFunctorIterator, b: XFunctorIterator)
    requires a.wrapped == b.wrapped && a.functor != b.functor
    ensures a.Equal(b)
  {
  }

  /**
    A traversal of a view that has elements, from the const `xbegin()` as
    written up to `xend()`, stops before its first step: the begin iterator
    already equals the end iterator.
  */
  method ConstTraversalAsWrittenIsEmpty(v: XFunctorView) returns (first: XFunctorIterator, last: XFunctorIterator)
    requires v.e.Valid() && 0 < v.Size()
    ensures first.Equal(last) && !first.Dereferenceable()
  {
    first := v.XBeginConstAsWritten();
    last := v.XEnd();
  }

  /**
    A traversal from `xbegin()`, which the const `xbegin()` evidently
    means, meets `xend()` after exactly `size()` increments, and reads the
    view's elements in row-major order on the way.
  */
  method ConstTraversalVisitsAll(v: XFunctorView) returns (visited: seq<int>)
    requires v.e.Valid()
    ensures |visited| == v.Size()
    ensures forall i :: 0 <= i < |visited| ==>
      Accepts(v.e.shape, Unravel(v.e.shape, i)) && visited[i] == v.Get(Unravel(v.e.shape, i))
  {
    var it := v.XBegin();
    var last := v.XEnd();
    visited := [];
    while !it.Equal(last)
      invariant fresh(it) && fresh(last) && it != last
      invariant it.e == v.e && it.functor == v.functor
      invariant last.wrapped == Cursor(v.e.data.Length)
      invariant it.wrapped == Cursor(|visited|) && |visited| <= v.e.data.Length
      invariant forall i :: 0 <= i < |visited| ==>
        Accepts(v.e.shape, Unravel(v.e.shape, i)) && visited[i] == v.Get(Unravel(v.e.shape, i))
      decreases v.e.data.Length - |visited|
    {
      IteratorReadsView(v, it, |visited|);
      visited := visited + [it.Deref()];
      it.Increment();
    }
  }
}
