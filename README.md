# xtensor's lazy function node and functor view, in Dafny

This project models two expression nodes of the xtensor C++ library. It also proves what they promise.

- **`xfunction`** (`LazyFunction`, xfunction.dfy) is a lazy N-ary element-wise function.
  - It holds an ordered sequence of operands and a functor.
  - It memoises its broadcast shape in `m_shape` / `m_shape_computed`, modelled as the fields `shapeCache` / `shapeComputed` of the class `XFunction`.
  - Nothing is evaluated at construction. The first `shape()` call computes the broadcast shape. Element values are computed only on access or dereference.
  - The composite iterator (`XFunctionIterator`) and stepper (`XFunctionStepper`) keep one child cursor per operand. They apply every move to all children.
- **`xfunctorview`** (`FunctorView`, xfunctorview.dfy) is a writable projection over one operand.
  - The operand is a mutable array of complex-like pairs (`PairArray`).
  - The functor (`Projection`) exposes either the real or the imaginary part.
  - Reads apply the functor. Writes go through to the operand's storage and change only the projected component.
  - Its iterator (`XFunctorIterator`) and stepper (`XFunctorStepper`) wrap the operand's own cursor.

The operands are stand-ins for xtensor's dense containers (`Shapes`, shapes.dfy; `Containers`, containers.dfy), whose code is not part of this model. They behave as those containers do:
- storage is row-major;
- strides are 0 on unit axes;
- element access drops excess leading indices;
- `broadcast_shape` follows NumPy broadcasting: shapes are aligned on their last axis, missing leading axes count as 1, and an extent of 1 matches any extent. A mismatch is the broadcast error.

The broadcast error that xtensor throws is modelled as a result value:
- `BroadcastError` for the node's `shape()` and `size()`;
- `Incompatible` for the node's `broadcast_shape` fold;
- `ok == false` for the view's expression assignment.

With no operand, the constructor and `shape()` both build `make_sequence(0, 1)`, which is the empty shape. The node then has rank 0 and one element (`NoOperands`).

## Model

| member | source | states |
|---|---|---|
| `LazyFunction.XFunction.constructor` | include/xtensor/xfunction.hpp:323-329 | Stores the functor and the operands and computes nothing: the memo is not computed and the cached shape is empty. |
| `LazyFunction.ComputeDimension` | include/xtensor/xfunction.hpp:643-648 | The maximum operand rank: no operand has a larger rank, some operand attains it, and it is 0 with no operand. |
| `LazyFunction.XFunction.Dimension` | include/xtensor/xfunction.hpp:348-353 | Equals `compute_dimension()` whether or not the shape is cached, because the cache is built with exactly that many axes. |
| `LazyFunction.XFunction.Shape` | include/xtensor/xfunction.hpp:358-368 | First call: fills the memo with `dimension()` ones, folds every operand into it and marks it computed. Later calls return the memo unchanged. A broadcast error returns the failing operand and leaves the memo not computed, holding the partly updated target. |
| `LazyFunction.XFunction.Size` | include/xtensor/xfunction.hpp:339-343 | The product of the extents of `shape()`, with the same memo update and error as `shape()`. |
| `LazyFunction.ComputeLayout` | include/xtensor/xfunction.hpp:608-613 | The operands' common layout when all agree; Dynamic when any two differ. |
| `LazyFunction.XFunction.Layout` | include/xtensor/xfunction.hpp:373-377 | The layout of the first operand when every operand has that layout; otherwise Dynamic. |
| `LazyFunction.XFunction.BroadcastShape` | include/xtensor/xfunction.hpp:432-439 | Returns the fold of every operand's `broadcast_shape` in operand order, one answer per operand. An operand is asked even after an earlier one answered false. The result is the conjunction of all answers. |
| `LazyFunction.PrefixFold` | include/xtensor/xfunction.hpp:432-439 | Folding one more operand is one more `broadcast_shape` call on the target left by the fold over the earlier ones. |
| `LazyFunction.FailureSticks` | include/xtensor/xfunction.hpp:432-439 | Once an operand raises the broadcast error, the whole fold ends with that error. |
| `LazyFunction.FoldFits` | include/xtensor/xfunction.hpp:432-439 | A successful fold gives a common broadcast shape: every operand fits it, and every non-unit extent of the original target is kept. |
| `LazyFunction.FoldMinimal` | include/xtensor/xfunction.hpp:432-439 | Where the merged shape differs from the original target, the target was 1 and some operand has the merged extent on that axis. |
| `LazyFunction.FoldFailure` | include/xtensor/xfunction.hpp:432-439 | A failed fold stops at an operand that is incompatible with the target merged from the operands before it. |
| `LazyFunction.BroadcastSucceedsIff` | include/xtensor/xfunction.hpp:362-364 | From a target of ones, broadcasting succeeds exactly when no two operands hold different non-unit extents on an aligned axis. |
| `LazyFunction.XFunction.IsTrivialBroadcast` | include/xtensor/xfunction.hpp:446-452 | The conjunction of the operands' answers. Operands are asked in order only while every earlier one answered true: asked operands before the last all answered true, and a false result was the last one asked. |
| `LazyFunction.XFunction.OperandValues` | include/xtensor/xfunction.hpp:615-620 | One value per operand, in operand order, each that operand's element at the same indices. |
| `LazyFunction.XFunction.Call` | include/xtensor/xfunction.hpp:389-394 | `operator()` is the functor over every operand's element at the same indices. Each operand drops the indices beyond its rank from the front, so any extra leading indices give the same value. |
| `LazyFunction.XFunction.Element` | include/xtensor/xfunction.hpp:415-420 | `element(first, last)` is the functor over the operands' `element` at the same indices, which is `operator()` there. |
| `LazyFunction.XFunction.Index` | include/xtensor/xfunction.hpp:396-400 | `operator[](index)` is the functor applied to the operands' values at `index`. |
| `LazyFunction.XFunction.IndexFlat` | include/xtensor/xfunction.hpp:402-406 | `operator[](i)` is the functor applied to the operands' values at the single index `i`, which is `operator()(i)`. |
| `LazyFunction.ShapeIndicesAddressable` | include/xtensor/xfunction.hpp:389-394 | Every index inside the computed shape is accepted by every operand, so `operator()` is defined on it. |
| `LazyFunction.XFunction.Begin` | include/xtensor/xfunction.hpp:462-467 | An iterator of this node with every child at its operand's first element. |
| `LazyFunction.XFunction.End` | include/xtensor/xfunction.hpp:473-478 | An iterator of this node with every child past its operand's last element. |
| `LazyFunction.XFunction.StepperBegin` | include/xtensor/xfunction.hpp:592-598 | A stepper of this node whose children are each operand's `stepper_begin(target)`. |
| `LazyFunction.XFunction.StepperEnd` | include/xtensor/xfunction.hpp:600-606 | A stepper of this node whose children are each operand's `stepper_end(target)`. |
| `LazyFunction.XFunctionIterator.constructor` | include/xtensor/xfunction.hpp:654-659 | Stores the owning node and one child cursor per operand. |
| `LazyFunction.XFunctionIterator.Increment` | include/xtensor/xfunction.hpp:661-667 | Every child cursor moves one element forward; the owning node is unchanged. |
| `LazyFunction.XFunctionIterator.PostIncrement` | include/xtensor/xfunction.hpp:669-676 | Moves like prefix `++` and returns a new iterator holding the children as they were. |
| `LazyFunction.XFunctionIterator.Deref` | include/xtensor/xfunction.hpp:678-695 | When every child stands on its operand's storage position of one multi-index the node accepts, `*it` is the node's `operator()` at that index. |
| `LazyFunction.XFunctionIterator.Equal` | include/xtensor/xfunction.hpp:684-688 | True exactly when the owning node is the same and the children are pairwise equal. |
| `LazyFunction.FlatEndReachedIff` | include/xtensor/xfunction.hpp:661-667 | After `n` increments from `begin()`, the iterator equals `end()` exactly when every operand holds `n` elements. |
| `LazyFunction.FlatOrderIsRowMajor` | include/xtensor/xfunction.hpp:678-695 | For a node whose operands share one shape, an iterator `n` increments past `begin()` is dereferenceable, and `*it` is the node's `operator()` at the `n`-th row-major index. |
| `LazyFunction.XFunctionStepper.constructor` | include/xtensor/xfunction.hpp:715-720 | Stores the owning node and one child stepper per operand. |
| `LazyFunction.XFunctionStepper.ForEach` | include/xtensor/xfunction.hpp:722-748 | Applies the same move to every child, in operand order, and changes nothing else. |
| `LazyFunction.XFunctionStepper.Step` | include/xtensor/xfunction.hpp:722-727 | Every child makes `step(dim, n)`. |
| `LazyFunction.XFunctionStepper.StepBack` | include/xtensor/xfunction.hpp:729-734 | Every child makes `step_back(dim, n)`. |
| `LazyFunction.XFunctionStepper.Reset` | include/xtensor/xfunction.hpp:736-741 | Every child makes `reset(dim)`. |
| `LazyFunction.XFunctionStepper.ToEnd` | include/xtensor/xfunction.hpp:743-748 | Every child makes `to_end()`. |
| `LazyFunction.XFunctionStepper.Equal` | include/xtensor/xfunction.hpp:756-760 | True exactly when the owning node is the same and the children are pairwise equal. |
| `LazyFunction.XFunctionStepper.Deref` | include/xtensor/xfunction.hpp:750-767 | When every child stepper stands on one target index the node accepts, `*st` is the node's `operator()` at that index. |
| `LazyFunction.BeginAllOverZeros` | include/xtensor/xfunction.hpp:592-598 | The children of `stepper_begin(target)` all stand on the all-zero index of the target. |
| `LazyFunction.StepAllMoves` | include/xtensor/xfunction.hpp:722-727 | If all children stand on index `idx`, then after `step(dim, n)` they all stand on `idx` with `n` added on axis `dim`. |
| `LazyFunction.StepBackAllMoves` | include/xtensor/xfunction.hpp:729-734 | `step_back(dim, n)` takes all children from `idx` to `idx` with `n` subtracted on axis `dim`. |
| `LazyFunction.ResetAllRewinds` | include/xtensor/xfunction.hpp:736-741 | On the last index of axis `dim` of a target every operand fits, `reset(dim)` brings all children to index 0 of that axis. |
| `LazyFunction.ToEndAllIsEnd` | include/xtensor/xfunction.hpp:743-748 | `to_end()` turns any stepper of the node into exactly the children of `stepper_end`. |
| `LazyFunction.DerefAtIndex` | include/xtensor/xfunction.hpp:750-767 | A stepper whose children all stand on an index the node accepts dereferences to the node's `operator()` at that index. |
| `LazyFunction.PlusShape` | test/test_xview.cpp:194-217 | `a + b` with shapes (3, 4) and (4) broadcasts to (3, 4); the matrix answers trivial and the row does not. |
| `LazyFunction.PlusRowOne` | test/test_xview.cpp:194-217 | Row 1, columns 1 to 3 of `a + b` hold 8, 10 and 12. |
| `LazyFunction.NoOperands` | include/xtensor/xfunction.hpp:323-329 | A node without operands has dimension 0, and broadcasting no operand into the empty shape gives the empty shape. Once computed, its shape is empty and holds one element. |
| `FunctorView.XFunctorView.constructor` | include/xtensor/xfunctorview.hpp:329-333 | The view refers to the operand itself and to its functor; nothing is copied. |
| `FunctorView.ViewQueriesAreOperands` | include/xtensor/xfunctorview.hpp:380-411 | `size`, `dimension`, `shape` and `layout` are the operand's own answers. |
| `FunctorView.XFunctorView.Size` | include/xtensor/xfunctorview.hpp:380-384 | The number of elements of the operand's storage. |
| `FunctorView.XFunctorView.Dimension` | include/xtensor/xfunctorview.hpp:389-393 | The operand's rank, which is the number of axes of `shape()`. |
| `FunctorView.XFunctorView.Shape` | include/xtensor/xfunctorview.hpp:398-402 | The operand's shape. Its extents multiply to the number of elements in the operand's storage. |
| `FunctorView.XFunctorView.Layout` | include/xtensor/xfunctorview.hpp:407-411 | The operand's layout. |
| `FunctorView.XFunctorView.BroadcastShape` | include/xtensor/xfunctorview.hpp:517-522 | Succeeds exactly when the view's shape is compatible with the target. The updated target keeps the target's rank and the view's shape fits it. The answer is trivial exactly when the ranks agree and the target becomes the view's shape. |
| `FunctorView.XFunctorView.IsTrivialBroadcast` | include/xtensor/xfunctorview.hpp:529-534 | True exactly when the strides are, axis by axis, the row-major strides of the view's shape, 0 on unit axes. |
| `FunctorView.ViewBroadcastIsOperands` | include/xtensor/xfunctorview.hpp:517-534 | `broadcast_shape` and `is_trivial_broadcast` are the operand's own answers. |
| `FunctorView.XFunctorView.Get` | include/xtensor/xfunctorview.hpp:423-428 | `operator()` reads the projected component of the operand's element at the same indices. Writing that value back leaves the element unchanged, and extra leading indices read the same value. |
| `FunctorView.XFunctorView.Index` | include/xtensor/xfunctorview.hpp:436-440 | `operator[](index)` reads the same value as `operator()` at that index. |
| `FunctorView.XFunctorView.IndexFlat` | include/xtensor/xfunctorview.hpp:442-446 | `operator[](i)` reads the same value as `operator()(i)`. |
| `FunctorView.XFunctorView.Element` | include/xtensor/xfunctorview.hpp:455-460 | `element(first, last)` reads the same value as `operator()` at those indices. |
| `FunctorView.XFunctorView.Set` | include/xtensor/xfunctorview.hpp:423-428 | Writing `v` through `operator()(idx...)` makes the view read `v` at `idx`. The other component of that element is unchanged, and so is every other element of the operand. |
| `FunctorView.XFunctorView.Fill` | include/xtensor/xfunctorview.hpp:360-366 | The scalar assignment walks `begin()` to `end()`. Afterwards every element's projected component is the scalar and every other component keeps its old value. |
| `FunctorView.XFunctorView.AssignTemporary` | include/xtensor/xfunctorview.hpp:368-372 | Position `q` of the view gets the temporary's `q`-th value, for each `q` the temporary covers. Nothing past the temporary changes. |
| `FunctorView.XFunctorView.Assign` | include/xtensor/xfunctorview.hpp:343-357 | Writes the expression broadcast to the view's own shape, at every position and through the functor. An expression that does not fit the view's shape is an error that writes nothing. |
| `FunctorView.DirectIsBroadcast` | include/xtensor/xfunctorview.hpp:343-357 | For an expression of the view's own shape, the direct branch and the broadcast branch write the same values. |
| `FunctorView.XFunctorView.Begin` | include/xtensor/xfunctorview.hpp:544-548 | An iterator at the operand's first element, carrying the view's functor. |
| `FunctorView.XFunctorView.End` | include/xtensor/xfunctorview.hpp:554-558 | An iterator past the operand's last element, carrying the view's functor. |
| `FunctorView.XFunctorView.XBegin` | include/xtensor/xfunctorview.hpp:601-605 | A broadcast iterator at the operand's first element, which is storage position 0 for a row-major operand. |
| `FunctorView.XFunctorView.XEnd` | include/xtensor/xfunctorview.hpp:611-615 | A broadcast iterator past the operand's last element. |
| `FunctorView.XFunctorView.XBeginConstAsWritten` | include/xtensor/xfunctorview.hpp:620-624 | The const `xbegin()` as written wraps the operand's `cxend()`, so it starts past the last element. |
| `FunctorView.XFunctorView.StepperBegin` | include/xtensor/xfunctorview.hpp:743-748 | A stepper wrapping the operand's `stepper_begin(target)`, carrying the view's functor. |
| `FunctorView.XFunctorView.StepperEnd` | include/xtensor/xfunctorview.hpp:750-755 | A stepper wrapping the operand's `stepper_end(target)`, carrying the view's functor. |
| `FunctorView.XFunctorIterator.constructor` | include/xtensor/xfunctorview.hpp:777-781 | Stores the wrapped iterator and the functor. |
| `FunctorView.XFunctorIterator.Increment` | include/xtensor/xfunctorview.hpp:783-788 | Only the wrapped iterator moves, one element forward. |
| `FunctorView.XFunctorIterator.PostIncrement` | include/xtensor/xfunctorview.hpp:790-796 | Moves like prefix `++` and returns a copy holding the wrapped iterator as it was. |
| `FunctorView.XFunctorIterator.Write` | include/xtensor/xfunctorview.hpp:798-802 | Writing through `*it` changes only the projected component of the wrapped element. |
| `FunctorView.XFunctorIterator.Deref` | include/xtensor/xfunctorview.hpp:798-802 | Writing the dereferenced value back leaves the wrapped element unchanged. At the storage position of an accepted index, `*it` is the view's `operator()` there. |
| `FunctorView.XFunctorIterator.Equal` | include/xtensor/xfunctorview.hpp:810-814 | True exactly when the wrapped iterators stand on the same position. |
| `FunctorView.IteratorEqualIgnoresFunctor` | include/xtensor/xfunctorview.hpp:810-828 | Two iterators on the same position are equal even when their functors differ. |
| `FunctorView.IteratorReadsView` | include/xtensor/xfunctorview.hpp:798-802 | The iterator `n` positions from `begin()` dereferences to the view's value at the `n`-th row-major index. |
| `FunctorView.XFunctorStepper.constructor` | include/xtensor/xfunctorview.hpp:834-838 | Stores the wrapped stepper and the functor. |
| `FunctorView.XFunctorStepper.Forward` | include/xtensor/xfunctorview.hpp:846-868 | A move changes the wrapped stepper and nothing else. |
| `FunctorView.XFunctorStepper.Step` | include/xtensor/xfunctorview.hpp:846-850 | The wrapped stepper makes `step(dim, n)`. |
| `FunctorView.XFunctorStepper.StepBack` | include/xtensor/xfunctorview.hpp:852-856 | The wrapped stepper makes `step_back(dim, n)`. |
| `FunctorView.XFunctorStepper.Reset` | include/xtensor/xfunctorview.hpp:858-862 | The wrapped stepper makes `reset(dim)`. |
| `FunctorView.XFunctorStepper.ToEnd` | include/xtensor/xfunctorview.hpp:864-868 | The wrapped stepper makes `to_end()`. |
| `FunctorView.XFunctorStepper.Write` | include/xtensor/xfunctorview.hpp:840-844 | Writing through `*st` changes only the projected component of the wrapped element. |
| `FunctorView.XFunctorStepper.Deref` | include/xtensor/xfunctorview.hpp:840-844 | Writing the dereferenced value back leaves the wrapped element unchanged. On an accepted target index, `*st` is the view's `operator()` there. |
| `FunctorView.XFunctorStepper.Equal` | include/xtensor/xfunctorview.hpp:870-874 | True exactly when the wrapped steppers are equal; the functor plays no part. |
| `FunctorView.StepperReadsView` | include/xtensor/xfunctorview.hpp:840-844 | A stepper standing on target index `idx` dereferences to the view's `operator()` at `idx`, at the same storage position. |
| `FunctorView.ConstTraversalAsWrittenIsEmpty` | include/xtensor/xfunctorview.hpp:620-634 | On a non-empty view, the const `xbegin()` as written already equals `xend()` and cannot be dereferenced, so the traversal visits nothing. |
| `FunctorView.ConstTraversalVisitsAll` | include/xtensor/xfunctorview.hpp:639-653 | Incrementing from `xbegin()` until it equals `xend()` takes exactly `size()` steps and reads the view's elements in row-major order. |

## Left out

- **Broadcasting iterators of `xfunction`.** `xbegin`/`xend`/`cxbegin`/`cxend`, with and without a shape (include/xtensor/xfunction.hpp:508-589), build `xiterator`s. The multi-index increment logic of `xiterator` is not part of this model. The stepper moves those iterators make are modelled and proved.
- **`cbegin`/`cend` of `xfunction`.** They are the same as `begin`/`end` and are not modelled separately.
- **Shape-taking iterators of `xfunctorview`.** Its shape-taking `xbegin`/`xend`/`cxbegin`/`cxend` (include/xtensor/xfunctorview.hpp:660-736) are not modelled, for the same reason.
- **The view's shapeless broadcast iterators.** These are modelled as storage-order cursors. This is exact for the row-major operands used here.
- **Const overloads.** The const and non-const overloads of the view's accessors, iterators and steppers behave alike. Each pair is one member.
- **C++ type machinery.** Closure types, `temporary_type` selection, common value and size types, and the `contiguous_layout` / `layout_type` constants are compile-time only. Element values are `int`, not `double`. A node's functor is any total function on the operand values. A view's functor is one of the two projections of a pair. The `Projection` value stands for the functor type `F`, so the view's constructor takes it as a parameter where the one-argument constructor (include/xtensor/xfunctorview.hpp:329-333) default-constructs an `F`.
- **Layout.** `compute_layout` is not part of this model. The model merges layouts pairwise and takes Dynamic for zero operands. Layout tags are reported but do not change indexing, because storage is always row-major.
- `LazyFunction.XFunction.Size`: `size()` and `dimension()` are declared `noexcept`. A broadcast error thrown inside `size()` would terminate the program. The model returns the error instead.
- `LazyFunction.XFunction.Shape`: the thrown broadcast error is modelled as a `BroadcastError` result. It carries the failing operand's position, not the exception object.
- `FunctorView.XFunctorView.Assign`: some expressions do not fit the view's shape. They are incompatible with it, have a higher rank, or have an extent above 1 where the view has 1. For all of these the model returns an error and writes nothing. In the source, the first two throw from `broadcast`. The third would produce a temporary larger than the view.
- `FunctorView.XFunctorView.AssignTemporary`: requires the temporary to be no longer than the view. `std::copy` past the view's end is undefined behaviour.
- **Iterator equality across containers.** Iterator and stepper equality compare positions only, so two cursors over different operands at the same position compare equal. Pointer identity is not modelled, and neither is `operator->` address-taking.
- **Defective overloads.** These are not modelled as behaviour: the two-argument constructor of `xfunctorview`, declared at include/xtensor/xfunctorview.hpp:124-125 but never defined; `operator+` of the view iterator, which builds an iterator without its functor (include/xtensor/xfunctorview.hpp:261-264); the wrong return type of the non-const `xbegin(shape)` (include/xtensor/xfunctorview.hpp:665); and the `iteratoe_type` misspelling (include/xtensor/xfunctorview.hpp:693). The const `xbegin()` defect is modelled and recorded under Findings.
- **Unequal operand sizes in flat iteration.** A node's flat iterator advances every child by one storage position. For operands of different sizes it never meets `end()` (`LazyFunction.FlatEndReachedIff`). The model records this and does not change it.

## Findings

| source | as written | input that shows it | evidently intended | confidence | as-written member | corrected member |
|---|---|---|---|---|---|---|
| include/xtensor/xfunctorview.hpp:620-624 | const `xbegin()` wraps `m_e.cxend()` | any const view with `size() > 0`: its `xbegin()` already equals `xend()` | wrap `m_e.cxbegin()`, as `cxbegin()` does at lines 639-643 | high; not executed | `FunctorView.XFunctorView.XBeginConstAsWritten`, `FunctorView.ConstTraversalAsWrittenIsEmpty` | `FunctorView.XFunctorView.XBegin`, `FunctorView.ConstTraversalVisitsAll` |
