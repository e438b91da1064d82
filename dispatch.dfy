/**
 * The binary-operation launcher `binary`. Given two tensors of the same rank,
 * it picks one of the three kernels of a binary operation. It either reuses
 * the left operand, reuses the right operand, or allocates a new output
 * of the per-axis maximum shape. Then it launches that kernel once and
 * returns the tensor that holds the result.
 *
 * The device client is external. A launch is recorded as data: the kernel,
 * the bound inputs and outputs, and the launch-count policy. An allocation
 * is recorded by its byte size. The handle `client.empty` hands back is a
 * parameter, `freshHandle`.
 */
module Dispatch {
  import opened Wrappers
  import opened Shapes
  import opened Kernels

  /** A tensor as far as the dispatcher sees it: its buffer handle and its shape. */
  datatype Tensor = Tensor(handle: nat, dims: seq<nat>)

  /** `CubeCountSettings`: launch as many units as a bound input or output has elements. */
  datatype CubeCount = FromInput(pos: nat) | FromOutput(pos: nat)

  /** One `Execution::start(kernel, ..).inputs(..).outputs(..).execute(count)`. */
  datatype Launch = Launch(kernel: Variant, inputs: seq<Tensor>, outputs: seq<Tensor>, count: CubeCount)

  /** What one call did: the launch, the bytes it allocated (if any), and what it returned. */
  datatype Outcome = Outcome(launch: Launch, allocation: Option<nat>, result: Tensor)

  /** The tensor whose element count sizes the launch, if the policy names a bound slot. */
  function CountSource(l: Launch): Option<Tensor>
  {
    match l.count
    case FromInput(p) => if p < |l.inputs| then Some(l.inputs[p]) else None
    case FromOutput(p) => if p < |l.outputs| then Some(l.outputs[p]) else None
  }

  /**
   * The branch `binary` takes. Reusing the left operand is tried first, then
   * reusing the right one. `canMutBroadcast` is `JitTensor::can_mut_broadcast`.
   */
  function Select(lhs: Tensor, rhs: Tensor, inplaceEnabled: bool,
                  canMutBroadcast: (Tensor, Tensor) -> bool): Variant
  {
    if inplaceEnabled && canMutBroadcast(lhs, rhs) then OpsInplaceLhs
    else if inplaceEnabled && canMutBroadcast(rhs, lhs) then OpsInplaceRhs
    else Ops
  }

  /**
   * What `binary` decides and does, as a function of its inputs. `elemSize` is
   * `size_of::<E>()` and `freshHandle` is the handle of the buffer the client
   * allocates on the out-of-place path.
   */
  function Decide(lhs: Tensor, rhs: Tensor, inplaceEnabled: bool,
                    canMutBroadcast: (Tensor, Tensor) -> bool,
                    elemSize: nat, freshHandle: nat): Outcome
    requires |lhs.dims| == |rhs.dims|
  {
    match Select(lhs, rhs, inplaceEnabled, canMutBroadcast)
    case OpsInplaceLhs =>
      Outcome(Launch(OpsInplaceLhs, [lhs, rhs], [], FromInput(0)), None, lhs)
    case OpsInplaceRhs =>
      Outcome(Launch(OpsInplaceRhs, [lhs, rhs], [], FromInput(1)), None, rhs)
    case Ops =>
      var shapeOut := BroadcastShape(lhs.dims, rhs.dims);
      var out := Tensor(freshHandle, shapeOut);
      Outcome(Launch(Ops, [lhs, rhs], [out], FromOutput(0)),
              Some(NumElements(shapeOut) * elemSize), out)
  }

  /** Fills `shape_out` axis by axis with the larger of the two input sizes. */
  method FillShapeOut(lhsDims: seq<nat>, rhsDims: seq<nat>) returns (shapeOut: seq<nat>)
    requires |lhsDims| == |rhsDims|
    ensures shapeOut == BroadcastShape(lhsDims, rhsDims)
  {
    var a := new nat[|lhsDims|](_ => 0);
    for index := 0 to |lhsDims|
      invariant forall k :: 0 <= k < index ==> a[k] == Max(lhsDims[k], rhsDims[k])
    {
      a[index] := Max(lhsDims[index], rhsDims[index]);
    }
    shapeOut := a[..];
  }

  /** `binary`: selects the kernel, allocates on the out-of-place path, launches once. */
  method Binary(lhs: Tensor, rhs: Tensor, inplaceEnabled: bool,
                canMutBroadcast: (Tensor, Tensor) -> bool,
                elemSize: nat, freshHandle: nat) returns (o: Outcome)
    requires |lhs.dims| == |rhs.dims|
    ensures o == Decide(lhs, rhs, inplaceEnabled, canMutBroadcast, elemSize, freshHandle)
  {
    if inplaceEnabled && canMutBroadcast(lhs, rhs) {
      o := Outcome(Launch(OpsInplaceLhs, [lhs, rhs], [], FromInput(0)), None, lhs);
    } else if inplaceEnabled && canMutBroadcast(rhs, lhs) {
      o := Outcome(Launch(OpsInplaceRhs, [lhs, rhs], [], FromInput(1)), None, rhs);
    } else {
      var shapeOut := FillShapeOut(lhs.dims, rhs.dims);
      var numElems := NumElements(shapeOut);
      var out := Tensor(freshHandle, shapeOut);
      o := Outcome(Launch(Ops, [lhs, rhs], [out], FromOutput(0)), Some(numElems * elemSize), out);
    }
  }

  /**
   * Reusing the left operand: both operands are bound as inputs, no output
   * is bound, the launch is sized by input 0, nothing is allocated, and the
   * left operand itself is returned.
   */
  lemma InplaceLhsPath(lhs: Tensor, rhs: Tensor, inplaceEnabled: bool,
                       canMutBroadcast: (Tensor, Tensor) -> bool, elemSize: nat, freshHandle: nat)
    requires |lhs.dims| == |rhs.dims|
    requires inplaceEnabled && canMutBroadcast(lhs, rhs)
    ensures var o := Decide(lhs, rhs, inplaceEnabled, canMutBroadcast, elemSize, freshHandle);
      o.launch == Launch(OpsInplaceLhs, [lhs, rhs], [], FromInput(0)) &&
      o.allocation == None && o.result == lhs
  {
  }

  /**
   * Reusing the right operand, when the left one is not eligible: the
   * operands are still bound in the order [lhs, rhs], the launch is sized by
   * input 1, nothing is allocated, and the right operand is returned.
   */
  lemma InplaceRhsPath(lhs: Tensor, rhs: Tensor, inplaceEnabled: bool,
                       canMutBroadcast: (Tensor, Tensor) -> bool, elemSize: nat, freshHandle: nat)
    requires |lhs.dims| == |rhs.dims|
    requires inplaceEnabled && !canMutBroadcast(lhs, rhs) && canMutBroadcast(rhs, lhs)
    ensures var o := Decide(lhs, rhs, inplaceEnabled, canMutBroadcast, elemSize, freshHandle);
      o.launch == Launch(OpsInplaceRhs, [lhs, rhs], [], FromInput(1)) &&
      o.allocation == None && o.result == rhs
  {
  }

  /**
   * The out-of-place path is taken exactly when in-place reuse is disabled
   * or neither operand is eligible. It allocates one buffer of
   * `product(shape_out) * size_of::<E>()` bytes and returns a new tensor of
   * shape `shape_out`, whose axes are the per-axis maxima of the inputs. It
   * binds that tensor as the only output and sizes the launch by output 0.
   */
  lemma PlainPath(lhs: Tensor, rhs: Tensor, inplaceEnabled: bool,
                  canMutBroadcast: (Tensor, Tensor) -> bool, elemSize: nat, freshHandle: nat)
    requires |lhs.dims| == |rhs.dims|
    ensures var o := Decide(lhs, rhs, inplaceEnabled, canMutBroadcast, elemSize, freshHandle);
      o.launch.kernel == Ops <==>
        !inplaceEnabled || (!canMutBroadcast(lhs, rhs) && !canMutBroadcast(rhs, lhs))
    ensures var o := Decide(lhs, rhs, inplaceEnabled, canMutBroadcast, elemSize, freshHandle);
      o.launch.kernel == Ops ==>
        |o.result.dims| == |lhs.dims| &&
        (forall i :: 0 <= i < |lhs.dims| ==> o.result.dims[i] == Max(lhs.dims[i], rhs.dims[i])) &&
        o.result.handle == freshHandle &&
        o.allocation == Some(NumElements(o.result.dims) * elemSize) &&
        o.launch == Launch(Ops, [lhs, rhs], [o.result], FromOutput(0))
  {
  }

  /** With in-place reuse disabled, eligibility is never consulted. */
  lemma DisabledAlwaysPlain(lhs: Tensor, rhs: Tensor,
                            canMutBroadcast: (Tensor, Tensor) -> bool, elemSize: nat, freshHandle: nat)
    requires |lhs.dims| == |rhs.dims|
    ensures Decide(lhs, rhs, false, canMutBroadcast, elemSize, freshHandle) ==
            Decide(lhs, rhs, false, (a: Tensor, b: Tensor) => false, elemSize, freshHandle)
    ensures Decide(lhs, rhs, false, canMutBroadcast, elemSize, freshHandle).launch.kernel == Ops
  {
  }

  /** The left operand has priority: when both are eligible, the left one is reused. */
  lemma LhsHasPriority(lhs: Tensor, rhs: Tensor,
                       canMutBroadcast: (Tensor, Tensor) -> bool, elemSize: nat, freshHandle: nat)
    requires |lhs.dims| == |rhs.dims|
    requires canMutBroadcast(lhs, rhs) && canMutBroadcast(rhs, lhs)
    ensures Decide(lhs, rhs, true, canMutBroadcast, elemSize, freshHandle).launch.kernel == OpsInplaceLhs
    ensures Decide(lhs, rhs, true, canMutBroadcast, elemSize, freshHandle).result == lhs
  {
  }

  /**
   * On every path exactly one of two things holds. Either nothing is
   * allocated and an operand is returned. Or one buffer is allocated, sized
   * for the returned tensor, and that tensor carries `freshHandle`.
   */
  lemma AllocationOnlyWhenPlain(lhs: Tensor, rhs: Tensor, inplaceEnabled: bool,
                                canMutBroadcast: (Tensor, Tensor) -> bool, elemSize: nat, freshHandle: nat)
    requires |lhs.dims| == |rhs.dims|
    ensures var o := Decide(lhs, rhs, inplaceEnabled, canMutBroadcast, elemSize, freshHandle);
      (o.allocation == None <==> o.launch.kernel != Ops) &&
      (o.allocation == None ==> o.result == lhs || o.result == rhs) &&
      (o.allocation != None ==>
        o.allocation == Some(NumElements(o.result.dims) * elemSize) && o.result.handle == freshHandle)
  {
  }

  /**
   * When the client hands out a handle that neither operand uses, the
   * out-of-place path returns a brand-new tensor distinct from both
   * operands, and the in-place paths return one of them: a result other
   * than the operands appears exactly when a buffer is allocated.
   */
  lemma FreshResultIsNew(lhs: Tensor, rhs: Tensor, inplaceEnabled: bool,
                         canMutBroadcast: (Tensor, Tensor) -> bool, elemSize: nat, freshHandle: nat)
    requires |lhs.dims| == |rhs.dims|
    requires freshHandle != lhs.handle && freshHandle != rhs.handle
    ensures var o := Decide(lhs, rhs, inplaceEnabled, canMutBroadcast, elemSize, freshHandle);
      (o.allocation != None <==> (o.result != lhs && o.result != rhs)) &&
      (o.allocation != None ==> o.result.handle != lhs.handle && o.result.handle != rhs.handle)
  {
  }

  /**
   * The launch is always sized by the returned tensor: the count policy
   * names a bound slot, and that slot holds the result.
   */
  lemma LaunchSizedByResult(lhs: Tensor, rhs: Tensor, inplaceEnabled: bool,
                            canMutBroadcast: (Tensor, Tensor) -> bool, elemSize: nat, freshHandle: nat)
    requires |lhs.dims| == |rhs.dims|
    ensures var o := Decide(lhs, rhs, inplaceEnabled, canMutBroadcast, elemSize, freshHandle);
      CountSource(o.launch) == Some(o.result)
  {
  }

  /**
   * The launch agrees with the definition of the kernel it runs. It binds
   * one tensor per declared input. An output that the kernel's settings
   * alias to an input gets no binding of its own: the launch is sized by
   * that input, and that input is returned. Otherwise the output is bound,
   * the launch is sized by it, and it is returned.
   */
  lemma LaunchMatchesDefinition(lhs: Tensor, rhs: Tensor, inplaceEnabled: bool,
                                canMutBroadcast: (Tensor, Tensor) -> bool, elemSize: nat, freshHandle: nat,
                                elemIn: Elem, elemOut: Elem, local: nat)
    requires |lhs.dims| == |rhs.dims|
    ensures var o := Decide(lhs, rhs, inplaceEnabled, canMutBroadcast, elemSize, freshHandle);
      var d := Define(o.launch.kernel, elemIn, elemOut, local);
      |o.launch.inputs| == |d.inputs| &&
      match AliasOf(d.settings.mappings, 0)
      case Some(p) =>
        o.launch.outputs == [] && o.launch.count == FromInput(p) &&
        p < |o.launch.inputs| && o.result == o.launch.inputs[p]
      case None =>
        |o.launch.outputs| == |d.outputs| && o.launch.count == FromOutput(0) &&
        o.result == o.launch.outputs[0]
  {
    var o := Decide(lhs, rhs, inplaceEnabled, canMutBroadcast, elemSize, freshHandle);
    VariantAliases(o.launch.kernel);
  }

  /**
   * When `can_mut_broadcast` only admits a tensor that is at least as large
   * as the other operand along every axis, all three paths return a tensor
   * of the same shape: the per-axis maximum of the inputs.
   */
  lemma ResultShapeIsBroadcast(lhs: Tensor, rhs: Tensor, inplaceEnabled: bool,
                               canMutBroadcast: (Tensor, Tensor) -> bool, elemSize: nat, freshHandle: nat)
    requires |lhs.dims| == |rhs.dims|
    requires canMutBroadcast(lhs, rhs) ==> Dominates(lhs.dims, rhs.dims)
    requires canMutBroadcast(rhs, lhs) ==> Dominates(rhs.dims, lhs.dims)
    ensures Decide(lhs, rhs, inplaceEnabled, canMutBroadcast, elemSize, freshHandle).result.dims ==
            BroadcastShape(lhs.dims, rhs.dims)
  {
    match Select(lhs, rhs, inplaceEnabled, canMutBroadcast)
    case OpsInplaceLhs =>
      DominatesIffBroadcastIsSelf(lhs.dims, rhs.dims);
    case OpsInplaceRhs =>
      DominatesIffBroadcastIsSelf(rhs.dims, lhs.dims);
      BroadcastCommutes(lhs.dims, rhs.dims);
    case Ops =>
  }

  /**
   * Under the same assumption, the returned tensor holds at least as many
   * elements as either operand, whichever path is taken.
   */
  lemma ResultCoversOperands(lhs: Tensor, rhs: Tensor, inplaceEnabled: bool,
                             canMutBroadcast: (Tensor, Tensor) -> bool, elemSize: nat, freshHandle: nat)
    requires |lhs.dims| == |rhs.dims|
    requires canMutBroadcast(lhs, rhs) ==> Dominates(lhs.dims, rhs.dims)
    requires canMutBroadcast(rhs, lhs) ==> Dominates(rhs.dims, lhs.dims)
    ensures var r := Decide(lhs, rhs, inplaceEnabled, canMutBroadcast, elemSize, freshHandle).result;
      NumElements(lhs.dims) <= NumElements(r.dims) && NumElements(rhs.dims) <= NumElements(r.dims)
  {
    ResultShapeIsBroadcast(lhs, rhs, inplaceEnabled, canMutBroadcast, elemSize, freshHandle);
    BroadcastCoversInputs(lhs.dims, rhs.dims);
  }

  /**
   * Shapes [4, 1] and [1, 3] with in-place reuse disabled: a new [4, 3]
   * tensor of 12 elements is allocated and returned.
   */
  lemma ScenarioColumnTimesRow(canMutBroadcast: (Tensor, Tensor) -> bool, elemSize: nat)
    ensures var o := Decide(Tensor(1, [4, 1]), Tensor(2, [1, 3]), false, canMutBroadcast, elemSize, 3);
      o.result == Tensor(3, [4, 3]) && o.allocation == Some(12 * elemSize)
  {
    var out := BroadcastShape([4, 1], [1, 3]);
    assert out[0] == Max(4, 1) && out[1] == Max(1, 3);
    assert out == [4, 3];
  }

  /**
   * A [4, 3] left operand that can host the result against a [1, 3] right
   * operand is itself returned, and nothing is allocated.
   */
  lemma ScenarioReuseLeft(canMutBroadcast: (Tensor, Tensor) -> bool, elemSize: nat)
    requires canMutBroadcast(Tensor(1, [4, 3]), Tensor(2, [1, 3]))
    ensures var o := Decide(Tensor(1, [4, 3]), Tensor(2, [1, 3]), true, canMutBroadcast, elemSize, 3);
      o.result == Tensor(1, [4, 3]) && o.allocation == None
  {
  }

  /**
   * A shared [4, 3] left operand and an eligible [4, 3] right operand: the
   * right operand is returned, and nothing is allocated.
   */
  lemma ScenarioReuseRight(canMutBroadcast: (Tensor, Tensor) -> bool, elemSize: nat)
    requires !canMutBroadcast(Tensor(1, [4, 3]), Tensor(2, [4, 3]))
    requires canMutBroadcast(Tensor(2, [4, 3]), Tensor(1, [4, 3]))
    ensures var o := Decide(Tensor(1, [4, 3]), Tensor(2, [4, 3]), true, canMutBroadcast, elemSize, 3);
      o.result == Tensor(2, [4, 3]) && o.allocation == None && o.launch.count == FromInput(1)
  {
  }

}
