# Binary-operation dispatch of burn-jit, modelled in Dafny

This project models the elementwise binary-operation launcher of burn's JIT
backend (`crates/burn-jit/src/kernel/binary.rs`). It covers two parts:

- **The three generated kernels** (module `Kernels`, `kernels.dfy`). The
  `binary!` macro produces `Ops`, `OpsInplaceLhs` and `OpsInplaceRhs`. Each
  one's `define` calls the same `compile`, which declares two read-only array
  inputs of the input element kind and one `ArrayWrite` output of the output
  element kind, written at the absolute position. The three differ only in
  their `KernelSettings`: no mapping, input 0 → output 0, or input 1 → output 0.
  A kernel definition is modelled as its declared inputs, outputs and settings.
- **The dispatcher `binary`** (module `Dispatch`, `dispatch.dfy`). Given two
  tensors of the same rank, it reuses the left operand when in-place reuse is
  enabled and `lhs.can_mut_broadcast(&rhs)` holds. Otherwise it reuses the
  right operand when in-place reuse is enabled and `rhs.can_mut_broadcast(&lhs)`
  holds. Otherwise it computes the per-axis maximum shape in a loop over an
  array (`FillShapeOut`) and allocates `num_elements * size_of::<E>()` bytes for a new tensor. It
  launches the chosen kernel once and returns the tensor that holds the
  result. A call is described by an `Outcome` with these parts:
  - the launch: the kernel, the bound inputs, the bound outputs, and the
    launch-count policy (`CubeCountSettings::Input`/`Output` with a position);
  - the allocated byte size, if any;
  - the returned tensor.

  `Decide` is the specification function. The method `Binary` mirrors the
  source and is proved equal to it.
- **Shapes** (module `Shapes`, `shapes.dfy`) holds four things:
  - the per-axis maximum;
  - the element count (product of dimensions);
  - dominance (at least as large along every axis);
  - broadcasting compatibility (equal sizes or a size of 1).

A tensor is its buffer handle and its shape. `can_mut_broadcast` is a
function parameter, because its definition on `JitTensor` is not part of this
model. The handle that `client.empty` returns is a parameter (`freshHandle`).
`size_of::<E>()` is a parameter too (`elemSize`).

The source never checks that the two shapes are broadcast-compatible. It
simply takes the per-axis `max`. For compatible shapes without empty axes
this is the broadcasting rule (`BroadcastOfCompatible`). A size-1 axis against
a size-0 axis gives 1, where broadcasting gives 0 (`EmptyAxisKeepsOne`).

## Model

| member | source | states |
|---|---|---|
| Shapes.BroadcastShape | crates/burn-jit/src/kernel/binary.rs:175-185 | the output shape has the inputs' rank, and each axis is at least both input sizes and equal to one of them |
| Shapes.BroadcastCommutes | crates/burn-jit/src/kernel/binary.rs:181-182 | the per-axis maximum is the same with the operands swapped |
| Shapes.DominatesIffBroadcastIsSelf | crates/burn-jit/src/kernel/binary.rs:175-185 | a shape is at least the other along every axis iff broadcasting against the other leaves it unchanged (both directions) |
| Shapes.BroadcastOfCompatible | crates/burn-jit/src/kernel/binary.rs:175-185 | for compatible shapes with no empty axis, a size-1 axis takes the other operand's size, otherwise the sizes agree |
| Shapes.EmptyAxisKeepsOne | crates/burn-jit/src/kernel/binary.rs:182 | compatible shapes [1] and [0] give [1], not the broadcast [0] |
| Shapes.NumElements | crates/burn-jit/src/kernel/binary.rs:186 | the element count of a shape is zero exactly when some axis is empty |
| Shapes.NumElementsMonotone | crates/burn-jit/src/kernel/binary.rs:186 | growing a shape along any axes never lowers its element count |
| Shapes.BroadcastCoversInputs | crates/burn-jit/src/kernel/binary.rs:185-187 | the out-of-place output has at least as many elements as either input |
| Kernels.KernelSettings.Inplace | crates/burn-jit/src/kernel/binary.rs:114-115 | defines `KernelSettings::inplace`: the settings with their mappings replaced by the given list |
| Kernels.Compile | crates/burn-jit/src/kernel/binary.rs:52-86 | defines `compile`: two read-only array inputs of the input kind, one `ArrayWrite` output of the output kind at the absolute position, and the given settings (stated in `CompileDeclaration`) |
| Kernels.Settings | crates/burn-jit/src/kernel/binary.rs:95-136 | defines each variant's settings: default, in-place 0 → 0, in-place 1 → 0 (stated in `VariantAliases` and `SettingsRoundTrip`) |
| Kernels.Define | crates/burn-jit/src/kernel/binary.rs:95-136 | defines each variant's `define` as `compile` with that variant's settings (stated in `DefinitionsDifferOnlyInSettings`) |
| Kernels.AliasOf | crates/burn-jit/src/kernel/binary.rs:110-115 | returns an input slot exactly when some mapping names the output slot, and then it is the input of the first such mapping |
| Kernels.CompileDeclaration | crates/burn-jit/src/kernel/binary.rs:59-85 | every definition has exactly two `Array` inputs of the input kind with `Read` visibility and one `ArrayWrite` output of the output kind at `AbsolutePos`, carrying the given settings |
| Kernels.VariantAliases | crates/burn-jit/src/kernel/binary.rs:95-136 | `Ops` aliases no input to output 0, `OpsInplaceLhs` aliases input 0, `OpsInplaceRhs` aliases input 1 |
| Kernels.SettingsRoundTrip | crates/burn-jit/src/kernel/binary.rs:95-136 | the settings of each variant identify that variant, and only those settings do |
| Kernels.DefinitionsDifferOnlyInSettings | crates/burn-jit/src/kernel/binary.rs:95-136 | the three variants declare identical inputs and outputs, and two definitions are equal iff the variants are |
| Kernels.MappingsWellFormed | crates/burn-jit/src/kernel/binary.rs:67-84 | every mapping names a declared input and output slot, and the aliased slots share an element kind iff input and output kinds agree |
| Dispatch.FillShapeOut | crates/burn-jit/src/kernel/binary.rs:175-183 | the loop leaves each axis of `shape_out` at the maximum of the two input sizes |
| Dispatch.Select | crates/burn-jit/src/kernel/binary.rs:156-174 | defines the branch taken: lhs reuse if enabled and lhs eligible, else rhs reuse if enabled and rhs eligible, else the plain kernel |
| Dispatch.Decide | crates/burn-jit/src/kernel/binary.rs:142-204 | defines the outcome of `binary` (launch, allocation, returned tensor) on each branch; the lemmas below state its properties |
| Dispatch.Binary | crates/burn-jit/src/kernel/binary.rs:142-204 | the method's outcome equals the specification `Decide` on every input |
| Dispatch.InplaceLhsPath | crates/burn-jit/src/kernel/binary.rs:156-164 | enabled and lhs eligible: lhs-inplace kernel, inputs [lhs, rhs], no outputs, launch sized by input 0, no allocation, lhs returned |
| Dispatch.InplaceRhsPath | crates/burn-jit/src/kernel/binary.rs:165-173 | enabled, lhs not eligible, rhs eligible: rhs-inplace kernel, inputs [lhs, rhs], no outputs, launch sized by input 1, no allocation, rhs returned |
| Dispatch.PlainPath | crates/burn-jit/src/kernel/binary.rs:174-202 | plain kernel iff reuse is disabled or neither operand is eligible; then per-axis max shape, new handle, one allocation of elements × element size, output [out], launch sized by output 0 |
| Dispatch.DisabledAlwaysPlain | crates/burn-jit/src/kernel/binary.rs:156-174 | with reuse disabled the outcome does not depend on eligibility and the plain kernel runs |
| Dispatch.LhsHasPriority | crates/burn-jit/src/kernel/binary.rs:156-173 | when both operands are eligible the left one is reused |
| Dispatch.AllocationOnlyWhenPlain | crates/burn-jit/src/kernel/binary.rs:186-188 | nothing is allocated iff an in-place kernel runs, and then an operand is returned; otherwise one buffer sized for the returned tensor backs it |
| Dispatch.FreshResultIsNew | crates/burn-jit/src/kernel/binary.rs:186-202 | if the new buffer's handle differs from both operands', a result other than the operands appears exactly when a buffer is allocated, and that result's handle differs from both operands' handles |
| Dispatch.LaunchSizedByResult | crates/burn-jit/src/kernel/binary.rs:162-200 | on every path the launch-count policy names a bound slot that holds the returned tensor |
| Dispatch.LaunchMatchesDefinition | crates/burn-jit/src/kernel/binary.rs:156-200 | the launch binds one tensor per declared input; an aliased output is unbound and the launch is sized by and returns the aliased input, otherwise the output is bound, sizes the launch and is returned |
| Dispatch.ResultShapeIsBroadcast | crates/burn-jit/src/kernel/binary.rs:156-185 | if eligibility implies dominance, all three paths return a tensor whose shape is the per-axis maximum |
| Dispatch.ResultCoversOperands | crates/burn-jit/src/kernel/binary.rs:156-188 | under the same assumption the returned tensor has at least as many elements as either operand |
| Dispatch.ScenarioColumnTimesRow | crates/burn-jit/src/kernel/binary.rs:174-202 | [4, 1] and [1, 3] with reuse disabled give a new [4, 3] tensor and an allocation of 12 elements |
| Dispatch.ScenarioReuseLeft | crates/burn-jit/src/kernel/binary.rs:156-164 | an eligible [4, 3] lhs against [1, 3] is returned without allocation |
| Dispatch.ScenarioReuseRight | crates/burn-jit/src/kernel/binary.rs:165-173 | a non-eligible lhs and an eligible rhs: rhs is returned, launch sized by input 1, no allocation |

## Left out

- The IR built inside `compile` is not modelled: `Scope::root`, the operation fragment, `scope.register` and `KernelIntegrator::integrate`. The index that `last_local_index()` yields is a parameter of `Compile`, and the panic when it is absent is not modelled.
- A definition's `Read` inputs are modelled as `compile` declares them. What `integrate` does with an in-place mapping (such as widening the visibility) belongs to the kernel compiler and is not part of this model.
- The device client is not modelled: `Execution::start`, `.execute` and `client.empty`. Launches and allocations are recorded as data, and allocation failure is not modelled. Which client object starts a launch (`rhs.client` or `lhs.client`) has no effect in the model.
- The body of `JitTensor::can_mut_broadcast` is not part of this model. It is a function parameter. `ResultShapeIsBroadcast` and `ResultCoversOperands` assume only that eligibility implies per-axis dominance.
- Strides and devices of tensors are not modelled. `JitTensor::new_contiguous` is represented by a tensor carrying the new handle and the output shape, and its stride computation is not modelled.
- Dispatch.FreshResultIsNew: that `client.empty` hands back a handle no live tensor uses is the client's guarantee, not something the model derives. The lemma takes it as a hypothesis, and the other lemmas leave `freshHandle` unconstrained.
- `num_elements() * size_of::<E>()` is computed on unbounded integers. A `usize` overflow of that product is not modelled.
- The elementwise values the kernels compute are not modelled, so neither is the fact that the three variants give identical results. Queue ordering and buffer ownership across concurrent launches are not modelled either.
- The first arm of `binary!` always calls `binary` with `inplace_enabled = true`. The model keeps the flag as a parameter, which covers that call as well. The element and compiler types carried in `PhantomData` have no runtime data, so element kinds are plain tokens.
