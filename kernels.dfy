/**
 * The three kernels that the `binary!` macro generates for one elementwise
 * operation. They all go through the same `compile` step. They differ only in
 * the launch settings they pass: no in-place mapping, output 0 aliasing input
 * 0, or output 0 aliasing input 1. The IR of the operation itself stays
 * abstract. A definition records only its declared inputs, its declared
 * outputs and its settings.
 */
module Kernels {
  import opened Wrappers

  /** Token for an element kind (`I::cube_elem()`, `O::cube_elem()`). */
  datatype Elem = Elem(name: string)

  datatype Visibility = Read | ReadWrite

  /** The symbolic position an output is written at. */
  datatype Variable = AbsolutePos

  /** A declared kernel input. The item type is the element kind, unvectorised. */
  datatype InputInfo = Array(item: Elem, visibility: Visibility)

  /** A declared kernel output: written from IR local `local` at `position`. */
  datatype OutputInfo = ArrayWrite(item: Elem, local: nat, position: Variable)

  /** Output slot `posOutput` is materialised in the buffer of input slot `posInput`. */
  datatype InplaceMapping = InplaceMapping(posInput: nat, posOutput: nat)

  datatype KernelSettings = KernelSettings(mappings: seq<InplaceMapping>)
  {
    /** `KernelSettings::inplace`: replaces the in-place mappings. */
    function Inplace(ms: seq<InplaceMapping>): KernelSettings
    {
      this.(mappings := ms)
    }
  }

  /** `KernelSettings::default()`: no in-place mapping. */
  const DefaultSettings := KernelSettings([])

  datatype KernelDefinition = KernelDefinition(
    inputs: seq<InputInfo>,
    outputs: seq<OutputInfo>,
    settings: KernelSettings)

  /** The three generated kernel types. */
  datatype Variant = Ops | OpsInplaceLhs | OpsInplaceRhs

  /**
   * `compile`: two read-only array inputs of the input element kind, for the
   * left and the right operand, and one array output of the output element
   * kind, bound to the local that the operation registered last and written
   * at the absolute position. `local` stands for
   * `scope.last_local_index()` after the operation is registered.
   */
  function Compile(elemIn: Elem, elemOut: Elem, local: nat, settings: KernelSettings): KernelDefinition
  {
    var lhs := Array(elemIn, Read);
    var rhs := Array(elemIn, Read);
    var out := ArrayWrite(elemOut, local, AbsolutePos);
    KernelDefinition([lhs, rhs], [out], settings)
  }

  /** The settings each variant's `define` passes to `compile`. */
  function Settings(v: Variant): KernelSettings
  {
    match v
    case Ops => DefaultSettings
    case OpsInplaceLhs => DefaultSettings.Inplace([InplaceMapping(0, 0)])
    case OpsInplaceRhs => DefaultSettings.Inplace([InplaceMapping(1, 0)])
  }

  /** `Kernel::define` of each variant. */
  function Define(v: Variant, elemIn: Elem, elemOut: Elem, local: nat): KernelDefinition
  {
    Compile(elemIn, elemOut, local, Settings(v))
  }

  /** Recovers the variant from its settings, or None for settings no variant uses. */
  function VariantOf(s: KernelSettings): Option<Variant>
  {
    if s.mappings == [] then Some(Ops)
    else if s.mappings == [InplaceMapping(0, 0)] then Some(OpsInplaceLhs)
    else if s.mappings == [InplaceMapping(1, 0)] then Some(OpsInplaceRhs)
    else None
  }

  /**
   * The input slot whose buffer holds output slot `out`, found by the first
   * mapping that names `out`; None when the output has its own buffer.
   */
  function AliasOf(ms: seq<InplaceMapping>, out: nat): (r: Option<nat>)
    ensures r.None? <==> forall k :: 0 <= k < |ms| ==> ms[k].posOutput != out
    ensures r.Some? ==> exists k :: 0 <= k < |ms| && ms[k] == InplaceMapping(r.value, out) &&
                                    (forall j :: 0 <= j < k ==> ms[j].posOutput != out)
  {
    if |ms| == 0 then None
    else if ms[0].posOutput == out then Some(ms[0].posInput)
    else
      var r := AliasOf(ms[1..], out);
      if r.Some? then
        var k :| 0 <= k < |ms[1..]| && ms[1..][k] == InplaceMapping(r.value, out) &&
                 (forall j :: 0 <= j < k ==> ms[1..][j].posOutput != out);
        assert ms[k + 1] == InplaceMapping(r.value, out);
        assert forall j :: 0 <= j < k + 1 ==> ms[j].posOutput != out by {
          forall j | 0 < j < k + 1
            ensures ms[j].posOutput != out
          {
            assert ms[j] == ms[1..][j - 1];
          }
        }
        r
      else
        r
  }

  /** The declaration shape that `compile` gives every definition. */
  lemma CompileDeclaration(elemIn: Elem, elemOut: Elem, local: nat, settings: KernelSettings)
    ensures var d := Compile(elemIn, elemOut, local, settings);
      |d.inputs| == 2 && |d.outputs| == 1 && d.settings == settings &&
      (forall k :: 0 <= k < |d.inputs| ==> d.inputs[k] == Array(elemIn, Read)) &&
      d.outputs[0] == ArrayWrite(elemOut, local, AbsolutePos)
  {
  }

  /** Which input slot, if any, each variant's output 0 aliases. */
  lemma VariantAliases(v: Variant)
    ensures AliasOf(Settings(v).mappings, 0) ==
      match v
      case Ops => None
      case OpsInplaceLhs => Some(0)
      case OpsInplaceRhs => Some(1)
  {
  }

  /** The settings of each variant identify it, and no other settings do. */
  lemma SettingsRoundTrip(v: Variant, s: KernelSettings)
    ensures VariantOf(Settings(v)) == Some(v)
    ensures VariantOf(s) == Some(v) ==> s == Settings(v)
  {
  }

  /**
   * The three variants declare the same inputs and outputs and differ only in
   * their settings, which are distinct for distinct variants.
   */
  lemma DefinitionsDifferOnlyInSettings(v: Variant, w: Variant, elemIn: Elem, elemOut: Elem, local: nat)
    ensures Define(v, elemIn, elemOut, local).inputs == Define(w, elemIn, elemOut, local).inputs
    ensures Define(v, elemIn, elemOut, local).outputs == Define(w, elemIn, elemOut, local).outputs
    ensures Define(v, elemIn, elemOut, local) == Define(w, elemIn, elemOut, local) <==> v == w
  {
    if Define(v, elemIn, elemOut, local) == Define(w, elemIn, elemOut, local) {
      SettingsRoundTrip(v, Settings(w));
      SettingsRoundTrip(w, Settings(w));
    }
  }

  /**
   * Every in-place mapping of every variant names an input slot and an
   * output slot that the definition declares, and the aliased buffer has the
   * output's element kind exactly when the input and output kinds agree.
   */
  lemma MappingsWellFormed(v: Variant, elemIn: Elem, elemOut: Elem, local: nat)
    ensures var d := Define(v, elemIn, elemOut, local);
      forall m :: m in d.settings.mappings ==>
        m.posInput < |d.inputs| && m.posOutput < |d.outputs| &&
        (d.inputs[m.posInput].item == d.outputs[m.posOutput].item <==> elemIn == elemOut)
  {
  }

}
