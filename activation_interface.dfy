/** The activation-function capability shared by every layer: the abstract class `AFunction`
    of both `Activation.h` files, with its two virtual members carried as function values. */
module ActivationInterface {

  /** `AFunction::Type`, the tag each variant's `getType` returns. */
  datatype Type = Sigmoid | Gauss | CosWave | LRelu | Triangle | TriangleWave

  /** One activation object: its tag, `eval(z)`, `derivative(z, y)` and the three
      hyperparameters the base constructor stores. */
  datatype AFunction = AFunction(
    kind: Type,
    eval: real -> real,
    derivative: (real, real) -> real,
    learnRate: real,
    alpha: real,
    bias: real)
  {
    /** `getType()`. */
    function GetType(): Type { kind }
  }

  // ---------------------------------------------------------------------------------------
  // The activation applied to a whole layer.

  /** The activation applied entry by entry. */
  function Activate(act: AFunction, z: seq<real>): (y: seq<real>)
    ensures |y| == |z|
  {
    ActivateUpTo(act, z, |z|)
  }

  /** The activations of the first k entries. */
  function ActivateUpTo(act: AFunction, z: seq<real>, k: nat): (y: seq<real>)
    requires k <= |z|
    ensures |y| == k
    decreases k
  {
    if k == 0 then [] else ActivateUpTo(act, z, k - 1) + [act.eval(z[k - 1])]
  }

  lemma {:induction false} ActivateUpToAt(act: AFunction, z: seq<real>, k: nat, n: nat)
    requires n < k <= |z|
    ensures ActivateUpTo(act, z, k)[n] == act.eval(z[n])
    decreases k
  {
    if n < k - 1 {
      ActivateUpToAt(act, z, k - 1, n);
    }
  }

  /** Entry n of the activations is the activation of entry n. */
  lemma ActivateAt(act: AFunction, z: seq<real>, n: nat)
    requires n < |z|
    ensures Activate(act, z)[n] == act.eval(z[n])
  {
    ActivateUpToAt(act, z, |z|, n);
  }

  /** The local gradient `dE_dZ[n] = dE[n] * f'(Z[n], Y[n])` of every neuron. */
  function LocalGradient(act: AFunction, dE: seq<real>, Z: seq<real>, Y: seq<real>): (g: seq<real>)
    requires |Z| == |Y| <= |dE|
    ensures |g| == |Z|
  {
    LocalGradientUpTo(act, dE, Z, Y, |Z|)
  }

  /** The local gradients of the first k neurons. */
  function LocalGradientUpTo(act: AFunction, dE: seq<real>, Z: seq<real>, Y: seq<real>, k: nat): (g: seq<real>)
    requires k <= |Z| == |Y| <= |dE|
    ensures |g| == k
    decreases k
  {
    if k == 0 then []
    else LocalGradientUpTo(act, dE, Z, Y, k - 1) + [dE[k - 1] * act.derivative(Z[k - 1], Y[k - 1])]
  }

  lemma {:induction false} LocalGradientUpToAt(act: AFunction, dE: seq<real>, Z: seq<real>, Y: seq<real>, k: nat, n: nat)
    requires n < k <= |Z| == |Y| <= |dE|
    ensures LocalGradientUpTo(act, dE, Z, Y, k)[n] == dE[n] * act.derivative(Z[n], Y[n])
    decreases k
  {
    if n < k - 1 {
      LocalGradientUpToAt(act, dE, Z, Y, k - 1, n);
    }
  }

  /** Entry n of the local gradient is the error times the derivative at neuron n. */
  lemma LocalGradientAt(act: AFunction, dE: seq<real>, Z: seq<real>, Y: seq<real>, n: nat)
    requires n < |Z| == |Y| <= |dE|
    ensures LocalGradient(act, dE, Z, Y)[n] == dE[n] * act.derivative(Z[n], Y[n])
  {
    LocalGradientUpToAt(act, dE, Z, Y, |Z|, n);
  }
}
