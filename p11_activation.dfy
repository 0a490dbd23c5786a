/** The six activation variants of Network_P11 (Network_P11/Activation.h): the GlobalError set
    shifted and rescaled so that every output range is centred on zero. */
module P11Activation {
  import opened ActivationInterface
  import GlobalErrorActivation

  /** The `<cmath>` functions used by Sigmoid, Gauss and CosWave, left uninterpreted. */
  datatype Cmath = Cmath(exp: real -> real, tanh: real -> real, cos: real -> real, sin: real -> real)

  // ----- LRelu, shifted down by one -----

  /** Leaky ReLU shifted by -1: `z - 1` above zero, `0.01 * z - 1` otherwise. */
  function LReluEval(z: real): (y: real)
    ensures y > -1.0 <==> z > 0.0
    ensures z == 0.0 ==> y == -1.0
  {
    if z > 0.0 then z - 1.0 else z * 0.01 - 1.0
  }

  /** The shifted unit is the GlobalError LRelu minus one. Its derivative is the GlobalError
      one unchanged (Network_P11/Activation.h:94-96 repeats it), so it is not defined again. */
  lemma LReluIsShiftedGlobalError(z: real)
    ensures LReluEval(z) == GlobalErrorActivation.LReluEval(z) - 1.0
  {
  }

  /** The derivative is the exact slope of `LReluEval` on each side of zero. */
  lemma LReluSlope(z1: real, z2: real)
    requires (z1 > 0.0 && z2 > 0.0) || (z1 <= 0.0 && z2 <= 0.0)
    ensures LReluEval(z2) - LReluEval(z1) == GlobalErrorActivation.LReluDerivative(z1) * (z2 - z1)
  {
  }

  // Triangle (Network_P11/Activation.h:103-117) is the GlobalError Triangle verbatim:
  // `GlobalErrorActivation.TriangleEval` and `TriangleDerivative` serve both.

  // ----- TriangleWave, period 8 -----

  /** The phase `lz = (z/8 - floor(z/8)) * 4 - 2` of the period-8 wave; it lies in [-2, 2). */
  function TriangleWavePhase(z: real): (lz: real)
    ensures -2.0 <= lz < 2.0
  {
    (z / 8.0 - (z / 8.0).Floor as real) * 4.0 - 2.0
  }

  /** TriangleWave: `|lz| - 1`, a wave between -1 and 1 with period 8. */
  function TriangleWaveEval(z: real): (y: real)
    ensures -1.0 <= y <= 1.0
    ensures var lz := TriangleWavePhase(z); y == (if lz < 0.0 then -lz else lz) - 1.0
  {
    var lz := TriangleWavePhase(z);
    if lz > 0.0 then lz - 1.0 else -lz - 1.0
  }

  /** Its derivative: +1 exactly when the phase is positive, otherwise -1. */
  function TriangleWaveDerivative(z: real): (d: real)
    ensures d == 1.0 <==> TriangleWavePhase(z) > 0.0
    ensures d == -1.0 <==> TriangleWavePhase(z) <= 0.0
  {
    var lz := TriangleWavePhase(z);
    if lz > 0.0 then 1.0 else -1.0
  }

  /** Shifting z by one period leaves the phase, the value and the derivative unchanged. */
  lemma TriangleWavePeriodic(z: real)
    ensures TriangleWavePhase(z + 8.0) == TriangleWavePhase(z)
    ensures TriangleWaveEval(z + 8.0) == TriangleWaveEval(z)
    ensures TriangleWaveDerivative(z + 8.0) == TriangleWaveDerivative(z)
  {
    assert (z + 8.0) / 8.0 == z / 8.0 + 1.0;
  }

  /** Within one linear piece (same period, phase on the same side of zero) the value changes
      by `derivative * Δz / 2`: the returned derivative is the slope of `eval` scaled by 2. */
  lemma TriangleWaveSlope(z1: real, z2: real)
    requires (z1 / 8.0).Floor == (z2 / 8.0).Floor
    requires (TriangleWavePhase(z1) > 0.0 && TriangleWavePhase(z2) > 0.0)
          || (TriangleWavePhase(z1) <= 0.0 && TriangleWavePhase(z2) <= 0.0)
    ensures TriangleWaveEval(z2) - TriangleWaveEval(z1) == TriangleWaveDerivative(z1) * (z2 - z1) / 2.0
  {
  }

  // ----- Sigmoid (tanh), Gauss, CosWave -----

  /** tanh derivative written in terms of the output: `1 - y * y`; z is not used. */
  function SigmoidDerivative(z: real, y: real): real
  {
    1.0 - y * y
  }

  /** For outputs in [-1, 1] the tanh derivative lies in [0, 1], whatever z is. */
  lemma SigmoidDerivativeBounds(z: real, y: real)
    requires -1.0 <= y <= 1.0
    ensures 0.0 <= SigmoidDerivative(z, y) <= 1.0
  {
    assert 1.0 - y * y == (1.0 - y) * (1.0 + y);
    GlobalErrorActivation.MulNonNegative(1.0 - y, 1.0 + y);
    GlobalErrorActivation.MulNonNegative(y, y);
  }

  /** Derivative of `2 exp(-z^2) - 1` in terms of the output: `-2 * z * (y + 1)`. For an output
      above -1 its sign is opposite to that of z. */
  function GaussDerivative(z: real, y: real): (d: real)
    ensures y > -1.0 ==> (d < 0.0 <==> z > 0.0) && (d > 0.0 <==> z < 0.0)
  {
    -2.0 * z * (y + 1.0)
  }

  // ----- dispatch over the six variants -----

  /** `eval` of the variant tagged `t`. */
  function Eval(m: Cmath, t: Type, z: real): real
  {
    match t
    case Sigmoid => m.tanh(z)
    case Gauss => 2.0 * m.exp(-z * z) - 1.0
    case CosWave => m.cos(z)
    case LRelu => LReluEval(z)
    case Triangle => GlobalErrorActivation.TriangleEval(z)
    case TriangleWave => TriangleWaveEval(z)
  }

  /** `derivative` of the variant tagged `t`. */
  function Derivative(m: Cmath, t: Type, z: real, y: real): real
  {
    match t
    case Sigmoid => SigmoidDerivative(z, y)
    case Gauss => GaussDerivative(z, y)
    case CosWave => -m.sin(z)
    case LRelu => GlobalErrorActivation.LReluDerivative(z)
    case Triangle => GlobalErrorActivation.TriangleDerivative(z)
    case TriangleWave => TriangleWaveDerivative(z)
  }

  /** The constructor of each variant: its tag, its `eval`/`derivative`, and the
      `(learnRate, alpha, bias)` it passes to the base constructor. */
  function New(m: Cmath, t: Type): (f: AFunction)
    ensures f.GetType() == t
    ensures forall z: real :: f.eval(z) == Eval(m, t, z)
    ensures forall z: real, y: real :: f.derivative(z, y) == Derivative(m, t, z, y)
    ensures f.learnRate > 0.0 && f.alpha > 0.0 && f.bias == 0.0
  {
    var e := (z: real) => Eval(m, t, z);
    var d := (z: real, y: real) => Derivative(m, t, z, y);
    match t
    case Sigmoid => AFunction(t, e, d, 0.002, 1.0, 0.0)
    case Gauss => AFunction(t, e, d, 0.001, 0.5, 0.0)
    case CosWave => AFunction(t, e, d, 0.002, GlobalErrorActivation.Pi / 2.0, 0.0)
    case LRelu => AFunction(t, e, d, 0.001, 1.0, 0.0)
    case Triangle => AFunction(t, e, d, 0.001, 1.0, 0.0)
    case TriangleWave => AFunction(t, e, d, 0.001, 1.0, 0.0)
  }

  /** The `(learnRate, alpha, bias)` each variant's constructor passes to `AFunction`. */
  lemma NewConstants(m: Cmath, t: Type)
    ensures var f := New(m, t);
      && (t == Sigmoid ==> f.learnRate == 0.002 && f.alpha == 1.0 && f.bias == 0.0)
      && (t == Gauss ==> f.learnRate == 0.001 && f.alpha == 0.5 && f.bias == 0.0)
      && (t == CosWave ==> f.learnRate == 0.002 && f.alpha == GlobalErrorActivation.Pi / 2.0 && f.bias == 0.0)
      && (t == LRelu ==> f.learnRate == 0.001 && f.alpha == 1.0 && f.bias == 0.0)
      && (t == Triangle ==> f.learnRate == 0.001 && f.alpha == 1.0 && f.bias == 0.0)
      && (t == TriangleWave ==> f.learnRate == 0.001 && f.alpha == 1.0 && f.bias == 0.0)
  {
  }
}
