/** The six activation variants of the GlobalError experiment (exp/GlobalError/Activation.h).
    The piecewise variants are exact over the reals; the transcendental ones use the
    `<cmath>` primitives as abstract functions. */
module GlobalErrorActivation {
  import opened ActivationInterface

  /** A real function with strictly positive values (what `exp` is). */
  type PositiveFunction = f: real -> real | forall x: real :: f(x) > 0.0 witness (x: real) => 1.0

  /** The `<cmath>` functions used by Sigmoid, Gauss and CosWave, left uninterpreted. */
  datatype Cmath = Cmath(exp: PositiveFunction, cos: real -> real, sin: real -> real)

  // ----- LRelu -----

  /** Leaky ReLU: identity above zero, slope 0.01 at and below zero. It keeps the sign of z. */
  function LReluEval(z: real): (y: real)
    ensures y > 0.0 <==> z > 0.0
    ensures y <= 0.0 ==> y == 0.01 * z
  {
    if z > 0.0 then z else z * 0.01
  }

  /** Its derivative: 1 above zero, 0.01 otherwise; always positive. */
  function LReluDerivative(z: real): (d: real)
    ensures d > 0.0
    ensures d == 1.0 || d == 0.01
  {
    if z > 0.0 then 1.0 else 0.01
  }

  /** The derivative is the exact slope of `LReluEval` on each side of zero. */
  lemma LReluSlope(z1: real, z2: real)
    requires (z1 > 0.0 && z2 > 0.0) || (z1 <= 0.0 && z2 <= 0.0)
    ensures LReluEval(z2) - LReluEval(z1) == LReluDerivative(z1) * (z2 - z1)
  {
  }

  /** LRelu is strictly increasing. */
  lemma LReluIncreasing(z1: real, z2: real)
    requires z1 < z2
    ensures LReluEval(z1) < LReluEval(z2)
  {
  }

  // ----- Triangle -----

  /** Triangle: `1 - |z|`, peak 1 at zero. */
  function TriangleEval(z: real): (y: real)
    ensures y == 1.0 - (if z < 0.0 then -z else z)
    ensures y <= 1.0 && (y == 1.0 <==> z == 0.0)
  {
    if z > 0.0 then -z + 1.0 else z + 1.0
  }

  /** Its derivative: -1 above zero, +1 otherwise. */
  function TriangleDerivative(z: real): (d: real)
    ensures d == -1.0 <==> z > 0.0
    ensures d == 1.0 <==> z <= 0.0
  {
    if z > 0.0 then -1.0 else 1.0
  }

  /** The derivative is the exact slope of `TriangleEval` on each side of zero. */
  lemma TriangleSlope(z1: real, z2: real)
    requires (z1 > 0.0 && z2 > 0.0) || (z1 <= 0.0 && z2 <= 0.0)
    ensures TriangleEval(z2) - TriangleEval(z1) == TriangleDerivative(z1) * (z2 - z1)
  {
  }

  // ----- TriangleWave -----

  /** The phase `lz = z/4 - floor(z/4) - 0.5` of the period-4 wave; it lies in [-0.5, 0.5). */
  function TriangleWavePhase(z: real): (lz: real)
    ensures -0.5 <= lz < 0.5
  {
    z / 4.0 - (z / 4.0).Floor as real - 0.5
  }

  /** TriangleWave: `1 - |lz|`, a wave between 0.5 and 1 with period 4. */
  function TriangleWaveEval(z: real): (y: real)
    ensures 0.5 <= y <= 1.0
    ensures var lz := TriangleWavePhase(z); y == 1.0 - (if lz < 0.0 then -lz else lz)
  {
    var lz := TriangleWavePhase(z);
    if lz > 0.0 then -lz + 1.0 else lz + 1.0
  }

  /** Its derivative: -1 exactly when the phase is positive, otherwise +1. */
  function TriangleWaveDerivative(z: real): (d: real)
    ensures d == -1.0 <==> TriangleWavePhase(z) > 0.0
    ensures d == 1.0 <==> TriangleWavePhase(z) <= 0.0
  {
    var lz := TriangleWavePhase(z);
    if lz > 0.0 then -1.0 else 1.0
  }

  /** Shifting z by one period leaves the phase, the value and the derivative unchanged. */
  lemma TriangleWavePeriodic(z: real)
    ensures TriangleWavePhase(z + 4.0) == TriangleWavePhase(z)
    ensures TriangleWaveEval(z + 4.0) == TriangleWaveEval(z)
    ensures TriangleWaveDerivative(z + 4.0) == TriangleWaveDerivative(z)
  {
    assert (z + 4.0) / 4.0 == z / 4.0 + 1.0;
  }

  /** Within one linear piece (same period, phase on the same side of zero) the value changes
      by `derivative * Δz / 4`: the returned derivative is the slope of `eval` scaled by 4. */
  lemma TriangleWaveSlope(z1: real, z2: real)
    requires (z1 / 4.0).Floor == (z2 / 4.0).Floor
    requires (TriangleWavePhase(z1) > 0.0 && TriangleWavePhase(z2) > 0.0)
          || (TriangleWavePhase(z1) <= 0.0 && TriangleWavePhase(z2) <= 0.0)
    ensures TriangleWaveEval(z2) - TriangleWaveEval(z1) == TriangleWaveDerivative(z1) * (z2 - z1) / 4.0
  {
  }

  // ----- Sigmoid, Gauss, CosWave -----

  /** Logistic derivative written in terms of the output: `y * (1 - y)`; z is not used. */
  function SigmoidDerivative(z: real, y: real): real
  {
    y * (1.0 - y)
  }

  /** For outputs in [0, 1] the logistic derivative lies in [0, 1/4], whatever z is. */
  lemma SigmoidDerivativeBounds(z: real, y: real)
    requires 0.0 <= y <= 1.0
    ensures 0.0 <= SigmoidDerivative(z, y) <= 0.25
  {
    assert 0.25 - y * (1.0 - y) == (y - 0.5) * (y - 0.5);
    assert 0.0 <= 1.0 - y;
    MulNonNegative(y, 1.0 - y);
    MulNonNegative(y - 0.5, y - 0.5);
  }

  lemma MulNonNegative(a: real, b: real)
    requires (0.0 <= a && 0.0 <= b) || (a == b)
    ensures 0.0 <= a * b
  {
  }

  /** Gaussian derivative written in terms of the output: `-2 * z * y`. For a positive output
      its sign is opposite to that of z. */
  function GaussDerivative(z: real, y: real): (d: real)
    ensures y > 0.0 ==> (d < 0.0 <==> z > 0.0) && (d > 0.0 <==> z < 0.0)
  {
    -2.0 * z * y
  }

  // ----- dispatch over the six variants -----

  /** `eval` of the variant tagged `t`. */
  function Eval(m: Cmath, t: Type, z: real): real
  {
    match t
    case Sigmoid => 1.0 / (1.0 + m.exp(-z))
    case Gauss => m.exp(-z * z)
    case CosWave => (1.0 - m.cos(z)) / 2.0
    case LRelu => LReluEval(z)
    case Triangle => TriangleEval(z)
    case TriangleWave => TriangleWaveEval(z)
  }

  /** `derivative` of the variant tagged `t`. */
  function Derivative(m: Cmath, t: Type, z: real, y: real): real
  {
    match t
    case Sigmoid => SigmoidDerivative(z, y)
    case Gauss => GaussDerivative(z, y)
    case CosWave => m.sin(z) / 2.0
    case LRelu => LReluDerivative(z)
    case Triangle => TriangleDerivative(z)
    case TriangleWave => TriangleWaveDerivative(z)
  }

  /** The constructor of each variant: its tag, its `eval`/`derivative`, and the
      `(learnRate, alpha, bias)` it passes to the base constructor. */
  function New(m: Cmath, t: Type): (f: AFunction)
    ensures f.GetType() == t
    ensures forall z: real :: f.eval(z) == Eval(m, t, z)
    ensures forall z: real, y: real :: f.derivative(z, y) == Derivative(m, t, z, y)
    ensures f.learnRate > 0.0 && f.alpha > 0.0 && f.bias >= 0.0
    ensures t == CosWave <==> f.bias != 0.0
  {
    var e := (z: real) => Eval(m, t, z);
    var d := (z: real, y: real) => Derivative(m, t, z, y);
    match t
    case Sigmoid => AFunction(t, e, d, 0.02, 2.0, 0.0)
    case Gauss => AFunction(t, e, d, 0.01, 1.0, 0.0)
    case CosWave => AFunction(t, e, d, 0.01, Pi, 0.5)
    case LRelu => AFunction(t, e, d, 0.01, 1.0, 0.0)
    case Triangle => AFunction(t, e, d, 0.001, 1.0, 0.0)
    case TriangleWave => AFunction(t, e, d, 0.001, 1.0, 0.0)
  }

  /** The `(learnRate, alpha, bias)` each variant's constructor passes to `AFunction`. */
  lemma NewConstants(m: Cmath, t: Type)
    ensures var f := New(m, t);
      && (t == Sigmoid ==> f.learnRate == 0.02 && f.alpha == 2.0 && f.bias == 0.0)
      && (t == Gauss ==> f.learnRate == 0.01 && f.alpha == 1.0 && f.bias == 0.0)
      && (t == CosWave ==> f.learnRate == 0.01 && f.alpha == Pi && f.bias == 0.5)
      && (t == LRelu ==> f.learnRate == 0.01 && f.alpha == 1.0 && f.bias == 0.0)
      && (t == Triangle ==> f.learnRate == 0.001 && f.alpha == 1.0 && f.bias == 0.0)
      && (t == TriangleWave ==> f.learnRate == 0.001 && f.alpha == 1.0 && f.bias == 0.0)
  {
  }

  /** `M_PI` as the macro spells it. */
  const Pi: real := 3.14159265358979323846
}
