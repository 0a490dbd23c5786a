/** One fully-connected layer of the frozen-weight parameterisation (exp/w_constant/Layer.h):
    every neuron computes `(beta + Σ W·x) * alpha`; the weights `W` are drawn once by the
    constructor and never trained, only the scale `alpha` and the offset `beta` are. */
module ConstantWeightLayer {
  import opened Vectors
  import opened ActivationInterface

  /** `struct Node`: fixed weights, a trained offset `beta` and a trained scale `alpha`. */
  datatype Node = Node(W: seq<real>, beta: real, alpha: real)
  {
    /** `Node::eval`: the offset plus the weighted sum of the given inputs, times the scale. */
    method Eval(input: seq<real>) returns (z: real)
      requires |input| <= |W|
      ensures z == PreActivation(this, input)
    {
      var sum := beta;
      var i := 0;
      while i < |input|
        invariant 0 <= i <= |input|
        invariant sum == beta + PartialDot(input, W, i)
      {
        sum := sum + input[i] * W[i];
        i := i + 1;
      }
      z := sum * alpha;
    }
  }

  /** `beta + Σ_i input[i] * W[i]`: the derivative of the pre-activation with respect to
      `alpha` (`dZ_dalpha` of `updateWeights`). */
  function Drive(nd: Node, input: seq<real>): real
    requires |input| <= |nd.W|
  {
    nd.beta + Dot(input, nd.W)
  }

  /** The pre-activation of one neuron: the drive scaled by `alpha`. */
  function PreActivation(nd: Node, input: seq<real>): real
    requires |input| <= |nd.W|
  {
    Drive(nd, input) * nd.alpha
  }

  // ---------------------------------------------------------------------------------------
  // The layer as a value: what the layer's methods are specified against.

  /** The observable state of a layer: its input width `Nx`, its neurons, the caches and the
      `fast` flag. */
  datatype LayerState = LayerState(
    nx: nat, node: seq<Node>, Z: seq<real>, Y: seq<real>, dEdX: seq<real>, fast: bool)

  /** The shapes a constructed layer keeps for ever: `Ny` neurons each with `Nx` weights,
      caches of length `Ny`, an input-gradient buffer of length `Nx`. */
  ghost predicate WellFormed(s: LayerState)
  {
    && |s.Z| == |s.node|
    && |s.Y| == |s.node|
    && |s.dEdX| == s.nx
    && forall n :: 0 <= n < |s.node| ==> |s.node[n].W| == s.nx
  }

  /** The pre-activation of every neuron for the given input. */
  function PreActivations(node: seq<Node>, input: seq<real>): (z: seq<real>)
    requires forall n :: 0 <= n < |node| ==> |input| <= |node[n].W|
    ensures |z| == |node|
  {
    PreActivationsUpTo(node, input, |node|)
  }

  /** The pre-activations of the first k neurons. */
  function PreActivationsUpTo(node: seq<Node>, input: seq<real>, k: nat): (z: seq<real>)
    requires k <= |node| && forall n :: 0 <= n < |node| ==> |input| <= |node[n].W|
    ensures |z| == k
    decreases k
  {
    if k == 0 then [] else PreActivationsUpTo(node, input, k - 1) + [PreActivation(node[k - 1], input)]
  }

  lemma {:induction false} PreActivationsUpToAt(node: seq<Node>, input: seq<real>, k: nat, n: nat)
    requires k <= |node| && forall n :: 0 <= n < |node| ==> |input| <= |node[n].W|
    requires n < k
    ensures PreActivationsUpTo(node, input, k)[n] == (node[n].beta + Dot(input, node[n].W)) * node[n].alpha
    decreases k
  {
    if n < k - 1 {
      PreActivationsUpToAt(node, input, k - 1, n);
    }
  }

  /** `Node::eval`: the pre-activation of neuron n is `(beta + Σ W·x) * alpha`. */
  lemma PreActivationsAt(node: seq<Node>, input: seq<real>, n: nat)
    requires forall n :: 0 <= n < |node| ==> |input| <= |node[n].W|
    requires n < |node|
    ensures PreActivations(node, input)[n] == (node[n].beta + Dot(input, node[n].W)) * node[n].alpha
  {
    PreActivationsUpToAt(node, input, |node|, n);
  }

  /** `eval` as a state transition: the caches are refilled from `input`; the neurons, the
      gradient buffer and the flag are untouched. */
  function Evaluated(s: LayerState, act: AFunction, input: seq<real>): (r: LayerState)
    requires WellFormed(s) && |input| <= s.nx
    ensures WellFormed(r)
    ensures r.nx == s.nx && r.node == s.node && r.dEdX == s.dEdX && r.fast == s.fast
  {
    var z := PreActivations(s.node, input);
    s.(Z := z, Y := Activate(act, z))
  }

  /** `Σ_{n < k} W[n][i] * g[n] * alpha[n]`: the gradient flowing back into input i through
      the scaled neurons. */
  function ScaledColumnSum(node: seq<Node>, g: seq<real>, i: nat, k: nat): real
    requires k <= |node| && k <= |g|
    requires forall n :: 0 <= n < k ==> i < |node[n].W|
    decreases k
  {
    if k == 0 then 0.0 else ScaledColumnSum(node, g, i, k - 1) + node[k - 1].W[i] * g[k - 1] * node[k - 1].alpha
  }

  /** The input-gradient buffer after a backward step: the first `m` entries (one per input
      actually given) are recomputed from the scales before the step, the others keep their
      previous values. */
  function InputGradient(node: seq<Node>, g: seq<real>, m: nat, prev: seq<real>): (r: seq<real>)
    requires m <= |prev| && |node| <= |g|
    requires forall n :: 0 <= n < |node| ==> m <= |node[n].W|
    ensures |r| == |prev|
  {
    InputGradientUpTo(node, g, m, prev, |prev|)
  }

  /** The first k entries of the input-gradient buffer after a backward step. */
  function InputGradientUpTo(node: seq<Node>, g: seq<real>, m: nat, prev: seq<real>, k: nat): (r: seq<real>)
    requires k <= |prev| && m <= |prev| && |node| <= |g|
    requires forall n :: 0 <= n < |node| ==> m <= |node[n].W|
    ensures |r| == k
    decreases k
  {
    if k == 0 then []
    else InputGradientUpTo(node, g, m, prev, k - 1) + [if k - 1 < m then ScaledColumnSum(node, g, k - 1, |node|) else prev[k - 1]]
  }

  lemma {:induction false} InputGradientUpToAt(node: seq<Node>, g: seq<real>, m: nat, prev: seq<real>, k: nat, i: nat)
    requires k <= |prev| && m <= |prev| && |node| <= |g|
    requires forall n :: 0 <= n < |node| ==> m <= |node[n].W|
    requires i < k
    ensures InputGradientUpTo(node, g, m, prev, k)[i] == if i < m then ScaledColumnSum(node, g, i, |node|) else prev[i]
    decreases k
  {
    if i < k - 1 {
      InputGradientUpToAt(node, g, m, prev, k - 1, i);
    }
  }

  /** Entry i of the new buffer is the scaled column sum for a given input, and the old entry
      otherwise. */
  lemma InputGradientAt(node: seq<Node>, g: seq<real>, m: nat, prev: seq<real>, i: nat)
    requires m <= |prev| && |node| <= |g|
    requires forall n :: 0 <= n < |node| ==> m <= |node[n].W|
    requires i < |prev|
    ensures InputGradient(node, g, m, prev)[i] == if i < m then ScaledColumnSum(node, g, i, |node|) else prev[i]
  {
    InputGradientUpToAt(node, g, m, prev, |prev|, i);
  }

  /** The step of one neuron with local gradient `g`: `alpha` moves by `lr * drive * g`,
      `beta` by `lr * alpha * g` with the scale before the step; `W` is kept. */
  function StepNode(nd: Node, input: seq<real>, lr: real, g: real): Node
    requires |input| <= |nd.W|
  {
    Node(nd.W, nd.beta - lr * nd.alpha * g, nd.alpha - lr * Drive(nd, input) * g)
  }

  /** One turn of the neuron loop of `updateWeights`: the drive `dZ_dalpha` is summed and the
      scale snapshot `palpha` taken before `alpha` and then `beta` move. */
  method StepNeuron(nd: Node, input: seq<real>, lr: real, g: real) returns (r: Node)
    requires |input| <= |nd.W|
    ensures r == StepNode(nd, input, lr, g)
  {
    r := nd;
    var palpha := r.alpha;
    var dZdalpha := r.beta;
    var i := 0;
    while i < |input|
      invariant 0 <= i <= |input|
      invariant dZdalpha == nd.beta + PartialDot(input, nd.W, i)
    {
      dZdalpha := dZdalpha + r.W[i] * input[i];
      i := i + 1;
    }
    r := r.(alpha := r.alpha - lr * dZdalpha * g);
    r := r.(beta := r.beta - lr * palpha * g);
  }

  /** The step of every neuron. */
  function StepNodes(node: seq<Node>, input: seq<real>, lr: real, g: seq<real>): (r: seq<Node>)
    requires |node| <= |g|
    requires forall n :: 0 <= n < |node| ==> |input| <= |node[n].W|
    ensures |r| == |node|
  {
    StepNodesUpTo(node, input, lr, g, |node|)
  }

  /** The first k neurons after their step. */
  function StepNodesUpTo(node: seq<Node>, input: seq<real>, lr: real, g: seq<real>, k: nat): (r: seq<Node>)
    requires k <= |node| <= |g|
    requires forall n :: 0 <= n < |node| ==> |input| <= |node[n].W|
    ensures |r| == k
    decreases k
  {
    if k == 0 then [] else StepNodesUpTo(node, input, lr, g, k - 1) + [StepNode(node[k - 1], input, lr, g[k - 1])]
  }

  lemma {:induction false} StepNodesUpToAt(node: seq<Node>, input: seq<real>, lr: real, g: seq<real>, k: nat, n: nat)
    requires k <= |node| <= |g|
    requires forall n :: 0 <= n < |node| ==> |input| <= |node[n].W|
    requires n < k
    ensures StepNodesUpTo(node, input, lr, g, k)[n] == StepNode(node[n], input, lr, g[n])
    decreases k
  {
    if n < k - 1 {
      StepNodesUpToAt(node, input, lr, g, k - 1, n);
    }
  }

  /** Neuron n keeps its weights; its scale moves by `lr * (beta + Σ W·x) * g[n]` and its
      offset by `lr * alpha * g[n]`, both computed from the values before the step. */
  lemma StepNodesAt(node: seq<Node>, input: seq<real>, lr: real, g: seq<real>, n: nat)
    requires |node| <= |g|
    requires forall n :: 0 <= n < |node| ==> |input| <= |node[n].W|
    requires n < |node|
    ensures var r := StepNodes(node, input, lr, g)[n];
            && r.W == node[n].W
            && r.alpha == node[n].alpha - lr * (node[n].beta + Dot(input, node[n].W)) * g[n]
            && r.beta == node[n].beta - lr * node[n].alpha * g[n]
  {
    StepNodesUpToAt(node, input, lr, g, |node|, n);
  }

  /** `updateWeights` as a state transition: the input gradient is taken from the scales
      before the step, then every neuron takes its step. Nothing else changes; `fast` is not
      read. */
  function Update(s: LayerState, act: AFunction, input: seq<real>, lr: real, dE: seq<real>): (r: LayerState)
    requires WellFormed(s) && |input| <= s.nx && |s.node| <= |dE|
    ensures r.nx == s.nx && |r.node| == |s.node| && r.fast == s.fast
    ensures r.Z == s.Z && r.Y == s.Y && |r.dEdX| == |s.dEdX|
  {
    var g := LocalGradient(act, dE, s.Z, s.Y);
    s.(node := StepNodes(s.node, input, lr, g),
       dEdX := InputGradient(s.node, g, |input|, s.dEdX))
  }

  /** `updateWeights` never writes a weight: every neuron keeps its `W`, so the layer stays
      well formed. */
  lemma UpdateKeepsWeights(s: LayerState, act: AFunction, input: seq<real>, lr: real, dE: seq<real>)
    requires WellFormed(s) && |input| <= s.nx && |s.node| <= |dE|
    ensures forall n :: 0 <= n < |s.node| ==> Update(s, act, input, lr, dE).node[n].W == s.node[n].W
    ensures WellFormed(Update(s, act, input, lr, dE))
  {
    var g := LocalGradient(act, dE, s.Z, s.Y);
    forall n | 0 <= n < |s.node|
      ensures Update(s, act, input, lr, dE).node[n].W == s.node[n].W
    {
      StepNodesAt(s.node, input, lr, g, n);
    }
  }

  /** The `fast` flag has no effect on `updateWeights`: the step is the same in both modes. */
  lemma UpdateIgnoresFast(s: LayerState, act: AFunction, input: seq<real>, lr: real, dE: seq<real>, fast: bool)
    requires WellFormed(s) && |input| <= s.nx && |s.node| <= |dE|
    ensures Update(s.(fast := fast), act, input, lr, dE) == Update(s, act, input, lr, dE).(fast := fast)
  {
  }

  /** `Σ_n W[n][i] * 0 * alpha[n] == 0`. */
  lemma {:induction false} ScaledColumnSumZero(node: seq<Node>, g: seq<real>, i: nat, k: nat)
    requires k <= |node| && k <= |g|
    requires forall n :: 0 <= n < k ==> i < |node[n].W|
    requires forall n :: 0 <= n < k ==> g[n] == 0.0
    ensures ScaledColumnSum(node, g, i, k) == 0.0
    decreases k
  {
    if k > 0 {
      ScaledColumnSumZero(node, g, i, k - 1);
    }
  }

  /** With a zero output error no scale and no offset moves, and the gradient passed back to
      every given input is zero. */
  lemma ZeroErrorKeepsParameters(s: LayerState, act: AFunction, input: seq<real>, lr: real, dE: seq<real>)
    requires WellFormed(s) && |input| <= s.nx && |s.node| <= |dE|
    requires forall n :: 0 <= n < |s.node| ==> dE[n] == 0.0
    ensures Update(s, act, input, lr, dE).node == s.node
    ensures forall i :: 0 <= i < |input| ==> Update(s, act, input, lr, dE).dEdX[i] == 0.0
  {
    var g := LocalGradient(act, dE, s.Z, s.Y);
    var r := Update(s, act, input, lr, dE);
    forall n | 0 <= n < |s.node|
      ensures g[n] == 0.0
    {
      LocalGradientAt(act, dE, s.Z, s.Y, n);
    }
    forall n | 0 <= n < |s.node|
      ensures r.node[n] == s.node[n]
    {
      StepNodesAt(s.node, input, lr, g, n);
    }
    forall i | 0 <= i < |input|
      ensures r.dEdX[i] == 0.0
    {
      InputGradientAt(s.node, g, |input|, s.dEdX, i);
      ScaledColumnSumZero(s.node, g, i, |s.node|);
    }
  }

  /** The initial scale `alpha * sqrt(Nx)`. */
  function InitAlpha(act: AFunction, sqrt: real -> real, nx: nat): real
  {
    act.alpha * sqrt(nx as real)
  }

  /** An initial weight: a normal sample divided by `Nx`. */
  function InitWeight(sample: real, nx: nat): real
    requires nx > 0
  {
    sample / nx as real
  }

  /** The first `k` weights of neuron n: the samples `draw(n, i)` divided by `Nx`, in the
      order the constructor's inner loop writes them. */
  function InitialWeights(draw: (nat, nat) -> real, n: nat, nx: nat, k: nat): (w: seq<real>)
    requires k <= nx
    ensures |w| == k
    decreases k
  {
    if k == 0 then [] else InitialWeights(draw, n, nx, k - 1) + [InitWeight(draw(n, k - 1), nx)]
  }

  /** The first `k` neurons of a fresh layer. */
  function InitialNodes(initAlpha: real, initBeta: real, draw: (nat, nat) -> real, nx: nat, k: nat): (r: seq<Node>)
    ensures |r| == k && forall n :: 0 <= n < k ==> |r[n].W| == nx
    decreases k
  {
    if k == 0 then []
    else InitialNodes(initAlpha, initBeta, draw, nx, k - 1) + [Node(InitialWeights(draw, k - 1, nx, nx), initBeta, initAlpha)]
  }

  /** Weight i of an initial neuron is its scaled sample. */
  lemma {:induction false} InitialWeightsAt(draw: (nat, nat) -> real, n: nat, nx: nat, k: nat)
    requires k <= nx
    ensures forall i :: 0 <= i < k ==> InitialWeights(draw, n, nx, k)[i] == InitWeight(draw(n, i), nx)
    decreases k
  {
    if k > 0 {
      InitialWeightsAt(draw, n, nx, k - 1);
    }
  }

  /** Neuron n of a fresh layer holds the weights of neuron n, the initial offset and the
      initial scale. */
  lemma {:induction false} InitialNodesAt(initAlpha: real, initBeta: real, draw: (nat, nat) -> real, nx: nat, k: nat)
    ensures forall n :: 0 <= n < k ==>
              InitialNodes(initAlpha, initBeta, draw, nx, k)[n] == Node(InitialWeights(draw, n, nx, nx), initBeta, initAlpha)
    decreases k
  {
    if k > 0 {
      InitialNodesAt(initAlpha, initBeta, draw, nx, k - 1);
    }
  }

  /** The value of a freshly constructed layer of `nx` inputs and `ny` neurons. */
  function Initial(nx: nat, ny: nat, act: AFunction, sqrt: real -> real, draw: (nat, nat) -> real): (s: LayerState)
    ensures WellFormed(s) && s.nx == nx && |s.node| == ny && s.fast
  {
    LayerState(nx, InitialNodes(InitAlpha(act, sqrt, nx), act.bias, draw, nx, ny),
               Zeros(ny), Zeros(ny), Zeros(nx), true)
  }

  /** What a freshly constructed layer holds: zero caches and gradient buffer, every offset
      the activation's `bias`, every scale `alpha * sqrt(Nx)`, and weight `(n, i)` the sample
      `draw(n, i)` divided by `Nx`. */
  lemma InitialValues(nx: nat, ny: nat, act: AFunction, sqrt: real -> real, draw: (nat, nat) -> real)
    ensures forall n :: 0 <= n < ny ==> Initial(nx, ny, act, sqrt, draw).Z[n] == 0.0
    ensures forall n :: 0 <= n < ny ==> Initial(nx, ny, act, sqrt, draw).Y[n] == 0.0
    ensures forall i :: 0 <= i < nx ==> Initial(nx, ny, act, sqrt, draw).dEdX[i] == 0.0
    ensures forall n :: 0 <= n < ny ==> Initial(nx, ny, act, sqrt, draw).node[n].beta == act.bias
    ensures forall n :: 0 <= n < ny ==> Initial(nx, ny, act, sqrt, draw).node[n].alpha == InitAlpha(act, sqrt, nx)
    ensures forall n, i :: 0 <= n < ny && 0 <= i < nx ==>
              Initial(nx, ny, act, sqrt, draw).node[n].W[i] == InitWeight(draw(n, i), nx)
  {
    ZerosAreZero(ny);
    ZerosAreZero(nx);
    InitialNodesAt(InitAlpha(act, sqrt, nx), act.bias, draw, nx, ny);
    forall n | 0 <= n < ny
      ensures forall i :: 0 <= i < nx ==> InitialWeights(draw, n, nx, nx)[i] == InitWeight(draw(n, i), nx)
    {
      InitialWeightsAt(draw, n, nx, nx);
    }
  }

  // ---------------------------------------------------------------------------------------
  // The layer object.

  /** `class Layer`. The caches `Z`, `Y` and `dE_dX` are vectors the methods overwrite entry
      by entry; their lengths never change after construction. */
  class Layer {
    var node: seq<Node>
    var Z: seq<real>
    var Y: seq<real>
    var dEdX: seq<real>
    const activeFunction: AFunction
    const Nx: nat
    const Ny: nat
    var fast: bool

    /** The shapes set by the constructor. */
    ghost predicate Valid()
      reads this
    {
      && |node| == Ny && |Z| == Ny && |Y| == Ny && |dEdX| == Nx
      && (forall n :: 0 <= n < Ny ==> |node[n].W| == Nx)
    }

    /** The layer's current value. */
    ghost function State(): (s: LayerState)
      reads this
      ensures Valid() ==> WellFormed(s) && |s.node| == Ny && s.nx == Nx
    {
      LayerState(Nx, node, Z, Y, dEdX, fast)
    }

    /** `Layer(numOfInputs, numOfOutputs, activeFunction)`. The normal samples of the random
        initialisation are `draw(n, i)` and `sqrt` is the square root of `<cmath>`. */
    constructor (numOfInputs: nat, numOfOutputs: nat, activeFunction: AFunction,
                 sqrt: real -> real, draw: (nat, nat) -> real)
      ensures Valid()
      ensures Nx == numOfInputs && Ny == numOfOutputs
      ensures this.activeFunction == activeFunction && fast
      ensures forall n :: 0 <= n < Ny ==> Z[n] == 0.0 && Y[n] == 0.0
      ensures forall i :: 0 <= i < Nx ==> dEdX[i] == 0.0
      ensures forall n :: 0 <= n < Ny ==> node[n].beta == activeFunction.bias
      ensures forall n :: 0 <= n < Ny ==> node[n].alpha == InitAlpha(activeFunction, sqrt, Nx)
      ensures forall n, i :: 0 <= n < Ny && 0 <= i < Nx ==> node[n].W[i] == InitWeight(draw(n, i), Nx)
      ensures State() == Initial(numOfInputs, numOfOutputs, activeFunction, sqrt, draw)
    {
      var s := Initial(numOfInputs, numOfOutputs, activeFunction, sqrt, draw);
      this.activeFunction := activeFunction;
      Nx := numOfInputs;
      Ny := numOfOutputs;
      node := s.node;
      Z := s.Z;
      Y := s.Y;
      dEdX := s.dEdX;
      fast := s.fast;
      InitialValues(numOfInputs, numOfOutputs, activeFunction, sqrt, draw);
    }

    /** `eval`: fills `Z` with the pre-activations and `Y` with their activations. The
        neurons are untouched. */
    method Eval(input: seq<real>)
      requires Valid() && |input| <= Nx
      modifies this`Z, this`Y
      ensures Valid()
      ensures Z == PreActivations(node, input)
      ensures Y == Activate(activeFunction, Z)
    {
      var n := 0;
      while n < |node|
        invariant 0 <= n <= |node|
        invariant Valid()
        invariant forall k :: 0 <= k < n ==> Z[k] == PreActivation(node[k], input)
        invariant forall k :: 0 <= k < n ==> Y[k] == activeFunction.eval(Z[k])
      {
        var z := node[n].Eval(input);
        Z := Z[n := z];
        Y := Y[n := activeFunction.eval(z)];
        n := n + 1;
      }
      forall k | 0 <= k < |node|
        ensures Z[k] == PreActivations(node, input)[k]
        ensures Y[k] == Activate(activeFunction, Z)[k]
      {
        PreActivationsAt(node, input, k);
        ActivateAt(activeFunction, Z, k);
      }
    }

    /** `updateWeights`: computes the local gradient from the caches, writes `dE_dX` from the
        scales as they were, then steps every scale and offset; returns the new `dE_dX`. */
    method UpdateWeights(input: seq<real>, learningRate: real, dE: seq<real>) returns (r: seq<real>)
      requires Valid() && |input| <= Nx && Ny <= |dE|
      modifies this`node, this`dEdX
      ensures Valid() && r == dEdX
      ensures State() == Update(old(State()), activeFunction, input, learningRate, dE)
    {
      var g := LocalGradients(dE);
      TransferGradients(input, g);
      StepParameters(input, learningRate, g);
      r := dEdX;
    }

    /** The local gradient `dE_dZ[n] = dE[n] * f'(Z[n], Y[n])` of every neuron. */
    method LocalGradients(dE: seq<real>) returns (g: seq<real>)
      requires Valid() && Ny <= |dE|
      ensures g == LocalGradient(activeFunction, dE, Z, Y)
    {
      var dEdZ := new real[|Y|];
      var n := 0;
      while n < |Y|
        invariant 0 <= n <= |Y|
        invariant forall k :: 0 <= k < n ==> dEdZ[k] == dE[k] * activeFunction.derivative(Z[k], Y[k])
      {
        dEdZ[n] := dE[n] * activeFunction.derivative(Z[n], Y[n]);
        n := n + 1;
      }
      g := dEdZ[..];
      forall k | 0 <= k < |g|
        ensures g[k] == LocalGradient(activeFunction, dE, Z, Y)[k]
      {
        LocalGradientAt(activeFunction, dE, Z, Y, k);
      }
    }

    /** The gradient for the previous layer: `dE_dX[i] = Σ_n W[n][i] * g[n] * alpha[n]` for
        every given input. */
    method TransferGradients(input: seq<real>, g: seq<real>)
      requires Valid() && |input| <= Nx && |g| == Ny
      modifies this`dEdX
      ensures Valid()
      ensures dEdX == InputGradient(node, g, |input|, old(dEdX))
    {
      var i := 0;
      while i < |input|
        invariant 0 <= i <= |input|
        invariant Valid()
        invariant forall k :: 0 <= k < i ==> dEdX[k] == ScaledColumnSum(node, g, k, Ny)
        invariant forall k :: i <= k < Nx ==> dEdX[k] == old(dEdX)[k]
      {
        var sum := 0.0;
        var n := 0;
        while n < Ny
          invariant 0 <= n <= Ny
          invariant sum == ScaledColumnSum(node, g, i, n)
        {
          sum := sum + node[n].W[i] * g[n] * node[n].alpha;
          n := n + 1;
        }
        dEdX := dEdX[i := sum];
        i := i + 1;
      }
      forall k | 0 <= k < Nx
        ensures dEdX[k] == InputGradient(node, g, |input|, old(dEdX))[k]
      {
        InputGradientAt(node, g, |input|, old(dEdX), k);
      }
    }

    /** The step of every neuron: the snapshot `palpha` of the scale and the drive
        `dZ_dalpha` are taken before `alpha` and `beta` move; `W` is never written. */
    method StepParameters(input: seq<real>, learningRate: real, g: seq<real>)
      requires Valid() && |input| <= Nx && |g| == Ny
      modifies this`node
      ensures Valid()
      ensures node == StepNodes(old(node), input, learningRate, g)
    {
      var n := 0;
      while n < |node|
        invariant 0 <= n <= |node| == Ny
        invariant forall k :: 0 <= k < Ny ==> |node[k].W| == Nx
        invariant forall k :: 0 <= k < n ==> node[k] == StepNode(old(node)[k], input, learningRate, g[k])
        invariant forall k :: n <= k < Ny ==> node[k] == old(node)[k]
      {
        var inode := StepNeuron(node[n], input, learningRate, g[n]);
        node := node[n := inode];
        n := n + 1;
      }
      forall k | 0 <= k < Ny
        ensures node[k] == StepNodes(old(node), input, learningRate, g)[k]
      {
        StepNodesUpToAt(old(node), input, learningRate, g, Ny, k);
      }
    }
  }
}
