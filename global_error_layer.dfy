/** One fully-connected layer of the standard parameterisation (exp/GlobalError/Layer.h):
    neurons with weights `W` and bias `theta`, the forward caches `Z`/`Y` and the
    input-gradient buffer `dE_dX`, and the SGD update. */
module GlobalErrorLayer {
  import opened Vectors
  import opened ActivationInterface

  /** `struct Node`: one weight per input of the layer and a bias. */
  datatype Node = Node(W: seq<real>, theta: real)
  {
    /** `Node::eval`: the bias plus the weighted sum of the given inputs. */
    method Eval(input: seq<real>) returns (z: real)
      requires |input| <= |W|
      ensures z == theta + Dot(input, W)
    {
      z := theta;
      var i := 0;
      while i < |input|
        invariant 0 <= i <= |input|
        invariant z == theta + PartialDot(input, W, i)
      {
        z := z + input[i] * W[i];
        i := i + 1;
      }
    }
  }

  // ---------------------------------------------------------------------------------------
  // The layer as a value: what the layer's methods are specified against.

  /** The observable state of a layer: its input width `Nx`, its neurons, the caches and the
      `fast` flag. */
  datatype LayerState = LayerState(
    nx: nat, node: seq<Node>, Z: seq<real>, Y: seq<real>, dEdX: seq<real>, fast: bool)

  /** The shapes a constructed layer keeps for ever: `Ny` neurons each with `Nx` weights,
      caches of length `Ny`, an input-gradient buffer of length `Nx`. */
  ghost predicate WellFormed(s: LayerState)
  {
    && |s.Z| == |s.node|
    && |s.Y| == |s.node|
    && |s.dEdX| == s.nx
    && forall n :: 0 <= n < |s.node| ==> |s.node[n].W| == s.nx
  }

  /** The pre-activation of every neuron for the given input, neuron by neuron as the loop
      of `eval` computes them. */
  function PreActivations(node: seq<Node>, input: seq<real>): (z: seq<real>)
    requires forall n :: 0 <= n < |node| ==> |input| <= |node[n].W|
    ensures |z| == |node|
  {
    PreActivationsUpTo(node, input, |node|)
  }

  /** The pre-activations of the first k neurons. */
  function PreActivationsUpTo(node: seq<Node>, input: seq<real>, k: nat): (z: seq<real>)
    requires k <= |node| && forall n :: 0 <= n < |node| ==> |input| <= |node[n].W|
    ensures |z| == k
    decreases k
  {
    if k == 0 then []
    else PreActivationsUpTo(node, input, k - 1) + [node[k - 1].theta + Dot(input, node[k - 1].W)]
  }

  lemma {:induction false} PreActivationsUpToAt(node: seq<Node>, input: seq<real>, k: nat, n: nat)
    requires k <= |node| && forall n :: 0 <= n < |node| ==> |input| <= |node[n].W|
    requires n < k
    ensures PreActivationsUpTo(node, input, k)[n] == node[n].theta + Dot(input, node[n].W)
    decreases k
  {
    if n < k - 1 {
      PreActivationsUpToAt(node, input, k - 1, n);
    }
  }

  /** `Node::eval`: the pre-activation of neuron n is its bias plus the weighted sum of the
      inputs. */
  lemma PreActivationsAt(node: seq<Node>, input: seq<real>, n: nat)
    requires forall n :: 0 <= n < |node| ==> |input| <= |node[n].W|
    requires n < |node|
    ensures PreActivations(node, input)[n] == node[n].theta + Dot(input, node[n].W)
  {
    PreActivationsUpToAt(node, input, |node|, n);
  }

  /** `eval` as a state transition: the caches are refilled from `input`; weights, biases,
      the gradient buffer and the flag are untouched. */
  function Evaluated(s: LayerState, act: AFunction, input: seq<real>): (r: LayerState)
    requires WellFormed(s) && |input| <= s.nx
    ensures WellFormed(r)
    ensures r.nx == s.nx && r.node == s.node && r.dEdX == s.dEdX && r.fast == s.fast
  {
    var z := PreActivations(s.node, input);
    s.(Z := z, Y := Activate(act, z))
  }

  /** `Σ_{n < k} node[n].W[i] * g[n]`: the gradient flowing back into input i. */
  function ColumnSum(node: seq<Node>, g: seq<real>, i: nat, k: nat): real
    requires k <= |node| && k <= |g|
    requires forall n :: 0 <= n < k ==> i < |node[n].W|
    decreases k
  {
    if k == 0 then 0.0 else ColumnSum(node, g, i, k - 1) + node[k - 1].W[i] * g[k - 1]
  }

  /** The input-gradient buffer after a backward step: the first `m` entries (one per input
      actually given) are recomputed, the others keep their previous values. */
  function InputGradient(node: seq<Node>, g: seq<real>, m: nat, prev: seq<real>): (r: seq<real>)
    requires m <= |prev| && |node| <= |g|
    requires forall n :: 0 <= n < |node| ==> m <= |node[n].W|
    ensures |r| == |prev|
  {
    InputGradientUpTo(node, g, m, prev, |prev|)
  }

  /** The first k entries of the input-gradient buffer after a backward step. */
  function InputGradientUpTo(node: seq<Node>, g: seq<real>, m: nat, prev: seq<real>, k: nat): (r: seq<real>)
    requires k <= |prev| && m <= |prev| && |node| <= |g|
    requires forall n :: 0 <= n < |node| ==> m <= |node[n].W|
    ensures |r| == k
    decreases k
  {
    if k == 0 then []
    else InputGradientUpTo(node, g, m, prev, k - 1) + [if k - 1 < m then ColumnSum(node, g, k - 1, |node|) else prev[k - 1]]
  }

  lemma {:induction false} InputGradientUpToAt(node: seq<Node>, g: seq<real>, m: nat, prev: seq<real>, k: nat, i: nat)
    requires k <= |prev| && m <= |prev| && |node| <= |g|
    requires forall n :: 0 <= n < |node| ==> m <= |node[n].W|
    requires i < k
    ensures InputGradientUpTo(node, g, m, prev, k)[i] == if i < m then ColumnSum(node, g, i, |node|) else prev[i]
    decreases k
  {
    if i < k - 1 {
      InputGradientUpToAt(node, g, m, prev, k - 1, i);
    }
  }

  /** Entry i of the new buffer is the column sum of the local gradients for a given input,
      and the old entry otherwise. */
  lemma InputGradientAt(node: seq<Node>, g: seq<real>, m: nat, prev: seq<real>, i: nat)
    requires m <= |prev| && |node| <= |g|
    requires forall n :: 0 <= n < |node| ==> m <= |node[n].W|
    requires i < |prev|
    ensures InputGradient(node, g, m, prev)[i] == if i < m then ColumnSum(node, g, i, |node|) else prev[i]
  {
    InputGradientUpToAt(node, g, m, prev, |prev|, i);
  }

  /** The divisor of the weight step: 1 in fast mode, `Nx / 2` otherwise. */
  function Damping(fast: bool, nx: nat): real
    requires fast || nx > 0
  {
    if fast then 1.0 else nx as real / 2.0
  }

  /** How far one weight moves: `(lr / damping) * input * g`. */
  function WeightStep(lr: real, fast: bool, nx: nat, x: real, g: real): real
    requires fast || nx > 0
  {
    (lr / Damping(fast, nx)) * x * g
  }

  /** The slow-mode weight step is the fast-mode one divided by `Nx / 2`. */
  lemma SlowWeightStep(lr: real, nx: nat, x: real, g: real)
    requires nx > 0
    ensures WeightStep(lr, false, nx, x, g) == WeightStep(lr, true, nx, x, g) / (nx as real / 2.0)
  {
    var h := nx as real / 2.0;
    assert WeightStep(lr, false, nx, x, g) == (lr / h) * (x * g);
    assert WeightStep(lr, true, nx, x, g) == lr * (x * g);
  }

  /** The first k weights of a neuron with local gradient `g` after its step: a weight with
      an input moves, a weight past the given inputs stays. */
  function StepWeights(W: seq<real>, input: seq<real>, lr: real, fast: bool, nx: nat, g: real, k: nat): (r: seq<real>)
    requires k <= |W| && |input| <= nx
    ensures |r| == k
    decreases k
  {
    if k == 0 then []
    else StepWeights(W, input, lr, fast, nx, g, k - 1)
         + [if k - 1 < |input| then W[k - 1] - WeightStep(lr, fast, nx, input[k - 1], g) else W[k - 1]]
  }

  lemma {:induction false} StepWeightsAt(W: seq<real>, input: seq<real>, lr: real, fast: bool, nx: nat, g: real, k: nat, i: nat)
    requires k <= |W| && |input| <= nx && i < k
    ensures StepWeights(W, input, lr, fast, nx, g, k)[i]
            == if i < |input| then W[i] - WeightStep(lr, fast, nx, input[i], g) else W[i]
    decreases k
  {
    if i < k - 1 {
      StepWeightsAt(W, input, lr, fast, nx, g, k - 1, i);
    }
  }

  /** The SGD step of one neuron with local gradient `g`. */
  function StepNode(nd: Node, input: seq<real>, lr: real, fast: bool, nx: nat, g: real): (r: Node)
    requires |input| <= |nd.W| == nx
    ensures |r.W| == nx
  {
    Node(StepWeights(nd.W, input, lr, fast, nx, g, |nd.W|), nd.theta - lr * g)
  }

  /** Weight i of a stepped neuron moved by the weight step when input i was given, and the
      bias moved by `lr * g`. */
  lemma StepNodeAt(nd: Node, input: seq<real>, lr: real, fast: bool, nx: nat, g: real, i: nat)
    requires |input| <= |nd.W| == nx && i < nx
    ensures StepNode(nd, input, lr, fast, nx, g).W[i]
            == if i < |input| then nd.W[i] - WeightStep(lr, fast, nx, input[i], g) else nd.W[i]
    ensures StepNode(nd, input, lr, fast, nx, g).theta == nd.theta - lr * g
  {
    StepWeightsAt(nd.W, input, lr, fast, nx, g, |nd.W|, i);
  }

  /** The SGD step of every neuron. */
  function StepNodes(node: seq<Node>, input: seq<real>, lr: real, fast: bool, nx: nat, g: seq<real>): (r: seq<Node>)
    requires |node| <= |g|
    requires forall n :: 0 <= n < |node| ==> |input| <= |node[n].W| == nx
    ensures |r| == |node| && forall n :: 0 <= n < |r| ==> |r[n].W| == nx
  {
    StepNodesUpTo(node, input, lr, fast, nx, g, |node|)
  }

  /** The first k neurons after their step. */
  function StepNodesUpTo(node: seq<Node>, input: seq<real>, lr: real, fast: bool, nx: nat, g: seq<real>, k: nat): (r: seq<Node>)
    requires k <= |node| <= |g|
    requires forall n :: 0 <= n < |node| ==> |input| <= |node[n].W| == nx
    ensures |r| == k && forall n :: 0 <= n < k ==> |r[n].W| == nx
    decreases k
  {
    if k == 0 then []
    else StepNodesUpTo(node, input, lr, fast, nx, g, k - 1) + [StepNode(node[k - 1], input, lr, fast, nx, g[k - 1])]
  }

  lemma {:induction false} StepNodesUpToAt(node: seq<Node>, input: seq<real>, lr: real, fast: bool, nx: nat, g: seq<real>, k: nat, n: nat)
    requires k <= |node| <= |g|
    requires forall n :: 0 <= n < |node| ==> |input| <= |node[n].W| == nx
    requires n < k
    ensures StepNodesUpTo(node, input, lr, fast, nx, g, k)[n] == StepNode(node[n], input, lr, fast, nx, g[n])
    decreases k
  {
    if n < k - 1 {
      StepNodesUpToAt(node, input, lr, fast, nx, g, k - 1, n);
    }
  }

  /** Neuron n takes its own step, with its own local gradient. */
  lemma StepNodesAt(node: seq<Node>, input: seq<real>, lr: real, fast: bool, nx: nat, g: seq<real>, n: nat)
    requires |node| <= |g|
    requires forall n :: 0 <= n < |node| ==> |input| <= |node[n].W| == nx
    requires n < |node|
    ensures StepNodes(node, input, lr, fast, nx, g)[n] == StepNode(node[n], input, lr, fast, nx, g[n])
  {
    StepNodesUpToAt(node, input, lr, fast, nx, g, |node|, n);
  }

  /** `updateWeights` as a state transition: the input gradient is taken from the weights
      before the step, then every neuron takes its step. Nothing else changes. */
  function Update(s: LayerState, act: AFunction, input: seq<real>, lr: real, dE: seq<real>): (r: LayerState)
    requires WellFormed(s) && |input| <= s.nx && |s.node| <= |dE|
    ensures WellFormed(r)
    ensures r.nx == s.nx && |r.node| == |s.node| && r.fast == s.fast
    ensures r.Z == s.Z && r.Y == s.Y
  {
    var g := LocalGradient(act, dE, s.Z, s.Y);
    s.(node := StepNodes(s.node, input, lr, s.fast, s.nx, g),
       dEdX := InputGradient(s.node, g, |input|, s.dEdX))
  }

  /** `Σ_n W[n][i] * 0 == 0`. */
  lemma {:induction false} ColumnSumZero(node: seq<Node>, g: seq<real>, i: nat, k: nat)
    requires k <= |node| && k <= |g|
    requires forall n :: 0 <= n < k ==> i < |node[n].W|
    requires forall n :: 0 <= n < k ==> g[n] == 0.0
    ensures ColumnSum(node, g, i, k) == 0.0
  {
    if k > 0 {
      ColumnSumZero(node, g, i, k - 1);
    }
  }

  /** A neuron whose step is zero keeps its weights and its bias. */
  lemma StepNodeStill(nd: Node, input: seq<real>, lr: real, fast: bool, nx: nat, g: real)
    requires |input| <= |nd.W| == nx
    requires lr == 0.0 || g == 0.0
    ensures StepNode(nd, input, lr, fast, nx, g) == nd
  {
    var r := StepNode(nd, input, lr, fast, nx, g);
    forall i | 0 <= i < nx
      ensures r.W[i] == nd.W[i]
    {
      StepNodeAt(nd, input, lr, fast, nx, g, i);
    }
  }

  /** With a zero learning rate no weight and no bias moves. */
  lemma ZeroRateKeepsParameters(s: LayerState, act: AFunction, input: seq<real>, dE: seq<real>)
    requires WellFormed(s) && |input| <= s.nx && |s.node| <= |dE|
    ensures Update(s, act, input, 0.0, dE).node == s.node
  {
    var g := LocalGradient(act, dE, s.Z, s.Y);
    var r := Update(s, act, input, 0.0, dE);
    forall n | 0 <= n < |s.node|
      ensures r.node[n] == s.node[n]
    {
      StepNodesAt(s.node, input, 0.0, s.fast, s.nx, g, n);
      StepNodeStill(s.node[n], input, 0.0, s.fast, s.nx, g[n]);
    }
  }

  /** With a zero output error no weight and no bias moves, and the gradient passed back to
      every given input is zero. */
  lemma ZeroErrorKeepsParameters(s: LayerState, act: AFunction, input: seq<real>, lr: real, dE: seq<real>)
    requires WellFormed(s) && |input| <= s.nx && |s.node| <= |dE|
    requires forall n :: 0 <= n < |s.node| ==> dE[n] == 0.0
    ensures Update(s, act, input, lr, dE).node == s.node
    ensures forall i :: 0 <= i < |input| ==> Update(s, act, input, lr, dE).dEdX[i] == 0.0
  {
    var g := LocalGradient(act, dE, s.Z, s.Y);
    var r := Update(s, act, input, lr, dE);
    forall n | 0 <= n < |s.node|
      ensures g[n] == 0.0
    {
      LocalGradientAt(act, dE, s.Z, s.Y, n);
    }
    forall n | 0 <= n < |s.node|
      ensures r.node[n] == s.node[n]
    {
      StepNodesAt(s.node, input, lr, s.fast, s.nx, g, n);
      StepNodeStill(s.node[n], input, lr, s.fast, s.nx, g[n]);
    }
    forall i | 0 <= i < |input|
      ensures r.dEdX[i] == 0.0
    {
      InputGradientAt(s.node, g, |input|, s.dEdX, i);
      ColumnSumZero(s.node, g, i, |s.node|);
    }
  }

  /** The `fast` flag only scales the weight step: in slow mode each weight moves by the
      fast-mode amount divided by `Nx / 2`, while the bias step and the gradient passed back
      are the same in both modes. */
  lemma FastOnlyScalesWeightStep(s: LayerState, act: AFunction, input: seq<real>, lr: real, dE: seq<real>)
    requires WellFormed(s) && |input| <= s.nx && |s.node| <= |dE|
    ensures var quick := Update(s.(fast := true), act, input, lr, dE);
            var slow := Update(s.(fast := false), act, input, lr, dE);
            && slow.dEdX == quick.dEdX
            && (forall n :: 0 <= n < |s.node| ==> slow.node[n].theta == quick.node[n].theta)
            && (forall n, i :: 0 <= n < |s.node| && 0 <= i < |input| ==>
                 s.node[n].W[i] - slow.node[n].W[i] == (s.node[n].W[i] - quick.node[n].W[i]) / (s.nx as real / 2.0))
  {
    var g := LocalGradient(act, dE, s.Z, s.Y);
    var quick := Update(s.(fast := true), act, input, lr, dE);
    var slow := Update(s.(fast := false), act, input, lr, dE);
    forall n | 0 <= n < |s.node|
      ensures slow.node[n].theta == quick.node[n].theta
    {
      StepNodesAt(s.node, input, lr, true, s.nx, g, n);
      StepNodesAt(s.node, input, lr, false, s.nx, g, n);
    }
    forall n, i | 0 <= n < |s.node| && 0 <= i < |input|
      ensures s.node[n].W[i] - slow.node[n].W[i] == (s.node[n].W[i] - quick.node[n].W[i]) / (s.nx as real / 2.0)
    {
      StepNodesAt(s.node, input, lr, true, s.nx, g, n);
      StepNodesAt(s.node, input, lr, false, s.nx, g, n);
      StepNodeAt(s.node[n], input, lr, true, s.nx, g[n], i);
      StepNodeAt(s.node[n], input, lr, false, s.nx, g[n], i);
      SlowWeightStep(lr, s.nx, input[i], g[n]);
    }
  }

  /** The initial weight scale `alpha * sqrt(Nx)`. */
  function InitAlpha(act: AFunction, sqrt: real -> real, nx: nat): real
  {
    act.alpha * sqrt(nx as real)
  }

  /** The initial bias `bias * initAlpha`. */
  function InitTheta(act: AFunction, sqrt: real -> real, nx: nat): real
  {
    act.bias * InitAlpha(act, sqrt, nx)
  }

  /** An initial weight: a normal sample scaled by `initAlpha / Nx`. */
  function InitWeight(initAlpha: real, sample: real, nx: nat): real
    requires nx > 0
  {
    initAlpha * sample / nx as real
  }

  /** The first `k` weights of neuron n: the samples `draw(n, i)` scaled by `initAlpha / Nx`,
      in the order the constructor's inner loop writes them. */
  function InitialWeights(initAlpha: real, draw: (nat, nat) -> real, n: nat, nx: nat, k: nat): (w: seq<real>)
    requires k <= nx
    ensures |w| == k
    decreases k
  {
    if k == 0 then []
    else InitialWeights(initAlpha, draw, n, nx, k - 1) + [InitWeight(initAlpha, draw(n, k - 1), nx)]
  }

  /** The first `k` neurons of a fresh layer, in the order the constructor's outer loop
      initialises them. */
  function InitialNodes(initAlpha: real, initTheta: real, draw: (nat, nat) -> real, nx: nat, k: nat): (r: seq<Node>)
    ensures |r| == k && forall n :: 0 <= n < k ==> |r[n].W| == nx
    decreases k
  {
    if k == 0 then []
    else InitialNodes(initAlpha, initTheta, draw, nx, k - 1) + [Node(InitialWeights(initAlpha, draw, k - 1, nx, nx), initTheta)]
  }

  /** Weight i of an initial neuron is its scaled sample. */
  lemma {:induction false} InitialWeightsAt(initAlpha: real, draw: (nat, nat) -> real, n: nat, nx: nat, k: nat)
    requires k <= nx
    ensures forall i :: 0 <= i < k ==> InitialWeights(initAlpha, draw, n, nx, k)[i] == InitWeight(initAlpha, draw(n, i), nx)
    decreases k
  {
    if k > 0 {
      InitialWeightsAt(initAlpha, draw, n, nx, k - 1);
    }
  }

  /** Neuron n of a fresh layer holds the weights of neuron n and the initial bias. */
  lemma {:induction false} InitialNodesAt(initAlpha: real, initTheta: real, draw: (nat, nat) -> real, nx: nat, k: nat)
    ensures forall n :: 0 <= n < k ==>
              InitialNodes(initAlpha, initTheta, draw, nx, k)[n] == Node(InitialWeights(initAlpha, draw, n, nx, nx), initTheta)
    decreases k
  {
    if k > 0 {
      InitialNodesAt(initAlpha, initTheta, draw, nx, k - 1);
    }
  }

  /** The value of a freshly constructed layer of `nx` inputs and `ny` neurons. */
  function Initial(nx: nat, ny: nat, act: AFunction, sqrt: real -> real, draw: (nat, nat) -> real): (s: LayerState)
    ensures WellFormed(s) && s.nx == nx && |s.node| == ny && s.fast
  {
    LayerState(nx, InitialNodes(InitAlpha(act, sqrt, nx), InitTheta(act, sqrt, nx), draw, nx, ny),
               Zeros(ny), Zeros(ny), Zeros(nx), true)
  }

  /** What a freshly constructed layer holds: zero caches and gradient buffer, every bias
      `bias * initAlpha`, and weight `(n, i)` the sample `draw(n, i)` scaled by
      `initAlpha / Nx`, where `initAlpha = alpha * sqrt(Nx)`. */
  lemma InitialValues(nx: nat, ny: nat, act: AFunction, sqrt: real -> real, draw: (nat, nat) -> real)
    ensures forall n :: 0 <= n < ny ==> Initial(nx, ny, act, sqrt, draw).Z[n] == 0.0
    ensures forall n :: 0 <= n < ny ==> Initial(nx, ny, act, sqrt, draw).Y[n] == 0.0
    ensures forall i :: 0 <= i < nx ==> Initial(nx, ny, act, sqrt, draw).dEdX[i] == 0.0
    ensures forall n :: 0 <= n < ny ==> Initial(nx, ny, act, sqrt, draw).node[n].theta == InitTheta(act, sqrt, nx)
    ensures forall n, i :: 0 <= n < ny && 0 <= i < nx ==>
              Initial(nx, ny, act, sqrt, draw).node[n].W[i] == InitWeight(InitAlpha(act, sqrt, nx), draw(n, i), nx)
  {
    ZerosAreZero(ny);
    ZerosAreZero(nx);
    InitialNodesAt(InitAlpha(act, sqrt, nx), InitTheta(act, sqrt, nx), draw, nx, ny);
    forall n | 0 <= n < ny
      ensures forall i :: 0 <= i < nx ==>
                InitialWeights(InitAlpha(act, sqrt, nx), draw, n, nx, nx)[i] == InitWeight(InitAlpha(act, sqrt, nx), draw(n, i), nx)
    {
      InitialWeightsAt(InitAlpha(act, sqrt, nx), draw, n, nx, nx);
    }
  }

  // ---------------------------------------------------------------------------------------
  // The layer object.

  /** `class Layer`. The caches `Z`, `Y` and `dE_dX` are vectors the methods overwrite entry
      by entry; their lengths never change after construction. */
  class Layer {
    var node: seq<Node>
    var Z: seq<real>
    var Y: seq<real>
    var dEdX: seq<real>
    const activeFunction: AFunction
    const Nx: nat
    const Ny: nat
    var fast: bool

    /** The shapes set by the constructor. */
    ghost predicate Valid()
      reads this
    {
      && |node| == Ny && |Z| == Ny && |Y| == Ny && |dEdX| == Nx
      && (forall n :: 0 <= n < Ny ==> |node[n].W| == Nx)
    }

    /** The layer's current value. */
    ghost function State(): (s: LayerState)
      reads this
      ensures Valid() ==> WellFormed(s) && |s.node| == Ny && s.nx == Nx
    {
      LayerState(Nx, node, Z, Y, dEdX, fast)
    }

    /** `Layer(numOfInputs, numOfOutputs, activeFunction)`. The normal samples of the random
        initialisation are `draw(n, i)` and `sqrt` is the square root of `<cmath>`. */
    constructor (numOfInputs: nat, numOfOutputs: nat, activeFunction: AFunction,
                 sqrt: real -> real, draw: (nat, nat) -> real)
      ensures Valid()
      ensures Nx == numOfInputs && Ny == numOfOutputs
      ensures this.activeFunction == activeFunction && fast
      ensures forall n :: 0 <= n < Ny ==> Z[n] == 0.0 && Y[n] == 0.0
      ensures forall i :: 0 <= i < Nx ==> dEdX[i] == 0.0
      ensures forall n :: 0 <= n < Ny ==> node[n].theta == InitTheta(activeFunction, sqrt, Nx)
      ensures forall n, i :: 0 <= n < Ny && 0 <= i < Nx ==>
                node[n].W[i] == InitWeight(InitAlpha(activeFunction, sqrt, Nx), draw(n, i), Nx)
      ensures State() == Initial(numOfInputs, numOfOutputs, activeFunction, sqrt, draw)
    {
      var s := Initial(numOfInputs, numOfOutputs, activeFunction, sqrt, draw);
      this.activeFunction := activeFunction;
      Nx := numOfInputs;
      Ny := numOfOutputs;
      node := s.node;
      Z := s.Z;
      Y := s.Y;
      dEdX := s.dEdX;
      fast := s.fast;
      InitialValues(numOfInputs, numOfOutputs, activeFunction, sqrt, draw);
    }

    /** `eval`: fills `Z` with the pre-activations and `Y` with their activations. Weights and
        biases are untouched. */
    method Eval(input: seq<real>)
      requires Valid() && |input| <= Nx
      modifies this`Z, this`Y
      ensures Valid()
      ensures Z == PreActivations(node, input)
      ensures Y == Activate(activeFunction, Z)
    {
      var n := 0;
      while n < |node|
        invariant 0 <= n <= |node|
        invariant Valid()
        invariant forall k :: 0 <= k < n ==> Z[k] == node[k].theta + Dot(input, node[k].W)
        invariant forall k :: 0 <= k < n ==> Y[k] == activeFunction.eval(Z[k])
      {
        var z := node[n].Eval(input);
        Z := Z[n := z];
        Y := Y[n := activeFunction.eval(z)];
        n := n + 1;
      }
      forall k | 0 <= k < |node|
        ensures Z[k] == PreActivations(node, input)[k]
        ensures Y[k] == Activate(activeFunction, Z)[k]
      {
        PreActivationsAt(node, input, k);
        ActivateAt(activeFunction, Z, k);
      }
    }

    /** `updateWeights`: computes the local gradient from the caches, writes `dE_dX` from the
        weights as they were, then steps every weight and bias; returns the new `dE_dX`. */
    method UpdateWeights(input: seq<real>, learningRate: real, dE: seq<real>) returns (r: seq<real>)
      requires Valid() && |input| <= Nx && Ny <= |dE|
      modifies this`node, this`dEdX
      ensures Valid() && r == dEdX
      ensures State() == Update(old(State()), activeFunction, input, learningRate, dE)
    {
      var g := LocalGradients(dE);
      TransferGradients(input, g);
      StepParameters(input, learningRate, g);
      r := dEdX;
    }

    /** The local gradient `dE_dZ[n] = dE[n] * f'(Z[n], Y[n])` of every neuron. */
    method LocalGradients(dE: seq<real>) returns (g: seq<real>)
      requires Valid() && Ny <= |dE|
      ensures g == LocalGradient(activeFunction, dE, Z, Y)
    {
      var dEdZ := new real[|Y|];
      var n := 0;
      while n < |Y|
        invariant 0 <= n <= |Y|
        invariant forall k :: 0 <= k < n ==> dEdZ[k] == dE[k] * activeFunction.derivative(Z[k], Y[k])
      {
        dEdZ[n] := dE[n] * activeFunction.derivative(Z[n], Y[n]);
        n := n + 1;
      }
      g := dEdZ[..];
      forall k | 0 <= k < |g|
        ensures g[k] == LocalGradient(activeFunction, dE, Z, Y)[k]
      {
        LocalGradientAt(activeFunction, dE, Z, Y, k);
      }
    }

    /** The gradient for the previous layer: `dE_dX[i] = Σ_n W[n][i] * g[n]` for every given
        input. */
    method TransferGradients(input: seq<real>, g: seq<real>)
      requires Valid() && |input| <= Nx && |g| == Ny
      modifies this`dEdX
      ensures Valid()
      ensures dEdX == InputGradient(node, g, |input|, old(dEdX))
    {
      var i := 0;
      while i < |input|
        invariant 0 <= i <= |input|
        invariant Valid()
        invariant forall k :: 0 <= k < i ==> dEdX[k] == ColumnSum(node, g, k, Ny)
        invariant forall k :: i <= k < Nx ==> dEdX[k] == old(dEdX)[k]
      {
        var sum := 0.0;
        var n := 0;
        while n < Ny
          invariant 0 <= n <= Ny
          invariant sum == ColumnSum(node, g, i, n)
        {
          sum := sum + node[n].W[i] * g[n];
          n := n + 1;
        }
        dEdX := dEdX[i := sum];
        i := i + 1;
      }
      forall k | 0 <= k < Nx
        ensures dEdX[k] == InputGradient(node, g, |input|, old(dEdX))[k]
      {
        InputGradientAt(node, g, |input|, old(dEdX), k);
      }
    }

    /** The SGD step of every neuron: weights damped by `fast`, bias never damped. */
    method StepParameters(input: seq<real>, learningRate: real, g: seq<real>)
      requires Valid() && |input| <= Nx && |g| == Ny
      modifies this`node
      ensures Valid()
      ensures node == StepNodes(old(node), input, learningRate, fast, Nx, g)
    {
      var n := 0;
      while n < |node|
        invariant 0 <= n <= |node| == Ny
        invariant forall k :: 0 <= k < Ny ==> |node[k].W| == Nx
        invariant forall k :: 0 <= k < n ==> node[k] == StepNode(old(node)[k], input, learningRate, fast, Nx, g[k])
        invariant forall k :: n <= k < Ny ==> node[k] == old(node)[k]
      {
        var W := node[n].W;
        var i := 0;
        while i < |input|
          invariant 0 <= i <= |input|
          invariant |W| == Nx
          invariant forall j :: 0 <= j < Nx ==>
                      W[j] == if j < i then old(node)[n].W[j] - WeightStep(learningRate, fast, Nx, input[j], g[n])
                              else old(node)[n].W[j]
        {
          W := W[i := W[i] - WeightStep(learningRate, fast, Nx, input[i], g[n])];
          i := i + 1;
        }
        ghost var stepped := StepNode(old(node)[n], input, learningRate, fast, Nx, g[n]);
        assert |W| == |stepped.W|;
        forall j | 0 <= j < Nx
          ensures W[j] == stepped.W[j]
        {
          StepNodeAt(old(node)[n], input, learningRate, fast, Nx, g[n], j);
        }
        assert W == stepped.W;
        node := node[n := Node(W, node[n].theta - learningRate * g[n])];
        n := n + 1;
      }
      forall k | 0 <= k < Ny
        ensures node[k] == StepNodes(old(node), input, learningRate, fast, Nx, g)[k]
      {
        StepNodesAt(old(node), input, learningRate, fast, Nx, g, k);
      }
    }
  }
}
