# AI_Artificial_Neuron — the network trainer, modelled in Dafny

The repository trains fully connected feed-forward networks by backpropagation on the MNIST
digits. This model covers the trainer's engine:

- **Activation functions.** There are six variants: Sigmoid, Gauss, CosWave, LRelu, Triangle
  and TriangleWave. Each has an `eval`, a `derivative(z, y)` and the three initialisation
  hyperparameters `learnRate`, `alpha` and `bias`. There are two generations:
  - the one of the GlobalError experiment;
  - the one of `Network_P11`. There Sigmoid becomes `tanh`, Gauss `2e^{-z²} - 1`, CosWave
    `cos z` and TriangleWave `|lz| - 1`, all four within [-1, 1]. LRelu is moved down by 1
    and has no bound either way; Triangle is the same `1 - |z|` as before.
- **GlobalError experiment.** Each neuron computes `theta + Σ input[i]·W[i]`.
  - A layer caches its pre-activations `Z` and outputs `Y`.
  - `updateWeights` computes the local gradients `dE·f'(Z, Y)`. It then transfers them to the
    previous layer as `dE_dX`, and steps `W` and `theta`. The weight step is damped by
    `Nx/2` unless the layer is in fast mode.
  - The network chains `forward` through its layers. It has two backward passes:
    - the plain one, from the last layer down to layer 0;
    - the segmented "feedback" one. A sorted set of checkpoint layers cuts the stack into
      segments. Each segment, shallow first, receives the *original* output error, tiled or
      folded to the width of its last layer, and is swept from its end down to its start.
- **w_constant experiment.** Each neuron computes `(beta + Σ input[i]·W[i]) · alpha`.
  - The weights `W` are drawn once and never trained.
  - `updateWeights` steps only `alpha` and `beta`. The scale `alpha` is read before it is
    stepped.
  - The network has the plain backward pass only.
- **MNIST IDX reader** of the w_constant experiment.
  - It reads four big-endian 32-bit header fields with a byte swap.
  - Pixels are scaled to `[0.1, 0.9]`, optionally inverted.
  - Labels are read one byte each.
- **Target encoding and predicted label** of `Network_P11/main.cpp`.
  - A label becomes `-0.8` everywhere and `0.8` at the label.
  - The prediction is the position of the first largest output.

## How the model is built

**Numbers and primitives**
- Arithmetic is over `real`: `float` rounding is not modelled.
- The `<cmath>` primitives are fields of a `Cmath` value, left uninterpreted. Those are
  `exp` (positive), `cos`, `sin` and `tanh`.
- The `sqrt` of initialisation and the normal draws of `std::normal_distribution` are
  parameters: `sqrt` and `draw(n, i)`. The model states what every weight is as a function of
  its draw.

**Activation functions**
- `AFunction` becomes a datatype. It carries the variant tag, `eval` and `derivative` as
  function values, and the three hyperparameters.
- `GlobalErrorActivation.New` and `P11Activation.New` build each variant with the constants
  of its constructor.

**Layers and networks**
- A `Layer` is a class whose fields the methods update in place. Those fields are:
  - `node`, a sequence of neuron values;
  - `Z`, `Y` and `dEdX`, sequences whose lengths `Valid()` fixes, overwritten entry by
    entry, as the by-value `std::vector<float>` members are;
  - `fast`.
- `updateWeights` is three loops, each its own method proved against a function on the
  layer's state (`LocalGradients`, `TransferGradients` and `StepParameters`). The pure
  `Update` function describes the whole step.
- Each network is a class holding its layers as a sequence of layer states. Its methods are
  proved equal to the pure pass functions:
  - `Forwarded` for `forward`;
  - `Sweep` for the plain backward pass;
  - `FeedbackSweep` for the segmented one.
- The networks do not hold `Layer` objects. Each keeps its layers as values of the layer
  state type and applies the pure `Evaluated` and `Update` functions to them. The link to the
  in-place classes is their contracts: `Layer.Eval` fills `Z` and `Y` with the same
  `PreActivations` and `Activate` that `Evaluated` uses, and `Layer.UpdateWeights` ensures
  `State() == Update(old(State()), ...)`. So a network step on values is what the in-place
  layer methods do to the same layer.
- The two experiments live in separate directories of the repository, each with its own
  `Node`, `Layer` and `NeuralNetwork`. The model keeps them as separate modules. Members that
  read alike in both, such as `Signal` or `DOut`, work on different layer types.
- The network's ghost field `calls` records the order in which layers were given to
  `updateWeights`.

**Inputs**
- As in the source, the loops run over `input.size()` and `target.size()`. So an input
  shorter than the layer width and a target shorter than the output are allowed: the missing
  entries contribute nothing, or leave the output error at 0.
- A file is a byte sequence. A read past its end yields 0, because the destination variable
  was zeroed and a failed `istream::read` leaves it untouched.
- The files whose header makes the C++ throw or overflow decode to `None`: a negative count,
  a negative image size, or `rows * cols` beyond `int`.

**Preconditions taken from the source**
- The segmented pass needs:
  - checkpoints that are strictly increasing and inside the stack (`Checkpoints`);
  - for every resize, an error width and a target width that are equal or both positive
    (`ResizeDefined`): growing takes `% dOut.size()` and shrinking `% Ny`, so a target of
    width 0 with a non-empty error is excluded as well as an empty error with a non-empty
    target.
- Both are what the C++ needs to stay away from out-of-bounds access and `% 0`.

**Two behaviours of the code worth knowing**
- A member named `derivative` is expected to give the slope of `eval`. For TriangleWave it
  returns ±1, while the slope of `eval` is ±1/4 in the GlobalError version and ±1/2 in
  `Network_P11`. The model keeps the code's ±1, and `TriangleWaveSlope` states the exact
  relation.
- With two or more layers, the default checkpoint set `{0, last}` makes the segmented pass
  reproduce `backward` (`FeedbackDefaultEqualsBackward`). With one layer the set is `{0}`:
  the segmented pass then updates nothing, while `backward` updates layer 0
  (`SingleLayerFeedbackIsNoOp`).

## Model

| member | source | states |
|---|---|---|
| ActivationInterface.ActivateAt | exp/GlobalError/Layer.h:63-68 | entry n of the layer output is `eval(Z[n])` |
| ActivationInterface.ActivateUpToAt | exp/GlobalError/Layer.h:64-67 | every computed prefix of the outputs holds `eval(Z[n])` at n |
| ActivationInterface.LocalGradientAt | exp/GlobalError/Layer.h:73-76 | the local gradient n is `dE[n] * derivative(Z[n], Y[n])` |
| ActivationInterface.LocalGradientUpToAt | exp/w_constant/Layer.h:75-78 | every prefix of the local gradients holds `dE[n] * derivative(Z[n], Y[n])` at n |
| Vectors.ErrorDerivativeAt | exp/GlobalError/NeuralNetwork.h:50-57 | `dOut[i] = 2(output[i] - target[i])` for i below the target width, 0 beyond it |
| GlobalErrorActivation.LReluEval | exp/GlobalError/Activation.h:89-91 | the output is positive exactly when z is; otherwise it is `0.01 z` |
| GlobalErrorActivation.LReluDerivative | exp/GlobalError/Activation.h:93-95 | the derivative is 1 or 0.01, always positive |
| GlobalErrorActivation.LReluSlope | exp/GlobalError/Activation.h:86-100 | on either side of 0, the change of `eval` is `derivative * Δz` |
| GlobalErrorActivation.LReluIncreasing | exp/GlobalError/Activation.h:89-91 | LRelu is strictly increasing |
| GlobalErrorActivation.TriangleEval | exp/GlobalError/Activation.h:105-107 | the output is `1 - \|z\|`, at most 1, and 1 only at 0 |
| GlobalErrorActivation.TriangleDerivative | exp/GlobalError/Activation.h:109-111 | the derivative is -1 exactly when z > 0 and +1 exactly when z ≤ 0 |
| GlobalErrorActivation.TriangleSlope | exp/GlobalError/Activation.h:102-116 | on either side of 0, the change of `eval` is `derivative * Δz` |
| GlobalErrorActivation.TriangleWavePhase | exp/GlobalError/Activation.h:123 | the phase `z/4 - floor(z/4) - 0.5` lies in [-0.5, 0.5) |
| GlobalErrorActivation.TriangleWaveEval | exp/GlobalError/Activation.h:121-125 | the output is `1 - \|phase\|`, within [0.5, 1] |
| GlobalErrorActivation.TriangleWaveDerivative | exp/GlobalError/Activation.h:127-131 | the derivative is -1 exactly when the phase is positive and +1 otherwise |
| GlobalErrorActivation.TriangleWavePeriodic | exp/GlobalError/Activation.h:118-136 | phase, `eval` and `derivative` repeat with period 4 |
| GlobalErrorActivation.TriangleWaveSlope | exp/GlobalError/Activation.h:118-136 | within one period and one half-wave, the change of `eval` is `derivative * Δz / 4` |
| GlobalErrorActivation.SigmoidDerivativeBounds | exp/GlobalError/Activation.h:43-45 | for an output in [0, 1], `y(1 - y)` lies in [0, 1/4] |
| GlobalErrorActivation.GaussDerivative | exp/GlobalError/Activation.h:60-62 | for a positive output, the derivative has the sign opposite to z |
| GlobalErrorActivation.New | exp/GlobalError/Activation.h:21-136 | each variant carries its own tag, `eval` and `derivative` and positive `learnRate` and `alpha`; the bias is non-zero exactly for CosWave |
| GlobalErrorActivation.NewConstants | exp/GlobalError/Activation.h:37-120 | the `(learnRate, alpha, bias)` of each variant: Sigmoid (0.02, 2, 0), Gauss (0.01, 1, 0), CosWave (0.01, π, 0.5), LRelu (0.01, 1, 0), Triangle and TriangleWave (0.001, 1, 0) |
| P11Activation.LReluEval | Network_P11/Activation.h:90-92 | the output exceeds -1 exactly when z > 0; at 0 it is -1 |
| P11Activation.LReluIsShiftedGlobalError | Network_P11/Activation.h:90-92 | this LRelu's `eval` is the GlobalError one moved down by 1 |
| P11Activation.LReluSlope | Network_P11/Activation.h:87-101 | on either side of 0, the change of `eval` is `derivative * Δz` |
| P11Activation.TriangleWavePhase | Network_P11/Activation.h:122-124 | the phase lies in [-2, 2) |
| P11Activation.TriangleWaveEval | Network_P11/Activation.h:122-126 | the output is `\|phase\| - 1`, within [-1, 1] |
| P11Activation.TriangleWaveDerivative | Network_P11/Activation.h:128-132 | the derivative is +1 exactly when the phase is positive and -1 otherwise |
| P11Activation.TriangleWavePeriodic | Network_P11/Activation.h:119-137 | phase, `eval` and `derivative` repeat with period 8 |
| P11Activation.TriangleWaveSlope | Network_P11/Activation.h:119-137 | within one period and one half-wave, the change of `eval` is `derivative * Δz / 2` |
| P11Activation.SigmoidDerivativeBounds | Network_P11/Activation.h:44-46 | for an output in [-1, 1], `1 - y²` lies in [0, 1] |
| P11Activation.GaussDerivative | Network_P11/Activation.h:61-63 | for an output above -1, the derivative has the sign opposite to z |
| P11Activation.New | Network_P11/Activation.h:21-137 | each variant carries its own tag, `eval` and `derivative`, positive `learnRate` and `alpha`, and a zero bias |
| P11Activation.NewConstants | Network_P11/Activation.h:37-121 | the `(learnRate, alpha, bias)` of each variant: Sigmoid (0.002, 1, 0), Gauss (0.001, 0.5, 0), CosWave (0.002, π/2, 0), LRelu, Triangle and TriangleWave (0.001, 1, 0) |
| GlobalErrorLayer.Node.Eval | exp/GlobalError/Layer.h:19-25 | the neuron's loop computes `theta + Dot(input, W)` |
| GlobalErrorLayer.PreActivationsAt | exp/GlobalError/Layer.h:63-68 | `Z[n] = theta_n + Dot(input, W_n)` |
| GlobalErrorLayer.PreActivationsUpToAt | exp/GlobalError/Layer.h:64-67 | every prefix of the pre-activations holds `theta_n + Dot(input, W_n)` at n |
| GlobalErrorLayer.Evaluated | exp/GlobalError/Layer.h:63-68 | `eval` keeps the layer well formed and changes only `Z` and `Y` |
| GlobalErrorLayer.InputGradientAt | exp/GlobalError/Layer.h:82-87 | `dE_dX[i]` is the column sum `Σ_n W_n[i] g[n]` below the input width; beyond it, the old value stays |
| GlobalErrorLayer.InputGradientUpToAt | exp/GlobalError/Layer.h:82-87 | the same, for every prefix |
| GlobalErrorLayer.SlowWeightStep | exp/GlobalError/Layer.h:95 | outside fast mode, the weight step is the fast step divided by `Nx/2` |
| GlobalErrorLayer.StepWeightsAt | exp/GlobalError/Layer.h:94-96 | weight i moves by `-(lr/damping) * input[i] * g` inside the input width and stays otherwise |
| GlobalErrorLayer.StepNodeAt | exp/GlobalError/Layer.h:92-98 | a neuron's weight i and `theta` move by their gradient steps |
| GlobalErrorLayer.StepNodesAt | exp/GlobalError/Layer.h:92-98 | every neuron n is stepped with its own local gradient `g[n]` |
| GlobalErrorLayer.StepNodesUpToAt | exp/GlobalError/Layer.h:92-98 | the same, for every prefix of the neurons |
| GlobalErrorLayer.Update | exp/GlobalError/Layer.h:70-101 | `updateWeights` keeps the layer well formed, its widths, its mode and its cached `Z`/`Y` |
| GlobalErrorLayer.ColumnSumZero | exp/GlobalError/Layer.h:82-87 | zero local gradients give a zero column sum |
| GlobalErrorLayer.StepNodeStill | exp/GlobalError/Layer.h:92-98 | a zero local gradient leaves a neuron unchanged |
| GlobalErrorLayer.ZeroRateKeepsParameters | exp/GlobalError/Layer.h:92-98 | with learning rate 0, no weight or threshold changes |
| GlobalErrorLayer.ZeroErrorKeepsParameters | exp/GlobalError/Layer.h:70-101 | a zero output error changes no parameter and transfers a zero gradient |
| GlobalErrorLayer.FastOnlyScalesWeightStep | exp/GlobalError/Layer.h:95-97 | switching fast mode leaves the threshold step alone and scales every weight step by `Nx/2` |
| GlobalErrorLayer.InitialWeightsAt | exp/GlobalError/Layer.h:56-58 | initial weight i of neuron n is `initAlpha * draw(n, i) / Nx` |
| GlobalErrorLayer.InitialNodesAt | exp/GlobalError/Layer.h:54-60 | every neuron gets those weights and the threshold `initTheta` |
| GlobalErrorLayer.Initial | exp/GlobalError/Layer.h:32-61 | a new layer is well formed, of the given widths, in fast mode |
| GlobalErrorLayer.InitialValues | exp/GlobalError/Layer.h:32-61 | `Z`, `Y` and `dE_dX` start at 0; `theta` is `bias * alpha * sqrt(Nx)`; every weight is its scaled draw |
| GlobalErrorLayer.Layer.constructor | exp/GlobalError/Layer.h:32-61 | the fields hold the initial state of the given widths |
| GlobalErrorLayer.Layer.Eval | exp/GlobalError/Layer.h:63-68 | `Z` and `Y` become the pre-activations and outputs for the input |
| GlobalErrorLayer.Layer.LocalGradients | exp/GlobalError/Layer.h:73-76 | returns `dE[n] * derivative(Z[n], Y[n])` for every neuron |
| GlobalErrorLayer.Layer.TransferGradients | exp/GlobalError/Layer.h:82-87 | `dE_dX` becomes the input gradient |
| GlobalErrorLayer.Layer.StepParameters | exp/GlobalError/Layer.h:92-98 | the neurons become their stepped versions |
| GlobalErrorLayer.Layer.UpdateWeights | exp/GlobalError/Layer.h:70-101 | the new state is `Update` of the old one; the result is the new `dE_dX` |
| GlobalErrorTraining.SameWidthsChain | exp/GlobalError/NeuralNetwork.h:21-31 | layers of unchanged widths still chain output to input |
| GlobalErrorTraining.KeepsShapeChain | exp/GlobalError/NeuralNetwork.h:92-108 | a pass that keeps every layer's shape keeps the chain |
| GlobalErrorTraining.ChainReplace | exp/GlobalError/NeuralNetwork.h:103-106 | replacing one layer by one of the same widths keeps the chain |
| GlobalErrorTraining.CachedInput | exp/GlobalError/NeuralNetwork.h:84 | a layer is fed the previous output, or the input at layer 0, which fits its width |
| GlobalErrorTraining.Signal | exp/GlobalError/NeuralNetwork.h:39-46 | the signal of layer L has one entry per neuron of L |
| GlobalErrorTraining.LayerInput | exp/GlobalError/NeuralNetwork.h:40-43 | the forward input of layer L fits its width |
| GlobalErrorTraining.ForwardedLayer | exp/GlobalError/NeuralNetwork.h:40-43 | forwarding changes only a layer's `Z` and `Y` |
| GlobalErrorTraining.ForwardedLayerOutputs | exp/GlobalError/NeuralNetwork.h:40-43 | after forwarding, layer L outputs its signal |
| GlobalErrorTraining.Forwarded | exp/GlobalError/NeuralNetwork.h:39-46 | a forward pass keeps the chain and forwards every layer |
| GlobalErrorTraining.ForwardedStep | exp/GlobalError/NeuralNetwork.h:40-43 | layer L is evaluated on the freshly forwarded output of layer L-1 |
| GlobalErrorTraining.SignalDependsOnNodes | exp/GlobalError/NeuralNetwork.h:39-46 | the forward signal depends only on the parameters, not on stale caches |
| GlobalErrorTraining.ForwardedConsistent | exp/GlobalError/NeuralNetwork.h:39-46 | after a forward pass, every cache agrees with its input |
| GlobalErrorTraining.ConsistentIsForwarded | exp/GlobalError/NeuralNetwork.h:39-46 | consistent caches are exactly what a forward pass leaves |
| GlobalErrorTraining.ConsistentSignal | exp/GlobalError/NeuralNetwork.h:39-46 | in consistent caches, every layer's output is its signal |
| GlobalErrorTraining.ForwardIdempotent | exp/GlobalError/NeuralNetwork.h:39-46 | a second forward pass on the same input changes nothing |
| GlobalErrorTraining.DOut | exp/GlobalError/NeuralNetwork.h:93-100 | the output error has one entry per output neuron |
| GlobalErrorTraining.DOutAt | exp/GlobalError/NeuralNetwork.h:98-100 | entry i is `2(Y[i] - target[i])` inside the target width and 0 beyond it |
| GlobalErrorTraining.DOutZeroAtTarget | exp/GlobalError/NeuralNetwork.h:98-100 | the output error vanishes when the output equals the target |
| GlobalErrorTraining.Sweep | exp/GlobalError/NeuralNetwork.h:103-106 | a sweep keeps the number of layers |
| GlobalErrorTraining.SweepStep | exp/GlobalError/NeuralNetwork.h:103-106 | a sweep updates its top layer with the incoming error, then sweeps the rest with the gradient that layer returns |
| GlobalErrorTraining.SweepShape | exp/GlobalError/NeuralNetwork.h:103-106 | a sweep keeps every layer's shape and leaves the layers outside `[lo, hi]` untouched |
| GlobalErrorTraining.SweepZeroRate | exp/GlobalError/NeuralNetwork.h:103-106 | a sweep with learning rate 0 changes no parameter |
| GlobalErrorTraining.SweepZeroError | exp/GlobalError/NeuralNetwork.h:103-106 | a sweep that starts from a zero error changes no parameter |
| GlobalErrorTraining.BackwardAtTargetKeepsWeights | exp/GlobalError/NeuralNetwork.h:92-108 | training on a target equal to the output changes no parameter |
| GlobalErrorTraining.FeedbackSweep | exp/GlobalError/NeuralNetwork.h:64-88 | the segmented pass keeps the number of layers |
| GlobalErrorTraining.FeedbackSweepShape | exp/GlobalError/NeuralNetwork.h:64-88 | the segmented pass keeps every layer's shape |
| GlobalErrorTraining.FeedbackSweepStep | exp/GlobalError/NeuralNetwork.h:65-87 | one segment sweeps from its checkpoint down to its start with the resized output error; the next starts one above |
| GlobalErrorTraining.FeedbackDefaultEqualsBackward | exp/GlobalError/NeuralNetwork.h:48-108 | with the checkpoints `{0, last}`, the segmented pass is the plain backward pass, in the same order |
| GlobalErrorTraining.SingleLayerFeedbackIsNoOp | exp/GlobalError/NeuralNetwork.h:29-30 | with one layer, the checkpoints are `{0}`; the segmented pass changes nothing while the plain pass updates layer 0 |
| GlobalErrorTraining.ScheduleAdvance | exp/GlobalError/NeuralNetwork.h:83-87 | the update order is one segment's descending run followed by the rest |
| GlobalErrorTraining.ScheduleCovers | exp/GlobalError/NeuralNetwork.h:64-88 | the segments together update each layer from the start to the last checkpoint exactly once |
| GlobalErrorTraining.ScheduleExactlyOnce | exp/GlobalError/NeuralNetwork.h:48-88 | with 0 and the last layer among the checkpoints, every layer is updated exactly once when there are two or more layers, and none otherwise |
| UpdateOrder.Down | exp/GlobalError/NeuralNetwork.h:83-85 | a descending run from hi to lo has `hi - lo + 1` entries |
| UpdateOrder.DownCount | exp/GlobalError/NeuralNetwork.h:83-85 | it holds each index in `[lo, hi]` exactly once and nothing else |
| UpdateOrder.DownSplit | exp/GlobalError/NeuralNetwork.h:103-106 | a descending run splits at any point into two runs |
| UpdateOrder.DownStep | exp/w_constant/NeuralNetwork.h:49-52 | appending the next lower index extends a run by one |
| CheckpointSet.Insert | exp/GlobalError/NeuralNetwork.h:29-30 | inserting into the ordered set grows it by at most one |
| CheckpointSet.InsertAll | exp/GlobalError/NeuralNetwork.h:33-37 | inserting a list grows the set by at most its length |
| CheckpointSet.InsertEach | exp/GlobalError/NeuralNetwork.h:33-37 | the loop of `setFeedback` inserts each index in turn |
| CheckpointSet.InsertCorrect | exp/GlobalError/NeuralNetwork.h:29-30 | insertion keeps the set sorted and without repeats, adds exactly x, and grows it only when x is new |
| CheckpointSet.InsertAllMembers | exp/GlobalError/NeuralNetwork.h:33-37 | after `setFeedback`, the set is sorted and holds exactly the old members and the new indices |
| CheckpointSet.SortedUnique | exp/GlobalError/NeuralNetwork.h:33-37 | two sorted sets with the same members are equal |
| CheckpointSet.InsertAllIdempotent | exp/GlobalError/NeuralNetwork.h:33-37 | setting the same feedback list twice is the same as once |
| CheckpointSet.InsertAllOrderIrrelevant | exp/GlobalError/NeuralNetwork.h:33-37 | the order and repeats of the feedback list do not matter |
| CheckpointSet.FirstLeastLastGreatest | exp/GlobalError/NeuralNetwork.h:60-65 | the iteration starts at the least checkpoint and ends at the greatest |
| ErrorResize.Tiled | exp/GlobalError/NeuralNetwork.h:71-74 | tiling yields the target width |
| ErrorResize.TiledAt | exp/GlobalError/NeuralNetwork.h:72-74 | tiled entry i is `dOut[i % \|dOut\|]` |
| ErrorResize.TiledRepeats | exp/GlobalError/NeuralNetwork.h:72-74 | tiling starts with `dOut` and repeats it with period `\|dOut\|` |
| ErrorResize.FoldPrefix | exp/GlobalError/NeuralNetwork.h:76-78 | folding any prefix yields the target width |
| ErrorResize.Folded | exp/GlobalError/NeuralNetwork.h:75-78 | folding yields the target width |
| ErrorResize.Resized | exp/GlobalError/NeuralNetwork.h:69-81 | the resized error has the width of the segment's last layer |
| ErrorResize.FoldPrefixSlots | exp/GlobalError/NeuralNetwork.h:76-78 | after any prefix, slot j holds the sum of the entries read so far whose index is j modulo the width |
| ErrorResize.FoldPrefixTotal | exp/GlobalError/NeuralNetwork.h:76-78 | the slots of a folded prefix sum to the prefix's total |
| ErrorResize.FoldPreservesTotal | exp/GlobalError/NeuralNetwork.h:75-78 | folding preserves the total error |
| ErrorResize.FoldedSlots | exp/GlobalError/NeuralNetwork.h:76-78 | folded slot j is the sum of all entries whose index is j modulo the width |
| ErrorResize.TileExample | exp/GlobalError/NeuralNetwork.h:71-74 | three entries tiled to six repeat once |
| ErrorResize.FoldExample | exp/GlobalError/NeuralNetwork.h:75-78 | six entries folded to three add pairwise |
| ErrorResize.AdaptError | exp/GlobalError/NeuralNetwork.h:69-81 | the loops produce the resized error, or `dOut` itself when the widths agree |
| GlobalErrorNetwork.InputWidth | exp/GlobalError/NeuralNetwork.h:24-26 | layer L takes as many inputs as layer L-1 has neurons |
| GlobalErrorNetwork.InitialLayers | exp/GlobalError/NeuralNetwork.h:24-26 | layer L is a new layer of its input width and `layers[L]` neurons |
| GlobalErrorNetwork.InitialLayerAt | exp/GlobalError/NeuralNetwork.h:24-26 | every prefix of the construction holds that layer at L |
| GlobalErrorNetwork.InitialChain | exp/GlobalError/NeuralNetwork.h:21-27 | the new layers chain output to input |
| GlobalErrorNetwork.BuildLayers | exp/GlobalError/NeuralNetwork.h:24-26 | the constructor's loop builds those layers |
| GlobalErrorNetwork.EvaluateLayers | exp/GlobalError/NeuralNetwork.h:40-43 | the forward loop produces the forwarded stack |
| GlobalErrorNetwork.InitialCheckpoints | exp/GlobalError/NeuralNetwork.h:29-30 | the default checkpoints are `[0, last]`, or `[0]` for one layer |
| GlobalErrorNetwork.SweepLoopStep | exp/GlobalError/NeuralNetwork.h:103-104 | one iteration of the backward loop keeps the sweep invariant |
| GlobalErrorNetwork.SweepLoopEntry | exp/GlobalError/NeuralNetwork.h:101-103 | the sweep invariant holds before the loop |
| GlobalErrorNetwork.SweepLoopExit | exp/GlobalError/NeuralNetwork.h:103-106 | when the loop ends, the stack is the sweep and the order is the descending run |
| GlobalErrorNetwork.SweepLayers | exp/GlobalError/NeuralNetwork.h:103-106 | the backward loop computes `Sweep` and updates the layers from hi down to lo |
| GlobalErrorNetwork.FeedbackLoopStep | exp/GlobalError/NeuralNetwork.h:64-88 | one segment keeps the invariant of the segmented loop |
| GlobalErrorNetwork.FeedbackSegment | exp/GlobalError/NeuralNetwork.h:65-87 | one pass of the loop body sweeps layers `fb[k]` down to `start` with the output error resized to layer `fb[k]`, updates them in descending order, and keeps the loop invariant |
| GlobalErrorNetwork.FeedbackLoopEntry | exp/GlobalError/NeuralNetwork.h:58-62 | the invariant holds after the first checkpoint is read |
| GlobalErrorNetwork.FeedbackLoopExit | exp/GlobalError/NeuralNetwork.h:64-88 | at the end, the stack is `FeedbackSweep` and the order is the schedule |
| GlobalErrorNetwork.FeedbackLayers | exp/GlobalError/NeuralNetwork.h:58-88 | the segmented loop computes `FeedbackSweep` in the order of the schedule |
| GlobalErrorNetwork.NeuralNetwork.constructor | exp/GlobalError/NeuralNetwork.h:21-31 | the new network holds the initial layers, the checkpoints `{0, last}`, and no update so far |
| GlobalErrorNetwork.NeuralNetwork.SetFeedback | exp/GlobalError/NeuralNetwork.h:33-37 | the checkpoint set gains exactly the given indices |
| GlobalErrorNetwork.NeuralNetwork.Forward | exp/GlobalError/NeuralNetwork.h:39-46 | the layers become their forwarded versions; the result is the last layer's output |
| GlobalErrorNetwork.NeuralNetwork.OutputError | exp/GlobalError/NeuralNetwork.h:49-57 | returns the output error derivative |
| GlobalErrorNetwork.NeuralNetwork.Backward | exp/GlobalError/NeuralNetwork.h:92-108 | the layers become the sweep from the last layer to 0, updated in that order |
| GlobalErrorNetwork.NeuralNetwork.BackwardWithFeedback | exp/GlobalError/NeuralNetwork.h:48-90 | the layers become the segmented sweep, updated in the order of the schedule |
| GlobalErrorNetwork.NeuralNetwork.SetFastMode | exp/GlobalError/NeuralNetwork.h:116-120 | every layer's mode is set and nothing else changes |
| ConstantWeightLayer.Node.Eval | exp/w_constant/Layer.h:20-26 | the neuron computes `(beta + Dot(input, W)) * alpha` |
| ConstantWeightLayer.PreActivationsAt | exp/w_constant/Layer.h:65-70 | `Z[n] = (beta_n + Dot(input, W_n)) * alpha_n` |
| ConstantWeightLayer.PreActivationsUpToAt | exp/w_constant/Layer.h:66-69 | every prefix of the pre-activations holds that value |
| ConstantWeightLayer.Evaluated | exp/w_constant/Layer.h:65-70 | `eval` keeps the layer well formed and changes only `Z` and `Y` |
| ConstantWeightLayer.InputGradientAt | exp/w_constant/Layer.h:84-89 | `dE_dX[i]` is `Σ_n W_n[i] g[n] alpha_n` below the input width; beyond it, the old value stays |
| ConstantWeightLayer.InputGradientUpToAt | exp/w_constant/Layer.h:84-89 | the same, for every prefix |
| ConstantWeightLayer.StepNeuron | exp/w_constant/Layer.h:95-102 | `alpha` moves by `-lr * (beta + Dot(input, W)) * g`; `beta` moves by `-lr * alpha_old * g`; `W` stays |
| ConstantWeightLayer.StepNodesAt | exp/w_constant/Layer.h:94-103 | every neuron n keeps its weights and steps `alpha` and `beta` with `g[n]`, from its old `alpha` |
| ConstantWeightLayer.StepNodesUpToAt | exp/w_constant/Layer.h:94-103 | every prefix of the neurons holds the stepped neuron |
| ConstantWeightLayer.Update | exp/w_constant/Layer.h:72-106 | `updateWeights` keeps widths, mode and cached `Z`/`Y` |
| ConstantWeightLayer.UpdateKeepsWeights | exp/w_constant/Layer.h:94-103 | `updateWeights` never changes a weight, and keeps the layer well formed |
| ConstantWeightLayer.UpdateIgnoresFast | exp/w_constant/Layer.h:72-106 | fast mode does not affect the update |
| ConstantWeightLayer.ScaledColumnSumZero | exp/w_constant/Layer.h:84-89 | zero local gradients give a zero transferred gradient |
| ConstantWeightLayer.ZeroErrorKeepsParameters | exp/w_constant/Layer.h:72-106 | a zero output error changes no parameter and transfers a zero gradient |
| ConstantWeightLayer.InitialWeightsAt | exp/w_constant/Layer.h:57-59 | initial weight i of neuron n is `draw(n, i) / Nx` |
| ConstantWeightLayer.InitialNodesAt | exp/w_constant/Layer.h:55-62 | every neuron gets those weights, `beta = bias` and `alpha = initAlpha` |
| ConstantWeightLayer.Initial | exp/w_constant/Layer.h:33-63 | a new layer is well formed, of the given widths, in fast mode |
| ConstantWeightLayer.InitialValues | exp/w_constant/Layer.h:33-63 | `Z`, `Y` and `dE_dX` start at 0; `beta` is the bias and `alpha` is `alpha * sqrt(Nx)`; every weight is its scaled draw |
| ConstantWeightLayer.Layer.constructor | exp/w_constant/Layer.h:33-63 | the fields hold the initial state of the given widths |
| ConstantWeightLayer.Layer.Eval | exp/w_constant/Layer.h:65-70 | `Z` and `Y` become the pre-activations and outputs for the input |
| ConstantWeightLayer.Layer.LocalGradients | exp/w_constant/Layer.h:75-78 | returns `dE[n] * derivative(Z[n], Y[n])` for every neuron |
| ConstantWeightLayer.Layer.TransferGradients | exp/w_constant/Layer.h:84-89 | `dE_dX` becomes the scaled input gradient |
| ConstantWeightLayer.Layer.StepParameters | exp/w_constant/Layer.h:94-103 | the neurons become their stepped versions |
| ConstantWeightLayer.Layer.UpdateWeights | exp/w_constant/Layer.h:72-106 | the new state is `Update` of the old one; the result is the new `dE_dX` |
| ConstantWeightNetwork.ChainReplace | exp/w_constant/NeuralNetwork.h:49-52 | replacing one layer by one of the same widths keeps the chain |
| ConstantWeightNetwork.KeepsShapeChain | exp/w_constant/NeuralNetwork.h:38-54 | a pass that keeps every layer's shape keeps the chain |
| ConstantWeightNetwork.CachedInput | exp/w_constant/NeuralNetwork.h:50-52 | a layer is fed the previous output, or the input at layer 0 |
| ConstantWeightNetwork.InputWidth | exp/w_constant/NeuralNetwork.h:23-26 | layer L takes as many inputs as layer L-1 has neurons |
| ConstantWeightNetwork.InitialLayers | exp/w_constant/NeuralNetwork.h:23-26 | layer L is a new layer of its input width and `layers[L]` neurons |
| ConstantWeightNetwork.InitialLayerAt | exp/w_constant/NeuralNetwork.h:23-26 | every prefix of the construction holds that layer at L |
| ConstantWeightNetwork.InitialChain | exp/w_constant/NeuralNetwork.h:20-27 | the new layers chain output to input |
| ConstantWeightNetwork.BuildLayers | exp/w_constant/NeuralNetwork.h:23-26 | the constructor's loop builds those layers |
| ConstantWeightNetwork.Signal | exp/w_constant/NeuralNetwork.h:29-36 | the signal of layer L has one entry per neuron |
| ConstantWeightNetwork.LayerInput | exp/w_constant/NeuralNetwork.h:30-33 | the forward input of layer L fits its width |
| ConstantWeightNetwork.ForwardedLayer | exp/w_constant/NeuralNetwork.h:30-33 | forwarding changes only a layer's `Z` and `Y` |
| ConstantWeightNetwork.ForwardedLayerOutputs | exp/w_constant/NeuralNetwork.h:30-33 | after forwarding, layer L outputs its signal |
| ConstantWeightNetwork.Forwarded | exp/w_constant/NeuralNetwork.h:29-36 | a forward pass keeps the chain and forwards every layer |
| ConstantWeightNetwork.ForwardedStep | exp/w_constant/NeuralNetwork.h:30-33 | layer L is evaluated on the freshly forwarded output of layer L-1 |
| ConstantWeightNetwork.EvaluateLayers | exp/w_constant/NeuralNetwork.h:30-33 | the forward loop produces the forwarded stack |
| ConstantWeightNetwork.DOut | exp/w_constant/NeuralNetwork.h:39-46 | the output error has one entry per output neuron |
| ConstantWeightNetwork.DOutAt | exp/w_constant/NeuralNetwork.h:44-46 | entry i is `2(Y[i] - target[i])` inside the target width and 0 beyond it |
| ConstantWeightNetwork.DOutZeroAtTarget | exp/w_constant/NeuralNetwork.h:44-46 | the output error vanishes when the output equals the target |
| ConstantWeightNetwork.Sweep | exp/w_constant/NeuralNetwork.h:49-52 | a sweep keeps the number of layers |
| ConstantWeightNetwork.SweepStep | exp/w_constant/NeuralNetwork.h:49-52 | a sweep updates its top layer with the incoming error, then sweeps the rest with the gradient that layer returns |
| ConstantWeightNetwork.SweepShape | exp/w_constant/NeuralNetwork.h:49-52 | a sweep keeps every layer's shape and weights, and leaves the layers outside `[lo, hi]` untouched |
| ConstantWeightNetwork.SweepZeroError | exp/w_constant/NeuralNetwork.h:49-52 | a sweep that starts from a zero error changes no parameter |
| ConstantWeightNetwork.BackwardAtTargetKeepsNodes | exp/w_constant/NeuralNetwork.h:38-54 | training on a target equal to the output changes no parameter |
| ConstantWeightNetwork.SweepLoopStep | exp/w_constant/NeuralNetwork.h:49-51 | one iteration of the backward loop keeps the sweep invariant |
| ConstantWeightNetwork.SweepLoopEntry | exp/w_constant/NeuralNetwork.h:47-49 | the sweep invariant holds before the loop |
| ConstantWeightNetwork.SweepLoopExit | exp/w_constant/NeuralNetwork.h:49-52 | when the loop ends, the stack is the sweep and the order is the descending run |
| ConstantWeightNetwork.SweepLayers | exp/w_constant/NeuralNetwork.h:49-52 | the backward loop computes `Sweep` and updates the layers from hi down to lo |
| ConstantWeightNetwork.WeightsOf | exp/w_constant/Layer.h:55-62 | the weights of a stack are recorded layer by layer |
| ConstantWeightNetwork.NodeWeights | exp/w_constant/Layer.h:55-62 | the weights of a layer are recorded neuron by neuron |
| ConstantWeightNetwork.NeuralNetwork.constructor | exp/w_constant/NeuralNetwork.h:20-27 | the new network holds the initial layers and no update so far |
| ConstantWeightNetwork.NeuralNetwork.Forward | exp/w_constant/NeuralNetwork.h:29-36 | the layers become their forwarded versions; the result is the last layer's output; the weights stay those drawn at construction |
| ConstantWeightNetwork.NeuralNetwork.OutputError | exp/w_constant/NeuralNetwork.h:39-46 | returns the output error derivative |
| ConstantWeightNetwork.NeuralNetwork.Backward | exp/w_constant/NeuralNetwork.h:38-54 | the layers become the sweep from the last layer to 0, updated in that order; the weights stay those drawn at construction |
| ConstantWeightNetwork.NeuralNetwork.SetFastMode | exp/w_constant/NeuralNetwork.h:62-66 | every layer's mode is set and nothing else changes |
| MnistReader.ByteAt | exp/w_constant/readFiles.h:41-42 | a byte inside the file is read as it is |
| MnistReader.LittleEndian | exp/w_constant/readFiles.h:25-28 | a 4-byte read fits in 32 bits |
| MnistReader.BigEndian | exp/w_constant/readFiles.h:30-33 | a big-endian field fits in 32 bits |
| MnistReader.Bytes | exp/w_constant/readFiles.h:25-28 | splitting a 32-bit value into bytes inverts the little-endian read |
| MnistReader.BytesOfLittleEndian | exp/w_constant/readFiles.h:25-28 | reading the bytes back gives the same bytes |
| MnistReader.Bswap32 | exp/w_constant/readFiles.h:30-33 | a byte swap stays in 32 bits |
| MnistReader.SwappedReadIsBigEndian | exp/w_constant/readFiles.h:25-33 | a little-endian read followed by `bswap32` is the big-endian value of the bytes |
| MnistReader.Bswap32Involutive | exp/w_constant/readFiles.h:30-33 | swapping twice gives the value back |
| MnistReader.ToInt32 | exp/w_constant/readFiles.h:20-33 | the field read as `int32_t` lies in the 32-bit signed range and is congruent to the unsigned value |
| MnistReader.BigEndianAt | exp/w_constant/readFiles.h:25-33 | k bytes at a position form a value below `256^k` |
| MnistReader.Field | exp/w_constant/readFiles.h:20-33 | a header field is a signed 32-bit value |
| MnistReader.ReadField | exp/w_constant/readFiles.h:25-33 | the read plus swap gives the signed big-endian field |
| MnistReader.PixelRange | exp/w_constant/readFiles.h:43-47 | every pixel lies in [0.1, 0.9]; byte 0 is 0.1 and byte 255 is 0.9 |
| MnistReader.InversePixel | exp/w_constant/readFiles.h:43-47 | the inverse scaling of b equals the plain scaling of `255 - b` |
| MnistReader.PixelMonotonic | exp/w_constant/readFiles.h:46 | the plain scaling is strictly increasing, hence one-to-one |
| MnistReader.Row | exp/w_constant/readFiles.h:40-48 | an image has `rows * cols` pixels |
| MnistReader.RowAt | exp/w_constant/readFiles.h:40-48 | pixel j of an image is the scaled byte j of the image |
| MnistReader.ImageStartNext | exp/w_constant/readFiles.h:39-49 | each image starts one image size after the previous one |
| MnistReader.Rows | exp/w_constant/readFiles.h:38-49 | there are `n_images` images |
| MnistReader.RowsAt | exp/w_constant/readFiles.h:39-49 | image i starts at byte `16 + i * size` |
| MnistReader.DecodeImagesPixels | exp/w_constant/readFiles.h:17-55 | a file whose header has a non-negative count and an image size within `int` decodes to `n_images` images of `rows * cols` pixels, each the scaled byte at its offset |
| MnistReader.BigEndianAtAgree | exp/w_constant/readFiles.h:25-33 | a field depends only on its own bytes |
| MnistReader.RowAgree | exp/w_constant/readFiles.h:40-48 | an image depends only on its own bytes |
| MnistReader.RowsAgree | exp/w_constant/readFiles.h:39-49 | the images depend only on the bytes after the header |
| MnistReader.DecodeImagesIgnoresMagic | exp/w_constant/readFiles.h:25-30 | the magic number is read but not checked: files differing only there decode alike |
| MnistReader.DecodeLabelsIgnoresMagic | exp/w_constant/readFiles.h:63-66 | the same holds for the label file |
| MnistReader.ReadImage | exp/w_constant/readFiles.h:40-48 | the inner loop reads one image |
| MnistReader.ReadImages | exp/w_constant/readFiles.h:17-55 | `read_mnist_images` returns the decoding of the file |
| MnistReader.Labels | exp/w_constant/readFiles.h:71-76 | there are `n_labels` labels |
| MnistReader.LabelsAt | exp/w_constant/readFiles.h:72-76 | label i is byte `8 + i` as an int |
| MnistReader.LabelsAgree | exp/w_constant/readFiles.h:71-76 | the labels depend only on the bytes after the header |
| MnistReader.DecodeLabelsValues | exp/w_constant/readFiles.h:57-82 | a decoded file holds `n_labels` labels, each its byte, in [0, 255] |
| MnistReader.ReadLabels | exp/w_constant/readFiles.h:57-82 | `read_mnist_labels` returns the decoding of the file |
| Prediction.OneHotEncode | Network_P11/main.cpp:15-19 | the encoding has `num_classes` entries, 0.8 at the label and -0.8 elsewhere, and is predicted as the label |
| Prediction.FirstMaxUpTo | Network_P11/main.cpp:30 | the scan returns a largest entry with every earlier entry strictly smaller |
| Prediction.PredictedLabel | Network_P11/main.cpp:72 | the predicted label is where `std::max_element` stops: the first largest output |
| Prediction.FirstMaxUnique | Network_P11/main.cpp:30 | only one position is the first largest entry |
| Prediction.OneHotPredictsLabel | Network_P11/main.cpp:15-19 | the target of a class is predicted as that class |

## Left out

- Floating point: every `float` and `double` is a real number, so rounding, overflow to
  infinity and NaN are not modelled.
- The `<cmath>` functions `exp`, `cos`, `sin`, `tanh` and `sqrt` are uninterpreted
  parameters. The model proves nothing about the Sigmoid, Gauss and CosWave outputs beyond what
  their derivatives state in terms of `y`.
- Random initialisation: `std::random_device`, `std::mt19937` and the normal distribution are
  the `draw` parameter.
- Opening files, the "Unable to open file" message and `exit(1)` are not modelled: a file is
  its byte sequence.
- The destructors, `printGradients`, `saveWeights` and the training and testing drivers of
  `main.cpp` (loops over epochs, loss accumulation, accuracy counting and console output)
  are not modelled.
- exp/w_constant/Activation.h is not part of this model. The w_constant layer takes any
  `AFunction` value.
- Network_P11/NeuralNetwork.h and Network_P11/readFiles.h are not part of this model. From
  Network_P11, only `Activation.h`, `one_hot_encode` and the predicted-label expression are
  modelled.
- Pointer identity is not modelled. In the source, `updateWeights` returns a pointer to the
  layer's own `dE_dX`, and the next layer reads through it. The model passes the vector's
  value, which is what that layer reads before anything changes it.
- The networks' `std::vector<Layer*>` is modelled as a sequence of layer values, not of
  `Layer` objects. The in-place update of each heap layer and the sharing of one
  `AFunction*` by all layers are not captured; the layer classes carry the in-place form.
- Prediction.OneHotEncode: requires a label below `num_classes`. The C++ writes out of
  bounds otherwise, which has no defined meaning to model. Its `num_classes` is a `nat`: a
  negative `int` makes the C++ vector constructor throw `std::length_error`, and that
  exception path is excluded by the type.
- GlobalErrorLayer.Layer.constructor, ConstantWeightLayer.Layer.constructor,
  GlobalErrorLayer.Initial and ConstantWeightLayer.Initial: the widths `numOfInputs` and
  `numOfOutputs` are `nat`. In C++ they are `int`, and a negative one makes `resize` or the
  `std::vector<float>` constructor throw `std::length_error`; that exception path is excluded
  by the type.
- GlobalErrorNetwork.NeuralNetwork.constructor, ConstantWeightNetwork.NeuralNetwork.constructor,
  GlobalErrorNetwork.InitialLayers and ConstantWeightNetwork.InitialLayers: `numOfInputs` is a
  `nat` and `layers` a `seq<nat>`. A negative width in C++ reaches a layer constructor and
  throws `std::length_error` there; that exception path is excluded by the type.
- MnistReader.DecodeImages: has no value for a file whose counts are negative or whose
  `rows * cols` overflows `int`. There the C++ throws `std::length_error` or has undefined
  behaviour.
