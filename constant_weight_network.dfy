/** `class NeuralNetwork` of exp/w_constant/NeuralNetwork.h: a stack of frozen-weight layers
    sharing one activation, with forward, backward and `setFastMode`. The layers are held as
    values (`LayerState`), each step replacing one of them by what the corresponding `Layer`
    method leaves. */
module ConstantWeightNetwork {
  import opened Vectors
  import opened ActivationInterface
  import opened ConstantWeightLayer
  import opened UpdateOrder

  /** Layer L reads as many values as layer L-1 has outputs. */
  ghost predicate Linked(ss: seq<LayerState>, L: nat)
    requires 0 < L < |ss|
  {
    ss[L].nx == |ss[L - 1].node|
  }

  /** Consecutive layers fit: every layer is well formed and layer L reads the outputs of
      layer L-1. */
  ghost predicate Chain(ss: seq<LayerState>)
  {
    && |ss| > 0
    && (forall L :: 0 <= L < |ss| ==> WellFormed(ss[L]))
    && (forall L :: 0 < L < |ss| ==> Linked(ss, L))
  }

  /** Replacing one layer by a well-formed layer of the same widths keeps the chain. */
  lemma ChainReplace(ss: seq<LayerState>, k: nat, u: LayerState)
    requires Chain(ss) && k < |ss| && WellFormed(u)
    requires u.nx == ss[k].nx && |u.node| == |ss[k].node|
    ensures Chain(ss[k := u])
  {
    var t := ss[k := u];
    forall L | 0 < L < |t| ensures Linked(t, L) {
      assert Linked(ss, L);
    }
  }

  /** `r` has the layer count, the widths, the caches, the flags and the weights of `ss`:
      what a backward pass leaves alone. */
  ghost predicate KeepsShape(ss: seq<LayerState>, r: seq<LayerState>)
  {
    && |r| == |ss|
    && forall L :: 0 <= L < |ss| ==>
         && WellFormed(r[L])
         && r[L].nx == ss[L].nx && |r[L].node| == |ss[L].node|
         && r[L].Z == ss[L].Z && r[L].Y == ss[L].Y && r[L].fast == ss[L].fast
         && (forall n :: 0 <= n < |ss[L].node| ==> r[L].node[n].W == ss[L].node[n].W)
  }

  /** Layers of the same shapes fit together as well. */
  lemma KeepsShapeChain(ss: seq<LayerState>, r: seq<LayerState>)
    requires Chain(ss) && KeepsShape(ss, r)
    ensures Chain(r)
  {
    forall L | 0 < L < |r| ensures Linked(r, L) {
      assert Linked(ss, L);
    }
  }

  /** What layer L reads from the caches: the outputs layer L-1 computed last, or `input`
      for layer 0. */
  function CachedInput(ss: seq<LayerState>, input: seq<real>, L: nat): (x: seq<real>)
    requires Chain(ss) && L < |ss| && |input| <= ss[0].nx
    ensures |x| <= ss[L].nx
  {
    if L == 0 then input else assert Linked(ss, L); ss[L - 1].Y
  }

  // ---------------------------------------------------------------------------------------
  // construction

  /** The input width of layer L in a network built from `numOfInputs` and `layers`. */
  function InputWidth(numOfInputs: nat, layers: seq<nat>, L: nat): (w: nat)
    requires L < |layers|
    ensures L > 0 ==> w == layers[L - 1]
  {
    if L == 0 then numOfInputs else layers[L - 1]
  }

  /** The first k layers the constructor pushes: layer 0 reads `numOfInputs` values, layer L
      the `layers[L-1]` outputs of the layer below it. */
  function InitialLayers(numOfInputs: nat, layers: seq<nat>, act: AFunction, sqrt: real -> real,
                         draw: nat -> (nat, nat) -> real, k: nat): (ls: seq<LayerState>)
    requires k <= |layers|
    ensures |ls| == k
    ensures forall L {:trigger ls[L]} :: 0 <= L < k ==>
              WellFormed(ls[L]) && ls[L].nx == InputWidth(numOfInputs, layers, L) && |ls[L].node| == layers[L]
    decreases k
  {
    if k == 0 then []
    else InitialLayers(numOfInputs, layers, act, sqrt, draw, k - 1)
         + [Initial(InputWidth(numOfInputs, layers, k - 1), layers[k - 1], act, sqrt, draw(k - 1))]
  }

  /** Layer L of the network is a fresh layer of `InputWidth(L)` inputs and `layers[L]`
      neurons. */
  lemma {:induction false} InitialLayerAt(numOfInputs: nat, layers: seq<nat>, act: AFunction, sqrt: real -> real,
                                          draw: nat -> (nat, nat) -> real, k: nat, L: nat)
    requires L < k <= |layers|
    ensures InitialLayers(numOfInputs, layers, act, sqrt, draw, k)[L]
            == Initial(InputWidth(numOfInputs, layers, L), layers[L], act, sqrt, draw(L))
    decreases k
  {
    if L < k - 1 {
      InitialLayerAt(numOfInputs, layers, act, sqrt, draw, k - 1, L);
    }
  }

  /** Freshly constructed layers fit together, and the first reads the network inputs. */
  lemma InitialChain(numOfInputs: nat, layers: seq<nat>, act: AFunction, sqrt: real -> real,
                     draw: nat -> (nat, nat) -> real)
    requires |layers| > 0
    ensures var ls := InitialLayers(numOfInputs, layers, act, sqrt, draw, |layers|);
            Chain(ls) && ls[0].nx == numOfInputs
  {
    var ls := InitialLayers(numOfInputs, layers, act, sqrt, draw, |layers|);
    forall L | 0 < L < |ls| ensures Linked(ls, L) {
    }
  }

  /** The `push_back` loop of the constructor: layer 0 reads the network inputs, every later
      layer the outputs of the one below it. */
  method BuildLayers(numOfInputs: nat, layers: seq<nat>, act: AFunction, sqrt: real -> real,
                     draw: nat -> (nat, nat) -> real) returns (ls: seq<LayerState>)
    requires |layers| > 0
    ensures ls == InitialLayers(numOfInputs, layers, act, sqrt, draw, |layers|)
  {
    ls := [Initial(numOfInputs, layers[0], act, sqrt, draw(0))];
    var i := 1;
    while i < |layers|
      invariant 1 <= i <= |layers|
      invariant ls == InitialLayers(numOfInputs, layers, act, sqrt, draw, i)
    {
      ls := ls + [Initial(layers[i - 1], layers[i], act, sqrt, draw(i))];
      i := i + 1;
    }
  }

  // ---------------------------------------------------------------------------------------
  // forward

  /** The outputs of layer L when `input` is fed to the network. */
  function Signal(ss: seq<LayerState>, act: AFunction, input: seq<real>, L: nat): (y: seq<real>)
    requires Chain(ss) && L < |ss| && |input| <= ss[0].nx
    ensures |y| == |ss[L].node|
    decreases L
  {
    var x := if L == 0 then input else assert Linked(ss, L); Signal(ss, act, input, L - 1);
    Activate(act, PreActivations(ss[L].node, x))
  }

  /** What layer L reads during the forward pass. */
  function LayerInput(ss: seq<LayerState>, act: AFunction, input: seq<real>, L: nat): (x: seq<real>)
    requires Chain(ss) && L < |ss| && |input| <= ss[0].nx
    ensures |x| <= ss[L].nx
  {
    if L == 0 then input else assert Linked(ss, L); Signal(ss, act, input, L - 1)
  }

  /** Layer L after the forward pass: its caches are refilled from what it reads. */
  function ForwardedLayer(ss: seq<LayerState>, act: AFunction, input: seq<real>, L: nat): (u: LayerState)
    requires Chain(ss) && |input| <= ss[0].nx && L < |ss|
    ensures WellFormed(u)
    ensures u.nx == ss[L].nx && u.node == ss[L].node && u.dEdX == ss[L].dEdX && u.fast == ss[L].fast
  {
    Evaluated(ss[L], act, LayerInput(ss, act, input, L))
  }

  /** After the forward pass, layer L holds the network's signal at L. */
  lemma ForwardedLayerOutputs(ss: seq<LayerState>, act: AFunction, input: seq<real>, L: nat)
    requires Chain(ss) && |input| <= ss[0].nx && L < |ss|
    ensures ForwardedLayer(ss, act, input, L).Y == Signal(ss, act, input, L)
  {
  }

  /** The network after `forward(input)`: every layer's caches are refilled from what it
      reads; neurons, gradient buffers and flags are untouched. */
  function Forwarded(ss: seq<LayerState>, act: AFunction, input: seq<real>): (r: seq<LayerState>)
    requires Chain(ss) && |input| <= ss[0].nx
    ensures |r| == |ss| && Chain(r)
    ensures forall L :: 0 <= L < |ss| ==> r[L] == ForwardedLayer(ss, act, input, L)
  {
    var f := (L: nat) => if L < |ss| then ForwardedLayer(ss, act, input, L) else ss[0];
    var r := Tabulate(f, |ss|);
    forall L | 0 <= L < |ss| ensures r[L] == ForwardedLayer(ss, act, input, L) {
      TabulateAt(f, |ss|, L);
    }
    forall L | 0 < L < |r| ensures Linked(r, L) {
      assert Linked(ss, L);
    }
    r
  }

  /** Layer L after a forward pass: its caches are computed from the refreshed outputs of
      layer L-1, or from `input` for layer 0, and the network's output is the signal of the
      last layer. */
  lemma ForwardedStep(ss: seq<LayerState>, act: AFunction, input: seq<real>, L: nat)
    requires Chain(ss) && |input| <= ss[0].nx && L < |ss|
    ensures L > 0 ==> |Forwarded(ss, act, input)[L - 1].Y| == ss[L].nx
    ensures var x := if L == 0 then input else Forwarded(ss, act, input)[L - 1].Y;
            var z := PreActivations(ss[L].node, x);
            Forwarded(ss, act, input)[L] == ss[L].(Z := z, Y := Activate(act, z))
    ensures Forwarded(ss, act, input)[L].Y == Signal(ss, act, input, L)
  {
    var r := Forwarded(ss, act, input);
    ForwardedLayerOutputs(ss, act, input, L);
    if L > 0 {
      assert r[L - 1] == ForwardedLayer(ss, act, input, L - 1);
      assert Linked(ss, L);
      ForwardedLayerOutputs(ss, act, input, L - 1);
    }
  }

  /** The loop of `forward`: `layer[0]->eval(input)`, then `layer[L]->eval(layer[L-1]->Y)`
      bottom-up, each layer reading the outputs its predecessor has just computed. */
  method EvaluateLayers(ss: seq<LayerState>, act: AFunction, input: seq<real>) returns (ls: seq<LayerState>)
    requires Chain(ss) && |input| <= ss[0].nx
    ensures ls == Forwarded(ss, act, input)
  {
    ls := ss;
    var L := 0;
    while L < |ls|
      invariant 0 <= L <= |ls| == |ss|
      invariant forall k :: 0 <= k < L ==> ls[k] == ForwardedLayer(ss, act, input, k)
      invariant forall k :: L <= k < |ss| ==> ls[k] == ss[k]
    {
      var x := if L == 0 then input else ls[L - 1].Y;
      if L > 0 {
        assert Linked(ss, L);
        ForwardedLayerOutputs(ss, act, input, L - 1);
      }
      assert x == LayerInput(ss, act, input, L);
      var u := Evaluated(ls[L], act, x);
      assert u == ForwardedLayer(ss, act, input, L);
      ls := ls[L := u];
      L := L + 1;
    }
    var r := Forwarded(ss, act, input);
    assert forall k :: 0 <= k < |ss| ==> ls[k] == r[k];
  }

  // ---------------------------------------------------------------------------------------
  // backward

  /** `dOut[i] = 2 (output[i] - target[i])` for every given target, zero for the rest of the
      output width. */
  function DOut(ss: seq<LayerState>, target: seq<real>): (d: seq<real>)
    requires Chain(ss) && |target| <= |ss[|ss| - 1].Y|
    ensures |d| == |ss[|ss| - 1].node|
  {
    ErrorDerivative(ss[|ss| - 1].Y, target, |ss[|ss| - 1].Y|)
  }

  /** Entry i of the output error is `2 (output[i] - target[i])` where a target is given and
      zero past the end of the target. */
  lemma DOutAt(ss: seq<LayerState>, target: seq<real>, i: nat)
    requires Chain(ss) && |target| <= |ss[|ss| - 1].Y| && i < |ss[|ss| - 1].Y|
    ensures DOut(ss, target)[i] == if i < |target| then 2.0 * (ss[|ss| - 1].Y[i] - target[i]) else 0.0
  {
    ErrorDerivativeAt(ss[|ss| - 1].Y, target, |ss[|ss| - 1].Y|, i);
  }

  /** An output equal to the target gives a zero error derivative. */
  lemma DOutZeroAtTarget(ss: seq<LayerState>, target: seq<real>)
    requires Chain(ss) && target == ss[|ss| - 1].Y
    ensures forall i :: 0 <= i < |DOut(ss, target)| ==> DOut(ss, target)[i] == 0.0
  {
    forall i | 0 <= i < |DOut(ss, target)|
      ensures DOut(ss, target)[i] == 0.0
    {
      DOutAt(ss, target, i);
    }
  }

  /** `updateWeights` on layers `hi` down to `lo`: layer `hi` receives `dE`, each layer below
      receives the input gradient of the layer above it, and every layer reads the outputs of
      the layer below it (or `input` for layer 0). */
  function Sweep(ss: seq<LayerState>, act: AFunction, input: seq<real>, lr: real, dE: seq<real>, hi: int, lo: nat): (r: seq<LayerState>)
    requires Chain(ss) && |input| <= ss[0].nx
    requires lo <= hi + 1 && hi < |ss|
    requires hi >= 0 ==> |ss[hi].node| <= |dE|
    ensures |r| == |ss|
    decreases hi + 1 - lo
  {
    if hi < lo then ss
    else
      var x := CachedInput(ss, input, hi);
      var u := Update(ss[hi], act, x, lr, dE);
      UpdateKeepsWeights(ss[hi], act, x, lr, dE);
      ChainReplace(ss, hi, u);
      Sweep(ss[hi := u], act, input, lr, u.dEdX, hi - 1, lo)
  }

  /** One step of a sweep: updating layer `hi` keeps the chain, and the rest of the sweep
      starts from the input gradient that layer returned. */
  lemma SweepStep(ss: seq<LayerState>, act: AFunction, input: seq<real>, lr: real, dE: seq<real>, hi: nat, lo: nat)
    requires Chain(ss) && |input| <= ss[0].nx
    requires lo <= hi < |ss| && |ss[hi].node| <= |dE|
    ensures var u := Update(ss[hi], act, CachedInput(ss, input, hi), lr, dE);
            && Chain(ss[hi := u]) && u.nx == ss[hi].nx
            && (hi > 0 ==> |ss[hi - 1].node| <= |u.dEdX|)
            && Sweep(ss, act, input, lr, dE, hi, lo) == Sweep(ss[hi := u], act, input, lr, u.dEdX, hi - 1, lo)
  {
    var u := Update(ss[hi], act, CachedInput(ss, input, hi), lr, dE);
    UpdateKeepsWeights(ss[hi], act, CachedInput(ss, input, hi), lr, dE);
    ChainReplace(ss, hi, u);
    if hi > 0 {
      assert Linked(ss, hi);
    }
  }

  /** A sweep keeps every shape, cache, flag and weight, and leaves the layers outside
      `lo..hi` untouched: only scales, offsets and gradient buffers are trained. */
  lemma {:induction false} SweepShape(ss: seq<LayerState>, act: AFunction, input: seq<real>, lr: real, dE: seq<real>, hi: int, lo: nat)
    requires Chain(ss) && |input| <= ss[0].nx
    requires lo <= hi + 1 && hi < |ss|
    requires hi >= 0 ==> |ss[hi].node| <= |dE|
    ensures KeepsShape(ss, Sweep(ss, act, input, lr, dE, hi, lo))
    ensures forall L :: 0 <= L < |ss| && !(lo <= L <= hi) ==> Sweep(ss, act, input, lr, dE, hi, lo)[L] == ss[L]
    decreases hi + 1 - lo
  {
    if lo <= hi {
      var x := CachedInput(ss, input, hi);
      var u := Update(ss[hi], act, x, lr, dE);
      UpdateKeepsWeights(ss[hi], act, x, lr, dE);
      ChainReplace(ss, hi, u);
      SweepShape(ss[hi := u], act, input, lr, u.dEdX, hi - 1, lo);
    }
  }

  /** A sweep started with a zero error changes no scale and no offset: each layer passes a
      zero gradient to the layer below. */
  lemma {:induction false} SweepZeroError(ss: seq<LayerState>, act: AFunction, input: seq<real>, lr: real, dE: seq<real>, hi: int, lo: nat)
    requires Chain(ss) && |input| <= ss[0].nx
    requires lo <= hi + 1 && hi < |ss|
    requires hi >= 0 ==> |ss[hi].node| <= |dE| && forall n :: 0 <= n < |ss[hi].node| ==> dE[n] == 0.0
    ensures forall L :: 0 <= L < |ss| ==> Sweep(ss, act, input, lr, dE, hi, lo)[L].node == ss[L].node
    decreases hi + 1 - lo
  {
    if lo <= hi {
      var x := CachedInput(ss, input, hi);
      var u := Update(ss[hi], act, x, lr, dE);
      ZeroErrorKeepsParameters(ss[hi], act, x, lr, dE);
      UpdateKeepsWeights(ss[hi], act, x, lr, dE);
      ChainReplace(ss, hi, u);
      SweepZeroError(ss[hi := u], act, input, lr, u.dEdX, hi - 1, lo);
    }
  }

  /** `backward` with an output equal to the target leaves every neuron as it was. */
  lemma BackwardAtTargetKeepsNodes(ss: seq<LayerState>, act: AFunction, input: seq<real>, lr: real)
    requires Chain(ss) && |input| <= ss[0].nx
    ensures var r := Sweep(ss, act, input, lr, DOut(ss, ss[|ss| - 1].Y), |ss| - 1, 0);
            forall L :: 0 <= L < |ss| ==> r[L].node == ss[L].node
  {
    DOutZeroAtTarget(ss, ss[|ss| - 1].Y);
    SweepZeroError(ss, act, input, lr, DOut(ss, ss[|ss| - 1].Y), |ss| - 1, 0);
  }

  /** What the loop of `SweepLayers` keeps: layers above L are done, the rest of the sweep
      starts at L with gradient `d`, and `order` lists the layers done so far. */
  ghost predicate SweepInvariant(ss: seq<LayerState>, act: AFunction, input: seq<real>, lr: real, dE: seq<real>,
                                 hi: nat, lo: nat, ls: seq<LayerState>, d: seq<real>, L: int, order: seq<int>)
    requires Chain(ss) && |input| <= ss[0].nx
    requires lo <= hi + 1 && hi < |ss| && |ss[hi].node| <= |dE|
  {
    && lo - 1 <= L <= hi
    && Chain(ls) && |ls| == |ss| && ls[0].nx == ss[0].nx
    && (L >= 0 ==> |ls[L].node| <= |d|)
    && Sweep(ls, act, input, lr, d, L, lo) == Sweep(ss, act, input, lr, dE, hi, lo)
    && order == Down(hi, L + 1)
  }

  /** One turn of the loop of `SweepLayers` keeps its invariant. */
  lemma SweepLoopStep(ss: seq<LayerState>, act: AFunction, input: seq<real>, lr: real, dE: seq<real>,
                      hi: nat, lo: nat, ls: seq<LayerState>, d: seq<real>, L: int, order: seq<int>, u: LayerState)
    requires Chain(ss) && |input| <= ss[0].nx
    requires lo <= hi + 1 && hi < |ss| && |ss[hi].node| <= |dE|
    requires SweepInvariant(ss, act, input, lr, dE, hi, lo, ls, d, L, order) && L >= lo
    requires u == Update(ls[L], act, CachedInput(ls, input, L), lr, d)
    ensures SweepInvariant(ss, act, input, lr, dE, hi, lo, ls[L := u], u.dEdX, L - 1, order + [L])
  {
    SweepStep(ls, act, input, lr, d, L, lo);
    DownStep(hi, L);
  }

  /** The loop of `SweepLayers` starts with nothing done. */
  lemma SweepLoopEntry(ss: seq<LayerState>, act: AFunction, input: seq<real>, lr: real, dE: seq<real>, hi: nat, lo: nat)
    requires Chain(ss) && |input| <= ss[0].nx
    requires lo <= hi + 1 && hi < |ss| && |ss[hi].node| <= |dE|
    ensures SweepInvariant(ss, act, input, lr, dE, hi, lo, ss, dE, hi, [])
  {
  }

  /** When the loop of `SweepLayers` stops, the whole sweep is done. */
  lemma SweepLoopExit(ss: seq<LayerState>, act: AFunction, input: seq<real>, lr: real, dE: seq<real>,
                      hi: nat, lo: nat, ls: seq<LayerState>, d: seq<real>, L: int, order: seq<int>)
    requires Chain(ss) && |input| <= ss[0].nx
    requires lo <= hi + 1 && hi < |ss| && |ss[hi].node| <= |dE|
    requires SweepInvariant(ss, act, input, lr, dE, hi, lo, ls, d, L, order) && L < lo
    ensures ls == Sweep(ss, act, input, lr, dE, hi, lo) && order == Down(hi, lo)
  {
  }

  /** The inner loop of `backward`: `updateWeights` on layers `hi` down to `lo`, each layer
      reading the cached outputs of the layer below it and receiving the input gradient the
      layer above it returned. `order` lists the layers in the order they are updated. */
  method SweepLayers(ss: seq<LayerState>, act: AFunction, input: seq<real>, lr: real, dE: seq<real>,
                     hi: nat, lo: nat) returns (ls: seq<LayerState>, ghost order: seq<int>)
    requires Chain(ss) && |input| <= ss[0].nx
    requires lo <= hi + 1 && hi < |ss| && |ss[hi].node| <= |dE|
    ensures ls == Sweep(ss, act, input, lr, dE, hi, lo)
    ensures order == Down(hi, lo)
  {
    SweepLoopEntry(ss, act, input, lr, dE, hi, lo);
    ls := ss;
    order := [];
    var d := dE;
    var L: int := hi;
    while L >= lo
      invariant SweepInvariant(ss, act, input, lr, dE, hi, lo, ls, d, L, order)
    {
      var u := Update(ls[L], act, CachedInput(ls, input, L), lr, d);
      SweepLoopStep(ss, act, input, lr, dE, hi, lo, ls, d, L, order, u);
      ls := ls[L := u];
      d := u.dEdX;
      order := order + [L];
      L := L - 1;
    }
    SweepLoopExit(ss, act, input, lr, dE, hi, lo, ls, d, L, order);
  }


  // ---------------------------------------------------------------------------------------
  // The network object.

  /** Layer L of `ls` holds the weights `ws[L]`, neuron by neuron. */
  ghost predicate HoldsWeights(ls: seq<LayerState>, ws: seq<seq<seq<real>>>)
  {
    && |ws| == |ls|
    && forall L :: 0 <= L < |ls| ==>
         |ws[L]| == |ls[L].node| && forall n :: 0 <= n < |ls[L].node| ==> ls[L].node[n].W == ws[L][n]
  }

  /** The weights of every neuron of every layer. */
  function WeightsOf(ls: seq<LayerState>): (ws: seq<seq<seq<real>>>)
    ensures HoldsWeights(ls, ws)
    decreases |ls|
  {
    if |ls| == 0 then [] else WeightsOf(ls[..|ls| - 1]) + [NodeWeights(ls[|ls| - 1].node)]
  }

  /** The weights of every neuron of one layer. */
  function NodeWeights(node: seq<Node>): (ws: seq<seq<real>>)
    ensures |ws| == |node| && forall n :: 0 <= n < |node| ==> ws[n] == node[n].W
    decreases |node|
  {
    if |node| == 0 then [] else NodeWeights(node[..|node| - 1]) + [node[|node| - 1].W]
  }

  class NeuralNetwork {
    /** `std::vector<Layer*> layer`, bottom-up. */
    var layer: seq<LayerState>
    const activeFunction: AFunction
    /** The weights the constructor drew, neuron by neuron. */
    ghost const initialWeights: seq<seq<seq<real>>>
    /** The index of every layer whose `updateWeights` was called, in call order. */
    ghost var calls: seq<int>

    /** At least one layer, consecutive layers fit, and every weight is the one the
        constructor drew. */
    ghost predicate Valid()
      reads this
    {
      Chain(layer) && HoldsWeights(layer, initialWeights)
    }

    /** `NeuralNetwork(numOfInputs, layers, activeFunction)`: layer 0 reads the network
        inputs, layer L the outputs of layer L-1. The normal samples of layer L are
        `draw(L)(n, i)`. */
    constructor (numOfInputs: nat, layers: seq<nat>, activeFunction: AFunction,
                 sqrt: real -> real, draw: nat -> (nat, nat) -> real)
      requires |layers| > 0
      ensures Valid()
      ensures |layer| == |layers| && this.activeFunction == activeFunction
      ensures layer == InitialLayers(numOfInputs, layers, activeFunction, sqrt, draw, |layers|)
      ensures calls == []
    {
      var ls := BuildLayers(numOfInputs, layers, activeFunction, sqrt, draw);
      this.activeFunction := activeFunction;
      layer := ls;
      initialWeights := WeightsOf(ls);
      calls := [];
      InitialChain(numOfInputs, layers, activeFunction, sqrt, draw);
    }

    /** `forward`: every layer is evaluated bottom-up; returns the last layer's outputs. */
    method Forward(input: seq<real>) returns (output: seq<real>)
      requires Valid() && |input| <= layer[0].nx
      modifies this`layer
      ensures Valid()
      ensures layer == Forwarded(old(layer), activeFunction, input)
      ensures output == layer[|layer| - 1].Y
    {
      var ls := EvaluateLayers(layer, activeFunction, input);
      layer := ls;
      output := ls[|ls| - 1].Y;
    }

    /** The output error derivative `2 (output - target)`, zero past the end of `target`. */
    method OutputError(target: seq<real>) returns (dOut: seq<real>)
      requires Valid() && |target| <= |layer[|layer| - 1].node|
      ensures dOut == DOut(layer, target)
    {
      var output := layer[|layer| - 1].Y;
      var d := new real[|output|](_ => 0.0);
      var i := 0;
      while i < |target|
        invariant 0 <= i <= |target|
        invariant forall k :: 0 <= k < i ==> d[k] == 2.0 * (output[k] - target[k])
        invariant forall k :: i <= k < d.Length ==> d[k] == 0.0
      {
        d[i] := 2.0 * (output[i] - target[i]);
        i := i + 1;
      }
      dOut := d[..];
      forall k | 0 <= k < |dOut|
        ensures dOut[k] == DOut(layer, target)[k]
      {
        DOutAt(layer, target, k);
      }
    }

    /** `backward`: one sweep from the last layer down to layer 0, starting from the output
        error. The source's loop stops above layer 0 and then updates layer 0 from the
        network input; `SweepLayers` down to layer 0 does the same calls in the same order.
        No weight moves. */
    method Backward(input: seq<real>, target: seq<real>, learningRate: real)
      requires Valid() && |input| <= layer[0].nx && |target| <= |layer[|layer| - 1].node|
      modifies this`layer, this`calls
      ensures Valid()
      ensures layer == Sweep(old(layer), activeFunction, input, learningRate, DOut(old(layer), target), |old(layer)| - 1, 0)
      ensures calls == old(calls) + Down(|old(layer)| - 1, 0)
    {
      var dOut := OutputError(target);
      var ls, order := SweepLayers(layer, activeFunction, input, learningRate, dOut, |layer| - 1, 0);
      SweepShape(layer, activeFunction, input, learningRate, dOut, |layer| - 1, 0);
      KeepsShapeChain(layer, ls);
      layer := ls;
      calls := calls + order;
    }

    /** `setFastMode`: sets the flag of every layer and nothing else. */
    method SetFastMode(fast: bool)
      requires Valid()
      modifies this`layer
      ensures Valid()
      ensures |layer| == |old(layer)|
      ensures forall L :: 0 <= L < |layer| ==> layer[L] == old(layer)[L].(fast := fast)
    {
      var L := 0;
      while L < |layer|
        invariant 0 <= L <= |layer| == |old(layer)|
        invariant Valid()
        invariant forall k :: 0 <= k < L ==> layer[k] == old(layer)[k].(fast := fast)
        invariant forall k :: L <= k < |layer| ==> layer[k] == old(layer)[k]
      {
        ChainReplace(layer, L, layer[L].(fast := fast));
        layer := layer[L := layer[L].(fast := fast)];
        L := L + 1;
      }
    }
  }
}
