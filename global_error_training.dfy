/** What the GlobalError network computes, as functions of the layers' values
    (exp/GlobalError/NeuralNetwork.h): the forward pass, the plain backward sweep, the
    segmented backward pass with feedback checkpoints, and the order in which layers are
    updated. The `NeuralNetwork` class is proved against these. */
module GlobalErrorTraining {
  import opened Vectors
  import opened ActivationInterface
  import opened GlobalErrorLayer
  import opened CheckpointSet
  import opened ErrorResize
  import opened UpdateOrder

  /** Layer L reads as many values as layer L-1 has outputs. */
  ghost predicate Linked(ss: seq<LayerState>, L: nat)
    requires 0 < L < |ss|
  {
    ss[L].nx == |ss[L - 1].node|
  }

  /** Consecutive layers fit: every layer is well formed and layer L reads the outputs of
      layer L-1. */
  ghost predicate Chain(ss: seq<LayerState>)
  {
    && |ss| > 0
    && (forall L :: 0 <= L < |ss| ==> WellFormed(ss[L]))
    && (forall L :: 0 < L < |ss| ==> Linked(ss, L))
  }

  /** `r` has the layer count and the layer widths of `ss`. */
  ghost predicate SameWidths(ss: seq<LayerState>, r: seq<LayerState>)
  {
    && |r| == |ss|
    && forall L :: 0 <= L < |ss| ==> r[L].nx == ss[L].nx && |r[L].node| == |ss[L].node|
  }

  /** `r` has the shapes, caches and flags of `ss`: what a backward pass leaves alone. */
  ghost predicate KeepsShape(ss: seq<LayerState>, r: seq<LayerState>)
  {
    && SameWidths(ss, r)
    && forall L :: 0 <= L < |ss| ==>
         && WellFormed(r[L])
         && r[L].Z == ss[L].Z && r[L].Y == ss[L].Y && r[L].fast == ss[L].fast
  }

  /** Well-formed layers of the widths of a chain fit together as well. */
  lemma SameWidthsChain(ss: seq<LayerState>, r: seq<LayerState>)
    requires Chain(ss) && SameWidths(ss, r)
    requires forall L :: 0 <= L < |r| ==> WellFormed(r[L])
    ensures Chain(r)
  {
    forall L | 0 < L < |r| ensures Linked(r, L) {
      assert Linked(ss, L);
    }
  }

  /** Layers of the same shapes fit together as well. */
  lemma KeepsShapeChain(ss: seq<LayerState>, r: seq<LayerState>)
    requires Chain(ss) && KeepsShape(ss, r)
    ensures Chain(r)
  {
    SameWidthsChain(ss, r);
  }

  /** Replacing one layer by a well-formed layer of the same widths keeps the chain. */
  lemma ChainReplace(ss: seq<LayerState>, k: nat, u: LayerState)
    requires Chain(ss) && k < |ss| && WellFormed(u)
    requires u.nx == ss[k].nx && |u.node| == |ss[k].node|
    ensures Chain(ss[k := u])
  {
    var t := ss[k := u];
    forall L | 0 < L < |t| ensures Linked(t, L) {
      assert Linked(ss, L);
    }
  }

  /** What layer L reads from the caches: the outputs layer L-1 computed last, or `input`
      for layer 0. */
  function CachedInput(ss: seq<LayerState>, input: seq<real>, L: nat): (x: seq<real>)
    requires Chain(ss) && L < |ss| && |input| <= ss[0].nx
    ensures |x| <= ss[L].nx
  {
    if L == 0 then input else assert Linked(ss, L); ss[L - 1].Y
  }

  // ---------------------------------------------------------------------------------------
  // forward

  /** The outputs of layer L when `input` is fed to the network. */
  function Signal(ss: seq<LayerState>, act: AFunction, input: seq<real>, L: nat): (y: seq<real>)
    requires Chain(ss) && L < |ss| && |input| <= ss[0].nx
    ensures |y| == |ss[L].node|
    decreases L
  {
    var x := if L == 0 then input else assert Linked(ss, L); Signal(ss, act, input, L - 1);
    Activate(act, PreActivations(ss[L].node, x))
  }

  /** What layer L reads during the forward pass. */
  function LayerInput(ss: seq<LayerState>, act: AFunction, input: seq<real>, L: nat): (x: seq<real>)
    requires Chain(ss) && L < |ss| && |input| <= ss[0].nx
    ensures |x| <= ss[L].nx
  {
    if L == 0 then input else assert Linked(ss, L); Signal(ss, act, input, L - 1)
  }

  /** The caches agree with the weights: every layer's `Z` is computed from the `Y` of the
      layer below (or from `input`) and its `Y` is the activation of its `Z`. */
  ghost predicate CachesConsistent(ss: seq<LayerState>, act: AFunction, input: seq<real>)
    requires Chain(ss) && |input| <= ss[0].nx
  {
    forall L :: 0 <= L < |ss| ==>
      && (L > 0 ==> Linked(ss, L))
      && ss[L].Z == PreActivations(ss[L].node, if L == 0 then input else ss[L - 1].Y)
      && ss[L].Y == Activate(act, ss[L].Z)
  }

  /** Layer L after the forward pass: its caches are refilled from what it reads. */
  function ForwardedLayer(ss: seq<LayerState>, act: AFunction, input: seq<real>, L: nat): (u: LayerState)
    requires Chain(ss) && |input| <= ss[0].nx && L < |ss|
    ensures WellFormed(u)
    ensures u.nx == ss[L].nx && u.node == ss[L].node && u.dEdX == ss[L].dEdX && u.fast == ss[L].fast
  {
    Evaluated(ss[L], act, LayerInput(ss, act, input, L))
  }

  /** After the forward pass, layer L holds the network's signal at L. */
  lemma ForwardedLayerOutputs(ss: seq<LayerState>, act: AFunction, input: seq<real>, L: nat)
    requires Chain(ss) && |input| <= ss[0].nx && L < |ss|
    ensures ForwardedLayer(ss, act, input, L).Y == Signal(ss, act, input, L)
  {
  }

  /** The network after `forward(input)`: every layer's caches are refilled from what it
      reads; weights, biases, gradient buffers and flags are untouched. */
  function Forwarded(ss: seq<LayerState>, act: AFunction, input: seq<real>): (r: seq<LayerState>)
    requires Chain(ss) && |input| <= ss[0].nx
    ensures |r| == |ss| && Chain(r)
    ensures forall L :: 0 <= L < |ss| ==> r[L] == ForwardedLayer(ss, act, input, L)
  {
    var f := (L: nat) => if L < |ss| then ForwardedLayer(ss, act, input, L) else ss[0];
    var r := Tabulate(f, |ss|);
    forall L | 0 <= L < |ss| ensures r[L] == ForwardedLayer(ss, act, input, L) {
      TabulateAt(f, |ss|, L);
    }
    SameWidthsChain(ss, r);
    r
  }

  /** Layer L after a forward pass: its caches are computed from the refreshed outputs of
      layer L-1, or from `input` for layer 0. */
  lemma ForwardedStep(ss: seq<LayerState>, act: AFunction, input: seq<real>, L: nat)
    requires Chain(ss) && |input| <= ss[0].nx && L < |ss|
    ensures L > 0 ==> |Forwarded(ss, act, input)[L - 1].Y| == ss[L].nx
    ensures var x := if L == 0 then input else Forwarded(ss, act, input)[L - 1].Y;
            var z := PreActivations(ss[L].node, x);
            Forwarded(ss, act, input)[L] == ss[L].(Z := z, Y := Activate(act, z))
  {
    var r := Forwarded(ss, act, input);
    if L > 0 {
      assert r[L - 1] == ForwardedLayer(ss, act, input, L - 1);
      assert Linked(ss, L);
      ForwardedLayerOutputs(ss, act, input, L - 1);
    }
  }

  /** The signal only depends on the weights and biases. */
  lemma {:induction false} SignalDependsOnNodes(ss: seq<LayerState>, tt: seq<LayerState>, act: AFunction, input: seq<real>, L: nat)
    requires Chain(ss) && Chain(tt) && |ss| == |tt| && L < |ss| && |input| <= ss[0].nx && ss[0].nx == tt[0].nx
    requires forall k :: 0 <= k < |ss| ==> ss[k].node == tt[k].node
    ensures Signal(ss, act, input, L) == Signal(tt, act, input, L)
    decreases L
  {
    if L > 0 {
      SignalDependsOnNodes(ss, tt, act, input, L - 1);
    }
  }

  /** After a forward pass the caches agree with the weights. */
  lemma ForwardedConsistent(ss: seq<LayerState>, act: AFunction, input: seq<real>)
    requires Chain(ss) && |input| <= ss[0].nx
    ensures CachesConsistent(Forwarded(ss, act, input), act, input)
  {
    var r := Forwarded(ss, act, input);
    forall L | 0 <= L < |r|
      ensures L > 0 ==> Linked(r, L)
      ensures r[L].Z == PreActivations(r[L].node, if L == 0 then input else r[L - 1].Y)
      ensures r[L].Y == Activate(act, r[L].Z)
    {
      ForwardedStep(ss, act, input, L);
    }
  }

  /** Conversely, caches that agree with the weights are exactly what a forward pass
      produces: a second forward pass with the same input changes nothing. */
  lemma ConsistentIsForwarded(ss: seq<LayerState>, act: AFunction, input: seq<real>)
    requires Chain(ss) && |input| <= ss[0].nx
    requires CachesConsistent(ss, act, input)
    ensures Forwarded(ss, act, input) == ss
  {
    forall L | 0 <= L < |ss|
      ensures ss[L].Y == Signal(ss, act, input, L)
    {
      ConsistentSignal(ss, act, input, L);
    }
  }

  lemma {:induction false} ConsistentSignal(ss: seq<LayerState>, act: AFunction, input: seq<real>, L: nat)
    requires Chain(ss) && |input| <= ss[0].nx && L < |ss|
    requires CachesConsistent(ss, act, input)
    ensures ss[L].Y == Signal(ss, act, input, L)
    decreases L
  {
    if L > 0 {
      ConsistentSignal(ss, act, input, L - 1);
    }
  }

  /** Forward is idempotent. */
  lemma ForwardIdempotent(ss: seq<LayerState>, act: AFunction, input: seq<real>)
    requires Chain(ss) && |input| <= ss[0].nx
    ensures Forwarded(Forwarded(ss, act, input), act, input) == Forwarded(ss, act, input)
  {
    ForwardedConsistent(ss, act, input);
    ConsistentIsForwarded(Forwarded(ss, act, input), act, input);
  }

  // ---------------------------------------------------------------------------------------
  // backward

  /** `dOut[i] = 2 (output[i] - target[i])` for every given target, zero for the rest of the
      output width. */
  function DOut(ss: seq<LayerState>, target: seq<real>): (d: seq<real>)
    requires Chain(ss) && |target| <= |ss[|ss| - 1].Y|
    ensures |d| == |ss[|ss| - 1].node|
  {
    ErrorDerivative(ss[|ss| - 1].Y, target, |ss[|ss| - 1].Y|)
  }

  /** Entry i of the output error is `2 (output[i] - target[i])` where a target is given and
      zero past the end of the target. */
  lemma DOutAt(ss: seq<LayerState>, target: seq<real>, i: nat)
    requires Chain(ss) && |target| <= |ss[|ss| - 1].Y| && i < |ss[|ss| - 1].Y|
    ensures DOut(ss, target)[i] == if i < |target| then 2.0 * (ss[|ss| - 1].Y[i] - target[i]) else 0.0
  {
    ErrorDerivativeAt(ss[|ss| - 1].Y, target, |ss[|ss| - 1].Y|, i);
  }

  /** An output equal to the target gives a zero error derivative. */
  lemma DOutZeroAtTarget(ss: seq<LayerState>, target: seq<real>)
    requires Chain(ss) && target == ss[|ss| - 1].Y
    ensures forall i :: 0 <= i < |DOut(ss, target)| ==> DOut(ss, target)[i] == 0.0
  {
    forall i | 0 <= i < |DOut(ss, target)|
      ensures DOut(ss, target)[i] == 0.0
    {
      DOutAt(ss, target, i);
    }
  }

  /** `updateWeights` on layers `hi` down to `lo`: layer `hi` receives `dE`, each layer below
      receives the input gradient of the layer above it, and every layer reads the outputs of
      the layer below it (or `input` for layer 0). */
  function Sweep(ss: seq<LayerState>, act: AFunction, input: seq<real>, lr: real, dE: seq<real>, hi: int, lo: nat): (r: seq<LayerState>)
    requires Chain(ss) && |input| <= ss[0].nx
    requires lo <= hi + 1 && hi < |ss|
    requires hi >= 0 ==> |ss[hi].node| <= |dE|
    ensures |r| == |ss|
    decreases hi + 1 - lo
  {
    if hi < lo then ss
    else
      var x := CachedInput(ss, input, hi);
      var u := Update(ss[hi], act, x, lr, dE);
      ChainReplace(ss, hi, u);
      Sweep(ss[hi := u], act, input, lr, u.dEdX, hi - 1, lo)
  }

  /** One step of a sweep: updating layer `hi` keeps the chain, and the rest of the sweep
      starts from the input gradient that layer returned. */
  lemma SweepStep(ss: seq<LayerState>, act: AFunction, input: seq<real>, lr: real, dE: seq<real>, hi: nat, lo: nat)
    requires Chain(ss) && |input| <= ss[0].nx
    requires lo <= hi < |ss| && |ss[hi].node| <= |dE|
    ensures var u := Update(ss[hi], act, CachedInput(ss, input, hi), lr, dE);
            && Chain(ss[hi := u]) && u.nx == ss[hi].nx
            && (hi > 0 ==> |ss[hi - 1].node| <= |u.dEdX|)
            && Sweep(ss, act, input, lr, dE, hi, lo) == Sweep(ss[hi := u], act, input, lr, u.dEdX, hi - 1, lo)
  {
    var u := Update(ss[hi], act, CachedInput(ss, input, hi), lr, dE);
    ChainReplace(ss, hi, u);
    if hi > 0 {
      assert Linked(ss, hi);
    }
  }

  /** A sweep keeps every shape, cache and flag, and leaves the layers outside `lo..hi`
      untouched. */
  lemma {:induction false} SweepShape(ss: seq<LayerState>, act: AFunction, input: seq<real>, lr: real, dE: seq<real>, hi: int, lo: nat)
    requires Chain(ss) && |input| <= ss[0].nx
    requires lo <= hi + 1 && hi < |ss|
    requires hi >= 0 ==> |ss[hi].node| <= |dE|
    ensures KeepsShape(ss, Sweep(ss, act, input, lr, dE, hi, lo))
    ensures forall L :: 0 <= L < |ss| && !(lo <= L <= hi) ==> Sweep(ss, act, input, lr, dE, hi, lo)[L] == ss[L]
    decreases hi + 1 - lo
  {
    if lo <= hi {
      var x := CachedInput(ss, input, hi);
      var u := Update(ss[hi], act, x, lr, dE);
      ChainReplace(ss, hi, u);
      SweepShape(ss[hi := u], act, input, lr, u.dEdX, hi - 1, lo);
    }
  }

  /** A sweep with a zero learning rate changes no weight and no bias. */
  lemma {:induction false} SweepZeroRate(ss: seq<LayerState>, act: AFunction, input: seq<real>, dE: seq<real>, hi: int, lo: nat)
    requires Chain(ss) && |input| <= ss[0].nx
    requires lo <= hi + 1 && hi < |ss|
    requires hi >= 0 ==> |ss[hi].node| <= |dE|
    ensures forall L :: 0 <= L < |ss| ==> Sweep(ss, act, input, 0.0, dE, hi, lo)[L].node == ss[L].node
    decreases hi + 1 - lo
  {
    if lo <= hi {
      var x := CachedInput(ss, input, hi);
      var u := Update(ss[hi], act, x, 0.0, dE);
      ZeroRateKeepsParameters(ss[hi], act, x, dE);
      ChainReplace(ss, hi, u);
      SweepZeroRate(ss[hi := u], act, input, u.dEdX, hi - 1, lo);
    }
  }

  /** A sweep started with a zero error changes no weight and no bias: each layer passes a
      zero gradient to the layer below. */
  lemma {:induction false} SweepZeroError(ss: seq<LayerState>, act: AFunction, input: seq<real>, lr: real, dE: seq<real>, hi: int, lo: nat)
    requires Chain(ss) && |input| <= ss[0].nx
    requires lo <= hi + 1 && hi < |ss|
    requires hi >= 0 ==> |ss[hi].node| <= |dE| && forall n :: 0 <= n < |ss[hi].node| ==> dE[n] == 0.0
    ensures forall L :: 0 <= L < |ss| ==> Sweep(ss, act, input, lr, dE, hi, lo)[L].node == ss[L].node
    decreases hi + 1 - lo
  {
    if lo <= hi {
      var x := CachedInput(ss, input, hi);
      var u := Update(ss[hi], act, x, lr, dE);
      ZeroErrorKeepsParameters(ss[hi], act, x, lr, dE);
      ChainReplace(ss, hi, u);
      SweepZeroError(ss[hi := u], act, input, lr, u.dEdX, hi - 1, lo);
    }
  }

  /** `backward` with an output equal to the target leaves every weight and bias as it was. */
  lemma BackwardAtTargetKeepsWeights(ss: seq<LayerState>, act: AFunction, input: seq<real>, lr: real)
    requires Chain(ss) && |input| <= ss[0].nx
    ensures var r := Sweep(ss, act, input, lr, DOut(ss, ss[|ss| - 1].Y), |ss| - 1, 0);
            forall L :: 0 <= L < |ss| ==> r[L].node == ss[L].node
  {
    DOutZeroAtTarget(ss, ss[|ss| - 1].Y);
    SweepZeroError(ss, act, input, lr, DOut(ss, ss[|ss| - 1].Y), |ss| - 1, 0);
  }

  // ---------------------------------------------------------------------------------------
  // backward with feedback

  /** Checkpoints the network can iterate over: increasing layer indices of the network. */
  ghost predicate Checkpoints(fb: seq<int>, n: nat)
  {
    StrictlySorted(fb) && forall j :: 0 <= j < |fb| ==> 0 <= fb[j] < n
  }

  /** The segments `k, k+1, ...` of `backwardWithFeedback`: segment k ends at checkpoint
      `fb[k]`, starts at `start` (one past the previous checkpoint) and is swept from the
      output error `dOut` resized to the width of its top layer. */
  function FeedbackSweep(ss: seq<LayerState>, act: AFunction, input: seq<real>, lr: real, dOut: seq<real>,
                         fb: seq<int>, k: nat, start: nat): (r: seq<LayerState>)
    requires Chain(ss) && |input| <= ss[0].nx
    requires Checkpoints(fb, |ss|) && k <= |fb|
    requires forall j :: k <= j < |fb| ==> ResizeDefined(|dOut|, |ss[fb[j]].node|)
    requires k < |fb| ==> start <= fb[k] + 1
    ensures |r| == |ss|
    decreases |fb| - k
  {
    if k == |fb| then ss
    else
      var top := fb[k];
      var dE := Resized(dOut, |ss[top].node|);
      var next := Sweep(ss, act, input, lr, dE, top, start);
      SweepShape(ss, act, input, lr, dE, top, start);
      KeepsShapeChain(ss, next);
      FeedbackSweep(next, act, input, lr, dOut, fb, k + 1, top + 1)
  }

  /** The segmented pass keeps every shape, cache and flag. */
  lemma {:induction false} FeedbackSweepShape(ss: seq<LayerState>, act: AFunction, input: seq<real>, lr: real, dOut: seq<real>,
                                              fb: seq<int>, k: nat, start: nat)
    requires Chain(ss) && |input| <= ss[0].nx
    requires Checkpoints(fb, |ss|) && k <= |fb|
    requires forall j :: k <= j < |fb| ==> ResizeDefined(|dOut|, |ss[fb[j]].node|)
    requires k < |fb| ==> start <= fb[k] + 1
    ensures KeepsShape(ss, FeedbackSweep(ss, act, input, lr, dOut, fb, k, start))
    decreases |fb| - k
  {
    if k < |fb| {
      var top := fb[k];
      var dE := Resized(dOut, |ss[top].node|);
      var next := Sweep(ss, act, input, lr, dE, top, start);
      SweepShape(ss, act, input, lr, dE, top, start);
      KeepsShapeChain(ss, next);
      FeedbackSweepShape(next, act, input, lr, dOut, fb, k + 1, top + 1);
    }
  }

  /** One round of the checkpoint loop: segment k, then the segments after it. */
  lemma FeedbackSweepStep(ss: seq<LayerState>, act: AFunction, input: seq<real>, lr: real, dOut: seq<real>,
                          fb: seq<int>, k: nat, start: nat)
    requires Chain(ss) && |input| <= ss[0].nx
    requires Checkpoints(fb, |ss|) && k < |fb|
    requires forall j :: k <= j < |fb| ==> ResizeDefined(|dOut|, |ss[fb[j]].node|)
    requires start <= fb[k] + 1
    ensures var next := Sweep(ss, act, input, lr, Resized(dOut, |ss[fb[k]].node|), fb[k], start);
            && KeepsShape(ss, next) && Chain(next)
            && (k + 1 < |fb| ==> fb[k] + 1 <= fb[k + 1] + 1)
            && FeedbackSweep(ss, act, input, lr, dOut, fb, k, start) == FeedbackSweep(next, act, input, lr, dOut, fb, k + 1, fb[k] + 1)
  {
    var dE := Resized(dOut, |ss[fb[k]].node|);
    var next := Sweep(ss, act, input, lr, dE, fb[k], start);
    SweepShape(ss, act, input, lr, dE, fb[k], start);
    KeepsShapeChain(ss, next);
  }

  /** With the default checkpoints `{0, last}` of a network of two or more layers, the
      segmented pass is exactly `backward`. */
  lemma FeedbackDefaultEqualsBackward(ss: seq<LayerState>, act: AFunction, input: seq<real>, lr: real, target: seq<real>)
    requires Chain(ss) && |ss| >= 2 && |input| <= ss[0].nx && |target| <= |ss[|ss| - 1].Y|
    ensures FeedbackSweep(ss, act, input, lr, DOut(ss, target), [0, |ss| - 1], 1, 0)
         == Sweep(ss, act, input, lr, DOut(ss, target), |ss| - 1, 0)
    ensures ScheduleFrom([0, |ss| - 1], 1, 0) == Down(|ss| - 1, 0)
  {
    var last := |ss| - 1;
    var dOut := DOut(ss, target);
    assert Resized(dOut, |ss[last].node|) == dOut;
    var next := Sweep(ss, act, input, lr, dOut, last, 0);
    SweepShape(ss, act, input, lr, dOut, last, 0);
    KeepsShapeChain(ss, next);
    assert FeedbackSweep(next, act, input, lr, dOut, [0, last], 2, last + 1) == next;
  }

  /** A one-layer network has the single checkpoint `{0}`, so `backwardWithFeedback` visits
      no segment and updates nothing, while `backward` updates the layer. */
  lemma SingleLayerFeedbackIsNoOp(ss: seq<LayerState>, act: AFunction, input: seq<real>, lr: real, target: seq<real>)
    requires Chain(ss) && |ss| == 1 && |input| <= ss[0].nx && |target| <= |ss[0].Y|
    ensures FeedbackSweep(ss, act, input, lr, DOut(ss, target), [0], 1, 0) == ss
    ensures ScheduleFrom([0], 1, 0) == []
    ensures Sweep(ss, act, input, lr, DOut(ss, target), 0, 0) == [Update(ss[0], act, input, lr, DOut(ss, target))]
  {
  }

  // ---------------------------------------------------------------------------------------
  // the order of the updates

  /** The layers updated by segments `k, k+1, ...`, in order. */
  function ScheduleFrom(fb: seq<int>, k: nat, start: int): seq<int>
    requires k <= |fb|
    decreases |fb| - k
  {
    if k == |fb| then [] else Down(fb[k], start) + ScheduleFrom(fb, k + 1, fb[k] + 1)
  }

  /** Moving one segment from the schedule still to do to the calls already done. */
  lemma ScheduleAdvance(done: seq<int>, fb: seq<int>, k: nat, start: int)
    requires k < |fb|
    ensures (done + Down(fb[k], start)) + ScheduleFrom(fb, k + 1, fb[k] + 1) == done + ScheduleFrom(fb, k, start)
  {
    var segment, rest := Down(fb[k], start), ScheduleFrom(fb, k + 1, fb[k] + 1);
    assert ScheduleFrom(fb, k, start) == segment + rest;
    assert (done + segment) + rest == done + (segment + rest);
  }

  /** The segments from checkpoint k on cover `start .. last checkpoint` once. */
  lemma {:induction false} ScheduleCovers(fb: seq<int>, k: nat, start: int)
    requires StrictlySorted(fb) && k < |fb| && start <= fb[k] + 1
    ensures multiset(ScheduleFrom(fb, k, start)) == multiset(Down(fb[|fb| - 1], start))
    decreases |fb| - k
  {
    var top := fb[|fb| - 1];
    if k + 1 < |fb| {
      assert fb[k] < fb[k + 1] && fb[k] < top;
      ScheduleCovers(fb, k + 1, fb[k] + 1);
      DownSplit(top, fb[k], start);
      calc {
        multiset(ScheduleFrom(fb, k, start));
        multiset(Down(fb[k], start)) + multiset(ScheduleFrom(fb, k + 1, fb[k] + 1));
        multiset(Down(fb[k], start)) + multiset(Down(top, fb[k] + 1));
        multiset(Down(top, fb[k] + 1) + Down(fb[k], start));
      }
    } else {
      assert ScheduleFrom(fb, k + 1, fb[k] + 1) == [];
    }
  }

  /** In `backwardWithFeedback` every layer of a network of two or more layers is updated
      exactly once; a one-layer network is not updated at all. */
  lemma ScheduleExactlyOnce(fb: seq<int>, n: nat, L: int)
    requires Checkpoints(fb, n) && 0 in fb && n - 1 in fb
    ensures |fb| >= 1 && fb[0] == 0
    ensures multiset(ScheduleFrom(fb, 1, fb[0]))[L] == if n >= 2 && 0 <= L < n then 1 else 0
  {
    assert fb[0] == 0 && fb[|fb| - 1] == n - 1 by {
      FirstLeastLastGreatest(fb);
    }
    if |fb| >= 2 {
      assert multiset(ScheduleFrom(fb, 1, 0)) == multiset(Down(n - 1, 0)) by {
        assert fb[0] < fb[|fb| - 1];
        ScheduleCovers(fb, 1, 0);
      }
      DownCount(n - 1, 0, L);
    } else {
      assert ScheduleFrom(fb, 1, fb[0]) == [];
    }
  }
}
