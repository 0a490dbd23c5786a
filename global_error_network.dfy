/** `class NeuralNetwork` of exp/GlobalError/NeuralNetwork.h: a stack of layers sharing one
    activation, the ordered set of feedback checkpoints, forward, backward and the segmented
    backward pass. The layers are held as values (`LayerState`), each step replacing one of
    them by what the corresponding `Layer` method leaves; every method is proved against the
    functions of `GlobalErrorTraining`. */
module GlobalErrorNetwork {
  import opened Vectors
  import opened ActivationInterface
  import opened GlobalErrorLayer
  import opened CheckpointSet
  import opened ErrorResize
  import opened GlobalErrorTraining
  import opened UpdateOrder

  /** The input width of layer L in a network built from `numOfInputs` and `layers`. */
  function InputWidth(numOfInputs: nat, layers: seq<nat>, L: nat): (w: nat)
    requires L < |layers|
    ensures L > 0 ==> w == layers[L - 1]
  {
    if L == 0 then numOfInputs else layers[L - 1]
  }

  /** The first k layers the constructor pushes: layer 0 reads `numOfInputs` values, layer L
      the `layers[L-1]` outputs of the layer below it. */
  function InitialLayers(numOfInputs: nat, layers: seq<nat>, act: AFunction, sqrt: real -> real,
                         draw: nat -> (nat, nat) -> real, k: nat): (ls: seq<LayerState>)
    requires k <= |layers|
    ensures |ls| == k
    ensures forall L {:trigger ls[L]} :: 0 <= L < k ==>
              WellFormed(ls[L]) && ls[L].nx == InputWidth(numOfInputs, layers, L) && |ls[L].node| == layers[L]
    decreases k
  {
    if k == 0 then []
    else InitialLayers(numOfInputs, layers, act, sqrt, draw, k - 1)
         + [Initial(InputWidth(numOfInputs, layers, k - 1), layers[k - 1], act, sqrt, draw(k - 1))]
  }

  /** Layer L of the network is a fresh layer of `InputWidth(L)` inputs and `layers[L]` neurons. */
  lemma {:induction false} InitialLayerAt(numOfInputs: nat, layers: seq<nat>, act: AFunction, sqrt: real -> real,
                                          draw: nat -> (nat, nat) -> real, k: nat, L: nat)
    requires L < k <= |layers|
    ensures InitialLayers(numOfInputs, layers, act, sqrt, draw, k)[L]
            == Initial(InputWidth(numOfInputs, layers, L), layers[L], act, sqrt, draw(L))
    decreases k
  {
    if L < k - 1 {
      InitialLayerAt(numOfInputs, layers, act, sqrt, draw, k - 1, L);
    }
  }

  /** Freshly constructed layers fit together, and the first reads the network inputs. */
  lemma InitialChain(numOfInputs: nat, layers: seq<nat>, act: AFunction, sqrt: real -> real,
                     draw: nat -> (nat, nat) -> real)
    requires |layers| > 0
    ensures var ls := InitialLayers(numOfInputs, layers, act, sqrt, draw, |layers|);
            Chain(ls) && ls[0].nx == numOfInputs
  {
    var ls := InitialLayers(numOfInputs, layers, act, sqrt, draw, |layers|);
    forall L | 0 < L < |ls| ensures Linked(ls, L) {
    }
  }

  /** The `push_back` loop of the constructor: layer 0 reads the network inputs, every later
      layer the outputs of the one below it. */
  method BuildLayers(numOfInputs: nat, layers: seq<nat>, act: AFunction, sqrt: real -> real,
                     draw: nat -> (nat, nat) -> real) returns (ls: seq<LayerState>)
    requires |layers| > 0
    ensures ls == InitialLayers(numOfInputs, layers, act, sqrt, draw, |layers|)
  {
    ls := [Initial(numOfInputs, layers[0], act, sqrt, draw(0))];
    var i := 1;
    while i < |layers|
      invariant 1 <= i <= |layers|
      invariant ls == InitialLayers(numOfInputs, layers, act, sqrt, draw, i)
    {
      ls := ls + [Initial(layers[i - 1], layers[i], act, sqrt, draw(i))];
      i := i + 1;
    }
  }

  /** The loop of `forward`: `layer[0]->eval(input)`, then `layer[L]->eval(layer[L-1]->Y)`
      bottom-up, each layer reading the outputs its predecessor has just computed. */
  method EvaluateLayers(ss: seq<LayerState>, act: AFunction, input: seq<real>) returns (ls: seq<LayerState>)
    requires Chain(ss) && |input| <= ss[0].nx
    ensures ls == Forwarded(ss, act, input)
  {
    ls := ss;
    var L := 0;
    while L < |ls|
      invariant 0 <= L <= |ls| == |ss|
      invariant forall k :: 0 <= k < L ==> ls[k] == ForwardedLayer(ss, act, input, k)
      invariant forall k :: L <= k < |ss| ==> ls[k] == ss[k]
    {
      var x := if L == 0 then input else ls[L - 1].Y;
      if L > 0 {
        assert Linked(ss, L);
        ForwardedLayerOutputs(ss, act, input, L - 1);
      }
      assert x == LayerInput(ss, act, input, L);
      var u := Evaluated(ls[L], act, x);
      assert u == ForwardedLayer(ss, act, input, L);
      ls := ls[L := u];
      L := L + 1;
    }
    var r := Forwarded(ss, act, input);
    assert forall k :: 0 <= k < |ss| ==> ls[k] == r[k];
  }

  /** The checkpoints after `feedback.insert(0); feedback.insert(last)`: `{0, last}`, which
      is `{0}` for a one-layer network. */
  lemma InitialCheckpoints(last: nat)
    ensures var fb := Insert(Insert([], 0), last);
            && fb == (if last == 0 then [0] else [0, last])
            && StrictlySorted(fb) && 0 in fb && last in fb
  {
    InsertCorrect([], 0);
    InsertCorrect(Insert([], 0), last);
  }

  /** What the loop of `SweepLayers` keeps: layers above L are done, the rest of the sweep
      starts at L with gradient `d`, and `order` lists the layers done so far. */
  ghost predicate SweepInvariant(ss: seq<LayerState>, act: AFunction, input: seq<real>, lr: real, dE: seq<real>,
                                 hi: nat, lo: nat, ls: seq<LayerState>, d: seq<real>, L: int, order: seq<int>)
    requires Chain(ss) && |input| <= ss[0].nx
    requires lo <= hi + 1 && hi < |ss| && |ss[hi].node| <= |dE|
  {
    && lo - 1 <= L <= hi
    && Chain(ls) && |ls| == |ss| && ls[0].nx == ss[0].nx
    && (L >= 0 ==> |ls[L].node| <= |d|)
    && Sweep(ls, act, input, lr, d, L, lo) == Sweep(ss, act, input, lr, dE, hi, lo)
    && order == Down(hi, L + 1)
  }

  /** One turn of the loop of `SweepLayers` keeps its invariant. */
  lemma SweepLoopStep(ss: seq<LayerState>, act: AFunction, input: seq<real>, lr: real, dE: seq<real>,
                      hi: nat, lo: nat, ls: seq<LayerState>, d: seq<real>, L: int, order: seq<int>, u: LayerState)
    requires Chain(ss) && |input| <= ss[0].nx
    requires lo <= hi + 1 && hi < |ss| && |ss[hi].node| <= |dE|
    requires SweepInvariant(ss, act, input, lr, dE, hi, lo, ls, d, L, order) && L >= lo
    requires u == Update(ls[L], act, CachedInput(ls, input, L), lr, d)
    ensures SweepInvariant(ss, act, input, lr, dE, hi, lo, ls[L := u], u.dEdX, L - 1, order + [L])
  {
    SweepStep(ls, act, input, lr, d, L, lo);
    DownStep(hi, L);
  }

  /** The loop of `SweepLayers` starts with nothing done. */
  lemma SweepLoopEntry(ss: seq<LayerState>, act: AFunction, input: seq<real>, lr: real, dE: seq<real>, hi: nat, lo: nat)
    requires Chain(ss) && |input| <= ss[0].nx
    requires lo <= hi + 1 && hi < |ss| && |ss[hi].node| <= |dE|
    ensures SweepInvariant(ss, act, input, lr, dE, hi, lo, ss, dE, hi, [])
  {
  }

  /** When the loop of `SweepLayers` stops, the whole sweep is done. */
  lemma SweepLoopExit(ss: seq<LayerState>, act: AFunction, input: seq<real>, lr: real, dE: seq<real>,
                      hi: nat, lo: nat, ls: seq<LayerState>, d: seq<real>, L: int, order: seq<int>)
    requires Chain(ss) && |input| <= ss[0].nx
    requires lo <= hi + 1 && hi < |ss| && |ss[hi].node| <= |dE|
    requires SweepInvariant(ss, act, input, lr, dE, hi, lo, ls, d, L, order) && L < lo
    ensures ls == Sweep(ss, act, input, lr, dE, hi, lo) && order == Down(hi, lo)
  {
  }

  /** The inner loop of `backwardWithFeedback`, and the loop of `backward`:
      `updateWeights` on layers `hi` down to `lo`, each layer reading the cached outputs of
      the layer below it and receiving the input gradient the layer above it returned.
      `order` lists the layers in the order they are updated. */
  method SweepLayers(ss: seq<LayerState>, act: AFunction, input: seq<real>, lr: real, dE: seq<real>,
                     hi: nat, lo: nat) returns (ls: seq<LayerState>, ghost order: seq<int>)
    requires Chain(ss) && |input| <= ss[0].nx
    requires lo <= hi + 1 && hi < |ss| && |ss[hi].node| <= |dE|
    ensures ls == Sweep(ss, act, input, lr, dE, hi, lo)
    ensures order == Down(hi, lo)
  {
    SweepLoopEntry(ss, act, input, lr, dE, hi, lo);
    ls := ss;
    order := [];
    var d := dE;
    var L: int := hi;
    while L >= lo
      invariant SweepInvariant(ss, act, input, lr, dE, hi, lo, ls, d, L, order)
    {
      var u := Update(ls[L], act, CachedInput(ls, input, L), lr, d);
      SweepLoopStep(ss, act, input, lr, dE, hi, lo, ls, d, L, order, u);
      ls := ls[L := u];
      d := u.dEdX;
      order := order + [L];
      L := L - 1;
    }
    SweepLoopExit(ss, act, input, lr, dE, hi, lo, ls, d, L, order);
  }


  /** What the checkpoint loop of `backwardWithFeedback` keeps before checkpoint k, with the
      segments up to checkpoint k-1 swept into `ls` and the layers they updated listed in
      `order`: the shapes are unchanged, the remaining resizes are defined, `start` is at or
      below the next checkpoint, and finishing the remaining segments from `ls` gives the
      same layers and the same update order as the whole loop run from `ss`. */
  ghost predicate FeedbackInvariant(ss: seq<LayerState>, act: AFunction, input: seq<real>, lr: real, dOut: seq<real>,
                                    fb: seq<int>, k: nat, start: nat, ls: seq<LayerState>, order: seq<int>)
    requires Chain(ss) && |input| <= ss[0].nx && Checkpoints(fb, |ss|) && 1 <= k <= |fb|
    requires forall j :: 1 <= j < |fb| ==> ResizeDefined(|dOut|, |ss[fb[j]].node|)
  {
    && Chain(ls) && SameWidths(ss, ls) && |input| <= ls[0].nx
    && (forall j :: k <= j < |fb| ==> ResizeDefined(|dOut|, |ls[fb[j]].node|))
    && (k < |fb| ==> start <= fb[k] + 1)
    && FeedbackSweep(ls, act, input, lr, dOut, fb, k, start) == FeedbackSweep(ss, act, input, lr, dOut, fb, 1, fb[0])
    && order + ScheduleFrom(fb, k, start) == ScheduleFrom(fb, 1, fb[0])
  }

  /** One round of the checkpoint loop keeps its invariant: `next` is the state after the
      segment from checkpoint k down to `start` was swept with the resized error `dE`. */
  lemma FeedbackLoopStep(ss: seq<LayerState>, act: AFunction, input: seq<real>, lr: real, dOut: seq<real>,
                         fb: seq<int>, k: nat, start: nat, ls: seq<LayerState>, order: seq<int>,
                         dE: seq<real>, next: seq<LayerState>, segment: seq<int>)
    requires Chain(ss) && |input| <= ss[0].nx && Checkpoints(fb, |ss|) && 1 <= k < |fb|
    requires forall j :: 1 <= j < |fb| ==> ResizeDefined(|dOut|, |ss[fb[j]].node|)
    requires FeedbackInvariant(ss, act, input, lr, dOut, fb, k, start, ls, order)
    requires dE == Resized(dOut, |ls[fb[k]].node|)
    requires next == Sweep(ls, act, input, lr, dE, fb[k], start)
    requires segment == Down(fb[k], start)
    ensures FeedbackInvariant(ss, act, input, lr, dOut, fb, k + 1, fb[k] + 1, next, order + segment)
  {
    FeedbackSweepStep(ls, act, input, lr, dOut, fb, k, start);
    ScheduleAdvance(order, fb, k, start);
  }

  /** One round of the checkpoint loop: the output error is resized to the width of
      checkpoint `fb[k]`, then layers `fb[k]` down to `start` are swept. */
  method FeedbackSegment(ss: seq<LayerState>, act: AFunction, input: seq<real>, lr: real, dOut: seq<real>,
                         fb: seq<int>, k: nat, start: nat, ls: seq<LayerState>, ghost order: seq<int>)
    returns (next: seq<LayerState>, ghost segment: seq<int>)
    requires Chain(ss) && |input| <= ss[0].nx && Checkpoints(fb, |ss|) && 1 <= k < |fb|
    requires forall j :: 1 <= j < |fb| ==> ResizeDefined(|dOut|, |ss[fb[j]].node|)
    requires FeedbackInvariant(ss, act, input, lr, dOut, fb, k, start, ls, order)
    ensures |ls| == |ss| && Chain(ls)
    ensures next == Sweep(ls, act, input, lr, Resized(dOut, |ls[fb[k]].node|), fb[k], start)
    ensures segment == Down(fb[k], start)
    ensures FeedbackInvariant(ss, act, input, lr, dOut, fb, k + 1, fb[k] + 1, next, order + segment)
  {
    var dE := AdaptError(dOut, |ls[fb[k]].node|);
    next, segment := SweepLayers(ls, act, input, lr, dE, fb[k], start);
    FeedbackLoopStep(ss, act, input, lr, dOut, fb, k, start, ls, order, dE, next, segment);
  }

  /** Before the first round nothing is swept yet: the invariant holds of the input layers
      and the empty update list. */
  lemma FeedbackLoopEntry(ss: seq<LayerState>, act: AFunction, input: seq<real>, lr: real, dOut: seq<real>,
                          fb: seq<int>)
    requires Chain(ss) && |input| <= ss[0].nx && Checkpoints(fb, |ss|) && |fb| > 0
    requires forall j :: 1 <= j < |fb| ==> ResizeDefined(|dOut|, |ss[fb[j]].node|)
    ensures fb[0] >= 0
    ensures FeedbackInvariant(ss, act, input, lr, dOut, fb, 1, fb[0], ss, [])
  {
    assert SameWidths(ss, ss);
    assert [] + ScheduleFrom(fb, 1, fb[0]) == ScheduleFrom(fb, 1, fb[0]);
  }

  /** After the last round the swept layers and the update list are the whole loop's. */
  lemma FeedbackLoopExit(ss: seq<LayerState>, act: AFunction, input: seq<real>, lr: real, dOut: seq<real>,
                         fb: seq<int>, start: nat, ls: seq<LayerState>, order: seq<int>)
    requires Chain(ss) && |input| <= ss[0].nx && Checkpoints(fb, |ss|) && |fb| > 0
    requires forall j :: 1 <= j < |fb| ==> ResizeDefined(|dOut|, |ss[fb[j]].node|)
    requires FeedbackInvariant(ss, act, input, lr, dOut, fb, |fb|, start, ls, order)
    ensures ls == FeedbackSweep(ss, act, input, lr, dOut, fb, 1, fb[0])
    ensures order == ScheduleFrom(fb, 1, fb[0])
  {
    assert order + [] == order;
  }

  /** The checkpoint loop of `backwardWithFeedback`: each checkpoint after the first closes
      a segment, swept from the checkpoint down to one past the previous one, from the output
      error resized to the checkpoint's width. `order` lists the updated layers in order. */
  method FeedbackLayers(ss: seq<LayerState>, act: AFunction, input: seq<real>, lr: real, dOut: seq<real>,
                        fb: seq<int>) returns (ls: seq<LayerState>, ghost order: seq<int>)
    requires Chain(ss) && |input| <= ss[0].nx
    requires Checkpoints(fb, |ss|) && |fb| > 0
    requires forall j :: 1 <= j < |fb| ==> ResizeDefined(|dOut|, |ss[fb[j]].node|)
    ensures fb[0] >= 0
    ensures ls == FeedbackSweep(ss, act, input, lr, dOut, fb, 1, fb[0])
    ensures order == ScheduleFrom(fb, 1, fb[0])
  {
    FeedbackLoopEntry(ss, act, input, lr, dOut, fb);
    ls := ss;
    order := [];
    var startLayer: nat := fb[0];
    var k := 1;
    while k < |fb|
      invariant 1 <= k <= |fb|
      invariant FeedbackInvariant(ss, act, input, lr, dOut, fb, k, startLayer, ls, order)
    {
      var endLayer := fb[k];
      var next, segment := FeedbackSegment(ss, act, input, lr, dOut, fb, k, startLayer, ls, order);
      ls := next;
      order := order + segment;
      startLayer := endLayer + 1;
      k := k + 1;
    }
    FeedbackLoopExit(ss, act, input, lr, dOut, fb, startLayer, ls, order);
  }

  class NeuralNetwork {
    /** `std::vector<Layer*> layer`, bottom-up. */
    var layer: seq<LayerState>
    var feedback: seq<int>
    const activeFunction: AFunction
    /** The index of every layer whose `updateWeights` was called, in call order. */
    ghost var calls: seq<int>

    /** At least one layer; consecutive layers fit; the checkpoints are an ordered set holding
        the first and the last layer. */
    ghost predicate Valid()
      reads this
    {
      && Chain(layer)
      && StrictlySorted(feedback) && 0 in feedback && |layer| - 1 in feedback
    }

    /** `NeuralNetwork(numOfInputs, layers, activeFunction)`: layer 0 reads the network
        inputs, layer L the outputs of layer L-1; the checkpoints are `{0, last}`. The normal
        samples of layer L are `draw(L)(n, i)`. */
    constructor (numOfInputs: nat, layers: seq<nat>, activeFunction: AFunction,
                 sqrt: real -> real, draw: nat -> (nat, nat) -> real)
      requires |layers| > 0
      ensures Valid()
      ensures |layer| == |layers| && this.activeFunction == activeFunction
      ensures layer == InitialLayers(numOfInputs, layers, activeFunction, sqrt, draw, |layers|)
      ensures feedback == if |layers| == 1 then [0] else [0, |layers| - 1]
      ensures calls == []
    {
      var ls := BuildLayers(numOfInputs, layers, activeFunction, sqrt, draw);
      this.activeFunction := activeFunction;
      layer := ls;
      feedback := Insert(Insert([], 0), |layers| - 1);
      calls := [];
      InitialChain(numOfInputs, layers, activeFunction, sqrt, draw);
      InitialCheckpoints(|layers| - 1);
    }

    /** `setFeedback`: inserts every listed index into the checkpoint set. */
    method SetFeedback(flayer: seq<int>)
      requires Valid()
      modifies this`feedback
      ensures Valid()
      ensures feedback == InsertAll(old(feedback), flayer)
    {
      InsertAllMembers(feedback, flayer);
      feedback := InsertEach(feedback, flayer);
    }

    /** `forward`: evaluates the layers bottom-up and returns the outputs of the last one. */
    method Forward(input: seq<real>) returns (output: seq<real>)
      requires Valid() && |input| <= layer[0].nx
      modifies this`layer
      ensures Valid()
      ensures layer == Forwarded(old(layer), activeFunction, input)
      ensures output == layer[|layer| - 1].Y
    {
      var ls := EvaluateLayers(layer, activeFunction, input);
      layer := ls;
      output := ls[|ls| - 1].Y;
    }

    /** The output error derivative `2 (output - target)`, zero past the end of `target`. */
    method OutputError(target: seq<real>) returns (dOut: seq<real>)
      requires Valid() && |target| <= |layer[|layer| - 1].node|
      ensures dOut == DOut(layer, target)
    {
      var output := layer[|layer| - 1].Y;
      var d := new real[|output|](_ => 0.0);
      var i := 0;
      while i < |target|
        invariant 0 <= i <= |target|
        invariant forall k :: 0 <= k < i ==> d[k] == 2.0 * (output[k] - target[k])
        invariant forall k :: i <= k < d.Length ==> d[k] == 0.0
      {
        d[i] := 2.0 * (output[i] - target[i]);
        i := i + 1;
      }
      dOut := d[..];
      forall k | 0 <= k < |dOut|
        ensures dOut[k] == DOut(layer, target)[k]
      {
        DOutAt(layer, target, k);
      }
    }

    /** `backward`: one sweep from the last layer down to layer 0, starting from the output
        error. The source's loop stops above layer 0 and then updates layer 0 from the network
        input; `SweepLayers` down to layer 0 does the same calls in the same order. */
    method Backward(input: seq<real>, target: seq<real>, learningRate: real)
      requires Valid() && |input| <= layer[0].nx && |target| <= |layer[|layer| - 1].node|
      modifies this`layer, this`calls
      ensures Valid()
      ensures layer == Sweep(old(layer), activeFunction, input, learningRate, DOut(old(layer), target), |old(layer)| - 1, 0)
      ensures calls == old(calls) + Down(|old(layer)| - 1, 0)
    {
      var dOut := OutputError(target);
      var ls, order := SweepLayers(layer, activeFunction, input, learningRate, dOut, |layer| - 1, 0);
      SweepShape(layer, activeFunction, input, learningRate, dOut, |layer| - 1, 0);
      KeepsShapeChain(layer, ls);
      layer := ls;
      calls := calls + order;
    }

    /** `backwardWithFeedback`: after the first checkpoint, every checkpoint closes a
        segment; each segment is swept from its top layer down to one past the previous
        checkpoint, starting from the output error resized to the top layer's width. */
    method BackwardWithFeedback(input: seq<real>, target: seq<real>, learningRate: real)
      requires Valid() && |input| <= layer[0].nx && |target| <= |layer[|layer| - 1].node|
      requires Checkpoints(feedback, |layer|)
      requires forall j :: 1 <= j < |feedback| ==> ResizeDefined(|layer[|layer| - 1].node|, |layer[feedback[j]].node|)
      modifies this`layer, this`calls
      ensures Valid()
      ensures |feedback| > 0 && feedback[0] >= 0
      ensures layer == FeedbackSweep(old(layer), activeFunction, input, learningRate,
                                     DOut(old(layer), target), feedback, 1, feedback[0])
      ensures calls == old(calls) + ScheduleFrom(feedback, 1, feedback[0])
    {
      var dOut := OutputError(target);
      var ls, order := FeedbackLayers(layer, activeFunction, input, learningRate, dOut, feedback);
      FeedbackSweepShape(layer, activeFunction, input, learningRate, dOut, feedback, 1, feedback[0]);
      KeepsShapeChain(layer, ls);
      layer := ls;
      calls := calls + order;
    }

    /** `setFastMode`: sets the flag of every layer and nothing else. */
    method SetFastMode(fast: bool)
      requires Valid()
      modifies this`layer
      ensures Valid()
      ensures |layer| == |old(layer)|
      ensures forall L :: 0 <= L < |layer| ==> layer[L] == old(layer)[L].(fast := fast)
    {
      var L := 0;
      while L < |layer|
        invariant 0 <= L <= |layer| == |old(layer)|
        invariant Valid()
        invariant forall k :: 0 <= k < L ==> layer[k] == old(layer)[k].(fast := fast)
        invariant forall k :: L <= k < |layer| ==> layer[k] == old(layer)[k]
      {
        ChainReplace(layer, L, layer[L].(fast := fast));
        layer := layer[L := layer[L].(fast := fast)];
        L := L + 1;
      }
    }
  }
}
