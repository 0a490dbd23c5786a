/** Adapting the output-error vector to the width of a checkpoint layer
    (exp/GlobalError/NeuralNetwork.h, `backwardWithFeedback`): a shorter vector is repeated
    cyclically, a longer one is folded by adding entry i into slot `i % n`. */
module ErrorResize {
  import opened Vectors

  /** When the resizing is defined: equal widths need nothing; otherwise both widths must be
      positive, since growing takes `i % dOut.size()` and shrinking `i % dEVar.size()`. */
  predicate ResizeDefined(m: nat, n: nat)
  {
    m == n || (m > 0 && n > 0)
  }

  /** Cyclic repetition of `d` up to length `n`. */
  function Tiled(d: seq<real>, n: nat): (r: seq<real>)
    requires |d| > 0
    ensures |r| == n
    decreases n
  {
    if n == 0 then [] else Tiled(d, n - 1) + [d[(n - 1) % |d|]]
  }

  /** Entry i of the tiled vector is `d[i % |d|]`, what the growing loop writes. */
  lemma {:induction false} TiledAt(d: seq<real>, n: nat, i: nat)
    requires |d| > 0 && i < n
    ensures Tiled(d, n)[i] == d[i % |d|]
    decreases n
  {
    if i < n - 1 {
      TiledAt(d, n - 1, i);
    }
  }

  /** The tiled vector starts with `d` itself and repeats with period `|d|`. */
  lemma TiledRepeats(d: seq<real>, n: nat)
    requires |d| > 0
    ensures forall i :: 0 <= i < n && i < |d| ==> Tiled(d, n)[i] == d[i]
    ensures forall i :: |d| <= i < n ==> Tiled(d, n)[i] == Tiled(d, n)[i - |d|]
  {
    forall i | 0 <= i < n && i < |d|
      ensures Tiled(d, n)[i] == d[i]
    {
      TiledAt(d, n, i);
      ModSmall(i, |d|);
    }
    forall i | |d| <= i < n
      ensures Tiled(d, n)[i] == Tiled(d, n)[i - |d|]
    {
      TiledAt(d, n, i);
      TiledAt(d, n, i - |d|);
      ModShift(i - |d|, |d|);
    }
  }

  /** A number below the modulus is its own remainder. */
  lemma ModSmall(i: nat, m: int)
    requires i < m
    ensures i % m == i
  {
    MultipleInOpenInterval(i / m, m, i - i % m);
  }

  /** Adding the modulus does not change the remainder. */
  lemma ModShift(i: nat, m: int)
    requires m > 0
    ensures (i + m) % m == i % m
  {
    var q, r := i / m, i % m;
    var q', r' := (i + m) / m, (i + m) % m;
    assert (q' - q - 1) * m == r - r';
    MultipleInOpenInterval(q' - q - 1, m, r - r');
  }

  /** The only multiple of m strictly between -m and m is zero. */
  lemma MultipleInOpenInterval(k: int, m: int, x: int)
    requires m > 0 && k * m == x && -m < x < m
    ensures k == 0
  {
  }

  /** The first `k` entries of `d` folded onto `n` zero-initialised slots, in the order the
      source's loop adds them. */
  function FoldPrefix(d: seq<real>, n: nat, k: nat): (r: seq<real>)
    requires n > 0 && k <= |d|
    ensures |r| == n
    decreases k
  {
    if k == 0 then Zeros(n)
    else
      var p := FoldPrefix(d, n, k - 1);
      p[(k - 1) % n := p[(k - 1) % n] + d[k - 1]]
  }

  /** All of `d` folded onto `n` slots. */
  function Folded(d: seq<real>, n: nat): (r: seq<real>)
    requires n > 0
    ensures |r| == n
  {
    FoldPrefix(d, n, |d|)
  }

  /** The error vector handed to a segment ending at a layer of width `n`. */
  function Resized(d: seq<real>, n: nat): (r: seq<real>)
    requires ResizeDefined(|d|, n)
    ensures |r| == n
  {
    if |d| == n then d else if |d| < n then Tiled(d, n) else Folded(d, n)
  }

  /** Reference definition of a folded slot: the sum of the entries `d[i]`, `i < k`, whose
      index is congruent to `j` modulo `n`. */
  function ResidueSum(d: seq<real>, n: nat, j: nat, k: nat): real
    requires n > 0 && k <= |d|
    decreases k
  {
    if k == 0 then 0.0
    else ResidueSum(d, n, j, k - 1) + (if (k - 1) % n == j then d[k - 1] else 0.0)
  }

  /** Every folded slot is the residue-class sum of the entries folded so far. */
  lemma {:induction false} FoldPrefixSlots(d: seq<real>, n: nat, k: nat)
    requires n > 0 && k <= |d|
    ensures forall j :: 0 <= j < n ==> FoldPrefix(d, n, k)[j] == ResidueSum(d, n, j, k)
    decreases k
  {
    if k == 0 {
      ZerosAreZero(n);
    } else {
      FoldPrefixSlots(d, n, k - 1);
    }
  }

  /** Folding never loses nor creates error: the folded slots sum to the sum of `d`. */
  lemma {:induction false} FoldPrefixTotal(d: seq<real>, n: nat, k: nat)
    requires n > 0 && k <= |d|
    ensures Sum(FoldPrefix(d, n, k)) == Sum(d[..k])
    decreases k
  {
    if k == 0 {
      SumZeros(n);
      assert d[..0] == [];
    } else {
      FoldPrefixTotal(d, n, k - 1);
      SumAddAt(FoldPrefix(d, n, k - 1), (k - 1) % n, d[k - 1]);
      SumStep(d, k - 1);
    }
  }

  /** The total error is the same before and after folding. */
  lemma FoldPreservesTotal(d: seq<real>, n: nat)
    requires n > 0
    ensures Sum(Folded(d, n)) == Sum(d)
  {
    FoldPrefixTotal(d, n, |d|);
    assert d[..|d|] == d;
  }

  /** Slot j of the folded vector is the sum of the entries whose index is `j mod n`. */
  lemma FoldedSlots(d: seq<real>, n: nat)
    requires n > 0
    ensures forall j :: 0 <= j < n ==> Folded(d, n)[j] == ResidueSum(d, n, j, |d|)
  {
    FoldPrefixSlots(d, n, |d|);
  }

  /** Growing a width-3 error to width 6 repeats it: `[a, b, c] -> [a, b, c, a, b, c]`. */
  lemma TileExample(a: real, b: real, c: real)
    ensures Resized([a, b, c], 6) == [a, b, c, a, b, c]
  {
    TiledRepeats([a, b, c], 6);
  }

  /** Shrinking a width-6 error to width 3 adds the two halves:
      `[a, b, c, d, e, f] -> [a + d, b + e, c + f]`. */
  lemma FoldExample(a: real, b: real, c: real, d: real, e: real, f: real)
    ensures Resized([a, b, c, d, e, f], 3) == [a + d, b + e, c + f]
  {
    var s := [a, b, c, d, e, f];
    assert FoldPrefix(s, 3, 3) == [a, b, c];
    assert FoldPrefix(s, 3, 6) == [a + d, b + e, c + f];
  }

  /** `backwardWithFeedback`, lines adapting `dOut` to a checkpoint layer of width `n`:
      unchanged when the widths agree, else a zero-filled buffer of width `n` that is tiled
      or folded. */
  method AdaptError(dOut: seq<real>, n: nat) returns (dE: seq<real>)
    requires ResizeDefined(|dOut|, n)
    ensures dE == Resized(dOut, n)
  {
    if |dOut| == n {
      return dOut;
    }
    var dEVar := new real[n](_ => 0.0);
    if |dOut| < dEVar.Length {
      var i := 0;
      while i < dEVar.Length
        invariant 0 <= i <= dEVar.Length
        invariant forall k :: 0 <= k < i ==> dEVar[k] == dOut[k % |dOut|]
      {
        dEVar[i] := dOut[i % |dOut|];
        i := i + 1;
      }
      dE := dEVar[..];
      forall k | 0 <= k < n
        ensures dE[k] == Tiled(dOut, n)[k]
      {
        TiledAt(dOut, n, k);
      }
    } else {
      ZerosAreZero(n);
      assert dEVar[..] == FoldPrefix(dOut, n, 0);
      var i := 0;
      while i < |dOut|
        invariant 0 <= i <= |dOut|
        invariant dEVar[..] == FoldPrefix(dOut, n, i)
      {
        dEVar[i % n] := dEVar[i % n] + dOut[i];
        i := i + 1;
      }
      dE := dEVar[..];
    }
  }
}
