/** Real-valued vectors and the sums the layers accumulate. */
module Vectors {

  /** The weighted sum `Σ_{i < |x|} x[i] * w[i]`, accumulated left to right as the
      layers' `for (i = 0; i < input.size(); ++i)` loops do; `w` may be longer than `x`. */
  function Dot(x: seq<real>, w: seq<real>): real
    requires |x| <= |w|
  {
    PartialDot(x, w, |x|)
  }

  /** The weighted sum of the first k entries. */
  function PartialDot(x: seq<real>, w: seq<real>, k: nat): real
    requires k <= |x| <= |w|
    decreases k
  {
    if k == 0 then 0.0 else PartialDot(x, w, k - 1) + x[k - 1] * w[k - 1]
  }

  /** Sum of all entries, left to right. */
  function Sum(s: seq<real>): real
    decreases |s|
  {
    if |s| == 0 then 0.0 else Sum(s[..|s| - 1]) + s[|s| - 1]
  }

  /** One more loop step of `Sum`. */
  lemma SumStep(s: seq<real>, k: nat)
    requires k < |s|
    ensures Sum(s[..k + 1]) == Sum(s[..k]) + s[k]
  {
    assert s[..k + 1][..k] == s[..k];
  }

  /** Adding `x` to one entry adds `x` to the sum. */
  lemma {:induction false} SumAddAt(s: seq<real>, p: nat, x: real)
    requires p < |s|
    ensures Sum(s[p := s[p] + x]) == Sum(s) + x
    decreases |s|
  {
    var t := s[p := s[p] + x];
    if p < |s| - 1 {
      assert t[..|t| - 1] == s[..|s| - 1][p := s[p] + x];
      SumAddAt(s[..|s| - 1], p, x);
    } else {
      assert t[..|t| - 1] == s[..|s| - 1];
    }
  }

  /** `count` zeros, as `resize` leaves a new vector of floats. */
  function Zeros(count: nat): (r: seq<real>)
    ensures |r| == count
    decreases count
  {
    if count == 0 then [] else Zeros(count - 1) + [0.0]
  }

  /** Every entry of `Zeros(count)` is zero. */
  lemma {:induction false} ZerosAreZero(count: nat)
    ensures forall i :: 0 <= i < count ==> Zeros(count)[i] == 0.0
    decreases count
  {
    if count > 0 {
      ZerosAreZero(count - 1);
    }
  }

  /** A sequence of zeros sums to zero. */
  lemma {:induction false} SumZeros(n: nat)
    ensures Sum(Zeros(n)) == 0.0
    decreases n
  {
    if n > 0 {
      assert Zeros(n)[..n - 1] == Zeros(n - 1);
      SumZeros(n - 1);
    }
  }

  /** The first k entries of the derivative of the squared error `Σ (y[i] - target[i])²`:
      `2 (y[i] - target[i])` where a target is given, zero past the end of `target`. */
  function ErrorDerivative(y: seq<real>, target: seq<real>, k: nat): (d: seq<real>)
    requires k <= |y|
    ensures |d| == k
    decreases k
  {
    if k == 0 then []
    else ErrorDerivative(y, target, k - 1) + [if k - 1 < |target| then 2.0 * (y[k - 1] - target[k - 1]) else 0.0]
  }

  lemma {:induction false} ErrorDerivativeAt(y: seq<real>, target: seq<real>, k: nat, i: nat)
    requires i < k <= |y|
    ensures ErrorDerivative(y, target, k)[i] == if i < |target| then 2.0 * (y[i] - target[i]) else 0.0
    decreases k
  {
    if i < k - 1 {
      ErrorDerivativeAt(y, target, k - 1, i);
    }
  }

  /** The sequence `f(0), ..., f(k-1)`. */
  function Tabulate<T>(f: nat -> T, k: nat): (r: seq<T>)
    ensures |r| == k
  {
    if k == 0 then [] else Tabulate(f, k - 1) + [f(k - 1)]
  }

  /** Entry i of the tabulation is `f(i)`. */
  lemma {:induction false} TabulateAt<T>(f: nat -> T, k: nat, i: nat)
    requires i < k
    ensures Tabulate(f, k)[i] == f(i)
  {
    if i < k - 1 {
      TabulateAt(f, k - 1, i);
    }
  }
}
