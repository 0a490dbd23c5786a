/** The target encoding and the prediction rule of the MNIST trainer (Network_P11/main.cpp):
    a label becomes a vector of `-0.8` with `0.8` at the label, and the predicted label is the
    position of the first largest output. */
module Prediction {

  /** The target of class `cls` among `n`: `0.8` at `cls`, `-0.8` elsewhere. */
  ghost predicate IsOneHot(v: seq<real>, cls: nat, n: nat)
  {
    && |v| == n && cls < n
    && v[cls] == 0.8
    && forall i :: 0 <= i < n && i != cls ==> v[i] == -0.8
  }

  /** `one_hot_encode(label, num_classes)`: a vector of `num_classes` entries `-0.8`, then
      entry `label` is overwritten with `0.8`. The write is unchecked, so the label must be a
      valid class. */
  method OneHotEncode(cls: nat, numClasses: nat) returns (encoded: seq<real>)
    requires cls < numClasses
    ensures |encoded| == numClasses
    ensures encoded[cls] == 0.8
    ensures forall i :: 0 <= i < numClasses && i != cls ==> encoded[i] == -0.8
    ensures PredictedLabel(encoded) == cls
  {
    var a := new real[numClasses](_ => -0.8);
    a[cls] := 0.8;
    encoded := a[..];
    OneHotPredictsLabel(encoded, cls, numClasses);
  }

  /** `i` is where `std::max_element` stops on `s`: a largest entry with no equally large
      entry before it. On an empty sequence it is the end, position 0. */
  ghost predicate IsFirstMax(s: seq<real>, i: nat)
  {
    if |s| == 0 then i == 0
    else
      && i < |s|
      && (forall j :: 0 <= j < |s| ==> s[j] <= s[i])
      && (forall j :: 0 <= j < i ==> s[j] < s[i])
  }

  /** The position of the first largest among the first k entries: the scan of
      `std::max_element`, which moves only to a strictly larger entry. */
  function FirstMaxUpTo(s: seq<real>, k: nat): (i: nat)
    requires 0 < k <= |s|
    ensures i < k
    ensures forall j :: 0 <= j < k ==> s[j] <= s[i]
    ensures forall j :: 0 <= j < i ==> s[j] < s[i]
    decreases k
  {
    if k == 1 then 0
    else
      var best := FirstMaxUpTo(s, k - 1);
      if s[best] < s[k - 1] then k - 1 else best
  }

  /** `std::distance(output.begin(), std::max_element(output.begin(), output.end()))`, the
      predicted label. */
  function PredictedLabel(output: seq<real>): (i: nat)
    ensures IsFirstMax(output, i)
  {
    if |output| == 0 then 0 else FirstMaxUpTo(output, |output|)
  }

  /** Only one position is the first largest entry, so the predicted label is determined by
      the properties `std::max_element` promises. */
  lemma FirstMaxUnique(s: seq<real>, i: nat)
    requires IsFirstMax(s, i)
    ensures i == PredictedLabel(s)
  {
  }

  /** The target of a class is predicted as that class. */
  lemma OneHotPredictsLabel(v: seq<real>, cls: nat, n: nat)
    requires IsOneHot(v, cls, n)
    ensures PredictedLabel(v) == cls
  {
    assert IsFirstMax(v, cls) by {
      forall j | 0 <= j < n && j != cls ensures v[j] < v[cls] {
      }
    }
    FirstMaxUnique(v, cls);
  }
}
