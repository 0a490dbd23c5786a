/** The ordered set of feedback checkpoints (`std::set<int> feedback` of
    exp/GlobalError/NeuralNetwork.h), kept as a strictly increasing sequence: iterating a
    `std::set` visits its elements in increasing order, each once. */
module CheckpointSet {

  /** Strictly increasing: sorted and without duplicates. */
  ghost predicate StrictlySorted(s: seq<int>)
  {
    forall i, j :: 0 <= i < j < |s| ==> s[i] < s[j]
  }

  /** `std::set<int>::insert`: adds `x` at its place, or leaves the set alone when `x` is
      already there (`InsertCorrect` states this of an ordered set). */
  function Insert(s: seq<int>, x: int): (r: seq<int>)
    ensures |r| <= |s| + 1
    decreases |s|
  {
    if |s| == 0 then [x]
    else if x < s[0] then [x] + s
    else if x == s[0] then s
    else [s[0]] + Insert(s[1..], x)
  }

  /** Inserting every element of `xs`, left to right, as the `for (int idxLayer : flayer)`
      loop of `setFeedback` does. */
  function InsertAll(s: seq<int>, xs: seq<int>): (r: seq<int>)
    ensures |r| <= |s| + |xs|
    decreases |xs|
  {
    if |xs| == 0 then s else Insert(InsertAll(s, xs[..|xs| - 1]), xs[|xs| - 1])
  }

  /** The loop of `setFeedback`: `feedback.insert(idxLayer)` for every listed index, in
      order. */
  method InsertEach(s: seq<int>, xs: seq<int>) returns (r: seq<int>)
    ensures r == InsertAll(s, xs)
  {
    r := s;
    var i := 0;
    while i < |xs|
      invariant 0 <= i <= |xs|
      invariant r == InsertAll(s, xs[..i])
    {
      assert xs[..i + 1][..i] == xs[..i];
      r := Insert(r, xs[i]);
      i := i + 1;
    }
    assert xs[..i] == xs;
  }

  /** In an ordered set the first element is below every other one. */
  lemma FirstBelowRest(s: seq<int>)
    requires StrictlySorted(s) && |s| > 0
    ensures forall y :: y in s[1..] ==> s[0] < y
  {
    forall y | y in s[1..] ensures s[0] < y {
      var k :| 0 <= k < |s[1..]| && s[1..][k] == y;
      assert s[k + 1] == y;
    }
  }

  /** Putting an element in front of an ordered set that is above it keeps it ordered. */
  lemma SortedCons(h: int, t: seq<int>)
    requires StrictlySorted(t) && forall y :: y in t ==> h < y
    ensures StrictlySorted([h] + t)
  {
    forall i, j | 0 <= i < j < |[h] + t| ensures ([h] + t)[i] < ([h] + t)[j] {
      if i > 0 {
        assert ([h] + t)[i] == t[i - 1] && ([h] + t)[j] == t[j - 1];
      } else {
        assert ([h] + t)[j] == t[j - 1] && t[j - 1] in t;
      }
    }
  }

  /** Insertion keeps the set ordered, adds exactly `x`, and grows it by one exactly when
      `x` was not there yet. */
  lemma {:induction false} InsertCorrect(s: seq<int>, x: int)
    requires StrictlySorted(s)
    ensures StrictlySorted(Insert(s, x))
    ensures forall y :: y in Insert(s, x) <==> y in s || y == x
    ensures |Insert(s, x)| == if x in s then |s| else |s| + 1
    decreases |s|
  {
    if |s| > 0 {
      assert s == [s[0]] + s[1..];
      assert StrictlySorted(s[1..]) by {
        forall i, j | 0 <= i < j < |s[1..]| ensures s[1..][i] < s[1..][j] {
          assert s[1..][i] == s[i + 1] && s[1..][j] == s[j + 1];
        }
      }
      FirstBelowRest(s);
      if x < s[0] {
        assert x !in s;
        SortedCons(x, s);
      } else if x > s[0] {
        var t := Insert(s[1..], x);
        InsertCorrect(s[1..], x);
        assert Insert(s, x) == [s[0]] + t;
        assert x in s <==> x in s[1..];
        SortedCons(s[0], t);
      }
    }
  }

  /** After inserting a list, the set is ordered and holds exactly the old elements and
      the list's. */
  lemma {:induction false} InsertAllMembers(s: seq<int>, xs: seq<int>)
    requires StrictlySorted(s)
    ensures StrictlySorted(InsertAll(s, xs))
    ensures forall y :: y in InsertAll(s, xs) <==> y in s || y in xs
    decreases |xs|
  {
    if |xs| > 0 {
      var init := xs[..|xs| - 1];
      InsertAllMembers(s, init);
      InsertCorrect(InsertAll(s, init), xs[|xs| - 1]);
      assert xs == init + [xs[|xs| - 1]];
    }
  }

  /** In an ordered set, the elements after the first are the elements other than it. */
  lemma RestMembers(s: seq<int>)
    requires StrictlySorted(s) && |s| > 0
    ensures forall y :: y in s[1..] <==> y in s && y != s[0]
  {
    FirstBelowRest(s);
    assert s == [s[0]] + s[1..];
  }

  /** The rest of an ordered set is ordered. */
  lemma RestSorted(s: seq<int>)
    requires StrictlySorted(s) && |s| > 0
    ensures StrictlySorted(s[1..])
  {
    forall i, j | 0 <= i < j < |s[1..]| ensures s[1..][i] < s[1..][j] {
      assert s[1..][i] == s[i + 1] && s[1..][j] == s[j + 1];
    }
  }

  /** A strictly increasing sequence is determined by its elements. */
  lemma {:induction false} SortedUnique(a: seq<int>, b: seq<int>)
    requires StrictlySorted(a) && StrictlySorted(b)
    requires forall y :: y in a <==> y in b
    ensures a == b
    decreases |a|
  {
    assert |a| > 0 ==> a[0] in a;
    assert |b| > 0 ==> b[0] in b;
    if |a| > 0 {
      assert a[0] == b[0] by {
        assert a[0] in b && b[0] in a;
        FirstLeastLastGreatest(a);
        FirstLeastLastGreatest(b);
      }
      assert forall y :: y in a[1..] <==> y in b[1..] by {
        RestMembers(a);
        RestMembers(b);
      }
      RestSorted(a);
      RestSorted(b);
      SortedUnique(a[1..], b[1..]);
      assert a == [a[0]] + a[1..] && b == [b[0]] + b[1..];
    }
  }

  /** Calling `setFeedback` twice with the same list is the same as calling it once. */
  lemma InsertAllIdempotent(s: seq<int>, xs: seq<int>)
    requires StrictlySorted(s)
    ensures InsertAll(InsertAll(s, xs), xs) == InsertAll(s, xs)
  {
    InsertAllMembers(s, xs);
    InsertAllMembers(InsertAll(s, xs), xs);
    SortedUnique(InsertAll(InsertAll(s, xs), xs), InsertAll(s, xs));
  }

  /** The order and the repetitions of the list do not matter, only its elements. */
  lemma InsertAllOrderIrrelevant(s: seq<int>, xs: seq<int>, ys: seq<int>)
    requires StrictlySorted(s)
    requires forall y :: y in xs <==> y in ys
    ensures InsertAll(s, xs) == InsertAll(s, ys)
  {
    InsertAllMembers(s, xs);
    InsertAllMembers(s, ys);
    SortedUnique(InsertAll(s, xs), InsertAll(s, ys));
  }

  /** In a strictly increasing sequence the first element is the least and the last the
      greatest: what `feedback.begin()` and the last visited element are. */
  lemma FirstLeastLastGreatest(s: seq<int>)
    requires StrictlySorted(s) && |s| > 0
    ensures forall y :: y in s ==> s[0] <= y <= s[|s| - 1]
  {
  }
}
