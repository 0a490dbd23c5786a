/** The order in which a backward loop visits the layers: from the top index down. */
module UpdateOrder {

  /** Layer indices `hi, hi-1, ..., lo`: the order of a loop `for (L = hi; L >= lo; L--)`. */
  function Down(hi: int, lo: int): (r: seq<int>)
    ensures |r| == if hi < lo then 0 else hi - lo + 1
    decreases hi - lo + 1
  {
    if hi < lo then [] else [hi] + Down(hi - 1, lo)
  }

  /** `Down(hi, lo)` visits every index between lo and hi once and nothing else. */
  lemma {:induction false} DownCount(hi: int, lo: int, x: int)
    ensures multiset(Down(hi, lo))[x] == if lo <= x <= hi then 1 else 0
    decreases hi - lo + 1
  {
    if lo <= hi {
      DownCount(hi - 1, lo, x);
    }
  }

  /** Splitting a descending range at `mid`. */
  lemma {:induction false} DownSplit(hi: int, mid: int, lo: int)
    requires lo <= mid + 1 <= hi + 1
    ensures Down(hi, lo) == Down(hi, mid + 1) + Down(mid, lo)
    decreases hi - mid
  {
    if hi > mid {
      DownSplit(hi - 1, mid, lo);
    }
  }

  /** One more step of a descending loop: visiting L after `hi .. L+1`. */
  lemma DownStep(hi: int, L: int)
    requires L <= hi
    ensures Down(hi, L + 1) + [L] == Down(hi, L)
  {
    DownSplit(hi, L, L);
    assert Down(L, L) == [L];
  }
}
