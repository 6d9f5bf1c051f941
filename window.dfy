/**
 * The sliding window of vocabulary indices that the generator feeds to the
 * scorer, and how it moves one step at a time (app.py:51, 67-68).
 */
module SlidingWindow {

  /** Every entry of `s` is a vocabulary index, that is, lies in [0, n). */
  predicate InRange(s: seq<int>, n: int) {
    forall i :: 0 <= i < |s| ==> 0 <= s[i] < n
  }

  /** The last `k` entries of `s`. */
  function LastN(s: seq<int>, k: nat): seq<int>
    requires k <= |s|
  {
    s[|s| - k..]
  }

  /**
   * One window update: the new index goes on the end and the oldest entry
   * is dropped, so the length never changes.
   */
  function Slide(window: seq<int>, index: int): (w: seq<int>)
    ensures |w| == |window|
    ensures |window| > 0 ==> w[|w| - 1] == index
    ensures forall i :: 0 <= i < |window| - 1 ==> w[i] == window[i + 1]
  {
    (window + [index])[1..]
  }

  /** The window reached from `window` by sliding in each of `draws`, oldest first. */
  function Run(window: seq<int>, draws: seq<int>): (w: seq<int>)
    ensures |w| == |window|
    decreases |draws|
  {
    if draws == [] then window
    else Slide(Run(window, draws[..|draws| - 1]), draws[|draws| - 1])
  }

  /** Sliding `x` into the last `k` entries of `s` gives the last `k` entries of `s + [x]`. */
  lemma SlideLastN(s: seq<int>, x: int, k: nat)
    requires k <= |s|
    ensures Slide(LastN(s, k), x) == LastN(s + [x], k)
  {
  }

  /**
   * After any number of steps the window is exactly the most recent |window|
   * entries of the seed followed by everything drawn so far.
   */
  lemma {:induction false} RunIsSuffix(window: seq<int>, draws: seq<int>)
    ensures Run(window, draws) == LastN(window + draws, |window|)
    decreases |draws|
  {
    if draws == [] {
      assert window + draws == window;
    } else {
      var prefix, last := draws[..|draws| - 1], draws[|draws| - 1];
      RunIsSuffix(window, prefix);
      SlideLastN(window + prefix, last, |window|);
      assert window + prefix + [last] == window + draws;
    }
  }

  /** A window seeded with vocabulary indices and fed vocabulary indices holds only vocabulary indices. */
  lemma RunInRange(window: seq<int>, draws: seq<int>, n: int)
    requires InRange(window, n) && InRange(draws, n)
    ensures InRange(Run(window, draws), n)
  {
  }
}
