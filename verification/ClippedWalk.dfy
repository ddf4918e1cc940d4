/** One weight coordinate of a Tree Parity Machine is a walk on the integers
    that is clipped back into [-L, L] after every step.  This module works out
    exactly what a whole sequence of such steps does, and exactly when two
    walks driven by the same steps have merged. */
module ClippedWalk {
  import opened Basics

  function Clip(v: int, bound: int): (r: int)
    requires 0 <= bound
    ensures -bound <= r <= bound
    ensures -bound <= v <= bound ==> r == v
  {
    if v < -bound then -bound else if v > bound then bound else v
  }

  function Clamp(v: int, lo: int, hi: int): int
    requires lo <= hi
  {
    if v < lo then lo else if v > hi then hi else v
  }

  /** The weight after the given steps, each followed by a clip. */
  function Walk(w: int, steps: seq<int>, bound: int): int
    requires 0 <= bound
  {
    if steps == [] then w
    else Clip(Walk(w, steps[..|steps| - 1], bound) + steps[|steps| - 1], bound)
  }

  function Sum(steps: seq<int>): int
  {
    if steps == [] then 0 else Sum(steps[..|steps| - 1]) + steps[|steps| - 1]
  }

  /** Highest value the unclipped sum has had, the empty sum included. */
  function Highest(steps: seq<int>): int
  {
    if steps == [] then 0 else Max(Highest(steps[..|steps| - 1]), Sum(steps))
  }

  /** Lowest value the unclipped sum has had, the empty sum included. */
  function Lowest(steps: seq<int>): int
  {
    if steps == [] then 0 else Min(Lowest(steps[..|steps| - 1]), Sum(steps))
  }

  function Span(steps: seq<int>): int { Highest(steps) - Lowest(steps) }

  lemma {:induction false} SumBetween(steps: seq<int>)
    ensures Lowest(steps) <= Sum(steps) <= Highest(steps)
    ensures Lowest(steps) <= 0 <= Highest(steps)
  {
    if steps != [] { SumBetween(steps[..|steps| - 1]); }
  }

  /** Highest and Lowest bound every prefix sum. */
  lemma {:induction false} PrefixSumBounds(steps: seq<int>, k: nat)
    requires k <= |steps|
    ensures Lowest(steps) <= Sum(steps[..k]) <= Highest(steps)
  {
    SumBetween(steps);
    if k < |steps| {
      var init := steps[..|steps| - 1];
      PrefixSumBounds(init, k);
      assert init[..k] == steps[..k];
    } else {
      assert steps[..k] == steps;
    }
  }

  /** And each of them is a prefix sum. */
  lemma {:induction false} PrefixSumsReach(steps: seq<int>) returns (low: nat, high: nat)
    ensures low <= |steps| && Sum(steps[..low]) == Lowest(steps)
    ensures high <= |steps| && Sum(steps[..high]) == Highest(steps)
  {
    if steps == [] {
      low, high := 0, 0;
    } else {
      var init := steps[..|steps| - 1];
      low, high := PrefixSumsReach(init);
      assert init[..low] == steps[..low] && init[..high] == steps[..high] && steps[..|steps|] == steps;
      if Lowest(steps) != Lowest(init) { low := |steps|; }
      if Highest(steps) != Highest(init) { high := |steps|; }
    }
  }

  /** The images of the two extremes, while the steps have not spanned the
      range; afterwards they coincide. */
  lemma {:induction false} ExtremesWalk(steps: seq<int>, bound: int)
    requires 0 <= bound
    ensures Span(steps) <= 2 * bound ==>
              && Walk(-bound, steps, bound) == -bound + Sum(steps) - Lowest(steps)
              && Walk(bound, steps, bound) == bound + Sum(steps) - Highest(steps)
    ensures Span(steps) >= 2 * bound ==> Walk(-bound, steps, bound) == Walk(bound, steps, bound)
  {
    if steps != [] {
      var init := steps[..|steps| - 1];
      ExtremesWalk(init, bound);
      SumBetween(init);
    }
  }

  lemma {:induction false} WalkClamps(w: int, steps: seq<int>, bound: int)
    requires 0 <= bound && -bound <= w <= bound
    ensures Walk(-bound, steps, bound) <= Walk(bound, steps, bound)
    ensures Walk(w, steps, bound) == Clamp(w + Sum(steps), Walk(-bound, steps, bound), Walk(bound, steps, bound))
  {
    if steps != [] { WalkClamps(w, steps[..|steps| - 1], bound); }
  }

  /** Composing clipped steps is one clamped shift: every start is moved by the
      unclipped sum and clamped between the images of the two extremes, whose
      distance is what the span of the steps leaves of 2 * bound. */
  lemma WalkIsClampedShift(w: int, steps: seq<int>, bound: int)
    requires 0 <= bound && -bound <= w <= bound
    ensures var lo, hi := Walk(-bound, steps, bound), Walk(bound, steps, bound);
            && lo <= hi
            && hi - lo == Max(0, 2 * bound - Span(steps))
            && Walk(w, steps, bound) == Clamp(w + Sum(steps), lo, hi)
  {
    ExtremesWalk(steps, bound);
    WalkClamps(w, steps, bound);
  }

  /** Two walks driven by the same steps have merged exactly when the steps
      have spanned the whole range, or the lower walk has been pushed to the
      top, or the upper walk to the bottom. */
  lemma MergeCriterion(u: int, v: int, steps: seq<int>, bound: int)
    requires 0 <= bound
    requires -bound <= u < v <= bound
    ensures Walk(u, steps, bound) == Walk(v, steps, bound) <==>
            Span(steps) >= 2 * bound || u + Highest(steps) >= bound || v + Lowest(steps) <= -bound
  {
    ExtremesWalk(steps, bound);
    SumBetween(steps);
    WalkClamps(u, steps, bound);
    WalkClamps(v, steps, bound);
  }

  /** The extremes are the last to merge: they meet exactly when the steps have
      spanned 2 * bound, and from then on every start has met. */
  lemma ExtremesMergeLast(steps: seq<int>, bound: int)
    requires 0 <= bound
    ensures Walk(-bound, steps, bound) == Walk(bound, steps, bound) <==> Span(steps) >= 2 * bound
    ensures Span(steps) >= 2 * bound <==>
            forall u, v :: -bound <= u <= bound && -bound <= v <= bound ==>
              Walk(u, steps, bound) == Walk(v, steps, bound)
  {
    WalkIsClampedShift(bound, steps, bound);
    forall u, v | -bound <= u <= bound && -bound <= v <= bound && Span(steps) >= 2 * bound
      ensures Walk(u, steps, bound) == Walk(v, steps, bound)
    {
      WalkClamps(u, steps, bound);
      WalkClamps(v, steps, bound);
    }
    assert -bound <= -bound <= bound && -bound <= bound <= bound;
  }

  /** Walks driven by the same steps never cross and never drift apart. */
  lemma {:induction false} WalkGapShrinks(u: int, v: int, steps: seq<int>, bound: int)
    requires 0 <= bound
    requires -bound <= u <= v <= bound
    ensures 0 <= Walk(v, steps, bound) - Walk(u, steps, bound) <= v - u
  {
    if steps != [] { WalkGapShrinks(u, v, steps[..|steps| - 1], bound); }
  }
}
