/** ai/feature_extractor.py: the sliding window of observed frames, the
    features summarised from it, and how often they are emitted. */
module FeatureWindow {
  import opened Basics
  import opened Framing

  datatype FrameRecord = FrameRecord(timestamp: real, kind: int, size: int, direction: string,
                                     decryptSuccess: Option<bool>, payloadHash: Option<bytes>)

  datatype Features = Features(meanGapMs: real, varianceGapMs: real, meanSize: real, varianceSize: real,
                               failureRate: real, duplicates: nat, frameRate: real,
                               chatFraction: real, fileFraction: real, controlFraction: real)

  // ------------------------------------------------------------------ sums

  function Sum(xs: seq<real>): real {
    if xs == [] then 0.0 else Sum(xs[..|xs| - 1]) + xs[|xs| - 1]
  }

  function Mean(xs: seq<real>): real
    requires xs != []
  {
    Sum(xs) / |xs| as real
  }

  lemma PositiveProduct(x: real, y: real, product: real)
    requires x * y == product && x > 0.0 && y > 0.0
    ensures product > 0.0
  {
    assert 0.0 < x * y;
  }

  /** y * y, taken on its magnitude. */
  function Square(y: real): (r: real)
    ensures if y == 0.0 then r == 0.0 else r > 0.0
  {
    var z := if y < 0.0 then -y else y;
    if z == 0.0 then 0.0
    else
      PositiveProduct(z, z, z * z);
      z * z
  }

  function SquaredDeviations(xs: seq<real>, m: real): (r: seq<real>)
    ensures |r| == |xs|
  {
    seq(|xs|, i requires 0 <= i < |xs| => Square(xs[i] - m))
  }

  /** The square of the population standard deviation. */
  function Variance(xs: seq<real>): real
    requires xs != []
  {
    Mean(SquaredDeviations(xs, Mean(xs)))
  }

  lemma {:induction false} SumOfNonNegatives(xs: seq<real>)
    requires forall i :: 0 <= i < |xs| ==> xs[i] >= 0.0
    ensures Sum(xs) >= 0.0
    ensures Sum(xs) == 0.0 <==> forall i :: 0 <= i < |xs| ==> xs[i] == 0.0
  {
    if xs != [] { SumOfNonNegatives(xs[..|xs| - 1]); }
  }

  lemma {:induction false} SumOfEquals(xs: seq<real>, x: real)
    requires forall i :: 0 <= i < |xs| ==> xs[i] == x
    ensures Sum(xs) == |xs| as real * x
  {
    if xs != [] { SumOfEquals(xs[..|xs| - 1], x); }
  }

  lemma QuotientSign(x: real, n: real)
    requires x >= 0.0 && n > 0.0
    ensures x / n >= 0.0 && (x / n == 0.0 <==> x == 0.0)
  {
    assert (x / n) * n == x;
  }

  lemma MeanOfEquals(xs: seq<real>, x: real)
    requires xs != [] && forall i :: 0 <= i < |xs| ==> xs[i] == x
    ensures Mean(xs) == x
  {
    SumOfEquals(xs, x);
  }

  /** The spread is zero exactly when all observations agree. */
  lemma VarianceMeaning(xs: seq<real>)
    requires xs != []
    ensures Variance(xs) >= 0.0
    ensures Variance(xs) == 0.0 <==> forall i :: 0 <= i < |xs| ==> xs[i] == xs[0]
  {
    hide Mean, Sum, Square;
    var m := Mean(xs);
    var squares := SquaredDeviations(xs, m);
    assert forall i :: 0 <= i < |xs| ==> squares[i] >= 0.0 && (squares[i] == 0.0 <==> xs[i] == m);
    SumOfNonNegatives(squares);
    MeanSign(squares);
    if forall i :: 0 <= i < |xs| ==> xs[i] == xs[0] { MeanOfEquals(xs, xs[0]); }
    if forall i :: 0 <= i < |xs| ==> squares[i] == 0.0 { assert xs[0] == m; }
  }

  lemma MeanSign(xs: seq<real>)
    requires xs != [] && Sum(xs) >= 0.0
    ensures Mean(xs) >= 0.0 && (Mean(xs) == 0.0 <==> Sum(xs) == 0.0)
  {
    QuotientSign(Sum(xs), |xs| as real);
  }

  // -------------------------------------------- means and spreads, exactly

  /** Sum of the squared distances of all ys from x. */
  function SquaresFrom(x: real, ys: seq<real>): real {
    if ys == [] then 0.0 else SquaresFrom(x, ys[..|ys| - 1]) + Square(x - ys[|ys| - 1])
  }

  /** Sum of the squared differences over all pairs of an x and a y. */
  function PairSquares(xs: seq<real>, ys: seq<real>): real {
    if xs == [] then 0.0 else PairSquares(xs[..|xs| - 1], ys) + SquaresFrom(xs[|xs| - 1], ys)
  }

  lemma SquareIsProduct(y: real)
    ensures Square(y) == y * y
  {
  }

  lemma SquareOfDifference(x: real, y: real)
    ensures Square(x - y) == Square(x) - 2.0 * (x * y) + Square(0.0 - y)
    ensures Square(x - y) == Square(y - x)
  {
    hide Square;
    SquareIsProduct(x);
    SquareIsProduct(0.0 - y);
    SquareIsProduct(x - y);
    SquareIsProduct(y - x);
  }

  /** One more y, in the expanded form. */
  lemma OneMoreTerm(n: real, q: real, x: real, sum: real, y: real)
    ensures (n + 1.0) * q - 2.0 * (x * (sum + y)) == (n * q - 2.0 * (x * sum)) + (q - 2.0 * (x * y))
  {
  }

  lemma {:induction false} SquaresFromExpanded(x: real, ys: seq<real>)
    ensures SquaresFrom(x, ys) == |ys| as real * Square(x) - 2.0 * (x * Sum(ys)) + SquaresFrom(0.0, ys)
  {
    hide Square;
    if ys != [] {
      var init, y := ys[..|ys| - 1], ys[|ys| - 1];
      SquaresFromExpanded(x, init);
      SquareOfDifference(x, y);
      OneMoreTerm(|init| as real, Square(x), x, Sum(init), y);
      assert |ys| as real == |init| as real + 1.0;
    }
  }

  lemma OneMoreRow(n: real, q: real, squares: real, x: real, sum: real, rest: real, t: real)
    ensures (n * squares - 2.0 * (sum * t) + rest) + (n * q - 2.0 * (x * t)) ==
            n * (squares + q) - 2.0 * ((sum + x) * t) + rest
  {
  }

  lemma {:induction false} PairSquaresExpanded(xs: seq<real>, ys: seq<real>)
    ensures PairSquares(xs, ys) ==
            |ys| as real * SquaresFrom(0.0, xs) - 2.0 * (Sum(xs) * Sum(ys)) + |xs| as real * SquaresFrom(0.0, ys)
  {
    hide Square;
    if xs != [] {
      var init, x := xs[..|xs| - 1], xs[|xs| - 1];
      PairSquaresExpanded(init, ys);
      SquaresFromExpanded(x, ys);
      SquareOfDifference(0.0, x);
      var q0 := SquaresFrom(0.0, ys);
      OneMoreRow(|ys| as real, Square(x), SquaresFrom(0.0, init), x, Sum(init), |init| as real * q0, Sum(ys));
      assert |xs| as real * q0 == |init| as real * q0 + q0;
    }
  }

  lemma {:induction false} DeviationsAreSquaresFrom(xs: seq<real>, m: real)
    ensures Sum(SquaredDeviations(xs, m)) == SquaresFrom(m, xs)
  {
    hide Square;
    if xs != [] {
      var init := xs[..|xs| - 1];
      DeviationsAreSquaresFrom(init, m);
      SquareOfDifference(xs[|xs| - 1], m);
      assert SquaredDeviations(xs, m)[..|init|] == SquaredDeviations(init, m);
    }
  }

  lemma SpreadArithmetic(n: real, sum: real, squares: real, m: real, v: real)
    requires n > 0.0 && n * m == sum && n * v == n * (m * m) - 2.0 * (m * sum) + squares
    ensures n * (n * v) == n * squares - sum * sum
  {
    assert n * (m * m) == m * sum;
    assert n * v == squares - m * sum;
    assert n * (n * v) == n * squares - n * (m * sum);
    assert n * (m * sum) == (n * m) * sum;
  }

  /** The spread without the mean: the squared differences over all ordered
      pairs sum to twice the squared number of observations times it. */
  lemma SpreadIsOverPairs(xs: seq<real>)
    requires xs != []
    ensures 2.0 * (|xs| as real * (|xs| as real * Variance(xs))) == PairSquares(xs, xs)
    ensures |xs| as real * Mean(xs) == Sum(xs)
  {
    hide Square, SquaresFrom, PairSquares, Sum;
    var n, m, v := |xs| as real, Mean(xs), Variance(xs);
    DeviationsAreSquaresFrom(xs, m);
    SquaresFromExpanded(m, xs);
    PairSquaresExpanded(xs, xs);
    SquareIsProduct(m);
    MeanTimesCount(xs);
    MeanTimesCount(SquaredDeviations(xs, m));
    SpreadArithmetic(n, Sum(xs), SquaresFrom(0.0, xs), m, v);
  }

  lemma MeanTimesCount(xs: seq<real>)
    requires xs != []
    ensures |xs| as real * Mean(xs) == Sum(xs)
  {
    hide Sum;
  }

  /** A mean has an observation on either side. */
  lemma {:induction false} SumIsBracketed(xs: seq<real>, m: real)
    ensures (forall i :: 0 <= i < |xs| ==> xs[i] > m) && xs != [] ==> Sum(xs) > |xs| as real * m
    ensures (forall i :: 0 <= i < |xs| ==> xs[i] < m) && xs != [] ==> Sum(xs) < |xs| as real * m
  {
    if xs != [] {
      SumIsBracketed(xs[..|xs| - 1], m);
      assert |xs| as real * m == (|xs| - 1) as real * m + m;
    }
  }

  lemma MeanIsBracketed(xs: seq<real>)
    requires xs != []
    ensures exists i :: 0 <= i < |xs| && xs[i] <= Mean(xs)
    ensures exists i :: 0 <= i < |xs| && xs[i] >= Mean(xs)
  {
    hide Sum;
    MeanTimesCount(xs);
    SumIsBracketed(xs, Mean(xs));
  }

  // --------------------------------------------------------------- cadence

  function Timestamps(w: seq<FrameRecord>): (ts: seq<real>)
    ensures |ts| == |w| && forall i :: 0 <= i < |w| ==> ts[i] == w[i].timestamp
  {
    seq(|w|, i requires 0 <= i < |w| => w[i].timestamp)
  }

  /** Gaps between neighbours, in milliseconds. */
  function Gaps(ts: seq<real>): (r: seq<real>)
    ensures |r| == if ts == [] then 0 else |ts| - 1
    ensures forall i :: 0 <= i < |r| ==> r[i] == (ts[i + 1] - ts[i]) * 1000.0
  {
    if |ts| < 2 then [] else Gaps(ts[..|ts| - 1]) + [(ts[|ts| - 1] - ts[|ts| - 2]) * 1000.0]
  }

  lemma {:induction false} GapsTelescope(ts: seq<real>)
    requires ts != []
    ensures Sum(Gaps(ts)) == (ts[|ts| - 1] - ts[0]) * 1000.0
  {
    if |ts| >= 2 {
      GapsTelescope(ts[..|ts| - 1]);
      assert Gaps(ts)[..|ts| - 2] == Gaps(ts[..|ts| - 1]);
    }
  }

  /** `max(last - first, 1e-6)`. */
  function SpanSeconds(ts: seq<real>): (s: real)
    requires |ts| >= 2
    ensures s >= 0.000001
  {
    var d := ts[|ts| - 1] - ts[0];
    if d < 0.000001 then 0.000001 else d
  }

  // ------------------------------------------------------------ duplicates

  function Hashes(w: seq<FrameRecord>): seq<bytes> {
    if w == [] then []
    else
      var last := w[|w| - 1].payloadHash;
      Hashes(w[..|w| - 1]) + if last.Some? then [last.value] else []
  }

  /** A counter keeps its keys in order of first appearance. */
  type Counter = seq<(bytes, nat)>

  predicate HasKey(c: Counter, h: bytes) { exists i :: 0 <= i < |c| && c[i].0 == h }

  function Bump(c: Counter, h: bytes): (r: Counter)
    ensures |r| == if HasKey(c, h) then |c| else |c| + 1
  {
    if c == [] then [(h, 1)]
    else if c[0].0 == h then [(h, c[0].1 + 1)] + c[1..]
    else
      assert HasKey(c, h) == HasKey(c[1..], h) by { KeyInTail(c, h); }
      [c[0]] + Bump(c[1..], h)
  }

  lemma KeyInTail(c: Counter, h: bytes)
    requires c != [] && c[0].0 != h
    ensures HasKey(c, h) <==> HasKey(c[1..], h)
  {
    if HasKey(c, h) {
      var i :| 0 <= i < |c| && c[i].0 == h;
      assert c[1..][i - 1].0 == h;
    }
  }

  function Tally(hs: seq<bytes>): Counter {
    if hs == [] then [] else Bump(Tally(hs[..|hs| - 1]), hs[|hs| - 1])
  }

  /** `sum(c - 1 for c in counts.values() if c > 1)`. */
  function Excess(c: Counter): nat {
    if c == [] then 0 else (if c[0].1 > 1 then c[0].1 - 1 else 0) + Excess(c[1..])
  }

  /** Positions whose hash has occurred earlier. */
  function Repeats(hs: seq<bytes>): nat {
    if hs == [] then 0
    else Repeats(hs[..|hs| - 1]) + if hs[|hs| - 1] in hs[..|hs| - 1] then 1 else 0
  }

  predicate Counted(c: Counter) { forall i :: 0 <= i < |c| ==> c[i].1 >= 1 }

  lemma {:induction false} BumpCounts(c: Counter, h: bytes)
    requires Counted(c)
    ensures Counted(Bump(c, h))
    ensures Excess(Bump(c, h)) == Excess(c) + if HasKey(c, h) then 1 else 0
    ensures forall k :: HasKey(Bump(c, h), k) <==> HasKey(c, k) || k == h
  {
    if c == [] {
      assert HasKey([(h, 1)], h) by { assert [(h, 1)][0].0 == h; }
      assert Bump(c, h)[1..] == [];
    } else if c[0].0 == h {
      assert Bump(c, h)[1..] == c[1..];
      forall k
        ensures HasKey(Bump(c, h), k) <==> HasKey(c, k) || k == h
      {
        if k == h { assert Bump(c, h)[0].0 == h; } else { KeyInTail(c, k); KeyInTail(Bump(c, h), k); }
      }
    } else {
      BumpCounts(c[1..], h);
      KeyInTail(c, h);
      assert Bump(c, h)[1..] == Bump(c[1..], h);
      forall k
        ensures HasKey(Bump(c, h), k) <==> HasKey(c, k) || k == h
      {
        if k == c[0].0 {
          assert Bump(c, h)[0].0 == k;
        } else {
          KeyInTail(c, k);
          KeyInTail(Bump(c, h), k);
        }
      }
    }
  }

  /** The duplicate count taken from the counter is the number of frames whose
      hash occurred earlier in the window, which is the number of hashed
      frames less the number of distinct hashes. */
  lemma {:induction false} DuplicatesThreeWays(hs: seq<bytes>)
    ensures Excess(Tally(hs)) == Repeats(hs)
    ensures |hs| == Repeats(hs) + |Distinct(hs)|
    ensures Counted(Tally(hs)) && forall h :: HasKey(Tally(hs), h) <==> h in hs
  {
    hide Bump, Excess, HasKey;
    if hs == [] {
      NoExcess();
    } else {
      var init, last := hs[..|hs| - 1], hs[|hs| - 1];
      DuplicatesThreeWays(init);
      BumpCounts(Tally(init), last);
      OneMoreHash(init, last);
      assert hs == init + [last];
    }
  }

  lemma OneMoreHash(init: seq<bytes>, last: bytes)
    ensures |Distinct(init + [last])| == |Distinct(init)| + if last in init then 0 else 1
  {
    if last in init {
      assert Distinct(init + [last]) == Distinct(init);
    } else {
      assert Distinct(init + [last]) == Distinct(init) + {last};
    }
  }

  function Distinct(hs: seq<bytes>): set<bytes> { set h | h in hs }

  lemma NoExcess()
    ensures Excess([]) == 0 && forall h :: !HasKey([], h)
  {
  }

  // ----------------------------------------------------------- composition

  /** `sum(1 for k in kinds if k in group)`. */
  function CountIn(w: seq<FrameRecord>, group: set<int>): (n: nat)
    ensures n <= |w|
  {
    if w == [] then 0 else CountIn(w[..|w| - 1], group) + if w[|w| - 1].kind in group then 1 else 0
  }

  const CHAT_KINDS: set<int> := {KIND_CHAT}
  const FILE_KINDS: set<int> := {KIND_FILE_CHUNK, KIND_FILE_META}
  const CONTROL_KINDS: set<int> := {KIND_CONTROL}

  /** Frames on which authentication was tried, and those on which it failed. */
  function Tried(w: seq<FrameRecord>): (n: nat)
    ensures n <= |w|
  {
    if w == [] then 0 else Tried(w[..|w| - 1]) + if w[|w| - 1].decryptSuccess.Some? then 1 else 0
  }

  function Failed(w: seq<FrameRecord>): (n: nat)
    ensures n <= Tried(w)
  {
    if w == [] then 0 else Failed(w[..|w| - 1]) + if w[|w| - 1].decryptSuccess == Some(false) then 1 else 0
  }

  function Sizes(w: seq<FrameRecord>): (r: seq<real>)
    ensures |r| == |w| && forall i :: 0 <= i < |w| ==> r[i] == w[i].size as real
  {
    seq(|w|, i requires 0 <= i < |w| => w[i].size as real)
  }

  const NO_FEATURES := Features(0.0, 0.0, 0.0, 0.0, 0.0, 0, 0.0, 0.0, 0.0, 0.0)

  /** `extract_features` on a snapshot, with variances for standard deviations. */
  function Summary(w: seq<FrameRecord>): Features {
    if w == [] then NO_FEATURES
    else
      var ts, sizes, n := Timestamps(w), Sizes(w), |w| as real;
      Features(
        if |w| >= 2 then Mean(Gaps(ts)) else 0.0,
        if |w| >= 3 then Variance(Gaps(ts)) else 0.0,
        Mean(sizes),
        if |w| >= 2 then Variance(sizes) else 0.0,
        if Tried(w) > 0 then Failed(w) as real / Tried(w) as real else 0.0,
        Excess(Tally(Hashes(w))),
        if |w| >= 2 then n / SpanSeconds(ts) else 0.0,
        CountIn(w, CHAT_KINDS) as real / n,
        CountIn(w, FILE_KINDS) as real / n,
        CountIn(w, CONTROL_KINDS) as real / n)
  }

  /** The reported mean and spread of the sizes: the mean times the count is
      the total, with a frame of at most and one of at least that size; the
      spread is that of all pairs, 0 for a single frame. */
  lemma SizesMeaning(w: seq<FrameRecord>)
    requires w != []
    ensures var f, n, sizes := Summary(w), |w| as real, Sizes(w);
            && f.meanSize * n == Sum(sizes)
            && (exists i :: 0 <= i < |w| && w[i].size as real <= f.meanSize)
            && (exists i :: 0 <= i < |w| && w[i].size as real >= f.meanSize)
            && 2.0 * (n * (n * f.varianceSize)) == PairSquares(sizes, sizes)
            && (|w| == 1 ==> f.varianceSize == 0.0)
  {
    hide Summary, Sum, PairSquares, Square, Mean, Variance;
    var sizes := Sizes(w);
    SizeFields(w);
    SpreadIsOverPairs(sizes);
    MeanIsBracketed(sizes);
    if |w| == 1 { NoSpread(sizes); }
  }

  lemma SizeFields(w: seq<FrameRecord>)
    requires w != []
    ensures Summary(w).meanSize == Mean(Sizes(w))
    ensures Summary(w).varianceSize == if |w| >= 2 then Variance(Sizes(w)) else 0.0
  {
    hide Sum, Gaps, Excess, Tally, Hashes, CountIn, Tried, Failed, Mean, Variance;
  }

  lemma EmptyWindow()
    ensures Summary([]) == Features(0.0, 0.0, 0.0, 0.0, 0.0, 0, 0.0, 0.0, 0.0, 0.0)
  {
  }

  lemma NoSpread(xs: seq<real>)
    requires |xs| == 1
    ensures PairSquares(xs, xs) == 0.0
  {
    assert xs[..0] == [];
    assert SquaresFrom(xs[0], xs) == Square(0.0);
  }

  /** The reported cadence: mean gap, spread of the gaps over all their pairs,
      and rate, each 0 where the window is too short for it. */
  lemma CadenceMeaning(w: seq<FrameRecord>)
    ensures |w| < 2 ==> Summary(w).meanGapMs == 0.0 && Summary(w).frameRate == 0.0
    ensures |w| < 3 ==> Summary(w).varianceGapMs == 0.0
    ensures |w| >= 2 ==>
              var f, m, d := Summary(w), |w| as real - 1.0, w[|w| - 1].timestamp - w[0].timestamp;
              var gaps := Gaps(Timestamps(w));
              && f.meanGapMs * m == d * 1000.0
              && 2.0 * (m * (m * f.varianceGapMs)) == PairSquares(gaps, gaps)
              && f.frameRate * (if d < 0.000001 then 0.000001 else d) == |w| as real
  {
    hide Sum, Gaps, Excess, Tally, Hashes, CountIn, Tried, Failed, PairSquares, Square, Sizes;
    if |w| >= 2 {
      CadenceOf(w);
      var gaps := Gaps(Timestamps(w));
      SpreadIsOverPairs(gaps);
      if |w| == 2 { NoSpread(gaps); }
    }
  }

  lemma RateTimesGap(n: real, d: real, span: real)
    requires n >= 2.0 && span == (if d < 0.000001 then 0.000001 else d)
    ensures (n / span) * (d * 1000.0 / (n - 1.0)) * (n - 1.0) == 1000.0 * n <==> d >= 0.000001
  {
    var gap := d * 1000.0 / (n - 1.0);
    assert gap * (n - 1.0) == d * 1000.0;
    var rate := n / span;
    assert rate * span == n;
    calc {
      rate * gap * (n - 1.0);
      rate * (gap * (n - 1.0));
      rate * (d * 1000.0);
      1000.0 * (rate * d);
    }
    if d >= 0.000001 {
    } else {
      assert rate * (span - d) > 0.0;
    }
  }

  /** The reported rate and the reported mean gap agree with each other, on
      every window of at least two frames, exactly when the window spans at
      least a microsecond. */
  lemma RateAgreesWithGap(w: seq<FrameRecord>)
    requires |w| >= 2
    ensures var f := Summary(w);
            f.frameRate * f.meanGapMs * (|w| - 1) as real == 1000.0 * |w| as real
            <==> w[|w| - 1].timestamp - w[0].timestamp >= 0.000001
  {
    hide Summary;
    CadenceOf(w);
    var d := w[|w| - 1].timestamp - w[0].timestamp;
    RateTimesGap(|w| as real, d, if d < 0.000001 then 0.000001 else d);
  }

  lemma CadenceOf(w: seq<FrameRecord>)
    requires |w| >= 2
    ensures var d := w[|w| - 1].timestamp - w[0].timestamp;
            && Summary(w).frameRate == |w| as real / (if d < 0.000001 then 0.000001 else d)
            && Summary(w).meanGapMs == d * 1000.0 / (|w| as real - 1.0)
  {
    hide Sum, Gaps, Variance, Excess, Tally, Hashes, CountIn, Tried, Failed;
    GapsTelescope(Timestamps(w));
  }

  lemma {:induction false} DisjointGroups(w: seq<FrameRecord>)
    ensures CountIn(w, CHAT_KINDS) + CountIn(w, FILE_KINDS) + CountIn(w, CONTROL_KINDS) ==
            CountIn(w, CHAT_KINDS + FILE_KINDS + CONTROL_KINDS)
  {
    if w != [] { DisjointGroups(w[..|w| - 1]); }
  }

  lemma {:induction false} CountsAll(w: seq<FrameRecord>, group: set<int>)
    ensures CountIn(w, group) == |w| <==> forall i :: 0 <= i < |w| ==> w[i].kind in group
  {
    if w != [] { CountsAll(w[..|w| - 1], group); }
  }

  lemma {:induction false} CountsNone(w: seq<FrameRecord>, group: set<int>)
    ensures CountIn(w, group) == 0 <==> forall i :: 0 <= i < |w| ==> w[i].kind !in group
  {
    if w != [] { CountsNone(w[..|w| - 1], group); }
  }

  lemma Ratio(part: nat, whole: nat)
    requires part <= whole && whole > 0
    ensures var r := part as real / whole as real;
            0.0 <= r <= 1.0 && (r == 0.0 <==> part == 0) && (r == 1.0 <==> part == whole)
  {
    var r := part as real / whole as real;
    assert r * whole as real == part as real;
  }

  /** Each composition fraction is 1 exactly when the whole window is of its
      kind, and 0 exactly when nothing in the window is. */
  lemma EachFraction(w: seq<FrameRecord>)
    requires w != []
    ensures var f := Summary(w);
            && (f.chatFraction == 1.0 <==> forall i :: 0 <= i < |w| ==> w[i].kind in CHAT_KINDS)
            && (f.chatFraction == 0.0 <==> forall i :: 0 <= i < |w| ==> w[i].kind !in CHAT_KINDS)
            && (f.fileFraction == 1.0 <==> forall i :: 0 <= i < |w| ==> w[i].kind in FILE_KINDS)
            && (f.fileFraction == 0.0 <==> forall i :: 0 <= i < |w| ==> w[i].kind !in FILE_KINDS)
            && (f.controlFraction == 1.0 <==> forall i :: 0 <= i < |w| ==> w[i].kind in CONTROL_KINDS)
            && (f.controlFraction == 0.0 <==> forall i :: 0 <= i < |w| ==> w[i].kind !in CONTROL_KINDS)
  {
    hide Sum, Gaps, Variance, Mean, Excess, Tally, Hashes, CountIn, Tried, Failed;
    GroupCounts(w, CHAT_KINDS);
    GroupCounts(w, FILE_KINDS);
    GroupCounts(w, CONTROL_KINDS);
  }

  lemma GroupCounts(w: seq<FrameRecord>, group: set<int>)
    requires w != []
    ensures var r := CountIn(w, group) as real / |w| as real;
            && (r == 1.0 <==> forall i :: 0 <= i < |w| ==> w[i].kind in group)
            && (r == 0.0 <==> forall i :: 0 <= i < |w| ==> w[i].kind !in group)
  {
    hide CountIn;
    CountsAll(w, group);
    CountsNone(w, group);
    Ratio(CountIn(w, group), |w|);
  }

  /** Frames nobody tried to open have no part in the failure rate, which is 0
      exactly when no attempt failed and 1 exactly when some did and all did. */
  lemma FailureRateMeaning(w: seq<FrameRecord>)
    ensures var r := Summary(w).failureRate;
            && 0.0 <= r <= 1.0
            && (r == 0.0 <==> forall i :: 0 <= i < |w| ==> w[i].decryptSuccess != Some(false))
            && (r == 1.0 <==> (exists i :: 0 <= i < |w| && w[i].decryptSuccess == Some(false)) &&
                              forall i :: 0 <= i < |w| ==> w[i].decryptSuccess != Some(true))
  {
    hide Sum, Gaps, Variance, Mean, Excess, Tally, Hashes, CountIn, Tried, Failed;
    FailureCounts(w);
    if w != [] && Tried(w) > 0 { Ratio(Failed(w), Tried(w)); }
  }

  /** The frames that carry a decryption result: outbound ones carry none. */
  function Attempts(w: seq<FrameRecord>): seq<FrameRecord> {
    if w == [] then []
    else
      var last := w[|w| - 1];
      Attempts(w[..|w| - 1]) + if last.decryptSuccess.Some? then [last] else []
  }

  lemma {:induction false} AttemptsCount(w: seq<FrameRecord>)
    ensures Tried(Attempts(w)) == Tried(w) == |Attempts(w)| && Failed(Attempts(w)) == Failed(w)
  {
    if w == [] {
      NoAttempts();
    } else {
      var init, last := w[..|w| - 1], w[|w| - 1];
      AttemptsCount(init);
      assert w == init + [last];
      assert Attempts(w) == if last.decryptSuccess.Some? then Attempts(init) + [last] else Attempts(init);
      hide Attempts, Tried, Failed;
      TriedSnoc(init, last);
      TriedSnoc(Attempts(init), last);
    }
  }

  lemma TriedSnoc(w: seq<FrameRecord>, rec: FrameRecord)
    ensures Tried(w + [rec]) == Tried(w) + if rec.decryptSuccess.Some? then 1 else 0
    ensures Failed(w + [rec]) == Failed(w) + if rec.decryptSuccess == Some(false) then 1 else 0
  {
    assert (w + [rec])[..|w|] == w;
  }

  /** Dropping every frame without a decryption result leaves the rate alone. */
  lemma OnlyAttemptsMatter(w: seq<FrameRecord>)
    ensures Summary(Attempts(w)).failureRate == Summary(w).failureRate
  {
    hide Sum, Gaps, Variance, Mean, Excess, Tally, Hashes, CountIn, Tried, Failed, Attempts;
    AttemptsCount(w);
    if w == [] { NoAttempts(); }
  }

  lemma NoAttempts()
    ensures Attempts([]) == []
  {
  }

  lemma {:induction false} FailureCounts(w: seq<FrameRecord>)
    ensures Failed(w) == 0 <==> forall i :: 0 <= i < |w| ==> w[i].decryptSuccess != Some(false)
    ensures Failed(w) == Tried(w) <==> forall i :: 0 <= i < |w| ==> w[i].decryptSuccess != Some(true)
    ensures w == [] ==> Tried(w) == 0
  {
    if w != [] {
      var init, last := w[..|w| - 1], w[|w| - 1].decryptSuccess;
      FailureCounts(init);
      assert forall i :: 0 <= i < |init| ==> init[i] == w[i];
      match last
      case None =>
      case Some(ok) => assert Tried(w) == Tried(init) + 1 && Failed(w) == Failed(init) + if ok then 0 else 1;
    }
  }

  /** The reported duplicate count is the number of hashed frames less the
      number of distinct hashes among them. */
  lemma ReportedDuplicates(w: seq<FrameRecord>)
    ensures Summary(w).duplicates == |Hashes(w)| - |Distinct(Hashes(w))|
  {
    hide Sum, Gaps, Variance, Mean, Excess, Tally, CountIn, Tried, Failed;
    DuplicatesThreeWays(Hashes(w));
    if w == [] {
      assert Hashes(w) == [] && Distinct([]) == {};
    }
  }

  // --------------------------------------------------- counted by position

  function KindPlaces(w: seq<FrameRecord>, group: set<int>): set<nat> {
    set i: nat | i < |w| && w[i].kind in group
  }

  lemma {:induction false} CountInPlaces(w: seq<FrameRecord>, group: set<int>)
    ensures CountIn(w, group) == |KindPlaces(w, group)|
  {
    if w != [] {
      var init := w[..|w| - 1];
      CountInPlaces(init, group);
      assert KindPlaces(w, group) ==
             KindPlaces(init, group) + if w[|init|].kind in group then {|init|} else {};
    }
  }

  function TriedPlaces(w: seq<FrameRecord>): set<nat> { set i: nat | i < |w| && w[i].decryptSuccess.Some? }

  function FailedPlaces(w: seq<FrameRecord>): set<nat> { set i: nat | i < |w| && w[i].decryptSuccess == Some(false) }

  lemma {:induction false} TriedInPlaces(w: seq<FrameRecord>)
    ensures Tried(w) == |TriedPlaces(w)|
  {
    if w != [] {
      var init := w[..|w| - 1];
      TriedInPlaces(init);
      assert TriedPlaces(w) == TriedPlaces(init) + if w[|init|].decryptSuccess.Some? then {|init|} else {};
    }
  }

  lemma {:induction false} FailedInPlaces(w: seq<FrameRecord>)
    ensures Failed(w) == |FailedPlaces(w)|
  {
    hide Tried;
    if w != [] {
      var init := w[..|w| - 1];
      FailedInPlaces(init);
      assert FailedPlaces(w) == FailedPlaces(init) + if w[|init|].decryptSuccess == Some(false) then {|init|} else {};
    }
  }

  /** Frames whose hash an earlier frame of the window had. */
  function RepeatPlaces(w: seq<FrameRecord>): set<nat> { set i: nat | i < |w| && IsRepeat(w, i) }

  predicate IsRepeat(w: seq<FrameRecord>, i: nat)
    requires i < |w|
  {
    w[i].payloadHash.Some? && exists j :: 0 <= j < i && w[j].payloadHash == w[i].payloadHash
  }

  lemma {:induction false} HashesHold(w: seq<FrameRecord>, h: bytes)
    ensures h in Hashes(w) <==> exists j :: 0 <= j < |w| && w[j].payloadHash == Some(h)
  {
    if w != [] {
      var init := w[..|w| - 1];
      HashesHold(init, h);
      assert forall j :: 0 <= j < |init| ==> init[j] == w[j];
    }
  }

  lemma RepeatsSnoc(hs: seq<bytes>, h: bytes)
    ensures Repeats(hs + [h]) == Repeats(hs) + if h in hs then 1 else 0
  {
    assert (hs + [h])[..|hs|] == hs;
  }

  lemma RepeatStays(init: seq<FrameRecord>, rec: FrameRecord, i: nat)
    requires i < |init|
    ensures IsRepeat(init + [rec], i) <==> IsRepeat(init, i)
  {
    assert forall j :: 0 <= j <= i ==> (init + [rec])[j] == init[j];
  }

  lemma RepeatPlacesSnoc(init: seq<FrameRecord>, rec: FrameRecord)
    ensures var more := init + [rec];
            |RepeatPlaces(more)| == |RepeatPlaces(init)| + if IsRepeat(more, |init|) then 1 else 0
  {
    var more, n := init + [rec], |init|;
    hide IsRepeat;
    forall i: nat | i < n
      ensures IsRepeat(more, i) <==> IsRepeat(init, i)
    {
      RepeatStays(init, rec, i);
    }
    assert RepeatPlaces(more) == RepeatPlaces(init) + if IsRepeat(more, n) then {n} else {};
    assert n !in RepeatPlaces(init);
  }

  lemma {:induction false} RepeatsInPlaces(w: seq<FrameRecord>)
    ensures Repeats(Hashes(w)) == |RepeatPlaces(w)|
  {
    hide Repeats, RepeatPlaces;
    if w == [] {
      NothingRepeats();
    } else {
      var init, last := w[..|w| - 1], w[|w| - 1].payloadHash;
      RepeatsInPlaces(init);
      RepeatPlacesSnoc(init, w[|w| - 1]);
      assert w == init + [w[|w| - 1]];
      if last.Some? {
        HashesHold(init, last.value);
        RepeatsSnoc(Hashes(init), last.value);
        assert forall j :: 0 <= j < |init| ==> init[j] == w[j];
      } else {
        assert Hashes(w) == Hashes(init);
      }
    }
  }

  lemma NothingRepeats()
    ensures Repeats(Hashes([])) == |RepeatPlaces([])|
  {
    assert RepeatPlaces([]) == {};
  }

  /** The share of the whole is the part; of nothing, nothing. */
  predicate IsPart(share: real, part: nat, whole: nat) {
    share * whole as real == part as real && (whole == 0 ==> share == 0.0)
  }

  /** What the reported shares, failure rate and duplicates are of: frames of
      the kinds, failures among the attempts, and repeated hashes, each counted
      by position in the window. */
  lemma CountsMeaning(w: seq<FrameRecord>)
    requires w != []
    ensures var f := Summary(w);
            && IsPart(f.chatFraction, |KindPlaces(w, {KIND_CHAT})|, |w|)
            && IsPart(f.fileFraction, |KindPlaces(w, {KIND_FILE_CHUNK, KIND_FILE_META})|, |w|)
            && IsPart(f.controlFraction, |KindPlaces(w, {KIND_CONTROL})|, |w|)
            && IsPart(f.failureRate, |FailedPlaces(w)|, |TriedPlaces(w)|)
            && f.duplicates == |RepeatPlaces(w)|
  {
    hide Summary, Excess, Tally, Hashes, CountIn, Tried, Failed, KindPlaces, TriedPlaces, FailedPlaces, RepeatPlaces,
         Repeats, IsShare, IsPart;
    CountFields(w);
    CountInPlaces(w, CHAT_KINDS);
    CountInPlaces(w, FILE_KINDS);
    CountInPlaces(w, CONTROL_KINDS);
    TriedInPlaces(w);
    FailedInPlaces(w);
    DuplicatesThreeWays(Hashes(w));
    RepeatsInPlaces(w);
    Share(Summary(w).chatFraction, CountIn(w, CHAT_KINDS), |w|);
    Share(Summary(w).fileFraction, CountIn(w, FILE_KINDS), |w|);
    Share(Summary(w).controlFraction, CountIn(w, CONTROL_KINDS), |w|);
    Share(Summary(w).failureRate, Failed(w), Tried(w));
  }

  lemma CountFields(w: seq<FrameRecord>)
    requires w != []
    ensures IsShare(Summary(w).chatFraction, CountIn(w, CHAT_KINDS), |w|)
    ensures IsShare(Summary(w).fileFraction, CountIn(w, FILE_KINDS), |w|)
    ensures IsShare(Summary(w).controlFraction, CountIn(w, CONTROL_KINDS), |w|)
    ensures IsShare(Summary(w).failureRate, Failed(w), Tried(w))
    ensures Summary(w).duplicates == Excess(Tally(Hashes(w)))
  {
    hide Sum, Gaps, Variance, Mean, Excess, Tally, Hashes, CountIn, Tried, Failed;
  }

  predicate IsShare(share: real, part: nat, whole: nat) {
    share == if whole > 0 then part as real / whole as real else 0.0
  }

  lemma Share(share: real, part: nat, whole: nat)
    requires IsShare(share, part, whole) && part <= whole
    ensures IsPart(share, part, whole)
  {
  }

  lemma FractionSum(x: real, y: real, z: real, n: real)
    requires n > 0.0
    ensures x / n + y / n + z / n == (x + y + z) / n
    ensures x + y + z <= n <==> (x + y + z) / n <= 1.0
    ensures x + y + z == n <==> (x + y + z) / n == 1.0
  {
    var q := (x + y + z) / n;
    assert q * n == x + y + z;
  }

  /** The composition fractions sum to at most one, and to one exactly when
      the window holds application frames only. */
  lemma FractionsMeaning(w: seq<FrameRecord>)
    requires w != []
    ensures var f := Summary(w);
            var total := f.chatFraction + f.fileFraction + f.controlFraction;
            && total <= 1.0
            && (total == 1.0 <==> forall i :: 0 <= i < |w| ==> w[i].kind in CHAT_KINDS + FILE_KINDS + CONTROL_KINDS)
  {
    hide Sum, Gaps, Variance, Mean, Excess, Tally, Hashes, CountIn, Tried, Failed;
    DisjointGroups(w);
    CountsAll(w, CHAT_KINDS + FILE_KINDS + CONTROL_KINDS);
    FractionSum(CountIn(w, CHAT_KINDS) as real, CountIn(w, FILE_KINDS) as real, CountIn(w, CONTROL_KINDS) as real,
        |w| as real);
  }

  // ----------------------------------------------------------------- class

  class FeatureExtractor {
    const windowSize: nat
    var window: seq<FrameRecord>
    var totalObserved: nat
    ghost var history: seq<FrameRecord>  // every record since construction or reset

    /** The window is the end of the history, the total its length. */
    ghost predicate Valid()
      reads this
    {
      windowSize >= 1 && window == LastOf(history, windowSize) && totalObserved == |history|
    }

    constructor (windowSize: nat)
      requires windowSize >= 1
      ensures Valid() && this.windowSize == windowSize && history == []
    {
      this.windowSize := windowSize;
      window, totalObserved, history := [], 0, [];
    }

    /** Refused for a window of no size. */
    static method Create(windowSize: int) returns (r: Result<FeatureExtractor, string>)
      ensures r.Err? <==> windowSize < 1
      ensures r.Ok? ==> fresh(r.value) && r.value.Valid() && r.value.windowSize == windowSize && r.value.history == []
    {
      if windowSize < 1 {
        return Err("window_size must be >= 1");
      }
      var extractor := new FeatureExtractor(windowSize);
      return Ok(extractor);
    }

    /** A direction other than in or out is refused; an empty hash is stored as
        none; the oldest record leaves a full window. */
    method Record(timestamp: real, kind: int, size: int, direction: string,
                  decryptSuccess: Option<bool>, payloadHash: Option<bytes>) returns (r: Result<nat, string>)
      requires Valid()
      modifies this
      ensures Valid()
      ensures r.Err? <==> direction != "in" && direction != "out"
      ensures r.Err? ==> history == old(history)
      ensures r.Ok? ==>
                && r.value == |history|
                && history == old(history) + [FrameRecord(timestamp, kind, size, direction, decryptSuccess,
                                                          if payloadHash == Some([]) then None else payloadHash)]
    {
      if direction != "in" && direction != "out" {
        return Err("direction must be 'in' or 'out'");
      }
      var rec := FrameRecord(timestamp, kind, size, direction, decryptSuccess,
                             if payloadHash == Some([]) then None else payloadHash);
      if |window| == windowSize {
        window := window[1..];
      }
      window := window + [rec];
      totalObserved := totalObserved + 1;
      history := history + [rec];
      return Ok(totalObserved);
    }

    method ExtractFeatures() returns (f: Features)
      requires Valid()
      ensures f == Summary(LastOf(history, windowSize))
    {
      f := Summary(window);
    }

    method Reset()
      requires Valid()
      modifies this
      ensures Valid() && history == [] && window == [] && totalObserved == 0
    {
      window, totalObserved, history := [], 0, [];
    }
  }

  // -------------------------------------------------------------- emission

  /** Threads that record frames: each `record` returns the total it made, and
      whichever thread holds a total later tests it, in any order. */
  datatype Recorder = Recorder(total: nat, held: seq<nat>, emitted: seq<nat>)

  datatype RecorderAct = Observe | Test(holder: nat)

  function RecorderStep(s: Recorder, every: nat, act: RecorderAct): Recorder
    requires every > 0
  {
    match act
    case Observe => s.(total := s.total + 1, held := s.held + [s.total + 1])
    case Test(i) =>
      if i < |s.held| then
        Recorder(s.total, s.held[..i] + s.held[i + 1..], s.emitted + if s.held[i] % every == 0 then [s.held[i]] else [])
      else s
  }

  function RecorderRun(every: nat, acts: seq<RecorderAct>): Recorder
    requires every > 0
  {
    if acts == [] then Recorder(0, [], [])
    else RecorderStep(RecorderRun(every, acts[..|acts| - 1]), every, acts[|acts| - 1])
  }

  function Multiples(held: seq<nat>, every: nat): nat
    requires every > 0
  {
    if held == [] then 0 else Multiples(held[..|held| - 1], every) + if held[|held| - 1] % every == 0 then 1 else 0
  }

  lemma {:induction false} MultiplesSplit(xs: seq<nat>, ys: seq<nat>, every: nat)
    requires every > 0
    ensures Multiples(xs + ys, every) == Multiples(xs, every) + Multiples(ys, every)
  {
    if ys == [] {
      assert xs + ys == xs;
    } else {
      assert (xs + ys)[..|xs + ys| - 1] == xs + ys[..|ys| - 1];
      MultiplesSplit(xs, ys[..|ys| - 1], every);
    }
  }

  lemma TestOne(held: seq<nat>, i: nat, every: nat)
    requires every > 0 && i < |held|
    ensures Multiples(held, every) == Multiples(held[..i] + held[i + 1..], every) + if held[i] % every == 0 then 1
            else 0
  {
    assert held == held[..i] + ([held[i]] + held[i + 1..]);
    MultiplesSplit(held[..i], [held[i]] + held[i + 1..], every);
    MultiplesSplit([held[i]], held[i + 1..], every);
    MultiplesSplit(held[..i], held[i + 1..], every);
    assert [held[i]][..0] == [];
  }

  lemma NextQuotient(m: nat, every: nat)
    requires every > 0
    ensures (m + 1) / every == m / every + if (m + 1) % every == 0 then 1 else 0
  {
    var q, r := m / every, m % every;
    assert m == q * every + r;
    if r + 1 == every {
      assert m + 1 == (q + 1) * every;
      Divides(q + 1, 0, every, m + 1);
    } else {
      Divides(q, r + 1, every, m + 1);
    }
  }

  /** However the threads interleave, the totals emitted and the due totals
      still held number floor(records / every): once every thread has looked at
      its total, exactly floor(m / every) features have been emitted. */
  lemma {:induction false} EmissionsAreDue(every: nat, acts: seq<RecorderAct>)
    requires every > 0
    ensures var s := RecorderRun(every, acts);
            |s.emitted| + Multiples(s.held, every) == s.total / every
  {
    hide Multiples;
    if acts == [] {
      NothingHeld(every);
    } else {
      var init, act := acts[..|acts| - 1], acts[|acts| - 1];
      EmissionsAreDue(every, init);
      var s := RecorderRun(every, init);
      match act
      case Observe =>
        MultiplesSplit(s.held, [s.total + 1], every);
        OneHeld(s.total + 1, every);
        NextQuotient(s.total, every);
      case Test(i) => if i < |s.held| { TestOne(s.held, i, every); }
    }
  }

  /** The multiples of `every` from 1 to total, each once. */
  function DueUpTo(total: nat, every: nat): multiset<nat>
    requires every > 0
  {
    if total == 0 then multiset{}
    else DueUpTo(total - 1, every) + if total % every == 0 then multiset{total} else multiset{}
  }

  /** The held totals at which features are due. */
  function Due(held: seq<nat>, every: nat): multiset<nat>
    requires every > 0
  {
    if held == [] then multiset{}
    else
      var last := held[|held| - 1];
      Due(held[..|held| - 1], every) + if last % every == 0 then multiset{last} else multiset{}
  }

  lemma {:induction false} DueMeaning(total: nat, every: nat, m: nat)
    requires every > 0
    ensures DueUpTo(total, every)[m] == if 1 <= m <= total && m % every == 0 then 1 else 0
  {
    if total > 0 {
      DueMeaning(total - 1, every, m);
      var last := if total % every == 0 then multiset{total} else multiset{};
      assert DueUpTo(total, every)[m] == DueUpTo(total - 1, every)[m] + last[m];
      if m != total { assert last[m] == 0; }
    }
  }

  lemma {:induction false} DueSplit(xs: seq<nat>, ys: seq<nat>, every: nat)
    requires every > 0
    ensures Due(xs + ys, every) == Due(xs, every) + Due(ys, every)
  {
    if ys == [] {
      assert xs + ys == xs;
    } else {
      assert (xs + ys)[..|xs + ys| - 1] == xs + ys[..|ys| - 1];
      DueSplit(xs, ys[..|ys| - 1], every);
    }
  }

  lemma OneDue(t: nat, every: nat)
    requires every > 0
    ensures Due([t], every) == if t % every == 0 then multiset{t} else multiset{}
  {
    assert [t][..0] == [];
  }

  lemma TestOneDue(held: seq<nat>, i: nat, every: nat)
    requires every > 0 && i < |held|
    ensures Due(held, every) == Due(held[..i] + held[i + 1..], every) + Due([held[i]], every)
  {
    assert held == held[..i] + ([held[i]] + held[i + 1..]);
    DueSplit(held[..i], [held[i]] + held[i + 1..], every);
    DueSplit([held[i]], held[i + 1..], every);
    DueSplit(held[..i], held[i + 1..], every);
  }

  /** And they are the right ones: the totals emitted and the due totals still
      held are every, 2 * every and so on up to the total, each once. */
  lemma {:induction false} EmissionsAreTheMultiples(every: nat, acts: seq<RecorderAct>)
    requires every > 0
    ensures var s := RecorderRun(every, acts);
            multiset(s.emitted) + Due(s.held, every) == DueUpTo(s.total, every)
  {
    if acts != [] {
      hide Due, DueUpTo, RecorderStep;
      EmissionsAreTheMultiples(every, acts[..|acts| - 1]);
      DueStep(RecorderRun(every, acts[..|acts| - 1]), every, acts[|acts| - 1]);
    }
  }

  lemma DueStep(s: Recorder, every: nat, act: RecorderAct)
    requires every > 0 && multiset(s.emitted) + Due(s.held, every) == DueUpTo(s.total, every)
    ensures var t := RecorderStep(s, every, act);
            multiset(t.emitted) + Due(t.held, every) == DueUpTo(t.total, every)
  {
    hide Due, DueUpTo;
    match act
    case Observe =>
      DueSplit(s.held, [s.total + 1], every);
      OneDue(s.total + 1, every);
      NextDue(s.total, every);
    case Test(i) =>
      if i < |s.held| {
        TestOneDue(s.held, i, every);
        OneDue(s.held[i], every);
      }
  }

  lemma NextDue(total: nat, every: nat)
    requires every > 0
    ensures DueUpTo(total + 1, every) ==
            DueUpTo(total, every) + if (total + 1) % every == 0 then multiset{total + 1} else multiset{}
  {
  }

  lemma NothingHeld(every: nat)
    requires every > 0
    ensures Multiples([], every) == 0 && 0 / every == 0
  {
  }

  lemma OneHeld(t: nat, every: nat)
    requires every > 0
    ensures Multiples([t], every) == if t % every == 0 then 1 else 0
  {
    assert [t][..0] == [];
  }
}
