/** What one mutual-learning step does to a pair of machines: which gates
    open, how far apart the weights can drift, and what stays equal. */
module TpmDynamics {
  import opened Basics
  import opened ClippedWalk
  import opened Tpm

  // ----------------------------------------------------------------- gate

  lemma {:induction false} ProductOfMinusOnes(s: seq<int>)
    requires forall i :: 0 <= i < |s| ==> s[i] == -1
    ensures Product(s) == if |s| % 2 == 0 then 1 else -1
  {
    if s != [] { ProductOfMinusOnes(s[1..]); }
  }

  lemma {:induction false} ProductOfOnes(s: seq<int>)
    requires forall i :: 0 <= i < |s| ==> s[i] == 1
    ensures Product(s) == 1
  {
    if s != [] { ProductOfOnes(s[1..]); }
  }

  /** The gate of a machine is shut for every unit exactly when the number of
      units is even and every hidden output is -1 (and then tau is +1); in
      particular a machine with odd K always updates some unit. */
  lemma GateIsEmpty(s: seq<int>)
    requires IsSigns(s)
    ensures (forall i :: 0 <= i < |s| ==> s[i] != Product(s)) <==>
            |s| % 2 == 0 && forall i :: 0 <= i < |s| ==> s[i] == -1
    ensures |s| % 2 == 1 ==> exists i :: 0 <= i < |s| && s[i] == Product(s)
  {
    ProductIsSign(s);
    if forall i :: 0 <= i < |s| ==> s[i] == -1 {
      ProductOfMinusOnes(s);
      if |s| > 0 { assert s[0] == -1; }
    } else if forall i :: 0 <= i < |s| ==> s[i] != Product(s) {
      ProductOfOnes(s);
      assert false;
    }
  }

  // --------------------------------------------------------------- parity

  lemma {:induction false} ProductSnoc(s: seq<int>)
    requires s != []
    ensures Product(s) == Product(s[..|s| - 1]) * s[|s| - 1]
  {
    var init := s[..|s| - 1];
    if |s| > 1 {
      ProductSnoc(s[1..]);
      assert s[1..][..|s| - 2] == init[1..];
      assert Product(s) == s[0] * (Product(init[1..]) * s[|s| - 1]);
      assert s[0] * (Product(init[1..]) * s[|s| - 1]) == (s[0] * Product(init[1..])) * s[|s| - 1];
    }
  }

  /** Two machines announce the same tau exactly when an even number of
      their hidden units differ. */
  lemma {:induction false} TausAgreeIffEven(s: seq<int>, t: seq<int>)
    requires IsSigns(s) && IsSigns(t) && |s| == |t|
    ensures Product(s) == Product(t) <==> Differences(s, t, |s|) % 2 == 0
  {
    if s != [] {
      var n := |s| - 1;
      TausAgreeIffEven(s[..n], t[..n]);
      DifferencesOfPrefix(s, t, n, n);
      ProductSnoc(s);
      ProductSnoc(t);
      ProductIsSign(s[..n]);
      ProductIsSign(t[..n]);
    }
  }

  // ------------------------------------------------------------- distance

  /** L1 distance of the first k coordinates of two rows. */
  function RowDistance(a: Row, b: Row, k: nat): nat
    requires k <= |a| && k <= |b|
  {
    if k == 0 then 0 else RowDistance(a, b, k - 1) + Abs(a[k - 1] - b[k - 1])
  }

  /** L1 distance of the first k rows of two N-column matrices. */
  function Distance(a: Matrix, b: Matrix, N: nat, k: nat): nat
    requires k <= |a| && k <= |b|
    requires forall i :: 0 <= i < k ==> |a[i]| == N && |b[i]| == N
  {
    if k == 0 then 0 else Distance(a, b, N, k - 1) + RowDistance(a[k - 1], b[k - 1], N)
  }

  /** The step by d is cut short at the boundary. */
  predicate Bounces(w: int, d: int, L: int)
    requires 0 <= L
  {
    Clip(w + d, L) != w + d
  }

  /** Coordinates, among the first k, at which exactly one of the two rows bounces. */
  function RowBounces(a: Row, b: Row, x: Row, dir: int, L: int, k: nat): nat
    requires k <= |a| && k <= |b| && k <= |x| && 0 <= L
  {
    if k == 0 then 0
    else RowBounces(a, b, x, dir, L, k - 1) +
         if Bounces(a[k - 1], dir * x[k - 1], L) != Bounces(b[k - 1], dir * x[k - 1], L) then 1 else 0
  }

  /** The lone bounces of unit i, if both sides update it. */
  function UnitBounces(a: Matrix, b: Matrix, x: Matrix, rule: LearningRule, K: nat, N: nat, L: int, i: nat): nat
    requires 0 <= L && i < K && HasShape(a, K, N) && HasShape(b, K, N) && HasShape(x, K, N)
  {
    if Sigmas(a, x)[i] == Tau(a, x) && Sigmas(b, x)[i] == Tau(b, x)
    then RowBounces(a[i], b[i], x[i], Direction(rule), L, N) else 0
  }

  function JointBounces(a: Matrix, b: Matrix, x: Matrix, rule: LearningRule, K: nat, N: nat, L: int, k: nat): nat
    requires 0 <= L && k <= K && HasShape(a, K, N) && HasShape(b, K, N) && HasShape(x, K, N)
  {
    if k == 0 then 0
    else JointBounces(a, b, x, rule, K, N, L, k - 1) + UnitBounces(a, b, x, rule, K, N, L, k - 1)
  }

  /** r is the row w after one clipped step along dir * x. */
  predicate StepsRow(r: Row, w: Row, x: Row, dir: int, L: int)
    requires 0 <= L
  {
    && |r| == |w| == |x|
    && forall j :: 0 <= j < |w| ==> r[j] == Clip(w[j] + dir * x[j], L)
  }

  predicate RowInRange(w: Row, L: int) {
    forall j :: 0 <= j < |w| ==> -L <= w[j] <= L
  }

  lemma JointCoordinate(a: int, b: int, d: int, L: int)
    requires 1 <= L && (d == 1 || d == -1) && -L <= a <= L && -L <= b <= L
    ensures Abs(Clip(a + d, L) - Clip(b + d, L)) + (if Bounces(a, d, L) != Bounces(b, d, L) then 1 else 0) == Abs(a - b)
  {
  }

  lemma LoneCoordinate(a: int, b: int, d: int, L: int)
    requires 1 <= L && (d == 1 || d == -1) && -L <= a <= L
    ensures Abs(a - b) - 1 <= Abs(Clip(a + d, L) - b) <= Abs(a - b) + 1
  {
  }

  lemma {:induction false} JointRowDistance(a: Row, b: Row, a': Row, b': Row, x: Row, dir: int, L: int, k: nat)
    requires 1 <= L && (dir == 1 || dir == -1) && IsSigns(x) && RowInRange(a, L) && RowInRange(b, L)
    requires StepsRow(a', a, x, dir, L) && StepsRow(b', b, x, dir, L) && k <= |a| == |b|
    ensures RowDistance(a', b', k) + RowBounces(a, b, x, dir, L, k) == RowDistance(a, b, k)
  {
    if k > 0 {
      JointRowDistance(a, b, a', b', x, dir, L, k - 1);
      JointCoordinate(a[k - 1], b[k - 1], dir * x[k - 1], L);
    }
  }

  lemma {:induction false} LoneRowDistance(a: Row, b: Row, a': Row, x: Row, dir: int, L: int, k: nat)
    requires 1 <= L && (dir == 1 || dir == -1) && IsSigns(x) && RowInRange(a, L)
    requires StepsRow(a', a, x, dir, L) && k <= |a| == |b|
    ensures RowDistance(a, b, k) - k <= RowDistance(a', b, k) <= RowDistance(a, b, k) + k
  {
    if k > 0 {
      LoneRowDistance(a, b, a', x, dir, L, k - 1);
      LoneCoordinate(a[k - 1], b[k - 1], dir * x[k - 1], L);
    }
  }

  lemma {:induction false} RowDistanceSymmetric(a: Row, b: Row, k: nat)
    requires k <= |a| && k <= |b|
    ensures RowDistance(a, b, k) == RowDistance(b, a, k)
  {
    if k > 0 { RowDistanceSymmetric(a, b, k - 1); }
  }

  lemma UpdatedRow(rule: LearningRule, K: int, N: int, L: int, w: Matrix, x: Matrix, i: int)
    requires ValidParameters(K, N, L) && IsWeights(w, K, N, L) && IsInput(x, K, N) && 0 <= i < K
    ensures |Updated(rule, L, w, x)[i]| == N
    ensures if Sigmas(w, x)[i] == Tau(w, x) then StepsRow(Updated(rule, L, w, x)[i], w[i], x[i], Direction(rule), L)
            else Updated(rule, L, w, x)[i] == w[i]
  {
    UpdateMeaning(rule, K, N, L, w, x);
  }

  /** One unit: the same answer on both sides means updated on both or on
      neither, and the rows close by one at each lone bounce; a different
      answer means updated on one side only, a drift of at most N. */
  lemma UnitDistance(rule: LearningRule, K: int, N: int, L: int, a: Matrix, b: Matrix, x: Matrix, i: nat)
    requires ValidParameters(K, N, L) && IsWeights(a, K, N, L) && IsWeights(b, K, N, L) && IsInput(x, K, N)
    requires Tau(a, x) == Tau(b, x) && i < K
    ensures |Updated(rule, L, a, x)[i]| == N && |Updated(rule, L, b, x)[i]| == N
    ensures var before := RowDistance(a[i], b[i], N);
            var after := RowDistance(Updated(rule, L, a, x)[i], Updated(rule, L, b, x)[i], N);
            var slack := if Sigmas(a, x)[i] == Sigmas(b, x)[i] then 0 else N;
            before - slack <= after + UnitBounces(a, b, x, rule, K, N, L, i) <= before + slack
    ensures Sigmas(a, x)[i] == Sigmas(b, x)[i] <==>
            (Sigmas(a, x)[i] == Tau(a, x)) == (Sigmas(b, x)[i] == Tau(b, x))
  {
    ProductIsSign(Sigmas(a, x));
    UpdatedRow(rule, K, N, L, a, x, i);
    UpdatedRow(rule, K, N, L, b, x, i);
    var dir, a', b' := Direction(rule), Updated(rule, L, a, x)[i], Updated(rule, L, b, x)[i];
    var openA, openB := Sigmas(a, x)[i] == Tau(a, x), Sigmas(b, x)[i] == Tau(b, x);
    if openA && openB {
      JointRowDistance(a[i], b[i], a', b', x[i], dir, L, N);
    } else if openA {
      LoneRowDistance(a[i], b[i], a', x[i], dir, L, N);
    } else if openB {
      LoneRowDistance(b[i], a[i], b', x[i], dir, L, N);
      RowDistanceSymmetric(a[i], b[i], N);
      RowDistanceSymmetric(a', b', N);
    }
  }

  lemma {:induction false} SumOverUnits(rule: LearningRule, K: nat, N: nat, L: int,
        a: Matrix, b: Matrix, a': Matrix, b': Matrix, x: Matrix, s: seq<int>, t: seq<int>, k: nat)
    requires 0 <= L && k <= K == |s| == |t|
    requires HasShape(a, K, N) && HasShape(b, K, N) && HasShape(a', K, N) && HasShape(b', K, N) && HasShape(x, K, N)
    requires forall i :: 0 <= i < k ==>
               var before, after := RowDistance(a[i], b[i], N), RowDistance(a'[i], b'[i], N);
               var slack := if s[i] == t[i] then 0 else N;
               before - slack <= after + UnitBounces(a, b, x, rule, K, N, L, i) <= before + slack
    ensures var before, after := Distance(a, b, N, k), Distance(a', b', N, k);
            before - Drift(N, s, t, k) <= after + JointBounces(a, b, x, rule, K, N, L, k) <= before + Drift(N, s, t, k)
  {
    if k > 0 {
      var i := k - 1;
      SumOverUnits(rule, K, N, L, a, b, a', b', x, s, t, i);
      var before, after := RowDistance(a[i], b[i], N), RowDistance(a'[i], b'[i], N);
      assert JointBounces(a, b, x, rule, K, N, L, k) ==
             JointBounces(a, b, x, rule, K, N, L, i) + UnitBounces(a, b, x, rule, K, N, L, i);
      assert Distance(a, b, N, k) == Distance(a, b, N, i) + before;
      assert Distance(a', b', N, k) == Distance(a', b', N, i) + after;
    }
  }

  /** The most the one-sided units among the first k can move the distance. */
  function Drift(N: nat, s: seq<int>, t: seq<int>, k: nat): nat
    requires k <= |s| && k <= |t|
  {
    if k == 0 then 0 else Drift(N, s, t, k - 1) + if s[k - 1] == t[k - 1] then 0 else N
  }

  lemma {:induction false} DriftIsPerUnit(N: nat, s: seq<int>, t: seq<int>, k: nat)
    requires k <= |s| && k <= |t|
    ensures Drift(N, s, t, k) == N * Differences(s, t, k)
  {
    if k > 0 { DriftIsPerUnit(N, s, t, k - 1); }
  }

  /** Distance accounting for a step on which the taus agree: an even number
      of hidden units differ; exactly those are updated on one side only; the
      L1 distance falls by one for every lone bounce in a jointly updated
      unit, and the one-sided units move it by at most N each. */
  lemma DistanceAccounting(rule: LearningRule, K: int, N: int, L: int, a: Matrix, b: Matrix, x: Matrix)
    requires ValidParameters(K, N, L) && IsWeights(a, K, N, L) && IsWeights(b, K, N, L) && IsInput(x, K, N)
    requires Tau(a, x) == Tau(b, x)
    ensures HasShape(Updated(rule, L, a, x), K, N) && HasShape(Updated(rule, L, b, x), K, N)
    ensures Differences(Sigmas(a, x), Sigmas(b, x), K) % 2 == 0
    ensures forall i :: 0 <= i < K ==>
              (Sigmas(a, x)[i] != Sigmas(b, x)[i] <==>
               (Sigmas(a, x)[i] == Tau(a, x)) != (Sigmas(b, x)[i] == Tau(b, x)))
    ensures var before := Distance(a, b, N, K);
            var after := Distance(Updated(rule, L, a, x), Updated(rule, L, b, x), N, K);
            var bounced := JointBounces(a, b, x, rule, K, N, L, K);
            var slack := N * Differences(Sigmas(a, x), Sigmas(b, x), K);
            before - slack <= after + bounced <= before + slack
  {
    UpdateMeaning(rule, K, N, L, a, x);
    UpdateMeaning(rule, K, N, L, b, x);
    TausAgreeIffEven(Sigmas(a, x), Sigmas(b, x));
    forall i: nat | i < K { UnitDistance(rule, K, N, L, a, b, x, i); }
    SumOverUnits(rule, K, N, L, a, b, Updated(rule, L, a, x), Updated(rule, L, b, x), x, Sigmas(a, x), Sigmas(b, x), K);
    DriftIsPerUnit(N, Sigmas(a, x), Sigmas(b, x), K);
  }

  /** The distance is zero exactly for equal matrices. */
  lemma {:induction false} ZeroDistance(a: Matrix, b: Matrix, N: nat, k: nat)
    requires k <= |a| && k <= |b| && forall i :: 0 <= i < k ==> |a[i]| == N && |b[i]| == N
    ensures Distance(a, b, N, k) == 0 <==> forall i :: 0 <= i < k ==> a[i] == b[i]
  {
    if k > 0 {
      ZeroDistance(a, b, N, k - 1);
      ZeroRowDistance(a[k - 1], b[k - 1], N);
    }
  }

  lemma {:induction false} ZeroRowDistance(a: Row, b: Row, k: nat)
    requires k <= |a| && k <= |b|
    ensures RowDistance(a, b, k) == 0 <==> a[..k] == b[..k]
    ensures |a| == k == |b| ==> (a[..k] == b[..k] <==> a == b)
  {
    if k > 0 {
      ZeroRowDistance(a[..k - 1], b[..k - 1], k - 1);
      RowDistanceOfPrefix(a, b, k - 1, k - 1);
      assert a[..k] == a[..k - 1] + [a[k - 1]] && b[..k] == b[..k - 1] + [b[k - 1]];
      assert a[..k - 1][..k - 1] == a[..k - 1] && b[..k - 1][..k - 1] == b[..k - 1];
    }
    if |a| == k == |b| { assert a[..k] == a && b[..k] == b; }
  }

  lemma {:induction false} RowDistanceOfPrefix(a: Row, b: Row, n: nat, k: nat)
    requires k <= n <= |a| && n <= |b|
    ensures RowDistance(a[..n], b[..n], k) == RowDistance(a, b, k)
  {
    if k > 0 { RowDistanceOfPrefix(a, b, n, k - 1); }
  }

  // ----------------------------------------------------------------- rules

  /** Under the gate "hebbian" and "random_walk" are the same rule, while
      "anti_hebbian" is the rule one would get from the negated input. */
  lemma RulesUnderTheGate(K: int, N: int, L: int, w: Matrix, x: Matrix)
    requires ValidParameters(K, N, L) && IsWeights(w, K, N, L) && IsInput(x, K, N)
    ensures Updated(Hebbian, L, w, x) == Updated(RandomWalk, L, w, x)
    ensures forall i, j :: 0 <= i < K && 0 <= j < N && Sigmas(w, x)[i] == Tau(w, x) ==>
              Updated(AntiHebbian, L, w, x)[i][j] == Clip(w[i][j] - x[i][j], L)
  {
    UpdateMeaning(Hebbian, K, N, L, w, x);
    UpdateMeaning(RandomWalk, K, N, L, w, x);
    UpdateMeaning(AntiHebbian, K, N, L, w, x);
    var h, r := Updated(Hebbian, L, w, x), Updated(RandomWalk, L, w, x);
    forall i | 0 <= i < K
      ensures h[i] == r[i]
    {
      forall j | 0 <= j < N
        ensures h[i][j] == r[i][j]
      {
      }
    }
  }
}
