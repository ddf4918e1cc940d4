/** core/tpm.py: the Tree Parity Machine, its forward pass and its weight
    update.  Matrices are sequences of rows; machine integers are written out. */
module Tpm {
  import opened Basics
  import opened ClippedWalk

  type Row = seq<int>
  type Matrix = seq<Row>

  datatype LearningRule = Hebbian | AntiHebbian | RandomWalk

  datatype TpmError = BadParameters | UnknownRule | BadPartnerOutput | BadInputs

  function ParseRule(name: string): Option<LearningRule> {
    if name == "hebbian" then Some(Hebbian)
    else if name == "anti_hebbian" then Some(AntiHebbian)
    else if name == "random_walk" then Some(RandomWalk)
    else None
  }

  predicate HasShape(m: Matrix, K: int, N: int) {
    |m| == K && forall i :: 0 <= i < |m| ==> |m[i]| == N
  }

  /** `_validate_inputs`: the right shape and nothing but -1 and +1. */
  predicate IsInput(x: Matrix, K: int, N: int) {
    && HasShape(x, K, N)
    && forall i, j :: 0 <= i < |x| && 0 <= j < |x[i]| ==> x[i][j] == -1 || x[i][j] == 1
  }

  predicate InRange(w: Matrix, L: int) {
    forall i, j :: 0 <= i < |w| && 0 <= j < |w[i]| ==> -L <= w[i][j] <= L
  }

  /** A weight matrix a machine with these parameters can hold. */
  predicate IsWeights(w: Matrix, K: int, N: int, L: int) {
    HasShape(w, K, N) && InRange(w, L)
  }

  /** The parameters the constructor accepts; numpy refuses to draw int8
      weights outside [-128, 127], hence L <= 127. */
  predicate ValidParameters(K: int, N: int, L: int) {
    K >= 1 && N >= 1 && 1 <= L <= 127
  }

  // ---------------------------------------------------------------- widths

  /** numpy's `astype(np.int8)`: truncation to eight bits, two's complement. */
  function ToInt8(v: int): int { (v + 128) % 256 - 128 }

  /** The int32 accumulator of the pre-activation. */
  function ToInt32(v: int): int { (v + 0x8000_0000) % 0x1_0000_0000 - 0x8000_0000 }

  // ---------------------------------------------------------- forward pass

  function Dot(w: Row, x: Row): int
    requires |w| == |x|
  {
    if w == [] then 0 else w[0] * x[0] + Dot(w[1..], x[1..])
  }

  /** One hidden unit; a zero pre-activation counts as -1. */
  function Sigma(w: Row, x: Row): int
    requires |w| == |x|
  {
    if ToInt32(Dot(w, x)) > 0 then 1 else -1
  }

  function Sigmas(w: Matrix, x: Matrix): (s: seq<int>)
    requires |w| == |x| && forall i :: 0 <= i < |w| ==> |w[i]| == |x[i]|
    ensures |s| == |w| && forall i :: 0 <= i < |s| ==> s[i] == -1 || s[i] == 1
  {
    seq(|w|, i requires 0 <= i < |w| => Sigma(w[i], x[i]))
  }

  function Product(s: seq<int>): int {
    if s == [] then 1 else s[0] * Product(s[1..])
  }

  function Tau(w: Matrix, x: Matrix): int
    requires |w| == |x| && forall i :: 0 <= i < |w| ==> |w[i]| == |x[i]|
  {
    Product(Sigmas(w, x))
  }

  // ---------------------------------------------------------------- update

  /** The increment a rule asks for, before the gate. */
  function Delta(rule: LearningRule, x: int, sigma: int, tau: int): int {
    match rule
    case Hebbian => x * (tau * sigma)
    case AntiHebbian => -x * (tau * sigma)
    case RandomWalk => x
  }

  /** What the open gate amounts to: the input is added, or subtracted. */
  function Direction(rule: LearningRule): int {
    if rule == AntiHebbian then -1 else 1
  }

  /** A row of increments, zeroed where the gate is closed. */
  function GatedDelta(rule: LearningRule, x: Row, sigma: int, tau: int, open: bool): (d: Row)
    ensures |d| == |x|
  {
    seq(|x|, j requires 0 <= j < |x| => if open then Delta(rule, x[j], sigma, tau) else 0)
  }

  /** Add in int32, clip in place, store as int8. */
  function AddClipStore(L: int, w: Row, d: Row): (r: Row)
    requires |w| == |d| && 0 <= L
    ensures |r| == |w|
  {
    seq(|w|, j requires 0 <= j < |w| => ToInt8(Clip(w[j] + d[j], L)))
  }

  function NewRow(rule: LearningRule, L: int, w: Row, x: Row, sigma: int, tau: int): (r: Row)
    requires |w| == |x| && 0 <= L
    ensures |r| == |w|
  {
    AddClipStore(L, w, GatedDelta(rule, x, sigma, tau, sigma == tau))
  }

  /** The weights after an update whose taus agreed. */
  function Updated(rule: LearningRule, L: int, w: Matrix, x: Matrix): (r: Matrix)
    requires |w| == |x| && 0 <= L && forall i :: 0 <= i < |w| ==> |w[i]| == |x[i]|
    ensures |r| == |w| && forall i :: 0 <= i < |r| ==> |r[i]| == |w[i]|
  {
    var s := Sigmas(w, x);
    var tau := Product(s);
    seq(|w|, i requires 0 <= i < |w| => NewRow(rule, L, w[i], x[i], s[i], tau))
  }

  lemma {:induction false} ProductIsSign(s: seq<int>)
    requires forall i :: 0 <= i < |s| ==> s[i] == -1 || s[i] == 1
    ensures Product(s) == -1 || Product(s) == 1
  {
    if s != [] { ProductIsSign(s[1..]); }
  }

  lemma NewRowMeaning(rule: LearningRule, L: int, w: Row, x: Row, sigma: int, tau: int)
    requires |w| == |x| && 1 <= L <= 127
    requires (sigma == -1 || sigma == 1) && (tau == -1 || tau == 1)
    requires forall j :: 0 <= j < |w| ==> -L <= w[j] <= L
    ensures forall j :: 0 <= j < |w| ==>
              && -L <= NewRow(rule, L, w, x, sigma, tau)[j] <= L
              && NewRow(rule, L, w, x, sigma, tau)[j] ==
                 if sigma == tau then Clip(w[j] + Direction(rule) * x[j], L) else w[j]
  {
    var r := NewRow(rule, L, w, x, sigma, tau);
    assert sigma == tau ==> tau * sigma == 1;
    forall j | 0 <= j < |w|
      ensures -L <= r[j] <= L
      ensures r[j] == if sigma == tau then Clip(w[j] + Direction(rule) * x[j], L) else w[j]
    {
      var d := if sigma == tau then Delta(rule, x[j], sigma, tau) else 0;
      assert sigma == tau ==> d == Direction(rule) * x[j];
      assert ToInt8(Clip(w[j] + d, L)) == Clip(w[j] + d, L);
    }
  }

  /** An update keeps every weight in [-L, L]; no int8 store truncates, and
      each coordinate of a unit whose sigma equals tau takes one clipped step
      by the input (its negation under anti-Hebbian) while every other
      coordinate keeps its value. */
  lemma UpdateMeaning(rule: LearningRule, K: int, N: int, L: int, w: Matrix, x: Matrix)
    requires ValidParameters(K, N, L) && IsWeights(w, K, N, L) && IsInput(x, K, N)
    ensures IsWeights(Updated(rule, L, w, x), K, N, L)
    ensures forall i, j :: 0 <= i < K && 0 <= j < N ==>
              Updated(rule, L, w, x)[i][j] ==
              if Sigmas(w, x)[i] == Tau(w, x) then Clip(w[i][j] + Direction(rule) * x[i][j], L) else w[i][j]
  {
    ProductIsSign(Sigmas(w, x));
    forall i | 0 <= i < K
      ensures |Updated(rule, L, w, x)[i]| == N
      ensures forall j :: 0 <= j < N ==>
                && -L <= Updated(rule, L, w, x)[i][j] <= L
                && Updated(rule, L, w, x)[i][j] ==
                   if Sigmas(w, x)[i] == Tau(w, x) then Clip(w[i][j] + Direction(rule) * x[i][j], L) else w[i][j]
    {
      UnitMeaning(rule, K, N, L, w, x, i);
    }
  }

  lemma UnitMeaning(rule: LearningRule, K: int, N: int, L: int, w: Matrix, x: Matrix, i: int)
    requires ValidParameters(K, N, L) && IsWeights(w, K, N, L) && IsInput(x, K, N) && 0 <= i < K
    ensures |Updated(rule, L, w, x)[i]| == N
    ensures forall j :: 0 <= j < N ==>
              && -L <= Updated(rule, L, w, x)[i][j] <= L
              && Updated(rule, L, w, x)[i][j] ==
                 if Sigmas(w, x)[i] == Tau(w, x) then Clip(w[i][j] + Direction(rule) * x[i][j], L) else w[i][j]
  {
    ProductIsSign(Sigmas(w, x));
    NewRowMeaning(rule, L, w[i], x[i], Sigmas(w, x)[i], Tau(w, x));
  }

  /** With no unit matching tau the update is the identity. */
  lemma ClosedGateKeeps(rule: LearningRule, K: int, N: int, L: int, w: Matrix, x: Matrix)
    requires ValidParameters(K, N, L) && IsWeights(w, K, N, L) && IsInput(x, K, N)
    requires forall i :: 0 <= i < K ==> Sigmas(w, x)[i] != Tau(w, x)
    ensures Updated(rule, L, w, x) == w
  {
    UpdateMeaning(rule, K, N, L, w, x);
    var u := Updated(rule, L, w, x);
    forall i | 0 <= i < K
      ensures u[i] == w[i]
    {
    }
  }

  // ------------------------------------------------- what a unit answers

  predicate SameSign(a: int, b: int) { (a > 0 && b > 0) || (a < 0 && b < 0) }

  /** How much of the row's weight agrees in sign with the input. */
  function WeightFor(w: Row, x: Row): nat
    requires |w| == |x|
  {
    if w == [] then 0 else (if SameSign(w[0], x[0]) then Abs(w[0]) else 0) + WeightFor(w[1..], x[1..])
  }

  /** And how much of it disagrees. */
  function WeightAgainst(w: Row, x: Row): nat
    requires |w| == |x|
  {
    if w == [] then 0 else (if SameSign(w[0], -x[0]) then Abs(w[0]) else 0) + WeightAgainst(w[1..], x[1..])
  }

  predicate IsSigns(x: seq<int>) { forall j :: 0 <= j < |x| ==> x[j] == -1 || x[j] == 1 }

  lemma {:induction false} DotIsForLessAgainst(w: Row, x: Row)
    requires |w| == |x| && IsSigns(x)
    ensures Dot(w, x) == WeightFor(w, x) - WeightAgainst(w, x)
  {
    if w != [] {
      DotIsForLessAgainst(w[1..], x[1..]);
      assert x[0] == 1 || x[0] == -1;
    }
  }

  function Negated(x: Row): (y: Row)
    ensures |y| == |x| && forall j :: 0 <= j < |x| ==> y[j] == -x[j]
  {
    seq(|x|, j requires 0 <= j < |x| => -x[j])
  }

  lemma {:induction false} NegationSwapsTotals(w: Row, x: Row)
    requires |w| == |x| && IsSigns(x)
    ensures WeightFor(w, Negated(x)) == WeightAgainst(w, x) && WeightAgainst(w, Negated(x)) == WeightFor(w, x)
  {
    if w != [] {
      NegationSwapsTotals(w[1..], x[1..]);
      assert Negated(x)[1..] == Negated(x[1..]);
    }
  }

  lemma {:induction false} DotBound(w: Row, x: Row, L: int)
    requires |w| == |x| && 0 <= L
    requires forall j :: 0 <= j < |w| ==> -L <= w[j] <= L && (x[j] == -1 || x[j] == 1)
    ensures Abs(Dot(w, x)) <= |w| * L
  {
    if w != [] {
      DotBound(w[1..], x[1..], L);
      SplitProduct(|w[1..]|, L);
      assert Abs(w[0] * x[0]) <= L;
    }
  }

  lemma SplitProduct(n: nat, L: int)
    ensures (n + 1) * L == L + n * L
  {
  }

  /** The int32 accumulator is exact as long as N * L stays below 2^31. */
  lemma DotFitsInt32(w: Row, x: Row, L: int)
    requires |w| == |x| && 0 <= L
    requires forall j :: 0 <= j < |w| ==> -L <= w[j] <= L && (x[j] == -1 || x[j] == 1)
    ensures |w| * L < 0x8000_0000 ==> ToInt32(Dot(w, x)) == Dot(w, x)
  {
    hide Dot;
    DotBound(w, x, L);
  }

  /** Beyond that it wraps: what is kept differs by a multiple of 2^32. */
  lemma Int32Wraps(v: int)
    ensures -0x8000_0000 <= ToInt32(v) < 0x8000_0000 && (v - ToInt32(v)) % 0x1_0000_0000 == 0
  {
    var d := v + 0x8000_0000;
    assert d == d / 0x1_0000_0000 * 0x1_0000_0000 + d % 0x1_0000_0000;
    assert v - ToInt32(v) == d / 0x1_0000_0000 * 0x1_0000_0000;
  }

  /** As long as the accumulator is exact, a hidden unit answers +1 exactly
      when more of its weight agrees with the input than disagrees. */
  lemma UnitVotes(w: Row, x: Row, L: int)
    requires |w| == |x| && 0 <= L && |w| * L < 0x8000_0000 && IsSigns(x)
    requires forall j :: 0 <= j < |w| ==> -L <= w[j] <= L
    ensures Sigma(w, x) == if WeightFor(w, x) > WeightAgainst(w, x) then 1 else -1
  {
    hide Dot;
    DotFitsInt32(w, x, L);
    DotIsForLessAgainst(w, x);
  }

  /** So a unit never answers +1 both to an input and to its negation, and it
      answers -1 to both exactly on a tie. */
  lemma OppositeInputs(w: Row, x: Row, L: int)
    requires |w| == |x| && 0 <= L && |w| * L < 0x8000_0000 && IsSigns(x)
    requires forall j :: 0 <= j < |w| ==> -L <= w[j] <= L
    ensures !(Sigma(w, x) == 1 && Sigma(w, Negated(x)) == 1)
    ensures Sigma(w, x) == -1 && Sigma(w, Negated(x)) == -1 <==> WeightFor(w, x) == WeightAgainst(w, x)
  {
    hide Dot;
    UnitVotes(w, x, L);
    UnitVotes(w, Negated(x), L);
    NegationSwapsTotals(w, x);
  }

  function Minuses(s: seq<int>): nat {
    if s == [] then 0 else (if s[0] == -1 then 1 else 0) + Minuses(s[1..])
  }

  /** The product of signs is +1 exactly when an even number of them are -1. */
  lemma {:induction false} ProductIsParity(s: seq<int>)
    requires IsSigns(s)
    ensures Product(s) == if Minuses(s) % 2 == 0 then 1 else -1
  {
    if s != [] {
      ProductIsParity(s[1..]);
      assert s[0] == 1 || s[0] == -1;
    }
  }

  /** r is w after one step: where the partner's output is tau and the unit's
      own answer too, every coordinate takes one clipped step along the input,
      against it if `reversed`; every other coordinate stays. */
  predicate IsLearningStep(r: Matrix, w: Matrix, x: Matrix, partnerOutput: int, reversed: bool, L: int)
    requires |r| == |w| == |x| && 0 <= L
    requires forall i :: 0 <= i < |w| ==> |r[i]| == |w[i]| == |x[i]|
  {
    forall i, j :: 0 <= i < |w| && 0 <= j < |w[i]| ==>
      r[i][j] == if Tau(w, x) == partnerOutput == Sigmas(w, x)[i]
                 then Clip(w[i][j] + if reversed then -x[i][j] else x[i][j], L) else w[i][j]
  }

  lemma LearningSteps(w: Matrix, x: Matrix, partnerOutput: int, ruleName: string, K: int, N: int, L: int)
    requires ValidParameters(K, N, L) && IsWeights(w, K, N, L)
    ensures IsInput(x, K, N) && ParseRule(ruleName).Some? ==>
              var r := if Tau(w, x) == partnerOutput then Updated(ParseRule(ruleName).value, L, w, x) else w;
              IsLearningStep(r, w, x, partnerOutput, ruleName == "anti_hebbian", L)
    ensures ParseRule(ruleName).Some? <==> ruleName in ["hebbian", "anti_hebbian", "random_walk"]
  {
    hide Tau;
    if IsInput(x, K, N) && ParseRule(ruleName).Some? {
      UpdateMeaning(ParseRule(ruleName).value, K, N, L, w, x);
    }
  }

  // ---------------------------------------------------------------- class

  class TreeParityMachine {
    const K: int
    const N: int
    const L: int
    var weights: Matrix

    predicate Valid()
      reads this
    {
      ValidParameters(K, N, L) && IsWeights(weights, K, N, L)
    }

    /** `drawn` is the matrix the generator draws, uniform on [-L, L]. */
    constructor (K: int, N: int, L: int, drawn: Matrix)
      requires ValidParameters(K, N, L) && IsWeights(drawn, K, N, L)
      ensures Valid() && this.K == K && this.N == N && this.L == L && weights == drawn
    {
      this.K, this.N, this.L := K, N, L;
      weights := drawn;
    }

    /** `TreeParityMachine(K, N, L)`: refused unless all three are at least 1,
        and, by numpy, when L does not fit int8. */
    static method Create(K: int, N: int, L: int, drawn: Matrix) returns (r: Result<TreeParityMachine, TpmError>)
      requires ValidParameters(K, N, L) ==> IsWeights(drawn, K, N, L)
      ensures K < 1 || N < 1 || L < 1 || L > 127 <==> r == Err(BadParameters)
      ensures r.Ok? <==> ValidParameters(K, N, L)
      ensures r.Ok? ==>
                && fresh(r.value) && r.value.Valid()
                && r.value.K == K && r.value.N == N && r.value.L == L && r.value.weights == drawn
    {
      if K < 1 || N < 1 || L < 1 || L > 127 {
        return Err(BadParameters);
      }
      var machine := new TreeParityMachine(K, N, L, drawn);
      return Ok(machine);
    }

    /** Output and hidden outputs; the wrong shape or a foreign value is refused. */
    method ComputeOutput(inputs: Matrix) returns (r: Result<(int, seq<int>), TpmError>)
      requires Valid()
      ensures r == if IsInput(inputs, K, N) then Ok((Tau(weights, inputs), Sigmas(weights, inputs)))
                   else Err(BadInputs)
      ensures r.Ok? <==>
                && |inputs| == K && (forall i :: 0 <= i < K ==> |inputs[i]| == N)
                && forall i, j :: 0 <= i < K && 0 <= j < N ==> inputs[i][j] == -1 || inputs[i][j] == 1
      ensures r.Ok? && N * L < 0x8000_0000 ==>
                forall i :: 0 <= i < K ==>
                  r.value.1[i] == if WeightFor(weights[i], inputs[i]) > WeightAgainst(weights[i], inputs[i]) then 1
                                  else -1
      ensures r.Ok? ==> |r.value.1| == K && r.value.0 == if Minuses(r.value.1) % 2 == 0 then 1 else -1
    {
      hide WeightFor, WeightAgainst, Minuses, Dot, Product;
      if !IsInput(inputs, K, N) {
        return Err(BadInputs);
      }
      var sigmas := Sigmas(weights, inputs);
      ProductIsParity(sigmas);
      if N * L < 0x8000_0000 {
        forall i | 0 <= i < K
          ensures sigmas[i] == if WeightFor(weights[i], inputs[i]) > WeightAgainst(weights[i], inputs[i]) then 1 else -1
        {
          UnitVotes(weights[i], inputs[i], L);
        }
      }
      return Ok((Product(sigmas), sigmas));
    }

    /** One mutual-learning step: refused with the weights untouched for an
        unknown rule, a foreign partner output or bad inputs, in that order;
        otherwise applied exactly when the taus agree.  The result says
        whether any weight changed. */
    method UpdateWeights(inputs: Matrix, partnerOutput: int, ruleName: string)
      returns (r: Result<bool, TpmError>)
      requires Valid()
      modifies this`weights
      ensures Valid()
      ensures ParseRule(ruleName).None? ==> r == Err(UnknownRule)
      ensures ParseRule(ruleName).Some? && partnerOutput != -1 && partnerOutput != 1 ==> r == Err(BadPartnerOutput)
      ensures ParseRule(ruleName).Some? && (partnerOutput == -1 || partnerOutput == 1) && !IsInput(inputs, K, N) ==>
                r == Err(BadInputs)
      ensures r.Ok? <==>
                ParseRule(ruleName).Some? && (partnerOutput == -1 || partnerOutput == 1) && IsInput(inputs, K, N)
      ensures r.Err? ==> weights == old(weights)
      ensures r.Ok? ==>
                && weights == (if Tau(old(weights), inputs) == partnerOutput
                               then Updated(ParseRule(ruleName).value, L, old(weights), inputs)
                               else old(weights))
                && (r.value <==> weights != old(weights))
      ensures r != Err(UnknownRule) <==> ruleName in ["hebbian", "anti_hebbian", "random_walk"]
      ensures r.Ok? ==> IsLearningStep(weights, old(weights), inputs, partnerOutput, ruleName == "anti_hebbian", L)
    {
      LearningSteps(weights, inputs, partnerOutput, ruleName, K, N, L);
      hide IsLearningStep;
      var rule := ParseRule(ruleName);
      if rule.None? {
        return Err(UnknownRule);
      }
      if partnerOutput != -1 && partnerOutput != 1 {
        return Err(BadPartnerOutput);
      }
      var output := ComputeOutput(inputs);
      if output.Err? {
        return Err(BadInputs);
      }
      var (tau, sigmas) := output.value;
      if tau != partnerOutput {
        return Ok(false);
      }
      var before := weights;
      var gate := seq(K, i requires 0 <= i < K => sigmas[i] == tau);
      UpdateMeaning(rule.value, K, N, L, weights, inputs);
      if !(exists i :: 0 <= i < K && gate[i]) {
        assert forall i :: 0 <= i < K ==> gate[i] == (sigmas[i] == tau);
        ClosedGateKeeps(rule.value, K, N, L, weights, inputs);
        return Ok(false);
      }
      var delta := seq(K, i requires 0 <= i < K => GatedDelta(rule.value, inputs[i], sigmas[i], tau, gate[i]));
      weights := seq(K, i requires 0 <= i < K => AddClipStore(L, before[i], delta[i]));
      assert weights == Updated(rule.value, L, before, inputs);
      return Ok(before != weights);
    }
  }

  function ExportRow(row: Row): bytes {
    seq(|row|, j requires 0 <= j < |row| => row[j] % 256)
  }

  /** `export_weights().tobytes()`: row after row, one byte a weight. */
  function ExportBytes(w: Matrix): bytes {
    if w == [] then [] else ExportRow(w[0]) + ExportBytes(w[1..])
  }

  lemma {:induction false} ExportLength(w: Matrix, K: int, N: int)
    requires HasShape(w, K, N)
    ensures |ExportBytes(w)| == K * N
  {
    if w != [] {
      ExportLength(w[1..], K - 1, N);
      assert K * N == N + (K - 1) * N;
    }
  }

  lemma {:induction false} ExportAt(w: Matrix, K: int, N: int, L: int, i: int, j: int, place: int)
    requires 0 <= L <= 127 && IsWeights(w, K, N, L) && 0 <= i < K && 0 <= j < N && place == i * N + j
    ensures 0 <= place < |ExportBytes(w)|
    ensures ExportBytes(w)[place] == if w[i][j] < 0 then w[i][j] + 256 else w[i][j]
  {
    var first, rest := ExportRow(w[0]), ExportBytes(w[1..]);
    assert ExportBytes(w) == first + rest;
    if i == 0 {
      assert place == j;
    } else {
      RowsAbove(i, j, N, place);
      ExportAt(w[1..], K - 1, N, L, i - 1, j, place - N);
      assert ExportBytes(w)[place] == rest[place - N];
    }
  }

  lemma RowsAbove(i: int, j: int, N: int, place: int)
    requires i > 0 && place == i * N + j
    ensures place - N == (i - 1) * N + j
  {
  }

  /** Row after row, column after column: the byte at place i * N + j is
      weight (i, j) in two's complement, and there are no others. */
  lemma ExportPlaces(w: Matrix, K: int, N: int, L: int, i: int, j: int)
    requires 0 <= L <= 127 && IsWeights(w, K, N, L) && 0 <= i < K && 0 <= j < N
    ensures 0 <= i * N + j < K * N == |ExportBytes(w)|
    ensures ExportBytes(w)[i * N + j] == if w[i][j] < 0 then w[i][j] + 256 else w[i][j]
  {
    hide ExportBytes;
    ExportLength(w, K, N);
    ExportAt(w, K, N, L, i, j, i * N + j);
  }

  /** Equal bytes mean equal weights: for machines of one shape the export
      that fingerprint and key are computed from loses nothing. */
  lemma {:induction false} ExportIsInjective(v: Matrix, w: Matrix, K: int, N: int, L: int)
    requires 0 <= L <= 127 && IsWeights(v, K, N, L) && IsWeights(w, K, N, L)
    ensures ExportBytes(v) == ExportBytes(w) <==> v == w
  {
    if v != [] && w != [] && ExportBytes(v) == ExportBytes(w) {
      var a, b := ExportRow(v[0]), ExportRow(w[0]);
      assert a == ExportBytes(v)[..N] == ExportBytes(w)[..N] == b;
      assert ExportBytes(v[1..]) == ExportBytes(v)[N..] == ExportBytes(w)[N..] == ExportBytes(w[1..]);
      forall j | 0 <= j < N
        ensures v[0][j] == w[0][j]
      {
        assert a[j] == v[0][j] % 256 && b[j] == w[0][j] % 256;
      }
      assert v[0] == w[0];
      ExportIsInjective(v[1..], w[1..], K - 1, N, L);
      assert v == [v[0]] + v[1..] && w == [w[0]] + w[1..];
    }
  }
}
