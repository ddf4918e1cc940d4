/** The simple loop that two synchronising machines are meant to amount to:
    one shared input a round, both machines updated when their taus agree,
    fingerprints compared every few rounds.  No channels, no scheduling. */
module SequentialSync {
  import opened Basics
  import opened ClippedWalk
  import opened Encoding
  import opened Tpm
  import opened TpmDynamics

  /** What the two sessions share.  `bits` is numpy's generator: the bit drawn
      for seed, round, row and column.  `digest` is SHA-256. */
  datatype Config = Config(K: int, N: int, L: int, rule: LearningRule, maxRounds: int, checkEvery: int,
                           bits: (bv64, nat, nat, nat) -> bool, digest: bytes -> bytes)

  /** What the constructors of the machines and sessions insist on. */
  predicate ValidConfig(cfg: Config) {
    ValidParameters(cfg.K, cfg.N, cfg.L) && cfg.maxRounds >= 1 && cfg.checkEvery >= 1
  }

  predicate Fits(cfg: Config, w: Matrix) { IsWeights(w, cfg.K, cfg.N, cfg.L) }

  /** The public input of a round, bits mapped to -1 and +1. */
  function Input(cfg: Config, seed: bv64, round: nat): (x: Matrix)
    requires ValidConfig(cfg)
    ensures IsInput(x, cfg.K, cfg.N)
    ensures forall i, j :: 0 <= i < cfg.K && 0 <= j < cfg.N ==> (x[i][j] == 1 <==> cfg.bits(seed, round, i, j))
  {
    seq(cfg.K, i requires 0 <= i < cfg.K =>
      seq(cfg.N, j requires 0 <= j < cfg.N => (if cfg.bits(seed, round, i, j) then 1 else 0) * 2 - 1))
  }

  /** One update of one machine whose tau agreed with its partner's. */
  function Learn(cfg: Config, w: Matrix, x: Matrix): (r: Matrix)
    requires ValidConfig(cfg) && Fits(cfg, w) && IsInput(x, cfg.K, cfg.N)
    ensures Fits(cfg, r)
  {
    UpdateMeaning(cfg.rule, cfg.K, cfg.N, cfg.L, w, x);
    Updated(cfg.rule, cfg.L, w, x)
  }

  function Fingerprint(cfg: Config, w: Matrix): string { Hex(cfg.digest(ExportBytes(w))) }

  /** `CryptoEngine.derive_key_from_tpm`: the raw digest of the same bytes. */
  function DeriveKey(cfg: Config, w: Matrix): bytes { cfg.digest(ExportBytes(w)) }

  datatype Pair = Pair(a: Matrix, b: Matrix)

  predicate PairFits(cfg: Config, p: Pair) { Fits(cfg, p.a) && Fits(cfg, p.b) }

  function Round(cfg: Config, p: Pair, x: Matrix): (q: Pair)
    requires ValidConfig(cfg) && PairFits(cfg, p) && IsInput(x, cfg.K, cfg.N)
    ensures PairFits(cfg, q)
  {
    if Tau(p.a, x) == Tau(p.b, x) then Pair(Learn(cfg, p.a, x), Learn(cfg, p.b, x)) else p
  }

  /** Both weight matrices after the given number of rounds. */
  function After(cfg: Config, seed: bv64, p: Pair, rounds: nat): (q: Pair)
    requires ValidConfig(cfg) && PairFits(cfg, p)
    ensures PairFits(cfg, q)
  {
    if rounds == 0 then p else Round(cfg, After(cfg, seed, p, rounds - 1), Input(cfg, seed, rounds))
  }

  /** The fingerprints are compared at this round, and are equal. */
  predicate AgreeAt(cfg: Config, seed: bv64, p: Pair, round: nat)
    requires ValidConfig(cfg) && PairFits(cfg, p)
  {
    var q := After(cfg, seed, p, round);
    round >= 1 && round % cfg.checkEvery == 0 && Fingerprint(cfg, q.a) == Fingerprint(cfg, q.b)
  }

  /** No agreement at any round below the given one. */
  predicate NoneBefore(cfg: Config, seed: bv64, p: Pair, round: nat)
    requires ValidConfig(cfg) && PairFits(cfg, p)
  {
    forall r: nat :: r < round ==> !AgreeAt(cfg, seed, p, r)
  }

  datatype Verdict = Verdict(success: bool, rounds: nat)

  /** What the loop reports when run from the given round on. */
  function VerdictFrom(cfg: Config, seed: bv64, p: Pair, round: nat): (v: Verdict)
    requires ValidConfig(cfg) && PairFits(cfg, p) && round <= cfg.maxRounds + 1
    decreases cfg.maxRounds + 1 - round
  {
    if round > cfg.maxRounds then Verdict(false, cfg.maxRounds)
    else if AgreeAt(cfg, seed, p, round) then Verdict(true, round)
    else VerdictFrom(cfg, seed, p, round + 1)
  }

  function SequentialVerdict(cfg: Config, seed: bv64, p: Pair): Verdict
    requires ValidConfig(cfg) && PairFits(cfg, p)
  {
    VerdictFrom(cfg, seed, p, 1)
  }

  /** The verdict is the first agreement in the budget, if there is one. */
  lemma {:induction false} VerdictMeaning(cfg: Config, seed: bv64, p: Pair, round: nat)
    requires ValidConfig(cfg) && PairFits(cfg, p) && round <= cfg.maxRounds + 1
    ensures var v := VerdictFrom(cfg, seed, p, round);
            && (v.success ==> round <= v.rounds <= cfg.maxRounds && AgreeAt(cfg, seed, p, v.rounds))
            && (!v.success ==> v.rounds == cfg.maxRounds)
            && forall r: nat :: round <= r <= v.rounds && AgreeAt(cfg, seed, p, r) ==> v.success && r == v.rounds
    decreases cfg.maxRounds + 1 - round
  {
    hide AgreeAt, ValidConfig, PairFits;
    if round <= cfg.maxRounds { VerdictMeaning(cfg, seed, p, round + 1); }
  }

  /** Equal weights stay equal for ever, whatever the inputs and the rule. */
  lemma {:induction false} Absorption(cfg: Config, seed: bv64, p: Pair, from: nat, to: nat)
    requires ValidConfig(cfg) && PairFits(cfg, p) && from <= to
    requires After(cfg, seed, p, from).a == After(cfg, seed, p, from).b
    ensures After(cfg, seed, p, to).a == After(cfg, seed, p, to).b
  {
    hide Learn, Tau, Input;
    if from < to { Absorption(cfg, seed, p, from, to - 1); }
  }

  /** Over whole sessions "hebbian" and "random_walk" cannot be told apart:
      same weights after every round, same verdict, same round count. */
  lemma {:induction false} SameRuns(cfg: Config, seed: bv64, p: Pair, rounds: nat)
    requires ValidConfig(cfg) && PairFits(cfg, p)
    ensures After(cfg.(rule := Hebbian), seed, p, rounds) == After(cfg.(rule := RandomWalk), seed, p, rounds)
  {
    hide Tau, Updated;
    if rounds > 0 {
      SameRuns(cfg, seed, p, rounds - 1);
      var q := After(cfg.(rule := Hebbian), seed, p, rounds - 1);
      var x := Input(cfg, seed, rounds);
      RulesUnderTheGate(cfg.K, cfg.N, cfg.L, q.a, x);
      RulesUnderTheGate(cfg.K, cfg.N, cfg.L, q.b, x);
    }
  }

  lemma {:induction false} SameVerdicts(cfg: Config, seed: bv64, p: Pair, round: nat)
    requires ValidConfig(cfg) && PairFits(cfg, p) && round <= cfg.maxRounds + 1
    ensures VerdictFrom(cfg.(rule := Hebbian), seed, p, round) == VerdictFrom(cfg.(rule := RandomWalk), seed, p, round)
    decreases cfg.maxRounds + 1 - round
  {
    hide After, ValidConfig, PairFits;
    if round <= cfg.maxRounds {
      SameRuns(cfg, seed, p, round);
      SameVerdicts(cfg, seed, p, round + 1);
    }
  }

  // ------------------------------------------------------- merging in a run

  /** Unit i of machine w moves in a round where the partner shows `tau`. */
  predicate Moves(w: Matrix, x: Matrix, tau: int, i: nat)
    requires |w| == |x| && i < |w| && forall k :: 0 <= k < |w| ==> |w[k]| == |x[k]|
  {
    Tau(w, x) == tau && Sigmas(w, x)[i] == tau
  }

  /** In this round unit i moves on both sides or on neither. */
  predicate MovesJointly(cfg: Config, seed: bv64, p: Pair, round: nat, i: nat)
    requires ValidConfig(cfg) && PairFits(cfg, p) && 1 <= round && i < cfg.K
  {
    var q, x := After(cfg, seed, p, round - 1), Input(cfg, seed, round);
    Moves(q.a, x, Tau(q.b, x), i) == Moves(q.b, x, Tau(q.a, x), i)
  }

  /** The increment a round gives coordinate (i, j) of the first machine. */
  function Increment(cfg: Config, seed: bv64, p: Pair, i: nat, j: nat, round: nat): int
    requires ValidConfig(cfg) && PairFits(cfg, p) && 1 <= round && i < cfg.K && j < cfg.N
  {
    var q, x := After(cfg, seed, p, round - 1), Input(cfg, seed, round);
    if Moves(q.a, x, Tau(q.b, x), i) then Direction(cfg.rule) * x[i][j] else 0
  }

  /** The increments coordinate (i, j) of the first machine is given in the
      rounds after `from` up to `to`: the signed input, or 0 if unit i rests. */
  function Applied(cfg: Config, seed: bv64, p: Pair, i: nat, j: nat, from: nat, to: nat): (s: seq<int>)
    requires ValidConfig(cfg) && PairFits(cfg, p) && from <= to && i < cfg.K && j < cfg.N
    ensures |s| == to - from
  {
    if from == to then [] else Applied(cfg, seed, p, i, j, from, to - 1) + [Increment(cfg, seed, p, i, j, to)]
  }

  predicate JointBetween(cfg: Config, seed: bv64, p: Pair, i: nat, from: nat, to: nat)
    requires ValidConfig(cfg) && PairFits(cfg, p) && i < cfg.K
  {
    forall r: nat :: from < r <= to ==> MovesJointly(cfg, seed, p, r, i)
  }

  /** One coordinate of one machine in one round takes one clipped step. */
  lemma CoordinateStep(cfg: Config, w: Matrix, x: Matrix, tau: int, i: nat, j: nat)
    requires ValidConfig(cfg) && Fits(cfg, w) && IsInput(x, cfg.K, cfg.N) && i < cfg.K && j < cfg.N
    ensures var w' := if Tau(w, x) == tau then Learn(cfg, w, x) else w;
            w'[i][j] == Clip(w[i][j] + (if Moves(w, x, tau, i) then Direction(cfg.rule) * x[i][j] else 0), cfg.L)
  {
    UpdateMeaning(cfg.rule, cfg.K, cfg.N, cfg.L, w, x);
  }

  /** A round, weight by weight: only if the taus agree, and then only in the
      units that answer tau, by that machine's own answers, a step of +1 or -1
      as the generator's bit says (or its opposite under anti-Hebbian). */
  lemma RoundMeaning(cfg: Config, seed: bv64, p: Pair, round: nat, i: nat, j: nat)
    requires ValidConfig(cfg) && PairFits(cfg, p) && 1 <= round && i < cfg.K && j < cfg.N
    ensures var q, r, x := After(cfg, seed, p, round - 1), After(cfg, seed, p, round), Input(cfg, seed, round);
            var step := Direction(cfg.rule) * if cfg.bits(seed, round, i, j) then 1 else -1;
            && r.a[i][j] == Clip(q.a[i][j] + (if Moves(q.a, x, Tau(q.b, x), i) then step else 0), cfg.L)
            && r.b[i][j] == Clip(q.b[i][j] + (if Moves(q.b, x, Tau(q.a, x), i) then step else 0), cfg.L)
  {
    hide Moves, Input, Learn, Tau;
    var q, x := After(cfg, seed, p, round - 1), Input(cfg, seed, round);
    CoordinateStep(cfg, q.a, x, Tau(q.b, x), i, j);
    CoordinateStep(cfg, q.b, x, Tau(q.a, x), i, j);
    assert x[i][j] == if cfg.bits(seed, round, i, j) then 1 else -1;
  }

  /** One round of the loop is one clipped step of each copy. */
  lemma CoordinateRound(cfg: Config, seed: bv64, p: Pair, i: nat, j: nat, to: nat)
    requires ValidConfig(cfg) && PairFits(cfg, p) && 1 <= to && i < cfg.K && j < cfg.N &&
             MovesJointly(cfg, seed, p, to, i)
    ensures var q, end, step := After(cfg, seed, p, to - 1), After(cfg, seed, p, to), Increment(cfg, seed, p, i, j, to);
            end.a[i][j] == Clip(q.a[i][j] + step, cfg.L) && end.b[i][j] == Clip(q.b[i][j] + step, cfg.L)
  {
    hide Moves, Input, Learn, Tau;
    var q, x := After(cfg, seed, p, to - 1), Input(cfg, seed, to);
    CoordinateStep(cfg, q.a, x, Tau(q.b, x), i, j);
    CoordinateStep(cfg, q.b, x, Tau(q.a, x), i, j);
  }

  /** While unit i moves jointly, both copies of a coordinate are walks driven
      by one and the same sequence of increments. */
  lemma {:induction false} CoordinatesAreWalks(cfg: Config, seed: bv64, p: Pair, i: nat, j: nat, from: nat, to: nat)
    requires ValidConfig(cfg) && PairFits(cfg, p) && from <= to && i < cfg.K && j < cfg.N
    requires JointBetween(cfg, seed, p, i, from, to)
    ensures var start, end := After(cfg, seed, p, from), After(cfg, seed, p, to);
            var steps := Applied(cfg, seed, p, i, j, from, to);
            && end.a[i][j] == Walk(start.a[i][j], steps, cfg.L)
            && end.b[i][j] == Walk(start.b[i][j], steps, cfg.L)
  {
    hide Increment, MovesJointly, After, Clip;
    if from < to {
      CoordinatesAreWalks(cfg, seed, p, i, j, from, to - 1);
      CoordinateRound(cfg, seed, p, i, j, to);
      var steps := Applied(cfg, seed, p, i, j, from, to);
      assert steps[..|steps| - 1] == Applied(cfg, seed, p, i, j, from, to - 1);
    }
  }

  /** The exact merge criterion inside a run: a coordinate is equal on both
      sides exactly when it started equal, or the applied increments have
      spanned 2L, or have pushed the lower copy to L or the upper to -L. */
  lemma CoordinateMerges(cfg: Config, seed: bv64, p: Pair, i: nat, j: nat, from: nat, to: nat)
    requires ValidConfig(cfg) && PairFits(cfg, p) && from <= to && i < cfg.K && j < cfg.N
    requires JointBetween(cfg, seed, p, i, from, to)
    ensures var start, end := After(cfg, seed, p, from), After(cfg, seed, p, to);
            var steps := Applied(cfg, seed, p, i, j, from, to);
            var lower, upper := Min(start.a[i][j], start.b[i][j]), Max(start.a[i][j], start.b[i][j]);
            end.a[i][j] == end.b[i][j] <==>
            || lower == upper
            || Span(steps) >= 2 * cfg.L
            || lower + Highest(steps) >= cfg.L
            || upper + Lowest(steps) <= -cfg.L
  {
    hide After, Applied, Span, Walk, Highest, Lowest;
    CoordinatesAreWalks(cfg, seed, p, i, j, from, to);
    var start := After(cfg, seed, p, from);
    var u, v := start.a[i][j], start.b[i][j];
    if u != v { MergeCriterion(Min(u, v), Max(u, v), Applied(cfg, seed, p, i, j, from, to), cfg.L); }
  }

  // --------------------------------------------------- distance over a run

  /** The taus agree in this round, so both machines are updated. */
  predicate Agreed(cfg: Config, seed: bv64, p: Pair, round: nat)
    requires ValidConfig(cfg) && PairFits(cfg, p) && 1 <= round
  {
    var q, x := After(cfg, seed, p, round - 1), Input(cfg, seed, round);
    Tau(q.a, x) == Tau(q.b, x)
  }

  function DistanceAt(cfg: Config, seed: bv64, p: Pair, round: nat): nat
    requires ValidConfig(cfg) && PairFits(cfg, p)
  {
    var q := After(cfg, seed, p, round);
    Distance(q.a, q.b, cfg.N, cfg.K)
  }

  /** Units that differ in this round, if it updates at all: an even number. */
  function Differing(cfg: Config, seed: bv64, p: Pair, round: nat): nat
    requires ValidConfig(cfg) && PairFits(cfg, p) && 1 <= round
  {
    var q, x := After(cfg, seed, p, round - 1), Input(cfg, seed, round);
    if Agreed(cfg, seed, p, round) then Differences(Sigmas(q.a, x), Sigmas(q.b, x), cfg.K) else 0
  }

  /** Lone clips of this round, if it updates at all. */
  function Bounced(cfg: Config, seed: bv64, p: Pair, round: nat): nat
    requires ValidConfig(cfg) && PairFits(cfg, p) && 1 <= round
  {
    var q, x := After(cfg, seed, p, round - 1), Input(cfg, seed, round);
    if Agreed(cfg, seed, p, round) then JointBounces(q.a, q.b, x, cfg.rule, cfg.K, cfg.N, cfg.L, cfg.K) else 0
  }

  function TotalDiffering(cfg: Config, seed: bv64, p: Pair, rounds: nat): nat
    requires ValidConfig(cfg) && PairFits(cfg, p)
  {
    if rounds == 0 then 0 else TotalDiffering(cfg, seed, p, rounds - 1) + Differing(cfg, seed, p, rounds)
  }

  function TotalBounced(cfg: Config, seed: bv64, p: Pair, rounds: nat): nat
    requires ValidConfig(cfg) && PairFits(cfg, p)
  {
    if rounds == 0 then 0 else TotalBounced(cfg, seed, p, rounds - 1) + Bounced(cfg, seed, p, rounds)
  }

  lemma DistanceRound(cfg: Config, seed: bv64, p: Pair, round: nat)
    requires ValidConfig(cfg) && PairFits(cfg, p) && 1 <= round
    ensures var before, after := DistanceAt(cfg, seed, p, round - 1), DistanceAt(cfg, seed, p, round);
            var slack := cfg.N * Differing(cfg, seed, p, round);
            before - slack <= after + Bounced(cfg, seed, p, round) <= before + slack
    ensures Differing(cfg, seed, p, round) % 2 == 0
  {
    hide Distance, Differences, JointBounces, Tau, Updated;
    var q, x := After(cfg, seed, p, round - 1), Input(cfg, seed, round);
    if Agreed(cfg, seed, p, round) { DistanceAccounting(cfg.rule, cfg.K, cfg.N, cfg.L, q.a, q.b, x); }
  }

  /** Distance accounting for whole runs: the distance after any number of
      rounds plus all lone clips so far is the initial distance, up to N for
      each unit that has differed in an updating round; and such units come
      in pairs. */
  lemma {:induction false} DistanceOverRun(cfg: Config, seed: bv64, p: Pair, rounds: nat)
    requires ValidConfig(cfg) && PairFits(cfg, p)
    ensures var before, after := DistanceAt(cfg, seed, p, 0), DistanceAt(cfg, seed, p, rounds);
            var slack := cfg.N * TotalDiffering(cfg, seed, p, rounds);
            before - slack <= after + TotalBounced(cfg, seed, p, rounds) <= before + slack
    ensures TotalDiffering(cfg, seed, p, rounds) % 2 == 0
  {
    hide DistanceAt, Differing, Bounced;
    if rounds > 0 {
      DistanceOverRun(cfg, seed, p, rounds - 1);
      DistanceRound(cfg, seed, p, rounds);
      TimesSum(cfg.N, TotalDiffering(cfg, seed, p, rounds - 1), Differing(cfg, seed, p, rounds));
    }
  }

  lemma TimesSum(n: int, x: int, y: int)
    ensures n * (x + y) == n * x + n * y
  {
  }

  /** Once every unit has moved jointly long enough for every coordinate's
      increments to span 2L, the machines are equal, and the loop succeeds no
      later than the next comparison. */
  lemma SpannedRunsSucceed(cfg: Config, seed: bv64, p: Pair, from: nat, to: nat, check: nat)
    requires ValidConfig(cfg) && PairFits(cfg, p) && from <= to <= check <= cfg.maxRounds
    requires 1 <= check && check % cfg.checkEvery == 0
    requires forall i: nat :: i < cfg.K ==> JointBetween(cfg, seed, p, i, from, to)
    requires forall i: nat, j: nat :: i < cfg.K && j < cfg.N ==>
               Span(Applied(cfg, seed, p, i, j, from, to)) >= 2 * cfg.L
    ensures After(cfg, seed, p, to).a == After(cfg, seed, p, to).b
    ensures SequentialVerdict(cfg, seed, p).success && SequentialVerdict(cfg, seed, p).rounds <= check
  {
    hide Applied, After, Span, Walk, JointBetween, VerdictFrom;
    VerdictMeaning(cfg, seed, p, 1);
    var end := After(cfg, seed, p, to);
    forall i: nat | i < cfg.K
      ensures end.a[i] == end.b[i]
    {
      forall j: nat | j < cfg.N
        ensures end.a[i][j] == end.b[i][j]
      {
        var start := After(cfg, seed, p, from);
        CoordinatesAreWalks(cfg, seed, p, i, j, from, to);
        ExtremesMergeLast(Applied(cfg, seed, p, i, j, from, to), cfg.L);
        assert -cfg.L <= start.a[i][j] <= cfg.L && -cfg.L <= start.b[i][j] <= cfg.L;
      }
    }
    assert end.a == end.b;
    Absorption(cfg, seed, p, to, check);
    assert AgreeAt(cfg, seed, p, check);
  }

  // ------------------------------------------------------------------- keys

  ghost predicate CollisionFree(cfg: Config) { forall u, v :: cfg.digest(u) == cfg.digest(v) ==> u == v }

  /** There are such digests; the identity is one. */
  lemma IdentityIsCollisionFree(cfg: Config)
    requires forall b :: cfg.digest(b) == b
    ensures CollisionFree(cfg)
  {
  }

  /** The byte at place i * N + j is weight (i, j) in two's complement. */
  predicate Placed(b: bytes, w: Matrix, N: int, i: int, j: int)
    requires 0 <= i < |w| && 0 <= j < |w[i]|
  {
    0 <= i * N + j < |b| && b[i * N + j] == if w[i][j] < 0 then w[i][j] + 256 else w[i][j]
  }

  /** The bytes list the weights row after row. */
  predicate Lists(b: bytes, w: Matrix, K: int, N: int)
    requires HasShape(w, K, N)
  {
    |b| == K * N && forall i, j :: 0 <= i < K && 0 <= j < N ==> Placed(b, w, N, i, j)
  }

  lemma ExportLists(w: Matrix, K: int, N: int, L: int)
    requires ValidParameters(K, N, L) && IsWeights(w, K, N, L)
    ensures Lists(ExportBytes(w), w, K, N)
  {
    hide ExportBytes, Placed;
    ExportLength(w, K, N);
    forall i, j | 0 <= i < K && 0 <= j < N
      ensures Placed(ExportBytes(w), w, N, i, j)
    {
      ExportPlaced(w, K, N, L, i, j);
    }
  }

  lemma ExportPlaced(w: Matrix, K: int, N: int, L: int, i: int, j: int)
    requires ValidParameters(K, N, L) && IsWeights(w, K, N, L) && 0 <= i < K && 0 <= j < N
    ensures Placed(ExportBytes(w), w, N, i, j)
  {
    hide ExportBytes;
    ExportPlaces(w, K, N, L, i, j);
  }

  lemma ListsAgree(b: bytes, c: bytes, w: Matrix, K: int, N: int, k: nat)
    requires HasShape(w, K, N) && N >= 1 && Lists(b, w, K, N) && Lists(c, w, K, N) && k < |b|
    ensures |b| == |c| && b[k] == c[k]
  {
    RowOfPlace(k, K, N);
    var i, j := k / N, k % N;
    assert Placed(b, w, N, i, j) && Placed(c, w, N, i, j) && k == i * N + j;
  }

  lemma ListIsExport(b: bytes, w: Matrix, K: int, N: int, L: int)
    requires ValidParameters(K, N, L) && IsWeights(w, K, N, L)
    ensures Lists(b, w, K, N) <==> b == ExportBytes(w)
  {
    hide ExportBytes, Lists;
    ExportLists(w, K, N, L);
    if Lists(b, w, K, N) {
      ExportLength(w, K, N);
      ListsLength(b, w, K, N);
      forall k | 0 <= k < |b|
        ensures b[k] == ExportBytes(w)[k]
      {
        ListsAgree(b, ExportBytes(w), w, K, N, k);
      }
    }
  }

  lemma ListsLength(b: bytes, w: Matrix, K: int, N: int)
    requires HasShape(w, K, N) && Lists(b, w, K, N)
    ensures |b| == K * N
  {
  }

  lemma RowOfPlace(k: nat, K: int, N: int)
    requires N >= 1 && k < K * N
    ensures 0 <= k / N < K && 0 <= k % N < N
  {
    assert k == k / N * N + k % N;
    if k / N >= K { LeMul(K, k / N, N); }
  }

  /** Fingerprint and key are one digest, printed and raw: that of the weights
      listed row after row, one byte each. */
  lemma KeyIsDigestOfWeights(cfg: Config, w: Matrix, b: bytes)
    requires ValidConfig(cfg) && Fits(cfg, w) && Lists(b, w, cfg.K, cfg.N)
    ensures DeriveKey(cfg, w) == cfg.digest(b) && Hex(DeriveKey(cfg, w)) == Fingerprint(cfg, w)
  {
    hide Hex;
    ListIsExport(b, w, cfg.K, cfg.N, cfg.L);
  }

  /** With a collision-free digest the key identifies the weights. */
  lemma KeyIdentifiesWeights(cfg: Config, v: Matrix, w: Matrix)
    requires ValidConfig(cfg) && Fits(cfg, v) && Fits(cfg, w) && CollisionFree(cfg)
    ensures DeriveKey(cfg, v) == DeriveKey(cfg, w) <==> v == w
    ensures Fingerprint(cfg, v) == Fingerprint(cfg, w) <==> v == w
  {
    hide IsWeights;
    HexIsInjective(cfg.digest(ExportBytes(v)), cfg.digest(ExportBytes(w)));
    ExportIsInjective(v, w, cfg.K, cfg.N, cfg.L);
  }

  /** The last round of the budget at which fingerprints are compared. */
  function LastCheck(cfg: Config): int
    requires cfg.checkEvery >= 1
  {
    cfg.maxRounds - cfg.maxRounds % cfg.checkEvery
  }

  lemma MultipleBelow(q: nat, s: nat, c: nat, rest: nat)
    requires rest < c && s * c <= q * c + rest
    ensures s * c <= q * c
  {
    if s > q {
      LeMul(q + 1, s, c);
    } else {
      LeMul(s, q, c);
    }
  }

  lemma QuotientTimes(m: nat, c: nat)
    requires c >= 1
    ensures m == m / c * c + m % c && m % c < c
  {
  }

  /** m - m % c is the largest multiple of c up to m. */
  lemma LargestMultiple(m: nat, c: nat, r: nat)
    requires c >= 1
    ensures 0 <= m - m % c <= m && (m - m % c) % c == 0
    ensures r <= m && r % c == 0 ==> r <= m - m % c
  {
    QuotientTimes(m, c);
    QuotientTimes(r, c);
    Divides(m / c, 0, c, m - m % c);
    if r <= m && r % c == 0 { MultipleBelow(m / c, r / c, c, m % c); }
  }

  lemma ChecksUpToLast(cfg: Config, r: nat)
    requires ValidConfig(cfg)
    ensures 0 <= LastCheck(cfg) <= cfg.maxRounds && LastCheck(cfg) % cfg.checkEvery == 0
    ensures r <= cfg.maxRounds && r % cfg.checkEvery == 0 ==> r <= LastCheck(cfg)
  {
    LargestMultiple(cfg.maxRounds, cfg.checkEvery, r);
  }

  /** With a collision-free digest, the verdict in terms of the weights alone:
      the loop succeeds exactly when the machines are equal at the last
      comparison of the budget, and reports the first comparison at which
      they are. */
  lemma VerdictFromWeights(cfg: Config, seed: bv64, p: Pair)
    requires ValidConfig(cfg) && PairFits(cfg, p) && CollisionFree(cfg)
    ensures LastCheck(cfg) >= 0
    ensures var v, last := SequentialVerdict(cfg, seed, p), LastCheck(cfg);
            && (v.success <==> last >= 1 && After(cfg, seed, p, last).a == After(cfg, seed, p, last).b)
            && (v.success ==>
                  && 1 <= v.rounds <= last && v.rounds % cfg.checkEvery == 0
                  && forall r: nat :: 1 <= r <= v.rounds && r % cfg.checkEvery == 0 ==>
                       (After(cfg, seed, p, r).a == After(cfg, seed, p, r).b <==> r == v.rounds))
            && (!v.success ==> v.rounds == cfg.maxRounds)
  {
    hide After, VerdictFrom, IsWeights, Fingerprint, CollisionFree;
    VerdictMeaning(cfg, seed, p, 1);
    var v, last := SequentialVerdict(cfg, seed, p), LastCheck(cfg);
    ChecksUpToLast(cfg, v.rounds);
    forall r: nat
      ensures AgreeAt(cfg, seed, p, r) <==>
              r >= 1 && r % cfg.checkEvery == 0 && After(cfg, seed, p, r).a == After(cfg, seed, p, r).b
    {
      KeyIdentifiesWeights(cfg, After(cfg, seed, p, r).a, After(cfg, seed, p, r).b);
    }
    if v.success { Absorption(cfg, seed, p, v.rounds, last); }
  }

  /** With a collision-free digest, success means equal weights; with any
      digest at all it means equal keys. */
  lemma SuccessMeansSharedKey(cfg: Config, seed: bv64, p: Pair)
    requires ValidConfig(cfg) && PairFits(cfg, p) && SequentialVerdict(cfg, seed, p).success
    ensures var q := After(cfg, seed, p, SequentialVerdict(cfg, seed, p).rounds);
            && DeriveKey(cfg, q.a) == DeriveKey(cfg, q.b)
            && (CollisionFree(cfg) ==> q.a == q.b)
  {
    hide After, VerdictFrom, IsWeights;
    VerdictMeaning(cfg, seed, p, 1);
    var q := After(cfg, seed, p, SequentialVerdict(cfg, seed, p).rounds);
    HexIsInjective(DeriveKey(cfg, q.a), DeriveKey(cfg, q.b));
    ExportIsInjective(q.a, q.b, cfg.K, cfg.N, cfg.L);
  }
}
