/** core/sync_protocol.py as a transition system: two sessions, each a program
    counter with its round, seed and weights, joined by two FIFO channels.
    Every interleaving, with a timeout possible at any receive, is a run. */
module SyncSystem {
  import opened Basics
  import opened Tpm
  import opened SequentialSync

  // ------------------------------------------------------------- one session

  datatype Kind = SeedKind | TauKind | FpKind

  /** What travels; application frames may follow on the same connection. */
  datatype Msg = SeedMsg(seed: bv64) | TauMsg(tau: int) | FpMsg(fp: string) | AppMsg(payload: bytes)

  /** A session that gives up remembers in which receive.  `CutOff` is the
      exception of a transport whose peer has closed it, in a send or a
      receive: over TCP a session that ends without success closes, and
      `synchronize` does not catch what its peer then runs into. */
  datatype Outcome = Success | Exhausted | TimedOut(waitingFor: Kind) | CutOff(sending: bool, at: Kind) | Crashed

  /** About to send, or waiting to receive, the message of the given kind. */
  datatype Status = Sending(kind: Kind) | Receiving(kind: Kind) | Finished(outcome: Outcome)

  /** `seed` is the local contribution until the handshake is over and the
      agreed seed afterwards; `round` is 0 during the handshake. */
  datatype Side = Side(status: Status, round: nat, seed: bv64, weights: Matrix)

  function StartSide(seed: bv64, w: Matrix): Side { Side(Sending(SeedKind), 0, seed, w) }

  /** Symmetric seed agreement: each side XORs its own seed with the peer's. */
  function AgreedSeed(mine: bv64, theirs: bv64): bv64 { mine ^ theirs }

  lemma AgreedSeedIsSymmetric(x: bv64, y: bv64)
    ensures AgreedSeed(x, y) == AgreedSeed(y, x)
  {
  }

  /** Joining the same seed twice cancels, and 0 joins as nothing: the agreed
      seed and either contribution determine the other. */
  lemma AgreedSeedCancels(x: bv64, y: bv64)
    ensures AgreedSeed(AgreedSeed(x, y), y) == x && AgreedSeed(x, 0) == x
  {
  }

  function Outgoing(cfg: Config, s: Side): Msg
    requires ValidConfig(cfg) && Fits(cfg, s.weights) && s.status.Sending?
  {
    match s.status.kind
    case SeedKind => SeedMsg(s.seed)
    case TauKind => TauMsg(Tau(s.weights, Input(cfg, s.seed, s.round)))
    case FpKind => FpMsg(Fingerprint(cfg, s.weights))
  }

  /** The next iteration of the round loop, or its end. */
  function NextRound(cfg: Config, s: Side): Side {
    if s.round >= cfg.maxRounds then s.(status := Finished(Exhausted))
    else s.(status := Sending(TauKind), round := s.round + 1)
  }

  /** The round loop from a received message to the next send; a message of
      the wrong kind raises. */
  function Consume(cfg: Config, s: Side, m: Msg): (r: Side)
    requires ValidConfig(cfg) && Fits(cfg, s.weights) && s.status.Receiving?
    ensures Fits(cfg, r.weights)
  {
    match (s.status.kind, m)
    case (SeedKind, SeedMsg(peer)) => s.(status := Sending(TauKind), round := 1, seed := AgreedSeed(s.seed, peer))
    case (TauKind, TauMsg(tau)) =>
      var x := Input(cfg, s.seed, s.round);
      var learned := if Tau(s.weights, x) == tau then s.(weights := Learn(cfg, s.weights, x)) else s;
      if s.round % cfg.checkEvery == 0 then learned.(status := Sending(FpKind)) else NextRound(cfg, learned)
    case (FpKind, FpMsg(fp)) =>
      if Fingerprint(cfg, s.weights) == fp then s.(status := Finished(Success)) else NextRound(cfg, s)
    case _ => s.(status := Finished(Crashed))
  }

  /** A receive that times out ends the session. */
  function GiveUp(s: Side): Side
    requires s.status.Receiving?
  {
    s.(status := Finished(TimedOut(s.status.kind)))
  }

  /** A send or receive on a transport the peer has closed ends it too. */
  function Disconnected(s: Side): Side
    requires !s.status.Finished?
  {
    s.(status := Finished(CutOff(s.status.Sending?, s.status.kind)))
  }

  predicate IsCutOff(s: Side) { s.status.Finished? && s.status.outcome.CutOff? }

  predicate HasGivenUp(s: Side) { s.status.Finished? && (s.status.outcome.TimedOut? || s.status.outcome.CutOff?) }

  /** Whoever ends without success closes the connection. */
  predicate HasHungUp(s: Side) { s.status.Finished? && s.status != Finished(Success) }

  // ------------------------------------------------------------ two sessions

  datatype Who = A | B

  /** `ab` carries what the first side sent and the second has not yet taken. */
  datatype Sys = Sys(a: Side, b: Side, ab: seq<Msg>, ba: seq<Msg>)

  datatype Action = Run(who: Who) | Timeout(who: Who) | Sever(who: Who) | Post(who: Who, payload: bytes)

  function Swap(s: Sys): Sys { Sys(s.b, s.a, s.ba, s.ab) }

  predicate SysFits(cfg: Config, s: Sys) { Fits(cfg, s.a.weights) && Fits(cfg, s.b.weights) }

  /** One step of the first side.  A receive on an empty channel waits; an
      application frame can be posted only once the sync has succeeded. */
  function FirstSideActs(cfg: Config, s: Sys, act: Action): (r: Sys)
    requires ValidConfig(cfg) && SysFits(cfg, s)
    ensures SysFits(cfg, r)
  {
    match act
    case Run(_) =>
      (match s.a.status
       case Sending(kind) => s.(a := s.a.(status := Receiving(kind)), ab := s.ab + [Outgoing(cfg, s.a)])
       case Receiving(_) => if s.ba == [] then s else s.(a := Consume(cfg, s.a, s.ba[0]), ba := s.ba[1..])
       case Finished(_) => s)
    case Timeout(_) => if s.a.status.Receiving? then s.(a := GiveUp(s.a)) else s
    case Sever(_) => if !s.a.status.Finished? && HasHungUp(s.b) then s.(a := Disconnected(s.a)) else s
    case Post(_, payload) => if s.a.status == Finished(Success) then s.(ab := s.ab + [AppMsg(payload)]) else s
  }

  function Step(cfg: Config, s: Sys, act: Action): (r: Sys)
    requires ValidConfig(cfg) && SysFits(cfg, s)
    ensures SysFits(cfg, r)
  {
    if act.who == A then FirstSideActs(cfg, s, act) else Swap(FirstSideActs(cfg, Swap(s), act))
  }

  /** The state after a schedule. */
  function Exec(cfg: Config, s: Sys, acts: seq<Action>): (r: Sys)
    requires ValidConfig(cfg) && SysFits(cfg, s)
    ensures SysFits(cfg, r)
  {
    if acts == [] then s else Step(cfg, Exec(cfg, s, acts[..|acts| - 1]), acts[|acts| - 1])
  }

  function Start(seedA: bv64, seedB: bv64, p: Pair): Sys {
    Sys(StartSide(seedA, p.a), StartSide(seedB, p.b), [], [])
  }

  function SideOf(s: Sys, who: Who): Side { if who == A then s.a else s.b }

  function Inbound(s: Sys, who: Who): seq<Msg> { if who == A then s.ba else s.ab }

  function Other(who: Who): Who { if who == A then B else A }

  // --------------------------------------------------- the lockstep schedule

  datatype Duo = Duo(a: Side, b: Side)

  predicate DuoFits(cfg: Config, d: Duo) { Fits(cfg, d.a.weights) && Fits(cfg, d.b.weights) }

  /** Both sides send, then both receive. */
  function Exchange(cfg: Config, d: Duo): (r: Duo)
    requires ValidConfig(cfg) && DuoFits(cfg, d)
    ensures DuoFits(cfg, r)
  {
    if d.a.status.Sending? && d.b.status.Sending? then
      Duo(Consume(cfg, Waiting(d.a), Outgoing(cfg, d.b)), Consume(cfg, Waiting(d.b), Outgoing(cfg, d.a)))
    else d
  }

  function Waiting(s: Side): Side
    requires s.status.Sending?
  {
    s.(status := Receiving(s.status.kind))
  }

  function Lock(cfg: Config, d: Duo, k: nat): (r: Duo)
    requires ValidConfig(cfg) && DuoFits(cfg, d)
    ensures DuoFits(cfg, r)
  {
    if k == 0 then d else Exchange(cfg, Lock(cfg, d, k - 1))
  }

  /** The pair of sides in terms of the sequential loop. */
  ghost predicate DuoRefines(cfg: Config, seed: bv64, p: Pair, d: Duo)
    requires ValidConfig(cfg) && PairFits(cfg, p)
  {
    var r := d.a.round;
    && d.a.status == d.b.status && d.b.round == r
    && match d.a.status
       case Sending(SeedKind) =>
         r == 0 && AgreedSeed(d.a.seed, d.b.seed) == seed && AgreedSeed(d.b.seed, d.a.seed) == seed &&
             Pair(d.a.weights, d.b.weights) == p
       case Sending(TauKind) =>
         && 1 <= r <= cfg.maxRounds && d.a.seed == seed == d.b.seed
         && Pair(d.a.weights, d.b.weights) == After(cfg, seed, p, r - 1) && NoneBefore(cfg, seed, p, r)
       case Sending(FpKind) =>
         && 1 <= r <= cfg.maxRounds && r % cfg.checkEvery == 0 && d.a.seed == seed == d.b.seed
         && Pair(d.a.weights, d.b.weights) == After(cfg, seed, p, r) && NoneBefore(cfg, seed, p, r)
       case Finished(Success) =>
         && 1 <= r <= cfg.maxRounds
         && Pair(d.a.weights, d.b.weights) == After(cfg, seed, p, r) && NoneBefore(cfg, seed, p, r) &&
             AgreeAt(cfg, seed, p, r)
       case Finished(Exhausted) =>
         && r == cfg.maxRounds
         && Pair(d.a.weights, d.b.weights) == After(cfg, seed, p, r) && NoneBefore(cfg, seed, p, r + 1)
       case _ => false
  }

  lemma SeedExchangeRefines(cfg: Config, seed: bv64, p: Pair, d: Duo)
    requires ValidConfig(cfg) && PairFits(cfg, p) && DuoFits(cfg, d) && DuoRefines(cfg, seed, p, d)
    requires d.a.status == Sending(SeedKind)
    ensures DuoRefines(cfg, seed, p, Exchange(cfg, d)) && Exchange(cfg, d).a.round == 1
  {
    hide Tau, Input, Learn, Fingerprint, IsWeights, NextRound, AgreeAt, Round, AgreedSeed;
    OffRoundsDoNotAgree(cfg, seed, p, 0);
    assert After(cfg, seed, p, 0) == p;
  }

  lemma TauExchangeRefines(cfg: Config, seed: bv64, p: Pair, d: Duo)
    requires ValidConfig(cfg) && PairFits(cfg, p) && DuoFits(cfg, d) && DuoRefines(cfg, seed, p, d)
    requires d.a.status == Sending(TauKind)
    ensures DuoRefines(cfg, seed, p, Exchange(cfg, d))
    ensures d.a.round <= Exchange(cfg, d).a.round <= d.a.round + 1
  {
    hide Tau, Input, Learn, Fingerprint, IsWeights, AgreeAt;
    var r := d.a.round;
    assert After(cfg, seed, p, r) == Round(cfg, After(cfg, seed, p, r - 1), Input(cfg, seed, r));
    OffRoundsDoNotAgree(cfg, seed, p, r);
  }

  lemma OffRoundsDoNotAgree(cfg: Config, seed: bv64, p: Pair, r: nat)
    requires ValidConfig(cfg) && PairFits(cfg, p)
    ensures r == 0 || r % cfg.checkEvery != 0 ==> !AgreeAt(cfg, seed, p, r)
  {
    hide After, Fingerprint;
  }

  lemma FpExchangeRefines(cfg: Config, seed: bv64, p: Pair, d: Duo)
    requires ValidConfig(cfg) && PairFits(cfg, p) && DuoFits(cfg, d) && DuoRefines(cfg, seed, p, d)
    requires d.a.status == Sending(FpKind)
    ensures DuoRefines(cfg, seed, p, Exchange(cfg, d))
    ensures d.a.round <= Exchange(cfg, d).a.round <= d.a.round + 1
  {
    hide Tau, Input, Learn, Fingerprint, IsWeights, After;
  }

  lemma ExchangeRefines(cfg: Config, seed: bv64, p: Pair, d: Duo)
    requires ValidConfig(cfg) && PairFits(cfg, p) && DuoFits(cfg, d) && DuoRefines(cfg, seed, p, d)
    ensures DuoRefines(cfg, seed, p, Exchange(cfg, d))
    ensures d.a.round <= Exchange(cfg, d).a.round <= d.a.round + 1
  {
    hide Consume, Outgoing, After, NoneBefore, IsWeights, AgreeAt;
    if d.a.status == Sending(SeedKind) {
      SeedExchangeRefines(cfg, seed, p, d);
    } else if d.a.status == Sending(TauKind) {
      TauExchangeRefines(cfg, seed, p, d);
    } else if d.a.status == Sending(FpKind) {
      FpExchangeRefines(cfg, seed, p, d);
    }
  }

  lemma {:induction false} LockRefines(cfg: Config, seed: bv64, p: Pair, d: Duo, k: nat)
    requires ValidConfig(cfg) && PairFits(cfg, p) && DuoFits(cfg, d) && DuoRefines(cfg, seed, p, d)
    ensures DuoRefines(cfg, seed, p, Lock(cfg, d, k))
  {
    hide DuoRefines, Exchange;
    if k > 0 {
      LockRefines(cfg, seed, p, d, k - 1);
      ExchangeRefines(cfg, seed, p, Lock(cfg, d, k - 1));
    }
  }
}
