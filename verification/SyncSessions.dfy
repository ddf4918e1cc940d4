/** core/sync_protocol.py, `SyncSession.synchronize` and `LoopbackTransport` in
    their own imperative form, proved against the transition system. */
module SyncSessions {
  import opened Basics
  import opened Tpm
  import opened SequentialSync
  import opened SyncSystem
  import opened SyncInvariant
  import opened SyncTheorems
  import opened SyncSchedules

  // ------------------------------------------------- one session on its own

  datatype Ran = Ran(end: Side, sent: seq<Msg>, rest: seq<Msg>)

  /** A session fed the given messages and then nothing: where it ends, what
      it has sent, what it has not taken. */
  function Drive(cfg: Config, s: Side, inbox: seq<Msg>): (r: Ran)
    requires ValidConfig(cfg) && Fits(cfg, s.weights) && !s.status.Receiving?
    ensures r.end.status.Finished? && Fits(cfg, r.end.weights)
    decreases |inbox|
  {
    if s.status.Finished? then Ran(s, [], inbox)
    else if inbox == [] then Ran(GiveUp(Waiting(s)), [Outgoing(cfg, s)], [])
    else Prefixed1(Outgoing(cfg, s), Drive(cfg, ConsumeNext(cfg, s, inbox[0]), inbox[1..]))
  }

  function Prefixed1(first: Msg, r: Ran): Ran { r.(sent := [first] + r.sent) }

  function Prefixed(sent: seq<Msg>, r: Ran): Ran { r.(sent := sent + r.sent) }

  function ConsumeNext(cfg: Config, s: Side, m: Msg): (r: Side)
    requires ValidConfig(cfg) && Fits(cfg, s.weights) && s.status.Sending?
    ensures Fits(cfg, r.weights) && !r.status.Receiving?
  {
    Consume(cfg, Waiting(s), m)
  }

  /** Driving a session is a run of the transition system in which only that
      session acts: same sends, same receives, same end. */
  lemma {:induction false} DriveIsARun(cfg: Config, s: Side, other: Side, ab: seq<Msg>, inbox: seq<Msg>)
    returns (acts: seq<Action>)
    requires ValidConfig(cfg) && Fits(cfg, s.weights) && Fits(cfg, other.weights) && !s.status.Receiving?
    ensures var r := Drive(cfg, s, inbox);
            Exec(cfg, Sys(s, other, ab, inbox), acts) == Sys(r.end, other, ab + r.sent, r.rest)
    decreases |inbox|
  {
    hide IsWeights, Consume, Outgoing, Exec, Step;
    var start := Sys(s, other, ab, inbox);
    if s.status.Finished? {
      acts := [];
      ExecNothing(cfg, start);
      assert ab + [] == ab;
    } else {
      var sent := Sys(Waiting(s), other, ab + [Outgoing(cfg, s)], inbox);
      FirstSends(cfg, start);
      if inbox == [] {
        acts := [Run(A), Timeout(A)];
        FirstGivesUp(cfg, sent);
        ExecTwo(cfg, start, Run(A), Timeout(A));
      } else {
        var next := ConsumeNext(cfg, s, inbox[0]);
        FirstReceives(cfg, sent);
        ExecTwo(cfg, start, Run(A), Run(A));
        var more := DriveIsARun(cfg, next, other, ab + [Outgoing(cfg, s)], inbox[1..]);
        acts := [Run(A), Run(A)] + more;
        ExecAppend(cfg, start, [Run(A), Run(A)], more);
        assert ab + [Outgoing(cfg, s)] + Drive(cfg, next, inbox[1..]).sent == ab + Drive(cfg, s, inbox).sent;
      }
    }
  }

  lemma ExecNothing(cfg: Config, s: Sys)
    requires ValidConfig(cfg) && SysFits(cfg, s)
    ensures Exec(cfg, s, []) == s
  {
    hide Step, IsWeights;
  }

  lemma ExecTwo(cfg: Config, s: Sys, x: Action, y: Action)
    requires ValidConfig(cfg) && SysFits(cfg, s)
    ensures Exec(cfg, s, [x, y]) == Step(cfg, Step(cfg, s, x), y)
  {
    hide Exec, Step, IsWeights;
    ExecNothing(cfg, s);
    ExecSnoc(cfg, s, [], x);
    ExecSnoc(cfg, s, [x], y);
    assert [] + [x] == [x] && [x] + [y] == [x, y];
  }

  lemma {:induction false} ExecAppend(cfg: Config, s: Sys, first: seq<Action>, second: seq<Action>)
    requires ValidConfig(cfg) && SysFits(cfg, s)
    ensures Exec(cfg, s, first + second) == Exec(cfg, Exec(cfg, s, first), second)
    decreases |second|
  {
    hide Step, IsWeights;
    if second == [] {
      assert first + second == first;
    } else {
      var init, last := second[..|second| - 1], second[|second| - 1];
      ExecAppend(cfg, s, first, init);
      ExecSnoc(cfg, s, first + init, last);
      assert first + init + [last] == first + second;
    }
  }

  lemma FirstSends(cfg: Config, s: Sys)
    requires ValidConfig(cfg) && SysFits(cfg, s) && s.a.status.Sending?
    ensures Step(cfg, s, Run(A)) == s.(a := Waiting(s.a), ab := s.ab + [Outgoing(cfg, s.a)])
  {
    hide IsWeights, Outgoing;
  }

  lemma FirstReceives(cfg: Config, s: Sys)
    requires ValidConfig(cfg) && SysFits(cfg, s) && s.a.status.Receiving? && s.ba != []
    ensures Step(cfg, s, Run(A)) == s.(a := Consume(cfg, s.a, s.ba[0]), ba := s.ba[1..])
  {
    hide IsWeights, Consume;
  }

  lemma FirstGivesUp(cfg: Config, s: Sys)
    requires ValidConfig(cfg) && SysFits(cfg, s) && s.a.status.Receiving?
    ensures Step(cfg, s, Timeout(A)) == s.(a := GiveUp(s.a))
  {
    hide IsWeights, Consume;
  }

  // --------------------------------------------------------------- transport

  datatype TransportError = TransportTimeout | WrongKind

  /** One end of a pair of queues.  `recvQueue` holds what arrives in time;
      a receive on an empty queue times out. */
  class LoopbackTransport {
    var sendQueue: seq<Msg>
    var recvQueue: seq<Msg>

    constructor (arriving: seq<Msg>)
      ensures sendQueue == [] && recvQueue == arriving
    {
      sendQueue, recvQueue := [], arriving;
    }

    method Send(m: Msg)
      modifies this`sendQueue
      ensures sendQueue == old(sendQueue) + [m]
    {
      sendQueue := sendQueue + [m];
    }

    /** `_recv_typed`: the next message, if it comes and is of the kind asked for. */
    method RecvTyped(kind: Kind) returns (r: Result<Msg, TransportError>)
      modifies this`recvQueue
      ensures old(recvQueue) == [] ==> r == Err(TransportTimeout) && recvQueue == []
      ensures old(recvQueue) != [] ==>
                && recvQueue == old(recvQueue)[1..]
                && r == if IsOfKind(old(recvQueue)[0], kind) then Ok(old(recvQueue)[0]) else Err(WrongKind)
    {
      if recvQueue == [] {
        return Err(TransportTimeout);
      }
      var m := recvQueue[0];
      recvQueue := recvQueue[1..];
      r := if IsOfKind(m, kind) then Ok(m) else Err(WrongKind);
    }

    method ExchangeSeed(localSeed: bv64) returns (r: Result<bv64, TransportError>)
      modifies this
      ensures sendQueue == old(sendQueue) + [SeedMsg(localSeed)]
      ensures old(recvQueue) == [] ==> r == Err(TransportTimeout) && recvQueue == []
      ensures old(recvQueue) != [] ==>
                && recvQueue == old(recvQueue)[1..]
                && r == if old(recvQueue)[0].SeedMsg? then Ok(AgreedSeed(localSeed, old(recvQueue)[0].seed))
                        else Err(WrongKind)
    {
      hide AgreedSeed;
      Send(SeedMsg(localSeed));
      var answer := RecvTyped(SeedKind);
      match answer
      case Ok(m) => return Ok(AgreedSeed(localSeed, m.seed));
      case Err(e) => return Err(e);
    }
  }

  // ----------------------------------------------------------------- session

  function RuleName(rule: LearningRule): (name: string)
    ensures ParseRule(name) == Some(rule)
  {
    match rule
    case Hebbian => "hebbian"
    case AntiHebbian => "anti_hebbian"
    case RandomWalk => "random_walk"
  }

  class SyncSession {
    const tpm: TreeParityMachine
    const transport: LoopbackTransport
    const cfg: Config
    const localSeed: bv64

    predicate Valid()
      reads this, tpm
    {
      tpm.Valid() && ValidConfig(cfg) && tpm.K == cfg.K && tpm.N == cfg.N && tpm.L == cfg.L
    }

    constructor (tpm: TreeParityMachine, transport: LoopbackTransport, cfg: Config, localSeed: bv64)
      requires tpm.Valid() && ValidConfig(cfg) && tpm.K == cfg.K && tpm.N == cfg.N && tpm.L == cfg.L
      ensures Valid() && this.tpm == tpm && this.transport == transport && this.cfg == cfg &&
              this.localSeed == localSeed
    {
      this.tpm, this.transport, this.cfg, this.localSeed := tpm, transport, cfg, localSeed;
    }

    /** Refused for a budget or a comparison period below one round. */
    static method Create(tpm: TreeParityMachine, transport: LoopbackTransport, cfg: Config, localSeed: bv64)
      returns (r: Result<SyncSession, string>)
      requires tpm.Valid() && tpm.K == cfg.K && tpm.N == cfg.N && tpm.L == cfg.L
      ensures r.Err? <==> cfg.maxRounds < 1 || cfg.checkEvery < 1
      ensures r.Ok? ==>
                && fresh(r.value) && r.value.Valid() && r.value.tpm == tpm && r.value.transport == transport
                && r.value.cfg == cfg && r.value.localSeed == localSeed
    {
      if cfg.maxRounds < 1 {
        return Err("max_rounds must be >= 1");
      }
      if cfg.checkEvery < 1 {
        return Err("fingerprint_check_every must be >= 1");
      }
      var session := new SyncSession(tpm, transport, cfg, localSeed);
      return Ok(session);
    }

    function ReportNow(success: bool, rounds: nat): Report
      reads tpm
    {
      Report(success, rounds, Fingerprint(cfg, tpm.weights))
    }

    /** The state of the loop when it is about to start the given round. */
    function HeadSide(seed: bv64, round: nat): Side
      requires round >= 1
      reads tpm
    {
      if round <= cfg.maxRounds then Side(Sending(TauKind), round, seed, tpm.weights)
      else Side(Finished(Exhausted), round - 1, seed, tpm.weights)
    }

    /** The tau exchange of a round with the update that follows it. */
    method ExchangeTaus(seed: bv64, round: nat) returns (r: Result<(), TransportError>)
      requires Valid() && 1 <= round <= cfg.maxRounds
      modifies transport, tpm`weights
      ensures Valid()
      ensures var head, left := Side(Sending(TauKind), round, seed, old(tpm.weights)), old(transport.recvQueue);
              var out := Outgoing(cfg, head);
              && transport.sendQueue == old(transport.sendQueue) + [out]
              && match r
                 case Ok(_) =>
                   && Drive(cfg, head, left) == Prefixed1(out, Drive(cfg, AfterTaus(seed, round), transport.recvQueue))
                 case Err(e) =>
                   && tpm.weights == old(tpm.weights)
                   && Drive(cfg, head, left) ==
                      Ran(head.(status := Finished(Failure(e, head.status.kind))), [out], transport.recvQueue)
    {
      hide IsWeights, Tau, Updated, Input, Fingerprint, Outgoing, Drive, ConsumeNext;
      ghost var head, left := Side(Sending(TauKind), round, seed, tpm.weights), transport.recvQueue;
      TauTurn(cfg, head, left);
      var x := Input(cfg, seed, round);
      var output := tpm.ComputeOutput(x);
      var localTau := output.value.0;
      transport.Send(TauMsg(localTau));
      var remote := transport.RecvTyped(TauKind);
      if remote.Err? {
        return Err(remote.error);
      }
      if localTau == remote.value.tau {
        TauIsSign(cfg, tpm.weights, x);
        var changed := tpm.UpdateWeights(x, remote.value.tau, RuleName(cfg.rule));
      }
      return Ok(());
    }

    /** The fingerprint exchange of a round; true when they are equal. */
    method ExchangeFingerprints(ghost seed: bv64, round: nat) returns (r: Result<bool, TransportError>)
      requires Valid() && 1 <= round <= cfg.maxRounds
      modifies transport
      ensures Valid()
      ensures var head, left := Side(Sending(FpKind), round, seed, tpm.weights), old(transport.recvQueue);
              var out := Outgoing(cfg, head);
              && transport.sendQueue == old(transport.sendQueue) + [out]
              && match r
                 case Ok(true) =>
                   Drive(cfg, head, left) == Ran(head.(status := Finished(Success)), [out], transport.recvQueue)
                 case Ok(false) =>
                   Drive(cfg, head, left) == Prefixed1(out, Drive(cfg, HeadSide(seed, round + 1), transport.recvQueue))
                 case Err(e) =>
                   Drive(cfg, head, left) ==
                   Ran(head.(status := Finished(Failure(e, head.status.kind))), [out], transport.recvQueue)
    {
      hide IsWeights, Tau, Updated, Input, Fingerprint, Outgoing, Drive, ConsumeNext;
      FpTurn(cfg, Side(Sending(FpKind), round, seed, tpm.weights), transport.recvQueue);
      var localFp := Fingerprint(cfg, tpm.weights);
      transport.Send(FpMsg(localFp));
      var remote := transport.RecvTyped(FpKind);
      if remote.Err? {
        return Err(remote.error);
      }
      return Ok(localFp == remote.value.fp);
    }

    /** The whole per-side protocol.  It sends, takes, learns and reports
        exactly what the transition system's session does when driven by the
        messages that arrive; a message of the wrong kind raises. */
    method Synchronize() returns (r: Result<Report, TransportError>)
      requires Valid()
      modifies transport, tpm`weights
      ensures Valid()
      ensures var ran := Drive(cfg, StartSide(localSeed, old(tpm.weights)), old(transport.recvQueue));
              && tpm.weights == ran.end.weights
              && transport.sendQueue == old(transport.sendQueue) + ran.sent
              && transport.recvQueue == ran.rest
              && r == if ran.end.status == Finished(Crashed) then Err(WrongKind) else Ok(ReportOf(cfg, ran.end))
    {
      hide IsWeights, Tau, Updated, Input, Fingerprint, Outgoing, Drive, ConsumeNext, AgreedSeed;
      ghost var start, inbox, sent0 := StartSide(localSeed, tpm.weights), transport.recvQueue, transport.sendQueue;
      SeedTurn(cfg, start, inbox);
      var handshake := transport.ExchangeSeed(localSeed);
      if handshake.Err? {
        return TimedOutOr(handshake.error, 0);
      }
      var agreed := handshake.value;
      ghost var sent: seq<Msg> := [SeedMsg(localSeed)];
      var round := 1;
      while round <= cfg.maxRounds
        invariant 1 <= round <= cfg.maxRounds + 1 && Valid()
        invariant transport.sendQueue == sent0 + sent
        invariant Drive(cfg, start, inbox) == Prefixed(sent, Drive(cfg, HeadSide(agreed, round), transport.recvQueue))
        decreases cfg.maxRounds - round
      {
        ghost var tau := Outgoing(cfg, HeadSide(agreed, round));
        var taus := ExchangeTaus(agreed, round);
        if taus.Err? {
          return TimedOutOr(taus.error, round);
        }
        sent := sent + [tau];
        if round % cfg.checkEvery == 0 {
          ghost var fp := Outgoing(cfg, AfterTaus(agreed, round));
          var same := ExchangeFingerprints(agreed, round);
          if same.Err? {
            return TimedOutOr(same.error, round);
          }
          if same.value {
            return Ok(ReportNow(true, round));
          }
          sent := sent + [fp];
        }
        round := round + 1;
      }
      EndTurn(cfg, HeadSide(agreed, round), transport.recvQueue);
      return Ok(ReportNow(false, cfg.maxRounds));
    }

    /** `_timeout_result` for a timeout; any other transport error propagates. */
    function TimedOutOr(e: TransportError, round: nat): Result<Report, TransportError>
      reads tpm
    {
      if e == TransportTimeout then Ok(ReportNow(false, round)) else Err(e)
    }

    /** The state in which the tau exchange of a round leaves the loop. */
    function AfterTaus(seed: bv64, round: nat): Side
      requires cfg.checkEvery >= 1
      reads tpm
    {
      if round % cfg.checkEvery == 0 then Side(Sending(FpKind), round, seed, tpm.weights)
      else HeadSide(seed, round + 1)
    }
  }

  function Failure(e: TransportError, kind: Kind): Outcome { if e == TransportTimeout then TimedOut(kind) else Crashed }

  lemma TauIsSign(cfg: Config, w: Matrix, x: Matrix)
    requires Fits(cfg, w) && IsInput(x, cfg.K, cfg.N)
    ensures Tau(w, x) == 1 || Tau(w, x) == -1
  {
    ProductIsSign(Sigmas(w, x));
  }

  lemma EndTurn(cfg: Config, s: Side, inbox: seq<Msg>)
    requires ValidConfig(cfg) && Fits(cfg, s.weights) && s.status.Finished?
    ensures Drive(cfg, s, inbox) == Ran(s, [], inbox)
  {
    hide IsWeights, Outgoing, ConsumeNext;
  }

  /** One turn of `Drive`, kind by kind. */
  lemma SeedTurn(cfg: Config, s: Side, inbox: seq<Msg>)
    requires ValidConfig(cfg) && Fits(cfg, s.weights) && s.status == Sending(SeedKind)
    ensures inbox == [] ==> Drive(cfg, s, inbox) == Ran(GiveUp(Waiting(s)), [SeedMsg(s.seed)], [])
    ensures inbox != [] && !inbox[0].SeedMsg? ==>
              Drive(cfg, s, inbox) == Ran(s.(status := Finished(Crashed)), [SeedMsg(s.seed)], inbox[1..])
    ensures inbox != [] && inbox[0].SeedMsg? ==>
              Drive(cfg, s, inbox) ==
              Prefixed1(SeedMsg(s.seed), Drive(cfg,
                  Side(Sending(TauKind), 1, AgreedSeed(s.seed, inbox[0].seed), s.weights), inbox[1..]))
  {
    hide IsWeights, Tau, Learn, Input, Fingerprint, AgreedSeed;
  }

  lemma TauTurn(cfg: Config, s: Side, inbox: seq<Msg>)
    requires ValidConfig(cfg) && Fits(cfg, s.weights) && s.status == Sending(TauKind)
    ensures var x := Input(cfg, s.seed, s.round);
            var out := TauMsg(Tau(s.weights, x));
            && out == Outgoing(cfg, s)
            && if inbox == [] then Drive(cfg, s, inbox) == Ran(GiveUp(Waiting(s)), [out], [])
            else if !inbox[0].TauMsg? then
              Drive(cfg, s, inbox) == Ran(s.(status := Finished(Crashed)), [out], inbox[1..])
            else
              var w := if Tau(s.weights, x) == inbox[0].tau then Learn(cfg, s.weights, x) else s.weights;
              var learned := s.(weights := w);
              && ConsumeNext(cfg, s, inbox[0]) ==
                 (if s.round % cfg.checkEvery == 0 then learned.(status := Sending(FpKind))
                     else NextRound(cfg, learned))
              && Drive(cfg, s, inbox) == Prefixed1(out, Drive(cfg, ConsumeNext(cfg, s, inbox[0]), inbox[1..]))
  {
    hide IsWeights, Tau, Learn, Input, Fingerprint, AgreedSeed;
  }

  lemma FpTurn(cfg: Config, s: Side, inbox: seq<Msg>)
    requires ValidConfig(cfg) && Fits(cfg, s.weights) && s.status == Sending(FpKind)
    ensures var fp := Fingerprint(cfg, s.weights);
            && FpMsg(fp) == Outgoing(cfg, s)
            && if inbox == [] then Drive(cfg, s, inbox) == Ran(GiveUp(Waiting(s)), [FpMsg(fp)], [])
            else if !inbox[0].FpMsg? then
              Drive(cfg, s, inbox) == Ran(s.(status := Finished(Crashed)), [FpMsg(fp)], inbox[1..])
            else if inbox[0].fp == fp then
              Drive(cfg, s, inbox) == Ran(s.(status := Finished(Success)), [FpMsg(fp)], inbox[1..])
            else Drive(cfg, s, inbox) == Prefixed1(FpMsg(fp), Drive(cfg, NextRound(cfg, s), inbox[1..]))
  {
    hide IsWeights, Tau, Learn, Input, Fingerprint, AgreedSeed;
  }
}
