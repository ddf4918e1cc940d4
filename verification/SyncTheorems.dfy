/** What every run of the two sessions guarantees: refinement of the simple
    loop, lockstep safety, termination, and what a success at one side says
    about the other when receives may time out. */
module SyncTheorems {
  import opened Basics
  import opened Encoding
  import opened Tpm
  import opened SequentialSync
  import opened SyncSystem
  import opened SyncInvariant

  function WeightsOf(p: Pair, who: Who): Matrix { if who == A then p.a else p.b }

  /** The state of one session, said in terms of the sequential loop. */
  ghost predicate SideRefines(cfg: Config, seed: bv64, p: Pair, who: Who, s: Side)
    requires ValidConfig(cfg) && PairFits(cfg, p)
  {
    var r := s.round;
    match s.status
    case Sending(SeedKind) => r == 0 && s.weights == WeightsOf(p, who)
    case Receiving(SeedKind) => r == 0 && s.weights == WeightsOf(p, who)
    case Sending(TauKind) => BeforeUpdate(cfg, seed, p, who, s)
    case Receiving(TauKind) => BeforeUpdate(cfg, seed, p, who, s)
    case Sending(FpKind) => r % cfg.checkEvery == 0 && AfterUpdate(cfg, seed, p, who, s)
    case Receiving(FpKind) => r % cfg.checkEvery == 0 && AfterUpdate(cfg, seed, p, who, s)
    case Finished(Success) => AfterUpdate(cfg, seed, p, who, s) && AgreeAt(cfg, seed, p, r)
    case Finished(Exhausted) =>
      AfterUpdate(cfg, seed, p, who, s) && r == cfg.maxRounds && NoneBefore(cfg, seed, p, r + 1)
    case Finished(TimedOut(SeedKind)) => r == 0 && s.weights == WeightsOf(p, who)
    case Finished(TimedOut(TauKind)) => BeforeUpdate(cfg, seed, p, who, s)
    case Finished(TimedOut(FpKind)) => r % cfg.checkEvery == 0 && AfterUpdate(cfg, seed, p, who, s)
    case Finished(CutOff(_, SeedKind)) => r == 0 && s.weights == WeightsOf(p, who)
    case Finished(CutOff(_, TauKind)) => BeforeUpdate(cfg, seed, p, who, s)
    case Finished(CutOff(_, FpKind)) => r % cfg.checkEvery == 0 && AfterUpdate(cfg, seed, p, who, s)
    case Finished(Crashed) => false
  }

  ghost predicate BeforeUpdate(cfg: Config, seed: bv64, p: Pair, who: Who, s: Side)
    requires ValidConfig(cfg) && PairFits(cfg, p)
  {
    && 1 <= s.round <= cfg.maxRounds && s.seed == seed
    && s.weights == WeightsOf(After(cfg, seed, p, s.round - 1), who) && NoneBefore(cfg, seed, p, s.round)
  }

  ghost predicate AfterUpdate(cfg: Config, seed: bv64, p: Pair, who: Who, s: Side)
    requires ValidConfig(cfg) && PairFits(cfg, p)
  {
    && 1 <= s.round <= cfg.maxRounds
    && s.weights == WeightsOf(After(cfg, seed, p, s.round), who) && NoneBefore(cfg, seed, p, s.round)
  }

  lemma FewerRounds(cfg: Config, seed: bv64, p: Pair, r: nat)
    requires ValidConfig(cfg) && PairFits(cfg, p)
    ensures NoneBefore(cfg, seed, p, r + 1) ==> NoneBefore(cfg, seed, p, r)
  {
    hide AgreeAt, IsWeights;
  }

  lemma PositionRefines(cfg: Config, seed: bv64, p: Pair, d: Duo, s: Side, who: Who)
    requires ValidConfig(cfg) && PairFits(cfg, p) && DuoFits(cfg, d) && DuoRefines(cfg, seed, p, d)
    requires SideAt(s, if who == A then d.a else d.b)
    ensures SideRefines(cfg, seed, p, who, s)
  {
    hide SideRefines, DuoRefines, After, NoneBefore, AgreeAt, Fits;
    var l := if who == A then d.a else d.b;
    SenderRefines(cfg, seed, p, d, who);
    if s != l { WaiterRefines(cfg, seed, p, l, s, who); }
  }

  lemma SenderRefines(cfg: Config, seed: bv64, p: Pair, d: Duo, who: Who)
    requires ValidConfig(cfg) && PairFits(cfg, p) && DuoFits(cfg, d) && DuoRefines(cfg, seed, p, d)
    ensures SideRefines(cfg, seed, p, who, if who == A then d.a else d.b)
  {
    hide After, NoneBefore, AgreeAt, Fits, AgreedSeed;
    FewerRounds(cfg, seed, p, d.a.round);
  }

  lemma WaiterRefines(cfg: Config, seed: bv64, p: Pair, l: Side, s: Side, who: Who)
    requires ValidConfig(cfg) && PairFits(cfg, p) && SideRefines(cfg, seed, p, who, l) && SideAt(s, l) && s != l
    ensures SideRefines(cfg, seed, p, who, s)
  {
    hide After, NoneBefore, AgreeAt, Fits;
  }

  /** Refinement: whatever the interleaving and whichever receives time out,
      a session in round r holds exactly the weights the sequential loop has
      before or after the update of round r, no earlier comparison agreed,
      and its verdict, once it has one of its own, is the loop's.  No
      receive ever sees a message of the wrong kind. */
  lemma RunsRefineTheLoop(cfg: Config, seedA: bv64, seedB: bv64, p: Pair, acts: seq<Action>, who: Who)
    requires ValidConfig(cfg) && PairFits(cfg, p)
    ensures SideRefines(cfg, AgreedSeed(seedA, seedB), p, who, SideOf(Exec(cfg, Start(seedA, seedB, p), acts), who))
    ensures SideOf(Exec(cfg, Start(seedA, seedB, p), acts), who).status != Finished(Crashed)
  {
    hide Lock, SideRefines, DuoRefines, ChannelAt, Exec, IsWeights, AgreedSeed;
    var seed, d := AgreedSeed(seedA, seedB), StartDuo(seedA, seedB, p);
    var s := Exec(cfg, Start(seedA, seedB, p), acts);
    var ka, kb := Reachable(cfg, seedA, seedB, p, acts);
    StartInStep(cfg, seedA, seedB, p);
    PositionRefines(cfg, seed, p, Lock(cfg, d, if who == A then ka else kb), SideOf(s, who), who);
    NotCrashed(cfg, seed, p, who, SideOf(s, who));
  }

  lemma NotCrashed(cfg: Config, seed: bv64, p: Pair, who: Who, s: Side)
    requires ValidConfig(cfg) && PairFits(cfg, p) && SideRefines(cfg, seed, p, who, s)
    ensures s.status != Finished(Crashed)
    ensures s.round <= cfg.maxRounds
  {
    hide BeforeUpdate, After, NoneBefore, AgreeAt, IsWeights;
    assert BeforeUpdate(cfg, seed, p, who, s) ==> s.round <= cfg.maxRounds
    by { BeforeIsInBudget(cfg, seed, p, who, s); }
  }

  lemma BeforeIsInBudget(cfg: Config, seed: bv64, p: Pair, who: Who, s: Side)
    requires ValidConfig(cfg) && PairFits(cfg, p)
    ensures BeforeUpdate(cfg, seed, p, who, s) ==> s.round <= cfg.maxRounds
  {
    hide After, NoneBefore, IsWeights;
  }

  // ---------------------------------------------------------------- lockstep

  function SyncCount(msgs: seq<Msg>): nat {
    if msgs == [] then 0
    else SyncCount(msgs[..|msgs| - 1]) + if msgs[|msgs| - 1].AppMsg? then 0 else 1
  }

  lemma {:induction false} SyncCountOfPrefix(msgs: seq<Msg>, n: nat)
    requires n <= |msgs| && AllApp(msgs[n..]) && forall i :: 0 <= i < n ==> !msgs[i].AppMsg?
    ensures SyncCount(msgs) == n
  {
    if msgs != [] {
      var init := msgs[..|msgs| - 1];
      if n < |msgs| {
        assert init[n..] == msgs[n..][..|init| - n];
        assert msgs[|msgs| - 1] == msgs[n..][|msgs| - 1 - n];
        SyncCountOfPrefix(init, n);
      } else {
        SyncCountOfPrefix(init, n - 1);
      }
    }
  }

  predicate IsOfKind(m: Msg, kind: Kind) {
    match kind
    case SeedKind => m.SeedMsg?
    case TauKind => m.TauMsg?
    case FpKind => m.FpMsg?
  }

  /** Sync messages first, application frames after. */
  predicate SyncThenApp(msgs: seq<Msg>) {
    forall i, j :: 0 <= i < j < |msgs| && msgs[i].AppMsg? ==> msgs[j].AppMsg?
  }

  lemma ChannelShape(cfg: Config, d: Duo, sender: Side, channel: seq<Msg>, lo: nat, hi: nat)
    requires ValidConfig(cfg) && DuoFits(cfg, d) && ChannelAt(cfg, d, sender, channel, lo, hi)
    ensures SyncCount(channel) == hi - lo && SyncThenApp(channel)
    ensures AllApp(channel) <==> lo == hi
    ensures (exists m :: m in channel && m.AppMsg?) ==> sender.status == Finished(Success)
  {
    hide Lock, IsWeights, SyncCount;
    forall i | 0 <= i < hi - lo
      ensures !channel[i].AppMsg?
    {
      assert channel[i] == Stream(cfg, d, lo, hi)[i] == Outgoing(cfg, Lock(cfg, d, lo + i).a);
    }
    if lo < hi { assert !channel[0].AppMsg?; }
    forall i | hi - lo <= i < |channel|
      ensures channel[i].AppMsg?
    {
      assert channel[i] == channel[hi - lo..][i - (hi - lo)];
    }
    SyncCountOfPrefix(channel, hi - lo);
  }

  lemma ExchangesAdvanceByOne(cfg: Config, seed: bv64, p: Pair, d: Duo, ka: nat, kb: nat)
    requires ValidConfig(cfg) && PairFits(cfg, p) && DuoFits(cfg, d) && kb <= ka <= kb + 1
    requires DuoRefines(cfg, seed, p, Lock(cfg, d, kb))
    ensures Lock(cfg, d, kb).a.round <= Lock(cfg, d, ka).a.round <= Lock(cfg, d, kb).a.round + 1
  {
    hide DuoRefines, Exchange, IsWeights;
    if ka == kb + 1 {
      LockNext(cfg, d, kb);
      ExchangeRefines(cfg, seed, p, Lock(cfg, d, kb));
    }
  }

  lemma FewMessages(cfg: Config, d: Duo, s: Sys, ka: nat, kb: nat)
    requires ValidConfig(cfg) && DuoFits(cfg, d) && InvAt(cfg, d, s, ka, kb)
    ensures ka - 1 <= kb <= ka + 1
    ensures SyncCount(s.ab) + SyncCount(s.ba) <= 2 && SyncThenApp(s.ab) && SyncThenApp(s.ba)
  {
    hide Lock, ChannelAt, IsWeights, SideAt;
    ChannelShape(cfg, d, s.a, s.ab, kb, SentCount(s.a, Lock(cfg, d, ka).a, ka));
    ChannelShape(cfg, Flip(d), s.b, s.ba, ka, SentCount(s.b, Lock(cfg, d, kb).b, kb));
  }

  lemma RoundsOfPosition(cfg: Config, d: Duo, s: Sys, ka: nat, kb: nat)
    requires ValidConfig(cfg) && DuoFits(cfg, d) && InvAt(cfg, d, s, ka, kb) && InStep(cfg, d)
    ensures s.a.round == Lock(cfg, d, ka).a.round && s.b.round == Lock(cfg, d, kb).a.round
  {
    hide Lock, ChannelAt, IsWeights;
  }

  /** Lockstep: both channels together hold at most two sync messages, always
      ahead of any application frame; the rounds (hence the rounds reported)
      differ by at most one; and whatever a waiting session finds at the head
      of its channel is of the kind it waits for. */
  lemma Lockstep(cfg: Config, seedA: bv64, seedB: bv64, p: Pair, acts: seq<Action>)
    requires ValidConfig(cfg) && PairFits(cfg, p)
    ensures var s := Exec(cfg, Start(seedA, seedB, p), acts);
            && SyncCount(s.ab) + SyncCount(s.ba) <= 2
            && SyncThenApp(s.ab) && SyncThenApp(s.ba)
            && s.a.round - 1 <= s.b.round <= s.a.round + 1
            && forall who, kind :: SideOf(s, who).status == Receiving(kind) && Inbound(s, who) != [] ==>
                                     IsOfKind(Inbound(s, who)[0], kind)
  {
    hide Lock, DuoRefines, InvAt, InStep, Exec, IsWeights, AgreedSeed, SyncCount, SyncThenApp, IsOfKind;
    var seed, d := AgreedSeed(seedA, seedB), StartDuo(seedA, seedB, p);
    var s := Exec(cfg, Start(seedA, seedB, p), acts);
    var ka, kb := Reachable(cfg, seedA, seedB, p, acts);
    StartInStep(cfg, seedA, seedB, p);
    FewMessages(cfg, d, s, ka, kb);
    RoundsOfPosition(cfg, d, s, ka, kb);
    ExchangesAdvanceByOne(cfg, seed, p, d, Max(ka, kb), Min(ka, kb));
    FirstHeadKind(cfg, d, s, ka, kb);
    InvIsSymmetric(cfg, d, s, ka, kb);
    FirstHeadKind(cfg, Flip(d), Swap(s), kb, ka);
  }

  lemma FirstHeadKind(cfg: Config, d: Duo, s: Sys, ka: nat, kb: nat)
    requires ValidConfig(cfg) && DuoFits(cfg, d) && SysFits(cfg, s) && InStep(cfg, d) && InvAt(cfg, d, s, ka, kb)
    ensures s.a.status.Receiving? && s.ba != [] ==> IsOfKind(s.ba[0], s.a.status.kind)
  {
    hide Lock, IsWeights, InvAt;
    if s.a.status.Receiving? && s.ba != [] { HeadIsPeersMessage(cfg, d, s, ka, kb); }
  }

  // ---------------------------------------------------- progress, termination

  /** The step changes a session: a send, a receive with a message there, or a
      receive giving up. */
  predicate Enabled(s: Sys, act: Action) {
    match act
    case Run(who) =>
      SideOf(s, who).status.Sending? || (SideOf(s, who).status.Receiving? && Inbound(s, who) != [])
    case Timeout(who) => SideOf(s, who).status.Receiving?
    case Sever(who) => !SideOf(s, who).status.Finished? && HasHungUp(SideOf(s, Other(who)))
    case Post(_, _) => false
  }

  /** Strictly falls along a session's program. */
  function SideMeasure(cfg: Config, s: Side): nat {
    var left := if s.round < cfg.maxRounds then cfg.maxRounds - s.round else 0;
    var full := if cfg.maxRounds >= 0 then cfg.maxRounds else 0;
    match s.status
    case Sending(SeedKind) => 4 * full + 2
    case Receiving(SeedKind) => 4 * full + 1
    case Sending(TauKind) => 4 * left + 4
    case Receiving(TauKind) => 4 * left + 3
    case Sending(FpKind) => 4 * left + 2
    case Receiving(FpKind) => 4 * left + 1
    case Finished(_) => 0
  }

  function Measure(cfg: Config, s: Sys): nat { SideMeasure(cfg, s.a) + SideMeasure(cfg, s.b) }

  lemma ConsumeMeasure(cfg: Config, s: Side, m: Msg)
    requires ValidConfig(cfg) && Fits(cfg, s.weights) && s.status.Receiving?
    ensures SideMeasure(cfg, Consume(cfg, s, m)) < SideMeasure(cfg, s)
  {
    hide Tau, Input, Learn, Fingerprint, IsWeights;
  }

  lemma FirstSideMeasure(cfg: Config, s: Sys, act: Action)
    requires ValidConfig(cfg) && SysFits(cfg, s)
    ensures FirstSideActs(cfg, s, act).b == s.b
    ensures var before, after := SideMeasure(cfg, s.a), SideMeasure(cfg, FirstSideActs(cfg, s, act).a);
            var enabled := (act.Timeout? && s.a.status.Receiving?) ||
                           (act.Sever? && !s.a.status.Finished? && HasHungUp(s.b)) ||
                           (act.Run? && (s.a.status.Sending? || (s.a.status.Receiving? && s.ba != [])));
            if enabled then after < before else after == before
  {
    hide Consume, IsWeights, Outgoing;
    if s.a.status.Receiving? && s.ba != [] { ConsumeMeasure(cfg, s.a, s.ba[0]); }
  }

  lemma MeasureFalls(cfg: Config, s: Sys, act: Action)
    requires ValidConfig(cfg) && SysFits(cfg, s)
    ensures if Enabled(s, act) then Measure(cfg, Step(cfg, s, act)) < Measure(cfg, s)
            else Measure(cfg, Step(cfg, s, act)) == Measure(cfg, s)
  {
    hide FirstSideActs, IsWeights, SideMeasure;
    FirstSideMeasure(cfg, if act.who == A then s else Swap(s), act);
  }

  /** How many of the scheduled actions took effect. */
  function StepsTaken(cfg: Config, s: Sys, acts: seq<Action>): nat
    requires ValidConfig(cfg) && SysFits(cfg, s)
  {
    if acts == [] then 0
    else
      var init := acts[..|acts| - 1];
      StepsTaken(cfg, s, init) + if Enabled(Exec(cfg, s, init), acts[|acts| - 1]) then 1 else 0
  }

  /** Termination: no run, however scheduled and timed out, takes more than
      8 * maxRounds + 4 effective steps. */
  lemma {:induction false} RunsAreBounded(cfg: Config, seedA: bv64, seedB: bv64, p: Pair, acts: seq<Action>)
    requires ValidConfig(cfg) && PairFits(cfg, p)
    ensures var s := Start(seedA, seedB, p);
            StepsTaken(cfg, s, acts) + Measure(cfg, Exec(cfg, s, acts)) <= 8 * cfg.maxRounds + 4
  {
    hide Step, Enabled, IsWeights;
    if acts == [] {
    } else {
      hide Measure;
      var init := acts[..|acts| - 1];
      RunsAreBounded(cfg, seedA, seedB, p, init);
      MeasureFalls(cfg, Exec(cfg, Start(seedA, seedB, p), init), acts[|acts| - 1]);
    }
  }

  /** No deadlock: unless both sessions are finished or one has given up, some
      session can run without any timeout. */
  lemma SomeoneCanRun(cfg: Config, seedA: bv64, seedB: bv64, p: Pair, acts: seq<Action>) returns (who: Who)
    requires ValidConfig(cfg) && PairFits(cfg, p)
    requires var s := Exec(cfg, Start(seedA, seedB, p), acts);
             && !(s.a.status.Finished? && s.b.status.Finished?)
             && !HasGivenUp(s.a) && !HasGivenUp(s.b)
    ensures Enabled(Exec(cfg, Start(seedA, seedB, p), acts), Run(who))
  {
    hide Lock, DuoRefines, Exec, IsWeights, AgreedSeed, Outgoing, Consume;
    var d := StartDuo(seedA, seedB, p);
    var s := Exec(cfg, Start(seedA, seedB, p), acts);
    var ka, kb := Reachable(cfg, seedA, seedB, p, acts);
    StartInStep(cfg, seedA, seedB, p);
    who := if Enabled(s, Run(A)) then A else B;
  }

  // ----------------------------------------------------------- complete runs

  /** Nobody gives up, and no connection breaks. */
  predicate Timely(acts: seq<Action>) { forall i :: 0 <= i < |acts| ==> !acts[i].Timeout? && !acts[i].Sever? }

  lemma TimelyStep(cfg: Config, s: Sys, act: Action)
    requires ValidConfig(cfg) && SysFits(cfg, s) && !act.Timeout? && !act.Sever?
    requires !HasGivenUp(s.a) && !HasGivenUp(s.b)
    ensures !HasGivenUp(Step(cfg, s, act).a) && !HasGivenUp(Step(cfg, s, act).b)
  {
    hide Tau, Input, Learn, Fingerprint, IsWeights, Outgoing;
  }

  lemma {:induction false} TimelyRunsDoNotTimeOut(cfg: Config, s: Sys, acts: seq<Action>)
    requires ValidConfig(cfg) && SysFits(cfg, s) && Timely(acts)
    requires !HasGivenUp(s.a) && !HasGivenUp(s.b)
    ensures !HasGivenUp(Exec(cfg, s, acts).a) && !HasGivenUp(Exec(cfg, s, acts).b)
  {
    hide IsWeights, Step;
    if acts != [] {
      TimelyRunsDoNotTimeOut(cfg, s, acts[..|acts| - 1]);
      TimelyStep(cfg, Exec(cfg, s, acts[..|acts| - 1]), acts[|acts| - 1]);
    }
  }

  datatype Report = Report(success: bool, rounds: nat, fingerprint: string)

  /** The `SyncResult` of a finished session. */
  function ReportOf(cfg: Config, s: Side): Report {
    Report(s.status == Finished(Success), s.round, Fingerprint(cfg, s.weights))
  }

  lemma FinishedIsVerdict(cfg: Config, seed: bv64, p: Pair, d: Duo)
    requires ValidConfig(cfg) && PairFits(cfg, p) && DuoFits(cfg, d) && DuoRefines(cfg, seed, p, d)
    requires d.a.status.Finished?
    ensures var v := SequentialVerdict(cfg, seed, p);
            && (d.a.status == Finished(Success)) == v.success && d.a.round == d.b.round == v.rounds
            && Pair(d.a.weights, d.b.weights) == After(cfg, seed, p, v.rounds)
  {
    hide After, AgreeAt, VerdictFrom, IsWeights, AgreedSeed;
    VerdictMeaning(cfg, seed, p, 1);
  }

  /** Determinism: a run without timeouts in which both sessions have finished
      ends with the sequential loop's weights and verdict on both sides and
      no sync message left, whatever the interleaving was. */
  lemma CompleteRunsAgree(cfg: Config, seedA: bv64, seedB: bv64, p: Pair, acts: seq<Action>, who: Who)
    requires ValidConfig(cfg) && PairFits(cfg, p) && Timely(acts)
    requires var s := Exec(cfg, Start(seedA, seedB, p), acts); s.a.status.Finished? && s.b.status.Finished?
    ensures var s := Exec(cfg, Start(seedA, seedB, p), acts);
            var v := SequentialVerdict(cfg, AgreedSeed(seedA, seedB), p);
            var end := After(cfg, AgreedSeed(seedA, seedB), p, v.rounds);
            && SideOf(s, who).weights == WeightsOf(end, who)
            && ReportOf(cfg, SideOf(s, who)) == Report(v.success, v.rounds, Fingerprint(cfg, WeightsOf(end, who)))
            && AllApp(Inbound(s, who))
  {
    hide Lock, DuoRefines, ChannelAt, Exec, After, SequentialVerdict, IsWeights, AgreedSeed, Outgoing, Consume,
         Fingerprint;
    var seed, d := AgreedSeed(seedA, seedB), StartDuo(seedA, seedB, p);
    var s := Exec(cfg, Start(seedA, seedB, p), acts);
    var ka, kb := Reachable(cfg, seedA, seedB, p, acts);
    StartInStep(cfg, seedA, seedB, p);
    TimelyRunsDoNotTimeOut(cfg, Start(seedA, seedB, p), acts);
    ChannelShape(cfg, d, s.a, s.ab, kb, ka);
    ChannelShape(cfg, Flip(d), s.b, s.ba, ka, kb);
    FinishedIsVerdict(cfg, seed, p, Lock(cfg, d, ka));
  }

  // ----------------------------------------------------- one side's success

  /** If the first side has succeeded, the exchange before is the comparison
      at which the peer has already sent the same fingerprint. */
  lemma SuccessHasAPredecessor(cfg: Config, d: Duo, k: nat)
    requires ValidConfig(cfg) && DuoFits(cfg, d) && InStep(cfg, d) && d.a.status.Sending?
    requires Lock(cfg, d, k).a.status == Finished(Success)
    ensures k > 0
    ensures var l, l' := Lock(cfg, d, k - 1), Lock(cfg, d, k);
            l.a.status.Sending? ==>
              && l.a.status == Sending(FpKind) == l.b.status && l.a.round == l'.a.round == l.b.round
              && l.a.weights == l'.a.weights
              && Fingerprint(cfg, l.a.weights) == Fingerprint(cfg, l.b.weights)
  {
    if k > 0 {
      hide Lock, IsWeights, Exchange, Fingerprint;
      LockNext(cfg, d, k - 1);
      var l := Lock(cfg, d, k - 1);
      if l.a.status.Sending? { SuccessfulExchange(cfg, l); }
    }
  }

  lemma SuccessfulExchange(cfg: Config, l: Duo)
    requires ValidConfig(cfg) && DuoFits(cfg, l) && l.a.status.Sending? && l.a.status == l.b.status
    requires Exchange(cfg, l).a.status == Finished(Success)
    ensures l.a.status == Sending(FpKind) && Fingerprint(cfg, l.a.weights) == Fingerprint(cfg, l.b.weights)
    ensures Exchange(cfg, l).a.round == l.a.round && Exchange(cfg, l).a.weights == l.a.weights
  {
    hide Tau, Input, Learn, Fingerprint, IsWeights, AgreedSeed;
  }

  /** The sync messages one session has sent in a run, oldest first. */
  function SentIn(cfg: Config, s: Sys, acts: seq<Action>, who: Who): seq<Msg>
    requires ValidConfig(cfg) && SysFits(cfg, s)
  {
    if acts == [] then []
    else
      var me, act := SideOf(Exec(cfg, s, acts[..|acts| - 1]), who), acts[|acts| - 1];
      SentIn(cfg, s, acts[..|acts| - 1], who) + if act == Run(who) && me.status.Sending? then [Outgoing(cfg, me)]
          else []
  }

  /** Past its fingerprint send, and with the same weights still. */
  predicate HasCompared(s: Side) {
    s.status == Receiving(FpKind) || s.status == Finished(TimedOut(FpKind)) || s.status == Finished(Success)
  }

  predicate LastSent(msgs: seq<Msg>, m: Msg) { msgs != [] && msgs[|msgs| - 1] == m }

  /** What one step does to a session, and what it makes it send. */
  lemma ComparingStep(cfg: Config, s: Sys, act: Action, who: Who)
    requires ValidConfig(cfg) && SysFits(cfg, s)
    ensures var me, next := SideOf(s, who), SideOf(Step(cfg, s, act), who);
            HasCompared(next) ==>
              && next.weights == me.weights
              && if act == Run(who) && me.status.Sending? then Outgoing(cfg, me) == FpMsg(Fingerprint(cfg, me.weights))
                 else HasCompared(me)
  {
    hide FirstSideActs, HasCompared, Outgoing, Fingerprint, IsWeights;
    if act.who == who {
      ComparingFirstStep(cfg, if who == A then s else Swap(s), act);
    } else {
      FirstSideMeasure(cfg, if act.who == A then s else Swap(s), act);
    }
  }

  lemma ComparingFirstStep(cfg: Config, s: Sys, act: Action)
    requires ValidConfig(cfg) && SysFits(cfg, s)
    ensures var me, next := s.a, FirstSideActs(cfg, s, act).a;
            HasCompared(next) ==>
              && next.weights == me.weights
              && if act.Run? && me.status.Sending? then Outgoing(cfg, me) == FpMsg(Fingerprint(cfg, me.weights))
                 else HasCompared(me)
  {
    hide Tau, Input, Learn, Fingerprint, IsWeights, AgreedSeed;
  }

  /** A session that waits for its peer's fingerprint, gave up waiting for it
      or has succeeded has sent its own, and nothing after it. */
  lemma {:induction false} FingerprintWasSent(cfg: Config, s: Sys, acts: seq<Action>, who: Who)
    requires ValidConfig(cfg) && SysFits(cfg, s) && !HasCompared(SideOf(s, who))
    ensures var me := SideOf(Exec(cfg, s, acts), who);
            HasCompared(me) ==> LastSent(SentIn(cfg, s, acts, who), FpMsg(Fingerprint(cfg, me.weights)))
  {
    hide Step, HasCompared, Outgoing, Fingerprint, IsWeights;
    if acts != [] {
      FingerprintWasSent(cfg, s, acts[..|acts| - 1], who);
      ComparingStep(cfg, Exec(cfg, s, acts[..|acts| - 1]), acts[|acts| - 1], who);
    }
  }

  /** The peer of a successful session. */
  predicate PeerOfSuccess(cfg: Config, me: Side, peer: Side, peerInbound: seq<Msg>) {
    && peer.round == me.round
    && Fingerprint(cfg, peer.weights) == Fingerprint(cfg, me.weights)
    && (|| peer.status == Finished(Success)
        || peer.status == Finished(TimedOut(FpKind))
        || (peer.status == Receiving(FpKind) && peerInbound != [] &&
            peerInbound[0] == FpMsg(Fingerprint(cfg, me.weights))))
  }

  /** Only a peer that ended without success cuts anybody off. */
  predicate CutOffsHaveCause(s: Sys) {
    (IsCutOff(s.a) ==> HasHungUp(s.b)) && (IsCutOff(s.b) ==> HasHungUp(s.a))
  }

  lemma CauseStep(cfg: Config, s: Sys, act: Action)
    requires ValidConfig(cfg) && SysFits(cfg, s) && CutOffsHaveCause(s)
    ensures CutOffsHaveCause(Step(cfg, s, act))
  {
    hide Tau, Input, Learn, Fingerprint, IsWeights, Outgoing, AgreedSeed;
  }

  lemma {:induction false} CutOffsAreTheHungUpPeers(cfg: Config, s: Sys, acts: seq<Action>)
    requires ValidConfig(cfg) && SysFits(cfg, s) && CutOffsHaveCause(s)
    ensures CutOffsHaveCause(Exec(cfg, s, acts))
  {
    hide Step, CutOffsHaveCause, IsWeights;
    if acts != [] {
      CutOffsAreTheHungUpPeers(cfg, s, acts[..|acts| - 1]);
      CauseStep(cfg, Exec(cfg, s, acts[..|acts| - 1]), acts[|acts| - 1]);
    }
  }

  lemma FirstSuccess(cfg: Config, d: Duo, s: Sys, ka: nat, kb: nat)
    requires ValidConfig(cfg) && DuoFits(cfg, d) && SysFits(cfg, s) && InStep(cfg, d) && InvAt(cfg, d, s, ka, kb)
    requires d.a.status.Sending? && s.a.status == Finished(Success) && !IsCutOff(s.b)
    ensures PeerOfSuccess(cfg, s.a, s.b, s.ab) && AllApp(s.ba)
  {
    hide Lock, IsWeights, ChannelAt, Outgoing, Fingerprint;
    assert Lock(cfg, d, ka).a == s.a;
    SuccessHasAPredecessor(cfg, d, ka);
    var sentB := SentCount(s.b, Lock(cfg, d, kb).b, kb);
    ChannelShape(cfg, d, s.a, s.ab, kb, ka);
    ChannelShape(cfg, Flip(d), s.b, s.ba, ka, sentB);
    assert ActiveBelow(cfg, d, ka) && ActiveBelow(cfg, Flip(d), sentB) by { ActiveFromChannels(cfg, d, s, ka, kb); }
    assert Lock(cfg, d, ka - 1).a.status.Sending?;
    LockFlips(cfg, d, ka);
    if kb < ka {
      ChannelTake(cfg, d, s.a, s.ab, kb, ka);
      OutgoingFingerprint(cfg, Lock(cfg, d, kb).a);
    } else {
      SameExchangeSameFingerprint(cfg, d, ka);
    }
  }

  lemma ActiveFromChannels(cfg: Config, d: Duo, s: Sys, ka: nat, kb: nat)
    requires ValidConfig(cfg) && DuoFits(cfg, d) && InvAt(cfg, d, s, ka, kb)
    ensures ActiveBelow(cfg, d, SentCount(s.a, Lock(cfg, d, ka).a, ka))
    ensures ActiveBelow(cfg, Flip(d), SentCount(s.b, Lock(cfg, d, kb).b, kb))
  {
    hide Lock, IsWeights, Stream, ActiveBelow;
  }

  lemma OutgoingFingerprint(cfg: Config, s: Side)
    requires ValidConfig(cfg) && Fits(cfg, s.weights) && s.status == Sending(FpKind)
    ensures Outgoing(cfg, s) == FpMsg(Fingerprint(cfg, s.weights))
  {
    hide Fingerprint, IsWeights;
  }

  lemma SameExchangeSameFingerprint(cfg: Config, d: Duo, k: nat)
    requires ValidConfig(cfg) && DuoFits(cfg, d) && InStep(cfg, d) && k > 0
    requires Lock(cfg, d, k - 1).a.status == Sending(FpKind)
    requires Lock(cfg, d, k).a.status == Finished(Success)
    ensures Fingerprint(cfg, Lock(cfg, d, k).a.weights) == Fingerprint(cfg, Lock(cfg, d, k).b.weights)
  {
    hide Tau, Input, Learn, Fingerprint, IsWeights, AgreedSeed;
    assert Lock(cfg, d, k - 1).b.status == Sending(FpKind);
    LockNext(cfg, d, k - 1);
  }

  /** With timeouts possible anywhere: when one session reports success at
      round r, its peer is at round r, has sent an equal fingerprint as its
      last message, and has succeeded, has timed out in its own fingerprint
      receive, or waits there with the matching fingerprint at the head of its
      channel.  Nothing but application frames will ever reach the successful
      session's reader. */
  lemma SuccessIsWitnessed(cfg: Config, seedA: bv64, seedB: bv64, p: Pair, acts: seq<Action>, who: Who)
    requires ValidConfig(cfg) && PairFits(cfg, p)
    requires SideOf(Exec(cfg, Start(seedA, seedB, p), acts), who).status == Finished(Success)
    ensures var s := Exec(cfg, Start(seedA, seedB, p), acts);
            && PeerOfSuccess(cfg, SideOf(s, who), SideOf(s, Other(who)), Inbound(s, Other(who)))
            && LastSent(SentIn(cfg, Start(seedA, seedB, p), acts, Other(who)),
                        FpMsg(Fingerprint(cfg, SideOf(s, who).weights)))
            && AllApp(Inbound(s, who))
  {
    FingerprintWasSent(cfg, Start(seedA, seedB, p), acts, Other(who));
    CutOffsAreTheHungUpPeers(cfg, Start(seedA, seedB, p), acts);
    hide LastSent, SentIn, Lock, DuoRefines, InvAt, Exec, IsWeights, AgreedSeed, Outgoing, Consume, Fingerprint, InStep;
    var d := StartDuo(seedA, seedB, p);
    var s := Exec(cfg, Start(seedA, seedB, p), acts);
    var ka, kb := Reachable(cfg, seedA, seedB, p, acts);
    StartInStep(cfg, seedA, seedB, p);
    InvIsSymmetric(cfg, d, s, ka, kb);
    if who == A {
      FirstSuccess(cfg, d, s, ka, kb);
    } else {
      FirstSuccess(cfg, Flip(d), Swap(s), kb, ka);
    }
  }

  /** A peer that is still waiting succeeds by its next receive. */
  lemma WaitingPeerSucceeds(cfg: Config, me: Side, peer: Side, inbound: seq<Msg>)
    requires ValidConfig(cfg) && Fits(cfg, peer.weights) && PeerOfSuccess(cfg, me, peer, inbound)
    requires peer.status.Receiving?
    ensures Consume(cfg, peer, inbound[0]).status == Finished(Success)
  {
    hide Tau, Input, Learn, Fingerprint, IsWeights;
  }

  /** What a finished session reports, timeouts included: a success the loop's,
      a failure the round it got to and the fingerprint of the weights the loop
      has there, before the round's update if the tau never came. */
  lemma ReportsAreTheLoops(cfg: Config, seedA: bv64, seedB: bv64, p: Pair, acts: seq<Action>, who: Who)
    requires ValidConfig(cfg) && PairFits(cfg, p)
    ensures var me, seed := SideOf(Exec(cfg, Start(seedA, seedB, p), acts), who), AgreedSeed(seedA, seedB);
            var r := ReportOf(cfg, me);
            && r.rounds <= cfg.maxRounds
            && (me.status == Finished(Success) ==>
                  r.success && SequentialVerdict(cfg, seed, p) == Verdict(true, r.rounds))
            && (me.status == Finished(Exhausted) ==>
                  !r.success && SequentialVerdict(cfg, seed, p) == Verdict(false, r.rounds))
            && (me.status.Finished? && me.status.outcome.TimedOut? ==>
                  && !r.success
                  && (r.rounds == 0 <==> me.status.outcome.waitingFor == SeedKind))
            && (me.status.Finished? ==>
                  r.fingerprint ==
                  Fingerprint(cfg, WeightsOf(After(cfg, seed, p, RoundsLearned(me.status.outcome, r.rounds)), who)))
  {
    hide Exec, AgreeAt, VerdictFrom, IsWeights, AgreedSeed, Fingerprint, After;
    RunsRefineTheLoop(cfg, seedA, seedB, p, acts, who);
    VerdictMeaning(cfg, AgreedSeed(seedA, seedB), p, 1);
    NoRounds(cfg, AgreedSeed(seedA, seedB), p);
  }

  lemma NoRounds(cfg: Config, seed: bv64, p: Pair)
    requires ValidConfig(cfg) && PairFits(cfg, p)
    ensures After(cfg, seed, p, 0) == p
  {
  }

  /** How many rounds' updates a session has behind it when it ends in round r. */
  function RoundsLearned(outcome: Outcome, r: nat): nat {
    match outcome
    case TimedOut(TauKind) => if r > 0 then r - 1 else 0
    case CutOff(_, TauKind) => if r > 0 then r - 1 else 0
    case _ => r
  }

  /** With a collision-free digest, in any state of any run: the sessions hold
      the same key exactly if they hold the same weights. */
  lemma KeysFollowWeights(cfg: Config, seedA: bv64, seedB: bv64, p: Pair, acts: seq<Action>)
    requires ValidConfig(cfg) && PairFits(cfg, p) && CollisionFree(cfg)
    ensures var s := Exec(cfg, Start(seedA, seedB, p), acts);
            DeriveKey(cfg, s.a.weights) == DeriveKey(cfg, s.b.weights) <==> s.a.weights == s.b.weights
  {
    hide Exec, IsWeights, DeriveKey, CollisionFree, Fingerprint;
    var s := Exec(cfg, Start(seedA, seedB, p), acts);
    KeyIdentifiesWeights(cfg, s.a.weights, s.b.weights);
  }

  /** Two successes, in whatever run, mean the same AES key for any digest, the
      one whose hex digits both report; with a collision-free digest they mean
      the same weights. */
  lemma SuccessesShareTheKey(cfg: Config, seedA: bv64, seedB: bv64, p: Pair, acts: seq<Action>)
    requires ValidConfig(cfg) && PairFits(cfg, p)
    requires var s := Exec(cfg, Start(seedA, seedB, p), acts);
             s.a.status == Finished(Success) && s.b.status == Finished(Success)
    ensures var s := Exec(cfg, Start(seedA, seedB, p), acts);
            && DeriveKey(cfg, s.a.weights) == DeriveKey(cfg, s.b.weights) && s.a.round == s.b.round
            && ReportOf(cfg, s.a).fingerprint == ReportOf(cfg, s.b).fingerprint == Hex(DeriveKey(cfg, s.a.weights))
            && (CollisionFree(cfg) ==> s.a.weights == s.b.weights)
  {
    hide Exec, IsWeights, ExportBytes, CollisionFree;
    SuccessIsWitnessed(cfg, seedA, seedB, p, acts, A);
    var s := Exec(cfg, Start(seedA, seedB, p), acts);
    HexIsInjective(DeriveKey(cfg, s.a.weights), DeriveKey(cfg, s.b.weights));
    if CollisionFree(cfg) { KeyIdentifiesWeights(cfg, s.a.weights, s.b.weights); }
  }
}
