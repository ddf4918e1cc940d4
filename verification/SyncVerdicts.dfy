/** What timeouts do to the two verdicts: when the sessions can disagree, and
    exactly which timeouts make them.  Also the in-process wrapper. */
module SyncVerdicts {
  import opened Basics
  import opened Tpm
  import opened SequentialSync
  import opened SyncSystem
  import opened SyncInvariant
  import opened SyncTheorems
  import opened SyncSchedules

  // ------------------------------------------------------- what success means

  /** A success is the loop's: whatever timed out, no session reports success
      unless the loop succeeds, and then at the loop's round. */
  lemma SuccessIsTheLoops(cfg: Config, seedA: bv64, seedB: bv64, p: Pair, acts: seq<Action>, who: Who)
    requires ValidConfig(cfg) && PairFits(cfg, p)
    requires SideOf(Exec(cfg, Start(seedA, seedB, p), acts), who).status == Finished(Success)
    ensures SequentialVerdict(cfg, AgreedSeed(seedA, seedB), p) ==
            Verdict(true, SideOf(Exec(cfg, Start(seedA, seedB, p), acts), who).round)
  {
    hide Exec, After, AgreeAt, VerdictFrom, IsWeights, AgreedSeed;
    RunsRefineTheLoop(cfg, seedA, seedB, p, acts, who);
    VerdictMeaning(cfg, AgreedSeed(seedA, seedB), p, 1);
  }

  /** Both sessions are over and exactly one has succeeded. */
  predicate Split(s: Sys) {
    s.a.status.Finished? && s.b.status.Finished? &&
        (s.a.status == Finished(Success)) != (s.b.status == Finished(Success))
  }

  /** The first session gave up waiting for the fingerprint of the agreeing
      round, and the other neither gave up nor was cut off. */
  predicate LoneGiveUp(me: Side, peer: Side, agreeing: nat) {
    me.status == Finished(TimedOut(FpKind)) && me.round == agreeing && !HasGivenUp(peer)
  }

  lemma OverlookedSuccess(cfg: Config, seedA: bv64, seedB: bv64, p: Pair, acts: seq<Action>, who: Who)
    requires ValidConfig(cfg) && PairFits(cfg, p)
    requires SequentialVerdict(cfg, AgreedSeed(seedA, seedB), p).success
    requires var s, v := Exec(cfg, Start(seedA, seedB, p), acts), SequentialVerdict(cfg, AgreedSeed(seedA, seedB), p);
             LoneGiveUp(SideOf(s, who), SideOf(s, Other(who)), v.rounds) && SideOf(s, Other(who)).status.Finished?
    ensures SideOf(Exec(cfg, Start(seedA, seedB, p), acts), Other(who)).status == Finished(Success)
  {
    hide Exec, After, AgreeAt, VerdictFrom, IsWeights, AgreedSeed;
    RunsRefineTheLoop(cfg, seedA, seedB, p, acts, Other(who));
    VerdictMeaning(cfg, AgreedSeed(seedA, seedB), p, 1);
  }

  lemma SplitMeansGiveUp(cfg: Config, seedA: bv64, seedB: bv64, p: Pair, acts: seq<Action>, who: Who)
    requires ValidConfig(cfg) && PairFits(cfg, p)
    requires var s := Exec(cfg, Start(seedA, seedB, p), acts);
             && SideOf(s, who).status == Finished(Success)
             && SideOf(s, Other(who)).status.Finished? && SideOf(s, Other(who)).status != Finished(Success)
    ensures var s, v := Exec(cfg, Start(seedA, seedB, p), acts), SequentialVerdict(cfg, AgreedSeed(seedA, seedB), p);
            v.success && LoneGiveUp(SideOf(s, Other(who)), SideOf(s, who), v.rounds)
  {
    hide Exec, SequentialVerdict, SentIn, Fingerprint, IsWeights, AgreedSeed;
    SuccessIsTheLoops(cfg, seedA, seedB, p, acts, who);
    SuccessIsWitnessed(cfg, seedA, seedB, p, acts, who);
  }

  /** Exactly when the verdicts differ: in every run that ends both sessions,
      one success goes with one failure if and only if the loop succeeds, one
      session gave up waiting for the fingerprint of the agreeing round, and
      the other neither gave up at all nor found the connection closed. */
  lemma VerdictsDifferIff(cfg: Config, seedA: bv64, seedB: bv64, p: Pair, acts: seq<Action>)
    requires ValidConfig(cfg) && PairFits(cfg, p)
    requires var s := Exec(cfg, Start(seedA, seedB, p), acts); s.a.status.Finished? && s.b.status.Finished?
    ensures var s, v := Exec(cfg, Start(seedA, seedB, p), acts), SequentialVerdict(cfg, AgreedSeed(seedA, seedB), p);
            Split(s) <==> v.success && (LoneGiveUp(s.a, s.b, v.rounds) || LoneGiveUp(s.b, s.a, v.rounds))
  {
    hide Exec, SequentialVerdict, IsWeights, AgreedSeed;
    var s, v := Exec(cfg, Start(seedA, seedB, p), acts), SequentialVerdict(cfg, AgreedSeed(seedA, seedB), p);
    if Split(s) {
      SplitMeansGiveUp(cfg, seedA, seedB, p, acts, if s.a.status == Finished(Success) then A else B);
    } else if v.success && LoneGiveUp(s.a, s.b, v.rounds) {
      OverlookedSuccess(cfg, seedA, seedB, p, acts, A);
    } else if v.success && LoneGiveUp(s.b, s.a, v.rounds) {
      OverlookedSuccess(cfg, seedA, seedB, p, acts, B);
    }
  }

  // --------------------------------------------------------- which schedules

  /** No receive of a fingerprint times out. */
  predicate FingerprintsInTime(cfg: Config, s: Sys, acts: seq<Action>)
    requires ValidConfig(cfg) && SysFits(cfg, s)
  {
    forall i :: 0 <= i < |acts| && acts[i].Timeout? ==>
      SideOf(Exec(cfg, s, acts[..i]), acts[i].who).status != Receiving(FpKind)
  }

  predicate GaveUpOnFingerprint(s: Sys) {
    s.a.status == Finished(TimedOut(FpKind)) || s.b.status == Finished(TimedOut(FpKind))
  }

  lemma GiveUpStep(cfg: Config, s: Sys, act: Action)
    requires ValidConfig(cfg) && SysFits(cfg, s) && !GaveUpOnFingerprint(s)
    requires act.Timeout? ==> SideOf(s, act.who).status != Receiving(FpKind)
    ensures !GaveUpOnFingerprint(Step(cfg, s, act))
  {
    hide Tau, Input, Learn, Fingerprint, IsWeights, Outgoing, AgreedSeed;
  }

  lemma {:induction false} InTimeMeansNoGiveUp(cfg: Config, s: Sys, acts: seq<Action>)
    requires ValidConfig(cfg) && SysFits(cfg, s) && !GaveUpOnFingerprint(s) && FingerprintsInTime(cfg, s, acts)
    ensures !GaveUpOnFingerprint(Exec(cfg, s, acts))
  {
    hide Step, IsWeights, GaveUpOnFingerprint;
    if acts != [] {
      var init, last := acts[..|acts| - 1], acts[|acts| - 1];
      assert FingerprintsInTime(cfg, s, init) by {
        forall i | 0 <= i < |init|
          ensures init[i] == acts[i] && init[..i] == acts[..i]
        {
        }
      }
      InTimeMeansNoGiveUp(cfg, s, init);
      GiveUpStep(cfg, Exec(cfg, s, init), last);
    }
  }

  /** So a schedule in which no fingerprint receive times out never splits the
      verdicts, however many seed and tau receives do. */
  lemma InTimeFingerprintsNeverSplit(cfg: Config, seedA: bv64, seedB: bv64, p: Pair, acts: seq<Action>)
    requires ValidConfig(cfg) && PairFits(cfg, p)
    requires FingerprintsInTime(cfg, Start(seedA, seedB, p), acts)
    ensures !Split(Exec(cfg, Start(seedA, seedB, p), acts))
  {
    hide Exec, SequentialVerdict, IsWeights, FingerprintsInTime;
    InTimeMeansNoGiveUp(cfg, Start(seedA, seedB, p), acts);
    var s := Exec(cfg, Start(seedA, seedB, p), acts);
    if s.a.status.Finished? && s.b.status.Finished? { VerdictsDifferIff(cfg, seedA, seedB, p, acts); }
  }

  // ------------------------------------------------------- runs that do split

  /** Every timeout fires in a receive that has nothing to take, as a clock can
      make it. */
  predicate Patient(cfg: Config, s: Sys, acts: seq<Action>)
    requires ValidConfig(cfg) && SysFits(cfg, s)
  {
    forall i :: 0 <= i < |acts| && acts[i].Timeout? ==> WaitsInVain(Exec(cfg, s, acts[..i]), acts[i].who)
  }

  predicate WaitsInVain(s: Sys, who: Who) { SideOf(s, who).status.Receiving? && Inbound(s, who) == [] }

  lemma TimelyIsPatient(cfg: Config, s: Sys, acts: seq<Action>)
    requires ValidConfig(cfg) && SysFits(cfg, s) && Timely(acts)
    ensures Patient(cfg, s, acts)
  {
    hide Exec, IsWeights;
  }

  lemma PatientSnoc(cfg: Config, s: Sys, acts: seq<Action>, act: Action)
    requires ValidConfig(cfg) && SysFits(cfg, s) && Patient(cfg, s, acts)
    requires act.Timeout? ==> WaitsInVain(Exec(cfg, s, acts), act.who)
    ensures Patient(cfg, s, acts + [act])
  {
    hide Exec, WaitsInVain, IsWeights;
    var more := acts + [act];
    forall i | 0 <= i < |more| && more[i].Timeout?
      ensures WaitsInVain(Exec(cfg, s, more[..i]), more[i].who)
    {
      if i < |acts| {
        assert more[..i] == acts[..i] && more[i] == acts[i];
      } else {
        assert more[..i] == acts;
      }
    }
  }

  /** A timeout at the last receive splits the verdicts: whenever the loop
      succeeds there is a run in which one session reports success and the
      other, in the same round, a timeout that fired on an empty channel. */
  lemma VerdictsCanSplit(cfg: Config, seedA: bv64, seedB: bv64, p: Pair) returns (acts: seq<Action>)
    requires ValidConfig(cfg) && PairFits(cfg, p)
    requires SequentialVerdict(cfg, AgreedSeed(seedA, seedB), p).success
    ensures Patient(cfg, Start(seedA, seedB, p), acts)
    ensures var s := Exec(cfg, Start(seedA, seedB, p), acts);
            && s.a.status == Finished(Success) && s.b.status == Finished(TimedOut(FpKind))
            && s.a.round == s.b.round == SequentialVerdict(cfg, AgreedSeed(seedA, seedB), p).rounds
  {
    hide Lock, Exec, Step, Exchange, IsWeights, AgreedSeed, SequentialVerdict, Consume, Outgoing, Fingerprint, InStep,
         ActiveBelow, Patient;
    var d, s := StartDuo(seedA, seedB, p), Start(seedA, seedB, p);
    var k := LastExchange(cfg, seedA, seedB, p);
    var l, lock := Lock(cfg, d, k), LockSchedule(k);
    var out := Outgoing(cfg, l.b);
    LockScheduleReaches(cfg, seedA, seedB, p, k);
    LockScheduleIsTimely(k);
    TimelyIsPatient(cfg, s, lock);
    SecondSends(cfg, l.a, l.b, [], []);
    assert [] + [out] == [out];
    ExecSnoc(cfg, s, lock, Run(B));
    PatientSnoc(cfg, s, lock, Run(B));
    SecondGivesUp(cfg, l.a, l.b, [], [out]);
    ExecSnoc(cfg, s, lock + [Run(B)], Timeout(B));
    PatientSnoc(cfg, s, lock + [Run(B)], Timeout(B));
    var late := lock + [Run(B)] + [Timeout(B)];
    FirstSends(cfg, l.a, GiveUp(Waiting(l.b)), [out]);
    ExecSnoc(cfg, s, late, Run(A));
    PatientSnoc(cfg, s, late, Run(A));
    FirstReceives(cfg, Waiting(l.a), GiveUp(Waiting(l.b)), [Outgoing(cfg, l.a)], out);
    ExecSnoc(cfg, s, late + [Run(A)], Run(A));
    PatientSnoc(cfg, s, late + [Run(A)], Run(A));
    ExchangedFirst(cfg, l);
    acts := late + [Run(A)] + [Run(A)];
  }

  /** The comparison after which the lockstep schedule succeeds. */
  lemma LastExchange(cfg: Config, seedA: bv64, seedB: bv64, p: Pair) returns (k: nat)
    requires ValidConfig(cfg) && PairFits(cfg, p)
    requires SequentialVerdict(cfg, AgreedSeed(seedA, seedB), p).success
    ensures InStep(cfg, StartDuo(seedA, seedB, p)) && ActiveBelow(cfg, StartDuo(seedA, seedB, p), k)
    ensures var l := Lock(cfg, StartDuo(seedA, seedB, p), k);
            && l.a.status == Sending(FpKind) == l.b.status
            && Exchange(cfg, l).a.status == Finished(Success)
            && Exchange(cfg, l).a.round == l.b.round == SequentialVerdict(cfg, AgreedSeed(seedA, seedB), p).rounds
  {
    hide Lock, DuoRefines, Exchange, IsWeights, AgreedSeed, After, SequentialVerdict, Fingerprint;
    var d := StartDuo(seedA, seedB, p);
    StartInStep(cfg, seedA, seedB, p);
    var n := LockFinishes(cfg, d, 0);
    FinishedIsVerdict(cfg, AgreedSeed(seedA, seedB), p, Lock(cfg, d, n));
    SuccessHasAPredecessor(cfg, d, n);
    k := n - 1;
    LockNext(cfg, d, k);
  }

  ghost predicate SomeRunSplits(cfg: Config, seedA: bv64, seedB: bv64, p: Pair)
    requires ValidConfig(cfg) && PairFits(cfg, p)
  {
    exists acts :: Patient(cfg, Start(seedA, seedB, p), acts) && Split(Exec(cfg, Start(seedA, seedB, p), acts))
  }

  /** Some run whose timeouts fire on empty channels splits the verdicts exactly
      when the loop succeeds. */
  lemma SomeRunSplitsIff(cfg: Config, seedA: bv64, seedB: bv64, p: Pair)
    requires ValidConfig(cfg) && PairFits(cfg, p)
    ensures SomeRunSplits(cfg, seedA, seedB, p) <==> SequentialVerdict(cfg, AgreedSeed(seedA, seedB), p).success
  {
    hide Exec, SequentialVerdict, IsWeights, AgreedSeed, Patient;
    if SequentialVerdict(cfg, AgreedSeed(seedA, seedB), p).success {
      var acts := VerdictsCanSplit(cfg, seedA, seedB, p);
    } else if SomeRunSplits(cfg, seedA, seedB, p) {
      var acts :| Patient(cfg, Start(seedA, seedB, p), acts) && Split(Exec(cfg, Start(seedA, seedB, p), acts));
      VerdictsDifferIff(cfg, seedA, seedB, p, acts);
    }
  }

  lemma SecondGivesUp(cfg: Config, a: Side, b: Side, ab: seq<Msg>, ba: seq<Msg>)
    requires ValidConfig(cfg) && Fits(cfg, a.weights) && Fits(cfg, b.weights) && b.status.Sending?
    ensures Step(cfg, Sys(a, Waiting(b), ab, ba), Timeout(B)) == Sys(a, GiveUp(Waiting(b)), ab, ba)
  {
    hide Consume, Outgoing, IsWeights;
  }

  lemma SecondSends(cfg: Config, a: Side, b: Side, ab: seq<Msg>, ba: seq<Msg>)
    requires ValidConfig(cfg) && Fits(cfg, a.weights) && Fits(cfg, b.weights) && b.status.Sending?
    ensures Step(cfg, Sys(a, b, ab, ba), Run(B)) == Sys(a, Waiting(b), ab, ba + [Outgoing(cfg, b)])
  {
    hide Consume, Outgoing, IsWeights;
  }

  lemma SecondReceives(cfg: Config, a: Side, b: Side, m: Msg, ba: seq<Msg>)
    requires ValidConfig(cfg) && Fits(cfg, a.weights) && Fits(cfg, b.weights) && b.status.Receiving?
    ensures Step(cfg, Sys(a, b, [m], ba), Run(B)) == Sys(a, Consume(cfg, b, m), [], ba)
  {
    hide Consume, Outgoing, IsWeights;
  }

  lemma FirstSends(cfg: Config, a: Side, b: Side, ba: seq<Msg>)
    requires ValidConfig(cfg) && Fits(cfg, a.weights) && Fits(cfg, b.weights) && a.status.Sending?
    ensures Step(cfg, Sys(a, b, [], ba), Run(A)) == Sys(Waiting(a), b, [Outgoing(cfg, a)], ba)
  {
    hide Consume, Outgoing, IsWeights;
  }

  lemma FirstGivesUp(cfg: Config, a: Side, b: Side, ab: seq<Msg>, ba: seq<Msg>)
    requires ValidConfig(cfg) && Fits(cfg, a.weights) && Fits(cfg, b.weights) && a.status.Sending?
    ensures Step(cfg, Sys(Waiting(a), b, ab, ba), Timeout(A)) == Sys(GiveUp(Waiting(a)), b, ab, ba)
  {
    hide Consume, Outgoing, IsWeights;
  }

  /** The exchange before a comparison is the tau exchange of its round. */
  lemma BeforeComparison(cfg: Config, d: Duo, k: nat)
    requires ValidConfig(cfg) && DuoFits(cfg, d) && InStep(cfg, d) && ActiveBelow(cfg, d, k)
    requires d.a.status == Sending(SeedKind) && Lock(cfg, d, k).a.status == Sending(FpKind)
    ensures k > 0 && Lock(cfg, d, k - 1).a.status == Sending(TauKind) == Lock(cfg, d, k - 1).b.status
    ensures Lock(cfg, d, k - 1).a.round == Lock(cfg, d, k).a.round
  {
    if k > 0 {
      hide Lock, Exchange, IsWeights;
      LockNext(cfg, d, k - 1);
      assert Lock(cfg, d, k - 1).a.status.Sending?;
      IntoComparison(cfg, Lock(cfg, d, k - 1));
    }
  }

  lemma IntoComparison(cfg: Config, l: Duo)
    requires ValidConfig(cfg) && DuoFits(cfg, l) && l.a.status.Sending? && l.a.status == l.b.status
    requires Exchange(cfg, l).a.status == Sending(FpKind)
    ensures l.a.status == Sending(TauKind) && l.a.round == Exchange(cfg, l).a.round
  {
    hide Tau, Input, Learn, Fingerprint, IsWeights, AgreedSeed;
  }

  /** That the other never gives up is needed: a session can time out waiting
      for the fingerprint of the agreeing round while its peer has timed out
      waiting for that round's tau, and then neither reports success. */
  lemma TwoGiveUpsDoNotSplit(cfg: Config, seedA: bv64, seedB: bv64, p: Pair) returns (acts: seq<Action>)
    requires ValidConfig(cfg) && PairFits(cfg, p)
    requires SequentialVerdict(cfg, AgreedSeed(seedA, seedB), p).success
    ensures Patient(cfg, Start(seedA, seedB, p), acts)
    ensures var s := Exec(cfg, Start(seedA, seedB, p), acts);
            && s.a.status == Finished(TimedOut(TauKind)) && s.b.status == Finished(TimedOut(FpKind))
            && s.a.round == s.b.round == SequentialVerdict(cfg, AgreedSeed(seedA, seedB), p).rounds
  {
    hide Lock, Exec, Step, Exchange, IsWeights, AgreedSeed, SequentialVerdict, Consume, Outgoing, Fingerprint, Patient;
    var d, s := StartDuo(seedA, seedB, p), Start(seedA, seedB, p);
    var k := LastExchange(cfg, seedA, seedB, p);
    BeforeComparison(cfg, d, k);
    var l, b, lock := Lock(cfg, d, k - 1), Lock(cfg, d, k).b, LockSchedule(k - 1);
    LockScheduleReaches(cfg, seedA, seedB, p, k - 1);
    LockScheduleIsTimely(k - 1);
    TimelyIsPatient(cfg, s, lock);
    FirstSends(cfg, l.a, l.b, []);
    ExecSnoc(cfg, s, lock, Run(A));
    PatientSnoc(cfg, s, lock, Run(A));
    FirstGivesUp(cfg, l.a, l.b, [Outgoing(cfg, l.a)], []);
    ExecSnoc(cfg, s, lock + [Run(A)], Timeout(A));
    PatientSnoc(cfg, s, lock + [Run(A)], Timeout(A));
    var alone := lock + [Run(A)] + [Timeout(A)];
    LockNext(cfg, d, k - 1);
    ExchangedSecond(cfg, l);
    acts := SecondWaitsAlone(cfg, s, alone, GiveUp(Waiting(l.a)), l.b, Outgoing(cfg, l.a));
  }

  /** From where the first session has given up after its send: the second
      sends, takes what was sent, sends again and waits in vain. */
  lemma SecondWaitsAlone(cfg: Config, s: Sys, alone: seq<Action>, a: Side, b: Side, m: Msg) returns (acts: seq<Action>)
    requires ValidConfig(cfg) && SysFits(cfg, s) && Fits(cfg, a.weights) && Fits(cfg, b.weights)
    requires Patient(cfg, s, alone) && Exec(cfg, s, alone) == Sys(a, b, [m], [])
    requires b.status.Sending? && Consume(cfg, Waiting(b), m).status.Sending?
    ensures Patient(cfg, s, acts)
    ensures Exec(cfg, s, acts).a == a && Exec(cfg, s, acts).b == GiveUp(Waiting(Consume(cfg, Waiting(b), m)))
  {
    hide Exec, Step, IsWeights, Consume, Outgoing, Patient;
    var next, out := Consume(cfg, Waiting(b), m), Outgoing(cfg, b);
    SecondSends(cfg, a, b, [m], []);
    assert [] + [out] == [out];
    ExecSnoc(cfg, s, alone, Run(B));
    PatientSnoc(cfg, s, alone, Run(B));
    SecondReceives(cfg, a, Waiting(b), m, [out]);
    ExecSnoc(cfg, s, alone + [Run(B)], Run(B));
    PatientSnoc(cfg, s, alone + [Run(B)], Run(B));
    var taken := alone + [Run(B)] + [Run(B)];
    SecondSends(cfg, a, next, [], [out]);
    ExecSnoc(cfg, s, taken, Run(B));
    PatientSnoc(cfg, s, taken, Run(B));
    SecondGivesUp(cfg, a, next, [], [out] + [Outgoing(cfg, next)]);
    ExecSnoc(cfg, s, taken + [Run(B)], Timeout(B));
    PatientSnoc(cfg, s, taken + [Run(B)], Timeout(B));
    acts := taken + [Run(B)] + [Timeout(B)];
  }

  lemma ExchangedFirst(cfg: Config, l: Duo)
    requires ValidConfig(cfg) && DuoFits(cfg, l) && l.a.status.Sending? && l.b.status.Sending?
    ensures Exchange(cfg, l).a == Consume(cfg, Waiting(l.a), Outgoing(cfg, l.b))
  {
    hide Consume, Outgoing, IsWeights;
  }

  lemma ExchangedSecond(cfg: Config, l: Duo)
    requires ValidConfig(cfg) && DuoFits(cfg, l) && l.a.status.Sending? && l.b.status.Sending?
    ensures Exchange(cfg, l).b == Consume(cfg, Waiting(l.b), Outgoing(cfg, l.a))
  {
    hide Consume, Outgoing, IsWeights;
  }

  // ------------------------------------------------------ in-process wrapper

  /** `SyncProtocol.synchronize`: equal machines return at once with round 0;
      otherwise the two sessions' reports are joined. */
  function InProcessReport(cfg: Config, p: Pair, a: Side, b: Side): Report {
    if Fingerprint(cfg, p.a) == Fingerprint(cfg, p.b) then Report(true, 0, Fingerprint(cfg, p.a))
    else
      var ra, rb := ReportOf(cfg, a), ReportOf(cfg, b);
      var success := ra.success && rb.success;
      Report(success, Max(ra.rounds, rb.rounds), if success then ra.fingerprint else Fingerprint(cfg, a.weights))
  }

  /** On a run without timeouts the wrapper reports the sequential loop's
      verdict, except that machines equal from the start report round 0. */
  lemma InProcessReportsTheLoop(cfg: Config, seed: bv64, p: Pair, acts: seq<Action>)
    requires ValidConfig(cfg) && PairFits(cfg, p) && Timely(acts)
    requires var s := Exec(cfg, Start(seed, 0, p), acts); s.a.status.Finished? && s.b.status.Finished?
    ensures AgreedSeed(seed, 0) == seed
    ensures var s := Exec(cfg, Start(seed, 0, p), acts);
            var v := SequentialVerdict(cfg, seed, p);
            InProcessReport(cfg, p, s.a, s.b) ==
            if Fingerprint(cfg, p.a) == Fingerprint(cfg, p.b) then Report(true, 0, Fingerprint(cfg, p.a))
            else Report(v.success, v.rounds, Fingerprint(cfg, After(cfg, seed, p, v.rounds).a))
  {
    hide Exec, After, SequentialVerdict, IsWeights, Fingerprint;
    CompleteRunsAgree(cfg, seed, 0, p, acts, A);
    CompleteRunsAgree(cfg, seed, 0, p, acts, B);
  }

  /** With timeouts anywhere: a success the wrapper reports is the loop's, at
      the loop's round, and both machines hold the reported fingerprint.  It
      reports success exactly when both sessions do, the larger of their
      rounds, and the fingerprint the first machine holds at the end. */
  lemma InProcessSuccessIsShared(cfg: Config, seed: bv64, p: Pair, acts: seq<Action>)
    requires ValidConfig(cfg) && PairFits(cfg, p) && Fingerprint(cfg, p.a) != Fingerprint(cfg, p.b)
    requires var s := Exec(cfg, Start(seed, 0, p), acts); s.a.status.Finished? && s.b.status.Finished?
    ensures var s := Exec(cfg, Start(seed, 0, p), acts);
            var r := InProcessReport(cfg, p, s.a, s.b);
            r.success ==>
              && SequentialVerdict(cfg, seed, p) == Verdict(true, r.rounds)
              && r.fingerprint == Fingerprint(cfg, s.a.weights) == Fingerprint(cfg, s.b.weights)
    ensures var s := Exec(cfg, Start(seed, 0, p), acts);
            var r := InProcessReport(cfg, p, s.a, s.b);
            && (r.success <==> s.a.status == Finished(Success) == s.b.status)
            && r.rounds in {s.a.round, s.b.round} && s.a.round <= r.rounds && s.b.round <= r.rounds
            && r.fingerprint == Fingerprint(cfg, s.a.weights)
  {
    hide Exec, SequentialVerdict, SentIn, IsWeights, Fingerprint;
    assert AgreedSeed(seed, 0) == seed;
    var s := Exec(cfg, Start(seed, 0, p), acts);
    if s.a.status == Finished(Success) && s.b.status == Finished(Success) {
      SuccessIsTheLoops(cfg, seed, 0, p, acts, A);
      SuccessIsTheLoops(cfg, seed, 0, p, acts, B);
      SuccessIsWitnessed(cfg, seed, 0, p, acts, A);
    }
  }
}
