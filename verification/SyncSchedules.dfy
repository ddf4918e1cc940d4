/** Runs that exist: the lockstep schedule completes both sessions. */
module SyncSchedules {
  import opened Basics
  import opened Tpm
  import opened SequentialSync
  import opened SyncSystem
  import opened SyncInvariant
  import opened SyncTheorems

  const EXCHANGE: seq<Action> := [Run(A), Run(B), Run(A), Run(B)]

  /** k times: both send, both receive. */
  function LockSchedule(k: nat): seq<Action> {
    if k == 0 then [] else LockSchedule(k - 1) + EXCHANGE
  }

  lemma {:induction false} LockScheduleIsTimely(k: nat)
    ensures Timely(LockSchedule(k))
  {
    if k > 0 { LockScheduleIsTimely(k - 1); }
  }

  lemma ExecSnoc(cfg: Config, s: Sys, acts: seq<Action>, act: Action)
    requires ValidConfig(cfg) && SysFits(cfg, s)
    ensures Exec(cfg, s, acts + [act]) == Step(cfg, Exec(cfg, s, acts), act)
  {
    hide Step, IsWeights;
    assert (acts + [act])[..|acts|] == acts;
  }

  lemma ExecFour(cfg: Config, s: Sys, acts: seq<Action>, w: Action, x: Action, y: Action, z: Action)
    requires ValidConfig(cfg) && SysFits(cfg, s)
    ensures Exec(cfg, s, acts + [w, x, y, z]) ==
            Step(cfg, Step(cfg, Step(cfg, Step(cfg, Exec(cfg, s, acts), w), x), y), z)
  {
    hide Exec, Step, IsWeights;
    ExecSnoc(cfg, s, acts, w);
    ExecSnoc(cfg, s, acts + [w], x);
    ExecSnoc(cfg, s, acts + [w] + [x], y);
    ExecSnoc(cfg, s, acts + [w] + [x] + [y], z);
    assert acts + [w] + [x] + [y] + [z] == acts + [w, x, y, z];
  }

  /** Both sides send; then the first side receives. */
  lemma ThreeQuarters(cfg: Config, d: Duo)
    requires ValidConfig(cfg) && DuoFits(cfg, d) && d.a.status.Sending? && d.b.status.Sending?
    ensures Step(cfg, Step(cfg, Step(cfg, Sys(d.a, d.b, [], []), Run(A)), Run(B)), Run(A)) ==
            Sys(Exchange(cfg, d).a, Waiting(d.b), [Outgoing(cfg, d.a)], [])
  {
    hide Consume, Outgoing, IsWeights, Step;
    BothSend(cfg, d);
    FirstReceives(cfg, Waiting(d.a), Waiting(d.b), [Outgoing(cfg, d.a)], Outgoing(cfg, d.b));
  }

  lemma BothSend(cfg: Config, d: Duo)
    requires ValidConfig(cfg) && DuoFits(cfg, d) && d.a.status.Sending? && d.b.status.Sending?
    ensures Step(cfg, Step(cfg, Sys(d.a, d.b, [], []), Run(A)), Run(B)) ==
            Sys(Waiting(d.a), Waiting(d.b), [Outgoing(cfg, d.a)], [Outgoing(cfg, d.b)])
  {
    hide Consume, Outgoing, IsWeights;
    assert Step(cfg, Sys(d.a, d.b, [], []), Run(A)) == Sys(Waiting(d.a), d.b, [Outgoing(cfg, d.a)], []);
  }

  lemma FirstReceives(cfg: Config, a: Side, b: Side, ab: seq<Msg>, m: Msg)
    requires ValidConfig(cfg) && Fits(cfg, a.weights) && Fits(cfg, b.weights) && a.status.Receiving?
    ensures Step(cfg, Sys(a, b, ab, [m]), Run(A)) == Sys(Consume(cfg, a, m), b, ab, [])
  {
    hide Consume, Outgoing, IsWeights;
  }

  lemma {:induction false} LockScheduleReaches(cfg: Config, seedA: bv64, seedB: bv64, p: Pair, k: nat)
    requires ValidConfig(cfg) && PairFits(cfg, p)
    requires InStep(cfg, StartDuo(seedA, seedB, p)) && ActiveBelow(cfg, StartDuo(seedA, seedB, p), k)
    ensures var l := Lock(cfg, StartDuo(seedA, seedB, p), k);
            Exec(cfg, Start(seedA, seedB, p), LockSchedule(k)) == Sys(l.a, l.b, [], [])
  {
    hide Consume, Outgoing, IsWeights, Exchange;
    var d := StartDuo(seedA, seedB, p);
    if k > 0 {
      LockScheduleReaches(cfg, seedA, seedB, p, k - 1);
      var l := Lock(cfg, d, k - 1);
      assert l.a.status.Sending?;
      ExecFour(cfg, Start(seedA, seedB, p), LockSchedule(k - 1), Run(A), Run(B), Run(A), Run(B));
      ThreeQuarters(cfg, l);
      LastQuarter(cfg, l);
      LockNext(cfg, d, k - 1);
    }
  }

  lemma LastQuarter(cfg: Config, d: Duo)
    requires ValidConfig(cfg) && DuoFits(cfg, d) && d.a.status.Sending? && d.b.status.Sending?
    ensures Step(cfg, Sys(Exchange(cfg, d).a, Waiting(d.b), [Outgoing(cfg, d.a)], []), Run(B)) ==
            Sys(Exchange(cfg, d).a, Exchange(cfg, d).b, [], [])
  {
    hide Outgoing, IsWeights, Consume;
  }

  /** The lockstep schedule ends. */
  lemma LockFinishes(cfg: Config, d: Duo, k: nat) returns (n: nat)
    requires ValidConfig(cfg) && DuoFits(cfg, d) && InStep(cfg, d) && ActiveBelow(cfg, d, k)
    ensures Lock(cfg, d, n).a.status.Finished? && ActiveBelow(cfg, d, n)
    decreases SideMeasure(cfg, Lock(cfg, d, k).a)
  {
    hide Lock, Consume, Outgoing, IsWeights, SideMeasure;
    var l := Lock(cfg, d, k);
    if l.a.status.Finished? {
      n := k;
    } else {
      LockNext(cfg, d, k);
      ConsumeMeasure(cfg, Waiting(l.a), Outgoing(cfg, l.b));
      WaitingMeasure(cfg, l.a);
      n := LockFinishes(cfg, d, k + 1);
    }
  }

  lemma WaitingMeasure(cfg: Config, s: Side)
    requires s.status.Sending?
    ensures SideMeasure(cfg, Waiting(s)) < SideMeasure(cfg, s)
  {
  }

  /** Some run without timeouts brings both sessions to their end. */
  lemma CompleteRunExists(cfg: Config, seedA: bv64, seedB: bv64, p: Pair) returns (acts: seq<Action>)
    requires ValidConfig(cfg) && PairFits(cfg, p)
    ensures Timely(acts)
    ensures var s := Exec(cfg, Start(seedA, seedB, p), acts); s.a.status.Finished? && s.b.status.Finished?
  {
    hide Lock, DuoRefines, Exec, IsWeights, AgreedSeed;
    StartInStep(cfg, seedA, seedB, p);
    var n := LockFinishes(cfg, StartDuo(seedA, seedB, p), 0);
    acts := LockSchedule(n);
    LockScheduleIsTimely(n);
    LockScheduleReaches(cfg, seedA, seedB, p, n);
  }
}
