/** Detector resets that leave the link's memory in place: exactly which
    detectors keep the notification trace well formed across them.  Two callers
    make them: the reader loop at a disconnect, while frames already sent are
    still to be recorded, and the one that stops an attack, between wiping the
    detector's memory and the link's. */
module IdsResets {
  import opened Basics
  import opened LiveIds
  import opened Notifications

  // ----------------------------------------------------- what windows can be

  function Total(probs: Probs): real {
    if probs == [] then 0.0 else Total(probs[..|probs| - 1]) + probs[|probs| - 1].1
  }

  /** What `predict_proba` yields: a probability for each class, in order,
      adding up to one. */
  predicate IsDistribution(labels: seq<string>, probs: Probs) {
    && |probs| == |labels| && Total(probs) == 1.0
    && forall i :: 0 <= i < |probs| ==> probs[i].0 == labels[i] && probs[i].1 >= 0.0
  }

  /** A window that can reach this detector.  The extractor always emits the
      same features and the model always needs the same ones; `matches` says
      whether it finds them, and if not every window without a NaN raises. */
  predicate Admissible(cfg: Settings, matches: bool, act: Act) {
    act.Features? ==>
      match act.w
      case HasNan => true
      case LacksFeature => !matches
      case Scored(probs) => matches && IsDistribution(cfg.labels, probs)
  }

  predicate AllAdmissible(cfg: Settings, matches: bool, acts: seq<Act>) {
    forall i :: 0 <= i < |acts| ==> Admissible(cfg, matches, acts[i])
  }

  lemma {:induction false} PartOfTotal(probs: Probs, k: nat)
    requires k < |probs| && forall i :: 0 <= i < |probs| ==> probs[i].1 >= 0.0
    ensures 0.0 <= probs[k].1 <= Total(probs)
  {
    TotalIsNonNegative(probs[..|probs| - 1]);
    if k < |probs| - 1 { PartOfTotal(probs[..|probs| - 1], k); }
  }

  lemma {:induction false} TotalIsNonNegative(probs: Probs)
    requires forall i :: 0 <= i < |probs| ==> probs[i].1 >= 0.0
    ensures Total(probs) >= 0.0
  {
    if probs != [] { TotalIsNonNegative(probs[..|probs| - 1]); }
  }

  // ------------------------------------------------------------- safe settings

  predicate IsAttack(cfg: Settings, kind: string) { kind in cfg.labels && kind != "normal" }

  predicate TwoAttackClasses(cfg: Settings) {
    exists i, j :: 0 <= i < |cfg.labels| && 0 <= j < |cfg.labels| &&
      IsAttack(cfg, cfg.labels[i]) && IsAttack(cfg, cfg.labels[j]) && cfg.labels[i] != cfg.labels[j]
  }

  /** Nothing is ever scored; or no probability reaches the firing threshold; or
      there is nothing to confuse an alert with; or the first window after a
      reset is bound to be a warm-up window that tells the link of it. */
  predicate Safe(cfg: Settings, matches: bool) {
    !matches || cfg.fire > 1.0 || !TwoAttackClasses(cfg) || cfg.minObservations >= 2
  }

  // -------------------------------------------------------------- safe is safe

  predicate PossibleAlert(cfg: Settings, matches: bool, alert: Option<Alert>) {
    alert.Some? ==> matches && cfg.fire <= 1.0 && IsAttack(cfg, alert.value.kind)
  }

  /** The detector has been reset and the link has not heard of it. */
  predicate Unheard(matches: bool, ids: Ids) { ids.alert.None? && ids.last.None? && (matches ==> ids.count == 0) }

  ghost predicate Coherent(cfg: Settings, matches: bool, l: Link) {
    && MemoryOk(cfg, l.ids) && Read(l.trace) == Expected(AlertOf(l.last))
    && PossibleAlert(cfg, matches, l.ids.alert) && PossibleAlert(cfg, matches, AlertOf(l.last))
    && (AlertOf(l.last) == l.ids.alert || AlertOf(l.last).None? || Unheard(matches, l.ids))
  }

  lemma NextIsPossible(cfg: Settings, matches: bool, ids: Ids, w: Window, now: int)
    requires Admissible(cfg, matches, Features(w, now)) && PossibleAlert(cfg, matches, ids.alert)
    ensures PossibleAlert(cfg, matches, Evaluated(cfg, ids, w, now).alert)
  {
    hide Evaluated, IsCandidate;
    OneWindow(cfg, ids, w, now);
    var after := Evaluated(cfg, ids, w, now).alert;
    if Decides(cfg, ids, w) && ids.alert.None? && after.Some? {
      var k :| 0 <= k < |w.probs| && w.probs[k] == (after.value.kind, after.value.confidence);
      PartOfTotal(w.probs, k);
      assert w.probs[k].0 == cfg.labels[k];
    }
  }

  /** Two attack alerts of a detector that has fewer classes are of one class. */
  lemma OneAttackClass(cfg: Settings, s: string, t: string)
    requires !TwoAttackClasses(cfg) && IsAttack(cfg, s) && IsAttack(cfg, t)
    ensures s == t
  {
    var i :| 0 <= i < |cfg.labels| && cfg.labels[i] == s;
    var j :| 0 <= j < |cfg.labels| && cfg.labels[j] == t;
  }

  lemma RaisingIsLacking(cfg: Settings, ids: Ids, w: Window, now: int)
    ensures Returned(cfg, ids, w, now).None? <==> w.LacksFeature?
    ensures w.LacksFeature? ==> Evaluated(cfg, ids, w, now) == ids.(count := ids.count + 1)
  {
  }

  lemma WindowKeepsCoherence(cfg: Settings, matches: bool, l: Link, w: Window, now: int)
    requires ValidSettings(cfg) && Safe(cfg, matches) && Coherent(cfg, matches, l)
    requires Admissible(cfg, matches, Features(w, now))
    ensures Coherent(cfg, matches, OnWindow(cfg, l, w, now))
  {
    hide Evaluated, Returned, Read, Notices, IsDistribution, TwoAttackClasses, IsAttack;
    var after, before := Evaluated(cfg, l.ids, w, now).alert, AlertOf(l.last);
    MemoryStays(cfg, l.ids, w, now);
    OneWindow(cfg, l.ids, w, now);
    RaisingIsLacking(cfg, l.ids, w, now);
    NextIsPossible(cfg, matches, l.ids, w, now);
    if before.Some? && after.Some? && before != l.ids.alert && !TwoAttackClasses(cfg) {
      OneAttackClass(cfg, before.value.kind, after.value.kind);
    }
    ReadAppends(l.trace, before, after);
  }

  lemma StepKeepsCoherence(cfg: Settings, matches: bool, l: Link, act: Act)
    requires ValidSettings(cfg) && Safe(cfg, matches) && Coherent(cfg, matches, l) && Admissible(cfg, matches, act)
    ensures Coherent(cfg, matches, Step(cfg, l, act))
  {
    hide OnWindow, Safe, Admissible, Read;
    match act
    case Features(w, now) =>
      WindowKeepsCoherence(cfg, matches, l, w, now);
      if l.inFlight > 0 { WindowKeepsCoherence(cfg, matches, l.(inFlight := l.inFlight - 1), w, now); }
    case Restart => ReadSnoc(l.trace, Restarted);
    case ResetIds =>
    case Forget => ReadSnoc(l.trace, Restarted);
    case HangUp(_) =>
  }

  /** Safe settings keep every trace well formed, whatever is reset when. */
  lemma {:induction false} SafeSettingsKeepTheTrace(cfg: Settings, matches: bool, acts: seq<Act>)
    requires ValidSettings(cfg) && Safe(cfg, matches) && AllAdmissible(cfg, matches, acts)
    ensures Coherent(cfg, matches, Run(cfg, acts)) && Read(Run(cfg, acts).trace) != Broken
  {
    hide Step, Safe, Admissible, Read;
    if acts == [] {
      NothingRead();
    } else {
      SafeSettingsKeepTheTrace(cfg, matches, acts[..|acts| - 1]);
      StepKeepsCoherence(cfg, matches, Run(cfg, acts[..|acts| - 1]), acts[|acts| - 1]);
    }
  }

  lemma NothingRead()
    ensures Read([]) == Idle
  {
  }

  // ---------------------------------------------------------- unsafe is unsafe

  /** All the probability on class i. */
  function OneHot(labels: seq<string>, i: nat): (probs: Probs)
    requires i < |labels|
    ensures |probs| == |labels|
    ensures forall k :: 0 <= k < |probs| ==> probs[k] == (labels[k], if k == i then 1.0 else 0.0)
  {
    seq(|labels|, k requires 0 <= k < |labels| => (labels[k], if k == i then 1.0 else 0.0))
  }

  lemma {:induction false} OneHotTotal(probs: Probs, i: nat, n: nat)
    requires n <= |probs| && forall k :: 0 <= k < |probs| ==> probs[k].1 == if k == i then 1.0 else 0.0
    ensures Total(probs[..n]) == if i < n then 1.0 else 0.0
  {
    if n > 0 {
      OneHotTotal(probs, i, n - 1);
      assert probs[..n][..n - 1] == probs[..n - 1];
    }
  }

  lemma OneHotIsDistribution(labels: seq<string>, i: nat)
    requires i < |labels|
    ensures IsDistribution(labels, OneHot(labels, i))
  {
    var probs := OneHot(labels, i);
    OneHotTotal(probs, i, |probs|);
    assert probs[..|probs|] == probs;
  }

  lemma {:induction false} ScoreElsewhere(probs: Probs, kind: string)
    requires forall k :: 0 <= k < |probs| && probs[k].0 == kind ==> probs[k].1 == 0.0
    ensures Score(probs, kind) == 0.0
  {
    if probs != [] { ScoreElsewhere(probs[1..], kind); }
  }

  /** A fresh detector past its warm-up fires on a certain attack class. */
  lemma OneHotFires(cfg: Settings, ids: Ids, i: nat, now: int)
    requires cfg.fire <= 1.0 && i < |cfg.labels| && cfg.labels[i] != "normal"
    requires ids.alert.None? && ids.count + 1 >= cfg.minObservations
    ensures var r := Evaluated(cfg, ids, Scored(OneHot(cfg.labels, i)), now);
            && r.alert == Some(Alert(cfg.labels[i], 1.0, now)) && r.count == ids.count + 1
            && AlertOf(r.last) == r.alert
            && Returned(cfg, ids, Scored(OneHot(cfg.labels, i)), now) == r.last && r.last.Some?
  {
    var probs := OneHot(cfg.labels, i);
    hide OneHot;
    assert probs[i] == (cfg.labels[i], 1.0) && IsCandidate(cfg, probs[i]);
    BestCandidateMeaning(cfg, probs);
    var best := BestCandidate(cfg, probs).value;
    var k :| 0 <= k < |probs| && probs[k] == best;
    assert probs[i].1 <= best.1;
    assert k == i;
  }

  lemma RunSnoc(cfg: Settings, acts: seq<Act>, act: Act)
    ensures Run(cfg, acts + [act]) == Step(cfg, Run(cfg, acts), act)
  {
    assert (acts + [act])[..|acts|] == acts;
  }

  function Certain(cfg: Settings, i: nat): Act
    requires i < |cfg.labels|
  {
    Features(Scored(OneHot(cfg.labels, i)), 0)
  }

  lemma RunFire(cfg: Settings, acts: seq<Act>, i: nat)
    requires cfg.fire <= 1.0 && i < |cfg.labels| && cfg.labels[i] != "normal" && cfg.minObservations <= 1
    requires Run(cfg, acts).connected && Run(cfg, acts).ids == FRESH
    ensures var before, after := Run(cfg, acts), Run(cfg, acts + [Certain(cfg, i)]);
            && after.connected && after.ids.count == 1
            && after.ids.alert == Some(Alert(cfg.labels[i], 1.0, 0)) == AlertOf(after.last)
            && after.trace == before.trace + Notices(AlertOf(before.last), after.ids.alert)
  {
    hide Run, Evaluated, Returned, Notices;
    RunSnoc(cfg, acts, Certain(cfg, i));
    OneHotFires(cfg, Run(cfg, acts).ids, i, 0);
  }

  /** Fire on one class, reset the detector alone, fire on another, clear it. */
  function Confusion(cfg: Settings, i: nat, j: nat): seq<Act>
    requires i < |cfg.labels| && j < |cfg.labels|
  {
    [Certain(cfg, i)] + [ResetIds] + [Certain(cfg, j)] + [Certain(cfg, i)]
  }

  /** What the last window of the confusion does: the second class has gone,
      so its alert clears or, if nothing clears alerts, changes notably. */
  lemma LastWindow(cfg: Settings, l: Link, i: nat, j: nat)
    requires i < |cfg.labels| && j < |cfg.labels| && cfg.labels[i] != cfg.labels[j]
    requires l.connected && l.ids.alert == Some(Alert(cfg.labels[j], 1.0, 0)) == AlertOf(l.last)
    requires l.ids.count + 1 >= cfg.minObservations
    ensures var after := Step(cfg, l, Certain(cfg, i)).trace;
            after == l.trace + [ThreatCleared(cfg.labels[j])] || after == l.trace + [ThreatAlert(cfg.labels[j], 0.0)]
  {
    hide OneHot;
    ScoreElsewhere(OneHot(cfg.labels, i), cfg.labels[j]);
  }

  lemma ConfusionBreaks(cfg: Settings, i: nat, j: nat)
    requires cfg.fire <= 1.0 && i < |cfg.labels| && j < |cfg.labels| && cfg.minObservations <= 1
    requires IsAttack(cfg, cfg.labels[i]) && IsAttack(cfg, cfg.labels[j]) && cfg.labels[i] != cfg.labels[j]
    ensures Read(Run(cfg, Confusion(cfg, i, j)).trace) == Broken
  {
    hide Run, OneHot, Read;
    var first := [Certain(cfg, i)];
    var second := first + [ResetIds];
    RunNothing(cfg);
    RunFire(cfg, [], i);
    assert [] + first == first;
    RunSnoc(cfg, first, ResetIds);
    RunFire(cfg, second, j);
    RunSnoc(cfg, second + [Certain(cfg, j)], Certain(cfg, i));
    var l := Run(cfg, second + [Certain(cfg, j)]);
    assert l.trace == [ThreatAlert(cfg.labels[i], 1.0)];
    LastWindow(cfg, l, i, j);
    NothingRead();
    ReadSnoc([], ThreatAlert(cfg.labels[i], 1.0));
    assert [] + [ThreatAlert(cfg.labels[i], 1.0)] == l.trace;
    ReadSnoc(l.trace, ThreatCleared(cfg.labels[j]));
    ReadSnoc(l.trace, ThreatAlert(cfg.labels[j], 0.0));
  }

  lemma RunNothing(cfg: Settings)
    ensures Run(cfg, []) == START
  {
  }

  /** Any unsafe detector has a run, made of windows that can reach it, in
      which a class is reported inside another one's block. */
  lemma UnsafeSettingsBreakTheTrace(cfg: Settings, matches: bool) returns (acts: seq<Act>)
    requires !Safe(cfg, matches)
    ensures AllAdmissible(cfg, matches, acts) && Read(Run(cfg, acts).trace) == Broken
  {
    hide Run, Read, IsAttack, IsDistribution, OneHot;
    var i, j :| 0 <= i < |cfg.labels| && 0 <= j < |cfg.labels| &&
      IsAttack(cfg, cfg.labels[i]) && IsAttack(cfg, cfg.labels[j]) && cfg.labels[i] != cfg.labels[j];
    acts := Confusion(cfg, i, j);
    ConfusionBreaks(cfg, i, j);
    OneHotIsDistribution(cfg.labels, i);
    OneHotIsDistribution(cfg.labels, j);
  }

  /** Exactly the safe detectors keep every trace well formed across resets. */
  lemma ResetsAreHarmlessIff(cfg: Settings, matches: bool)
    requires ValidSettings(cfg)
    ensures (forall acts :: AllAdmissible(cfg, matches, acts) ==> Read(Run(cfg, acts).trace) != Broken) <==>
            Safe(cfg, matches)
  {
    hide Safe, AllAdmissible, Run, Read;
    if Safe(cfg, matches) {
      forall acts | AllAdmissible(cfg, matches, acts)
        ensures Read(Run(cfg, acts).trace) != Broken
      {
        SafeSettingsKeepTheTrace(cfg, matches, acts);
      }
    } else {
      var acts := UnsafeSettingsBreakTheTrace(cfg, matches);
    }
  }
}
