/** ai/ids_live.py: the hysteresis state machine that turns classifier
    probabilities into alerts.  Probabilities and times are reals; the
    classifier is an arbitrary sequence of windows. */
module LiveIds {
  import opened Basics

  /** Class probabilities in the classifier's order. */
  type Probs = seq<(string, real)>

  /** One feature window: with a NaN in it, lacking a feature the model
      needs, or scored by the classifier. */
  datatype Window = HasNan | LacksFeature | Scored(probs: Probs)

  datatype Alert = Alert(kind: string, confidence: real, since: int)

  datatype Phase = WarmingUp | Monitoring | Alerting

  /** The dictionary `evaluate` returns. */
  datatype IdsState = IdsState(phase: Phase, activeAlert: Option<Alert>, probs: Probs, observations: nat)

  datatype Settings = Settings(fire: real, clear: real, minObservations: int, labels: seq<string>)

  /** The constructor refuses anything else. */
  predicate ValidSettings(cfg: Settings) { cfg.clear < cfg.fire }

  /** What one `LiveIDS` remembers between windows. */
  datatype Ids = Ids(count: nat, alert: Option<Alert>, last: Option<IdsState>)

  const FRESH := Ids(0, None, None)

  /** `probs.get(kind, 0.0)`. */
  function Score(probs: Probs, kind: string): real {
    if probs == [] then 0.0
    else if probs[0].0 == kind then probs[0].1
    else Score(probs[1..], kind)
  }

  predicate IsCandidate(cfg: Settings, entry: (string, real)) { entry.0 != "normal" && entry.1 >= cfg.fire }

  /** The first of the most probable attack classes at or above the firing
      threshold. */
  function BestCandidate(cfg: Settings, probs: Probs): Option<(string, real)> {
    if probs == [] then None
    else
      var init, last := probs[..|probs| - 1], probs[|probs| - 1];
      var best := BestCandidate(cfg, init);
      if IsCandidate(cfg, last) && (best.None? || last.1 > best.value.1) then Some(last) else best
  }

  lemma {:induction false} BestCandidateMeaning(cfg: Settings, probs: Probs)
    ensures BestCandidate(cfg, probs).None? <==> forall e :: e in probs ==> !IsCandidate(cfg, e)
    ensures BestCandidate(cfg, probs).Some? ==>
              && BestCandidate(cfg, probs).value in probs && IsCandidate(cfg, BestCandidate(cfg, probs).value)
              && forall e :: e in probs && IsCandidate(cfg, e) ==> e.1 <= BestCandidate(cfg, probs).value.1
  {
    if probs != [] {
      var init := probs[..|probs| - 1];
      BestCandidateMeaning(cfg, init);
      assert probs == init + [probs[|probs| - 1]];
    }
  }

  /** Among several most probable ones it is the first. */
  lemma {:induction false} BestCandidateIsFirst(cfg: Settings, probs: Probs) returns (k: nat)
    requires BestCandidate(cfg, probs).Some?
    ensures k < |probs| && probs[k] == BestCandidate(cfg, probs).value
    ensures forall i :: 0 <= i < k && IsCandidate(cfg, probs[i]) ==> probs[i].1 < probs[k].1
  {
    hide IsCandidate;
    var init := probs[..|probs| - 1];
    if BestCandidate(cfg, probs) == BestCandidate(cfg, init) {
      k := BestCandidateIsFirst(cfg, init);
      assert forall i :: 0 <= i < |init| ==> probs[i] == init[i];
    } else {
      k := |init|;
      BestCandidateMeaning(cfg, init);
      assert forall i :: 0 <= i < |init| ==> probs[i] == init[i] && init[i] in init;
    }
  }

  /** `_update_alert`: fire when idle, clear or refresh when alerting. */
  function NextAlert(cfg: Settings, alert: Option<Alert>, probs: Probs, now: int): Option<Alert> {
    match alert
    case None =>
      var best := BestCandidate(cfg, probs);
      if best.Some? then Some(Alert(best.value.0, best.value.1, now)) else None
    case Some(a) =>
      var p := Score(probs, a.kind);
      if p < cfg.clear then None else Some(a.(confidence := p))
  }

  function BuiltState(cfg: Settings, count: nat, alert: Option<Alert>, probs: Probs): IdsState {
    IdsState(if count < cfg.minObservations then WarmingUp else if alert.Some? then Alerting else Monitoring,
             alert, probs, count)
  }

  /** `_current_or_default`. */
  function CurrentOrDefault(cfg: Settings, ids: Ids): IdsState {
    if ids.last.Some? then ids.last.value
    else IdsState(WarmingUp, None, seq(|cfg.labels|, i requires 0 <= i < |cfg.labels| => (cfg.labels[i], 0.0)),
         ids.count)
  }

  /** The new memory after one window. */
  function Evaluated(cfg: Settings, ids: Ids, w: Window, now: int): Ids {
    var counted := ids.(count := ids.count + 1);
    match w
    case HasNan => counted
    case LacksFeature => counted
    case Scored(probs) =>
      var alert := if counted.count < cfg.minObservations then ids.alert else NextAlert(cfg, ids.alert, probs, now);
      Ids(counted.count, alert, Some(BuiltState(cfg, counted.count, alert, probs)))
  }

  /** What the call returns; nothing when it raises. */
  function Returned(cfg: Settings, ids: Ids, w: Window, now: int): Option<IdsState> {
    match w
    case HasNan => Some(CurrentOrDefault(cfg, ids.(count := ids.count + 1)))
    case LacksFeature => None
    case Scored(_) => Evaluated(cfg, ids, w, now).last
  }

  /** A window at which the machine decides. */
  predicate Decides(cfg: Settings, ids: Ids, w: Window) { w.Scored? && ids.count + 1 >= cfg.minObservations }

  /** One window changes at most one thing: outside a deciding window the
      alert is untouched; at one, an idle machine fires exactly when some
      attack class reaches the firing threshold, for a most probable such
      class; an alerting machine clears exactly when its own class falls
      below the clearing threshold, and never changes class. */
  lemma OneWindow(cfg: Settings, ids: Ids, w: Window, now: int)
    ensures !Decides(cfg, ids, w) ==> Evaluated(cfg, ids, w, now).alert == ids.alert
    ensures Decides(cfg, ids, w) && ids.alert.None? ==>
              var after := Evaluated(cfg, ids, w, now).alert;
              && (after.Some? <==> exists e :: e in w.probs && IsCandidate(cfg, e))
              && (after.Some? ==>
                    && (after.value.kind, after.value.confidence) in w.probs
                    && after.value.kind != "normal" && after.value.confidence >= cfg.fire && after.value.since == now
                    && forall e :: e in w.probs && IsCandidate(cfg, e) ==> e.1 <= after.value.confidence)
    ensures Decides(cfg, ids, w) && ids.alert.Some? ==>
              var after, p := Evaluated(cfg, ids, w, now).alert, Score(w.probs, ids.alert.value.kind);
              && (after.None? <==> p < cfg.clear)
              && (after.Some? ==> after.value == ids.alert.value.(confidence := p))
  {
    if w.Scored? { BestCandidateMeaning(cfg, w.probs); }
  }

  /** What one window reports.  A scored one: its own probabilities, the count
      of windows with it, the alert as it now is, and the phase, warming up
      until the required number of windows and from then on alerting exactly
      with an alert.  One with a NaN: the last state reported, unchanged, or
      before there is one a warming-up state with every class at 0.  Only a
      scored window replaces the state remembered; every window counts. */
  lemma ReportedState(cfg: Settings, ids: Ids, w: Window, now: int)
    ensures var after, r := Evaluated(cfg, ids, w, now), Returned(cfg, ids, w, now);
            && after.count == ids.count + 1
            && (w.Scored? ==>
                  && r.Some? && after.last == r
                  && r.value.probs == w.probs && r.value.observations == ids.count + 1
                  && r.value.activeAlert == after.alert
                  && (r.value.phase == WarmingUp <==> ids.count + 1 < cfg.minObservations)
                  && (r.value.phase == Alerting <==> ids.count + 1 >= cfg.minObservations && after.alert.Some?)
                  && (r.value.phase == Monitoring <==> ids.count + 1 >= cfg.minObservations && after.alert.None?))
            && (!w.Scored? ==> after.alert == ids.alert && after.last == ids.last)
            && (w.HasNan? ==>
                  && r.Some?
                  && (ids.last.Some? ==> r == ids.last)
                  && (ids.last.None? ==>
                        && r.value.phase == WarmingUp && r.value.activeAlert == None
                        && r.value.observations == ids.count + 1 && |r.value.probs| == |cfg.labels|
                        && forall i :: 0 <= i < |cfg.labels| ==> r.value.probs[i] == (cfg.labels[i], 0.0)))
            && (w.LacksFeature? ==> r.None?)
  {
    hide NextAlert;
  }

  // ------------------------------------------------------------------- class

  class LiveIDS {
    const cfg: Settings
    var observationCount: nat
    var activeAlert: Option<Alert>
    var lastState: Option<IdsState>

    constructor (cfg: Settings)
      requires ValidSettings(cfg)
      ensures this.cfg == cfg && Memory() == FRESH
    {
      this.cfg := cfg;
      observationCount, activeAlert, lastState := 0, None, None;
    }

    /** Refused unless the clearing threshold is strictly below the firing one. */
    static method Create(cfg: Settings) returns (r: Result<LiveIDS, string>)
      ensures r.Err? <==> cfg.clear >= cfg.fire
      ensures r.Ok? ==> fresh(r.value) && r.value.cfg == cfg && r.value.Memory() == FRESH
    {
      if cfg.clear >= cfg.fire {
        return Err("alert_threshold_clear must be strictly less than alert_threshold_fire");
      }
      var ids := new LiveIDS(cfg);
      return Ok(ids);
    }

    function Memory(): Ids
      reads this
    {
      Ids(observationCount, activeAlert, lastState)
    }

    method UpdateAlert(probs: Probs, now: int)
      modifies this`activeAlert
      ensures activeAlert == NextAlert(cfg, old(activeAlert), probs, now)
    {
      if activeAlert.None? {
        var best: Option<(string, real)> := None;
        for i := 0 to |probs|
          invariant best == BestCandidate(cfg, probs[..i])
        {
          assert probs[..i + 1][..i] == probs[..i];
          var (name, p) := probs[i];
          if name != "normal" && p >= cfg.fire && (best.None? || p > best.value.1) {
            best := Some((name, p));
          }
        }
        assert probs[..|probs|] == probs;
        if best.Some? {
          activeAlert := Some(Alert(best.value.0, best.value.1, now));
        }
      } else {
        var p := Score(probs, activeAlert.value.kind);
        if p < cfg.clear {
          activeAlert := None;
        } else {
          activeAlert := Some(activeAlert.value.(confidence := p));
        }
      }
    }

    /** One window: the state to report, or nothing when it raises. */
    method Evaluate(w: Window, now: int) returns (r: Option<IdsState>)
      modifies this
      ensures Memory() == Evaluated(cfg, old(Memory()), w, now)
      ensures r == Returned(cfg, old(Memory()), w, now)
    {
      observationCount := observationCount + 1;
      if w.HasNan? {
        return Some(CurrentOrDefault(cfg, Memory()));
      }
      if w.LacksFeature? {
        return None;
      }
      if observationCount >= cfg.minObservations {
        UpdateAlert(w.probs, now);
      }
      lastState := Some(BuiltState(cfg, observationCount, activeAlert, w.probs));
      return lastState;
    }

    method Reset()
      modifies this
      ensures Memory() == FRESH
    {
      observationCount, activeAlert, lastState := 0, None, None;
    }
  }

  // ------------------------------------------------------ hysteresis bounds

  /** A window with the time it arrives. */
  type Timed = (Window, int)

  function Watch(cfg: Settings, ws: seq<Timed>): Ids {
    if ws == [] then FRESH
    else Evaluated(cfg, Watch(cfg, ws[..|ws| - 1]), ws[|ws| - 1].0, ws[|ws| - 1].1)
  }

  lemma {:induction false} WatchCounts(cfg: Settings, ws: seq<Timed>)
    ensures Watch(cfg, ws).count == |ws|
  {
    hide NextAlert;
    if ws != [] { WatchCounts(cfg, ws[..|ws| - 1]); }
  }

  /** The class's probability at the last deciding window. */
  function LastScore(cfg: Settings, ws: seq<Timed>, kind: string): Option<real> {
    if ws == [] then None
    else
      var init, w := ws[..|ws| - 1], ws[|ws| - 1].0;
      if Decides(cfg, Watch(cfg, init), w) then Some(Score(w.probs, kind)) else LastScore(cfg, init, kind)
  }

  /** Total variation of the class's probability over the deciding windows. */
  function Variation(cfg: Settings, ws: seq<Timed>, kind: string): real {
    if ws == [] then 0.0
    else
      var init, w := ws[..|ws| - 1], ws[|ws| - 1].0;
      var before := LastScore(cfg, init, kind);
      Variation(cfg, init, kind) +
      if Decides(cfg, Watch(cfg, init), w) && before.Some? then Distance(Score(w.probs, kind), before.value) else 0.0
  }

  function Distance(x: real, y: real): real { if x < y then y - x else x - y }

  predicate AlertsFor(alert: Option<Alert>, kind: string) { alert.Some? && alert.value.kind == kind }

  /** How many alerts of the class have fired and cleared. */
  function Completed(cfg: Settings, ws: seq<Timed>, kind: string): nat {
    if ws == [] then 0
    else
      Completed(cfg, ws[..|ws| - 1], kind) +
      if AlertsFor(Watch(cfg, ws[..|ws| - 1]).alert, kind) && Watch(cfg, ws).alert.None? then 1 else 0
  }

  /** n copies of the gap between the thresholds. */
  function Gaps(cfg: Settings, n: nat): real { n as real * (cfg.fire - cfg.clear) }

  lemma MoreGaps(cfg: Settings, n: nat)
    ensures Gaps(cfg, 0) == 0.0 && Gaps(cfg, n + 1) == Gaps(cfg, n) + (cfg.fire - cfg.clear)
  {
  }

  predicate UniqueLabels(probs: Probs) {
    forall i, j :: 0 <= i < j < |probs| ==> probs[i].0 != probs[j].0
  }

  lemma {:induction false} ScoreOfEntry(probs: Probs, e: (string, real))
    requires UniqueLabels(probs) && e in probs
    ensures Score(probs, e.0) == e.1
  {
    if probs[0].0 == e.0 {
      assert forall j :: 0 < j < |probs| ==> probs[j].0 != e.0;
    } else {
      assert e in probs[1..];
      ScoreOfEntry(probs[1..], e);
    }
  }

  /** What has been paid so far, alerting or not. */
  ghost predicate Paid(cfg: Settings, alerting: bool, m: nat, v: real, p: Option<real>) {
    && v >= 0.0
    && (alerting ==> p.Some? && v >= Gaps(cfg, 2 * m) && v >= Gaps(cfg, 2 * m) + (cfg.fire - p.value))
    && (!alerting && m > 0 ==>
          p.Some? && v >= Gaps(cfg, 2 * m - 1) && v >= Gaps(cfg, 2 * m - 1) + (p.value - cfg.clear))
  }

  lemma PayOne(cfg: Settings, before: bool, after: bool, m: nat, v: real, p: Option<real>, q: real)
    requires ValidSettings(cfg) && Paid(cfg, before, m, v, p)
    requires before ==> (after <==> q >= cfg.clear)
    requires !before && after ==> q >= cfg.fire
    ensures var paid := v + if p.Some? then Distance(q, p.value) else 0.0;
            Paid(cfg, after, if before && !after then m + 1 else m, paid, Some(q))
  {
    hide Gaps;
    MoreGaps(cfg, 2 * m);
    if m > 0 { MoreGaps(cfg, 2 * m - 1); }
  }

  lemma {:induction false} VariationPays(cfg: Settings, ws: seq<Timed>, kind: string)
    requires ValidSettings(cfg) && forall i :: 0 <= i < |ws| && ws[i].0.Scored? ==> UniqueLabels(ws[i].0.probs)
    ensures Paid(cfg, AlertsFor(Watch(cfg, ws).alert, kind), Completed(cfg, ws, kind), Variation(cfg, ws, kind),
            LastScore(cfg, ws, kind))
  {
    if ws != [] {
      var init, w, now := ws[..|ws| - 1], ws[|ws| - 1].0, ws[|ws| - 1].1;
      VariationPays(cfg, init, kind);
      var ids := Watch(cfg, init);
      OneWindow(cfg, ids, w, now);
      if Decides(cfg, ids, w) {
        hide Paid, Evaluated, LastScore, Variation, Gaps;
        var after := Watch(cfg, ws).alert;
        if ids.alert.None? && AlertsFor(after, kind) {
          ScoreOfEntry(w.probs, (after.value.kind, after.value.confidence));
        }
        PayOne(cfg, AlertsFor(ids.alert, kind), AlertsFor(after, kind), Completed(cfg, init, kind),
               Variation(cfg, init, kind), LastScore(cfg, init, kind), Score(w.probs, kind));
        VariationStep(cfg, ws, kind);
      }
    }
  }

  lemma VariationStep(cfg: Settings, ws: seq<Timed>, kind: string)
    requires ws != [] && Decides(cfg, Watch(cfg, ws[..|ws| - 1]), ws[|ws| - 1].0)
    ensures var init, w := ws[..|ws| - 1], ws[|ws| - 1].0;
            var before := LastScore(cfg, init, kind);
            && LastScore(cfg, ws, kind) == Some(Score(w.probs, kind))
            && Variation(cfg, ws, kind) ==
               Variation(cfg, init, kind) + if before.Some? then Distance(Score(w.probs, kind), before.value) else 0.0
  {
  }

  /** No flapping for free: m completed alerts of a class need its probability
      to have moved by at least 2m - 1 times the gap between the thresholds. */
  lemma AlertsCostVariation(cfg: Settings, ws: seq<Timed>, kind: string)
    requires ValidSettings(cfg) && forall i :: 0 <= i < |ws| && ws[i].0.Scored? ==> UniqueLabels(ws[i].0.probs)
    ensures var m := Completed(cfg, ws, kind);
            m > 0 ==> (2 * m - 1) as real * (cfg.fire - cfg.clear) <= Variation(cfg, ws, kind)
  {
    hide Watch, Completed, Variation, LastScore, Gaps;
    VariationPays(cfg, ws, kind);
    var m := Completed(cfg, ws, kind);
    if m > 0 {
      var n: nat := 2 * m - 1;
      MoreGaps(cfg, n);
      assert n + 1 == 2 * m;
      assert Variation(cfg, ws, kind) >= Gaps(cfg, n);
      GapsMeaning(cfg, n);
    }
  }

  lemma GapsMeaning(cfg: Settings, n: nat)
    ensures Gaps(cfg, n) == n as real * (cfg.fire - cfg.clear)
  {
  }
}
