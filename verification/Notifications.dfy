/** core/peer_link.py, `_handle_ids_state_transition`: the alert and clear
    callbacks derived from successive detector states. */
module Notifications {
  import opened Basics
  import opened LiveIds

  /** `Restarted` marks where the link's memory is wiped and its listeners
      start afresh. */
  datatype Notice = ThreatAlert(kind: string, confidence: real) | ThreatCleared(kind: string) | Restarted

  const NOTABLE := 0.10

  /** The alert of a state that says "alerting". */
  function AlertOf(s: Option<IdsState>): Option<Alert> {
    if s.Some? && s.value.phase == Alerting then s.value.activeAlert else None
  }

  /** The callbacks one transition fires: first alert, notable change of
      confidence, or clearing. */
  function Notices(prev: Option<Alert>, next: Option<Alert>): seq<Notice> {
    if next.Some? && prev.None? then [ThreatAlert(next.value.kind, next.value.confidence)]
    else if next.Some? && prev.Some? then
      if Distance(next.value.confidence, prev.value.confidence) >= NOTABLE
      then [ThreatAlert(next.value.kind, next.value.confidence)] else []
    else if next.None? && prev.Some? then [ThreatCleared(prev.value.kind)]
    else []
  }

  /** What happens to detector and link.  A feature window is evaluated and its
      state handed on.  A new sync wipes both memories; a caller that stops an
      attack wipes the detector's and then the link's, and a window may come
      in between.  When the peer disconnects the reader resets the detector
      only; sends fail from then on, but so many frames already sent are still
      to be recorded. */
  datatype Act =
    | Features(w: Window, now: int)
    | Restart
    | ResetIds
    | Forget
    | HangUp(inFlight: nat)

  datatype Link = Link(ids: Ids, last: Option<IdsState>, trace: seq<Notice>, connected: bool, inFlight: nat)

  const START := Link(FRESH, None, [], true, 0)

  /** A window that raises in the detector changes nothing at the link. */
  function OnWindow(cfg: Settings, l: Link, w: Window, now: int): Link {
    var evaluated := l.(ids := Evaluated(cfg, l.ids, w, now));
    match Returned(cfg, l.ids, w, now)
    case None => evaluated
    case Some(state) =>
      evaluated.(last := Some(state), trace := l.trace + Notices(AlertOf(l.last), AlertOf(Some(state))))
  }

  function Step(cfg: Settings, l: Link, act: Act): Link {
    match act
    case Features(w, now) =>
      if l.connected then OnWindow(cfg, l, w, now)
      else if l.inFlight > 0 then OnWindow(cfg, l.(inFlight := l.inFlight - 1), w, now)
      else l
    case Restart => Link(FRESH, None, l.trace + [Restarted], true, 0)
    case ResetIds => l.(ids := FRESH)
    case Forget => l.(last := None, trace := l.trace + [Restarted])
    case HangUp(inFlight) => if l.connected then l.(ids := FRESH, connected := false, inFlight := inFlight) else l
  }

  function Run(cfg: Settings, acts: seq<Act>): Link {
    if acts == [] then START else Step(cfg, Run(cfg, acts[..|acts| - 1]), acts[|acts| - 1])
  }

  class Notifier {
    const ids: LiveIDS
    var lastState: Option<IdsState>
    var trace: seq<Notice>
    var connected: bool
    var inFlight: nat

    constructor (ids: LiveIDS)
      ensures this.ids == ids && lastState == None && trace == [] && connected && inFlight == 0
    {
      this.ids, lastState, trace, connected, inFlight := ids, None, [], true, 0;
    }

    function State(): Link
      reads this, ids
    {
      Link(ids.Memory(), lastState, trace, connected, inFlight)
    }

    method HandleTransition(newState: IdsState)
      modifies this`lastState, this`trace
      ensures lastState == Some(newState)
      ensures trace == old(trace) + Notices(AlertOf(old(lastState)), AlertOf(Some(newState)))
    {
      var prev := AlertOf(lastState);
      var next := AlertOf(Some(newState));
      lastState := Some(newState);
      if next.Some? && prev.None? {
        trace := trace + [ThreatAlert(next.value.kind, next.value.confidence)];
      } else if next.Some? && prev.Some? {
        if Distance(next.value.confidence, prev.value.confidence) >= NOTABLE {
          trace := trace + [ThreatAlert(next.value.kind, next.value.confidence)];
        }
      } else if next.None? && prev.Some? {
        trace := trace + [ThreatCleared(prev.value.kind)];
      }
    }

    method OnFeatures(w: Window, now: int)
      modifies this, ids
      ensures State() == Step(ids.cfg, old(State()), Features(w, now))
      ensures old(!connected && inFlight == 0) ==> State() == old(State())
      ensures old(connected || inFlight > 0) ==>
                && ids.Memory() == Evaluated(ids.cfg, old(ids.Memory()), w, now)
                && var returned := Returned(ids.cfg, old(ids.Memory()), w, now);
                   lastState == if returned.Some? then returned else old(lastState)
    {
      hide Evaluated, Returned, Notices;
      if !connected {
        if inFlight == 0 {
          return;
        }
        inFlight := inFlight - 1;
      }
      var state := ids.Evaluate(w, now);
      if state.Some? {
        HandleTransition(state.value);
      }
    }

    /** `set_ids` on a detector that was just reset: both memories are empty. */
    method SetIds()
      modifies this, ids
      ensures State() == Step(ids.cfg, old(State()), Restart)
      ensures ids.Memory() == FRESH && lastState == None && connected
    {
      ids.Reset();
      lastState, trace, connected, inFlight := None, trace + [Restarted], true, 0;
    }

    /** The reader loop's way out: the transport is closed and the detector
        reset, the link's memory is not. */
    method OnDisconnect(pending: nat)
      modifies this, ids
      ensures State() == Step(ids.cfg, old(State()), HangUp(pending))
      ensures !connected && lastState == old(lastState) && trace == old(trace)
      ensures if old(connected) then ids.Memory() == FRESH && inFlight == pending else State() == old(State())
    {
      if connected {
        connected, inFlight := false, pending;
        ids.Reset();
      }
    }
  }

  // ------------------------------------------------------------ trace grammar

  datatype Reading = Idle | Within(kind: string) | Broken

  /** Reads a trace against (alert(t)+ cleared(t))*, one kind t a block; a
      restart may cut a block short. */
  function Read(trace: seq<Notice>): Reading {
    if trace == [] then Idle else ReadOne(Read(trace[..|trace| - 1]), trace[|trace| - 1])
  }

  function ReadOne(r: Reading, n: Notice): Reading {
    match (r, n)
    case (Idle, ThreatAlert(kind, _)) => Within(kind)
    case (Within(t), ThreatAlert(kind, _)) => if kind == t then r else Broken
    case (Within(t), ThreatCleared(kind)) => if kind == t then Idle else Broken
    case (Idle, Restarted) => Idle
    case (Within(_), Restarted) => Idle
    case _ => Broken
  }

  function Expected(alert: Option<Alert>): Reading { if alert.Some? then Within(alert.value.kind) else Idle }

  lemma ReadAppends(trace: seq<Notice>, prev: Option<Alert>, next: Option<Alert>)
    requires Read(trace) == Expected(prev)
    requires prev.Some? && next.Some? ==> prev.value.kind == next.value.kind
    ensures Read(trace + Notices(prev, next)) == Expected(next)
  {
    var more := Notices(prev, next);
    if more == [] {
      assert trace + more == trace;
    } else {
      assert (trace + more)[..|trace|] == trace;
    }
  }

  /** The detector's memory hangs together: the alert it holds is the one its
      last state reports, it is at or above the clearing threshold, and no
      alert exists before the warm-up is over. */
  ghost predicate MemoryOk(cfg: Settings, ids: Ids) {
    && ids.alert == AlertOf(ids.last)
    && (ids.last.Some? ==> (ids.last.value.phase == Alerting <==> ids.last.value.activeAlert.Some?))
    && (ids.alert.Some? ==> ids.count >= cfg.minObservations && ids.alert.value.confidence >= cfg.clear)
  }

  lemma MemoryStays(cfg: Settings, ids: Ids, w: Window, now: int)
    requires ValidSettings(cfg) && MemoryOk(cfg, ids)
    ensures MemoryOk(cfg, Evaluated(cfg, ids, w, now))
    ensures Returned(cfg, ids, w, now).Some? ==>
              AlertOf(Returned(cfg, ids, w, now)) == Evaluated(cfg, ids, w, now).alert
  {
    OneWindow(cfg, ids, w, now);
  }

  lemma ReadSnoc(trace: seq<Notice>, n: Notice)
    ensures Read(trace + [n]) == ReadOne(Read(trace), n)
  {
    assert (trace + [n])[..|trace|] == trace;
  }

  predicate NoResets(acts: seq<Act>) { forall i :: 0 <= i < |acts| ==> acts[i].Features? }

  /** The detector is never reset behind a listening link's back. */
  predicate NoStaleMemory(acts: seq<Act>) {
    forall i :: 0 <= i < |acts| ==> acts[i].Features? || acts[i].Restart? || acts[i] == HangUp(0)
  }

  /** Without such resets: the callbacks are always a prefix of
      (alert(t)+ cleared(t))*, cut short by restarts only; the open block is
      for the class the detector is alerting on, and its confidence is at
      least the clearing threshold. */
  lemma {:induction false} TraceIsWellFormed(cfg: Settings, acts: seq<Act>)
    requires ValidSettings(cfg) && NoStaleMemory(acts)
    ensures var l := Run(cfg, acts);
            && MemoryOk(cfg, l.ids) && Read(l.trace) == Expected(AlertOf(l.last)) && Read(l.trace) != Broken
            && (l.connected ==> AlertOf(l.last) == l.ids.alert)
            && (l.ids.alert.Some? ==> l.ids.alert.value.confidence >= cfg.clear)
            && (!l.connected ==> l.inFlight == 0)
  {
    if acts != [] {
      hide Evaluated, Returned, Read, Notices;
      var l, act := Run(cfg, acts[..|acts| - 1]), acts[|acts| - 1];
      TraceIsWellFormed(cfg, acts[..|acts| - 1]);
      if act.Features? && l.connected {
        MemoryStays(cfg, l.ids, act.w, act.now);
        OneWindow(cfg, l.ids, act.w, act.now);
        ReadAppends(l.trace, l.ids.alert, Evaluated(cfg, l.ids, act.w, act.now).alert);
        RaisingKeepsAlert(cfg, l.ids, act.w, act.now);
      } else if act.Restart? {
        ReadSnoc(l.trace, Restarted);
      }
    } else {
      assert Read([]) == Idle;
    }
  }

  lemma RaisingKeepsAlert(cfg: Settings, ids: Ids, w: Window, now: int)
    ensures Returned(cfg, ids, w, now).None? ==> Evaluated(cfg, ids, w, now).alert == ids.alert
  {
  }

  /** The callbacks in terms of the detector alone: one when its alert appears,
      one when it goes, one when its confidence jumps by a tenth or more in one
      window, none otherwise, and each tells of that alert. */
  lemma EachWindowsCallback(cfg: Settings, acts: seq<Act>, w: Window, now: int)
    requires ValidSettings(cfg) && NoStaleMemory(acts) && Run(cfg, acts).connected
    ensures var l, r := Run(cfg, acts), Step(cfg, Run(cfg, acts), Features(w, now));
            match (l.ids.alert, r.ids.alert)
            case (None, None) => r.trace == l.trace
            case (None, Some(b)) => r.trace == l.trace + [ThreatAlert(b.kind, b.confidence)]
            case (Some(a), None) => r.trace == l.trace + [ThreatCleared(a.kind)]
            case (Some(a), Some(b)) =>
              && a.kind == b.kind
              && (a.confidence - 0.10 < b.confidence < a.confidence + 0.10 ==> r.trace == l.trace)
              && (b.confidence >= a.confidence + 0.10 || b.confidence <= a.confidence - 0.10 ==>
                    r.trace == l.trace + [ThreatAlert(b.kind, b.confidence)])
  {
    hide Evaluated, Returned, Read, Run;
    var l := Run(cfg, acts);
    TraceIsWellFormed(cfg, acts);
    MemoryStays(cfg, l.ids, w, now);
    OneWindow(cfg, l.ids, w, now);
    RaisingKeepsAlert(cfg, l.ids, w, now);
  }

  // -------------------------------------------------------------- silent drift

  /** The confidence last notified in the open block, and how many scored
      windows have passed silently since. */
  datatype Silence = Silence(notified: real, windows: nat)

  function Quiet(cfg: Settings, acts: seq<Act>): Silence {
    if acts == [] then Silence(0.0, 0)
    else
      var before, after := Run(cfg, acts[..|acts| - 1]), Run(cfg, acts);
      var q := Quiet(cfg, acts[..|acts| - 1]);
      if after.trace != before.trace then
        Silence(if after.trace[|after.trace| - 1].ThreatAlert? then after.trace[|after.trace| - 1].confidence
            else 0.0, 0)
      else if IsScored(acts[|acts| - 1]) then q.(windows := q.windows + 1)
      else q
  }

  predicate IsScored(act: Act) { act.Features? && act.w.Scored? }

  /** While alerting, k silent scored windows leave the confidence strictly within
      0.10 times k of the value last notified. */
  lemma {:induction false} SilentDrift(cfg: Settings, acts: seq<Act>)
    requires ValidSettings(cfg) && NoResets(acts) && Run(cfg, acts).ids.alert.Some?
    ensures var q, c := Quiet(cfg, acts), Run(cfg, acts).ids.alert.value.confidence;
            if q.windows == 0 then c == q.notified
            else Distance(c, q.notified) < NOTABLE * q.windows as real
  {
    if acts != [] {
      hide Evaluated, Returned, Quiet, Read;
      var init, act := acts[..|acts| - 1], acts[|acts| - 1];
      var l, after := Run(cfg, init), Run(cfg, acts);
      TraceIsWellFormed(cfg, init);
      TraceIsWellFormed(cfg, acts);
      StaysConnected(cfg, init);
      RaisingKeepsAlert(cfg, l.ids, act.w, act.now);
      MemoryStays(cfg, l.ids, act.w, act.now);
      OneWindow(cfg, l.ids, act.w, act.now);
      QuietStep(cfg, acts);
      if l.ids.alert.Some? { SilentDrift(cfg, init); }
    }
  }

  lemma {:induction false} StaysConnected(cfg: Settings, acts: seq<Act>)
    requires NoResets(acts)
    ensures Run(cfg, acts).connected
  {
    hide Evaluated, Returned, Notices;
    if acts != [] { StaysConnected(cfg, acts[..|acts| - 1]); }
  }

  lemma QuietStep(cfg: Settings, acts: seq<Act>)
    requires acts != []
    ensures var before, after := Run(cfg, acts[..|acts| - 1]), Run(cfg, acts);
            var q := Quiet(cfg, acts[..|acts| - 1]);
            Quiet(cfg, acts) ==
            if after.trace != before.trace then
              Silence(if after.trace[|after.trace| - 1].ThreatAlert? then after.trace[|after.trace| - 1].confidence
                  else 0.0, 0)
            else if IsScored(acts[|acts| - 1]) then q.(windows := q.windows + 1)
            else q
  {
    hide Run;
  }
}
