/** attacks/replay.py: a bounded buffer of chat payloads, filled by the
    outbound hook and replayed by a background injector, as two threads that
    interleave between their locked sections. */
module Replay {
  import opened Basics
  import opened Framing

  /** The attack object's own fields. */
  datatype Core = Core(active: bool, size: nat, buffer: seq<bytes>, recent: set<bytes>, buffered: nat,
                       replayed: nat, lastReplay: Option<real>, intervals: seq<int>)

  function FreshCore(size: nat): Core { Core(false, size, [], {}, 0, 0, None, []) }

  // ---------------------------------------------------------- locked sections

  /** A bounded deque drops its oldest entry. */
  function Push(buffer: seq<bytes>, p: bytes, size: nat): seq<bytes> {
    if |buffer| < size || buffer == [] then buffer + [p] else buffer[1..] + [p]
  }

  /** First section of the hook: does this payload go into the buffer? */
  predicate Keeps(c: Core, f: Frame) { c.active && f.kind == KIND_CHAT && f.payload !in c.recent }

  function Buffer(c: Core, p: bytes): Core { c.(buffer := Push(c.buffer, p, c.size), buffered := c.buffered + 1) }

  function Mark(c: Core, p: bytes): Core { c.(recent := c.recent + {p}) }

  function Unmark(c: Core, p: bytes): Core { c.(recent := c.recent - {p}) }

  /** `int(x)` truncates toward zero. */
  function Truncate(x: real): int { if x >= 0.0 then x.Floor else -((-x).Floor) }

  /** n is x without its fraction: the nearest integer towards zero. */
  predicate IsWholePart(n: int, x: real) {
    if x >= 0.0 then n >= 0 && n as real <= x < n as real + 1.0 else n <= 0 && n as real - 1.0 < x <= n as real
  }

  lemma TruncateMeaning(x: real)
    ensures IsWholePart(Truncate(x), x)
  {
  }

  function CountReplay(c: Core, now: real): Core {
    c.(replayed := c.replayed + 1, lastReplay := Some(now),
       intervals := if c.lastReplay.Some? then c.intervals + [Truncate((now - c.lastReplay.value) * 1000.0)]
           else c.intervals)
  }

  // ------------------------------------------------------------------- class

  class ReplayAttack {
    const size: nat
    var active: bool
    var buffer: seq<bytes>
    var recent: set<bytes>
    var framesBuffered: nat
    var framesReplayed: nat
    var lastReplay: Option<real>
    var intervals: seq<int>

    constructor (size: nat)
      requires size >= 1
      ensures State() == FreshCore(size)
    {
      this.size := size;
      active, buffer, recent, framesBuffered, framesReplayed, lastReplay, intervals := false, [], {}, 0, 0, None, [];
    }

    /** Refused for a buffer of no size or an interval that is not positive. */
    static method Create(size: int, interval: real) returns (r: Result<ReplayAttack, string>)
      ensures r.Err? <==> size < 1 || interval <= 0.0
      ensures r.Ok? ==> fresh(r.value) && r.value.size == size && r.value.State() == FreshCore(size)
    {
      if size < 1 {
        return Err("buffer_size must be >= 1");
      }
      if interval <= 0.0 {
        return Err("interval_s must be > 0");
      }
      var attack := new ReplayAttack(size);
      return Ok(attack);
    }

    function State(): Core
      reads this
    {
      Core(active, size, buffer, recent, framesBuffered, framesReplayed, lastReplay, intervals)
    }

    method Start()
      modifies this`active
      ensures State() == old(State()).(active := true)
    {
      active := true;
    }

    method Stop()
      modifies this`active
      ensures State() == old(State()).(active := false)
    {
      active := false;
    }

    method Append(p: bytes)
      modifies this`buffer, this`framesBuffered
      ensures State() == Buffer(old(State()), p)
    {
      if |buffer| >= size && buffer != [] {
        buffer := buffer[1..];
      }
      buffer := buffer + [p];
      framesBuffered := framesBuffered + 1;
    }

    /** The hook without interleaving: the frame always goes through. */
    method OnOutboundFrame(f: Frame) returns (g: Frame)
      modifies this`buffer, this`framesBuffered
      ensures g == f
      ensures State() == if Keeps(old(State()), f) then Buffer(old(State()), f.payload) else old(State())
    {
      if !active || f.kind != KIND_CHAT {
        return f;
      }
      if f.payload !in recent {
        Append(f.payload);
      }
      return f;
    }

    /** One turn of the injector loop without interleaving, its send passing
        this attack's own hook: nothing happens on an empty buffer; otherwise
        the chosen payload goes out and only the replay statistics change. */
    method InjectOnce(choice: nat, now: real) returns (sent: Option<Frame>)
      requires recent == {}
      modifies this
      ensures old(buffer) == [] ==> sent == None && State() == old(State())
      ensures old(buffer) != [] ==>
                && sent == Some(Frame(KIND_CHAT, old(buffer)[choice % |old(buffer)|]))
                && State() == CountReplay(old(State()), now)
      ensures old(buffer) != [] ==>
                && buffer == old(buffer) && framesBuffered == old(framesBuffered) && recent == {}
                && framesReplayed == old(framesReplayed) + 1 && lastReplay == Some(now)
                && if old(lastReplay).None? then intervals == old(intervals)
                   else
                     && |intervals| == |old(intervals)| + 1 && intervals[..|old(intervals)|] == old(intervals)
                     && IsWholePart(intervals[|old(intervals)|], (now - old(lastReplay).value) * 1000.0)
    {
      if buffer == [] {
        return None;
      }
      var payload := buffer[choice % |buffer|];
      recent := recent + {payload};
      var out := OnOutboundFrame(Frame(KIND_CHAT, payload));
      recent := recent - {payload};
      framesReplayed := framesReplayed + 1;
      if lastReplay.Some? {
        TruncateMeaning((now - lastReplay.value) * 1000.0);
        intervals := intervals + [Truncate((now - lastReplay.value) * 1000.0)];
      }
      lastReplay := Some(now);
      return Some(out);
    }
  }

  // --------------------------------------------------------------- two threads

  /** Where the injector is between its locked sections. */
  datatype Phase =
    | Asleep
    | Picked(p: bytes)
    | Marked(p: bytes)
    | Keeping(p: bytes, seen: bytes)  // its own send is about to be buffered
    | Passed(p: bytes)
    | Unmarked(p: bytes)
    | Gone                            // stopped, or its transport failed

  /** A chat payload at the moment the hook examined it, and the payload
      marked as being injected at that moment. */
  datatype Examined = Examined(payload: bytes, active: bool, injecting: Option<bytes>)

  /** Any number of threads send.  `sending` holds, in the order of examination,
      the outbound payloads whose hook has decided to keep them and has not yet
      buffered them.  `kept`, `examined` and `injected` are histories. */
  datatype State = State(core: Core, phase: Phase, sending: seq<bytes>,
                         kept: seq<bytes>, examined: seq<Examined>, injected: seq<bytes>)

  datatype Action =
    | StartAttack
    | StopAttack
    | Send(payload: bytes)         // a sender's hook examines a chat payload
    | SendAppend(which: nat)       // one of the senders buffers what it decided to keep
    | Pick(choice: nat)            // the injector snapshots the buffer and chooses
    | MarkPick
    | Inject(seen: Option<bytes>)  // its send reaches the hook, as earlier hooks left it
    | InjectAppend
    | UnmarkPick
    | Count(now: real)
    | Fail                         // the transport raised

  function Injecting(ph: Phase): Option<bytes> {
    match ph
    case Marked(p) => Some(p)
    case Keeping(p, _) => Some(p)
    case Passed(p) => Some(p)
    case _ => None
  }

  function Keep(s: State, p: bytes): State { s.(core := Buffer(s.core, p), kept := s.kept + [p]) }

  function Examine(s: State, p: bytes): State {
    s.(examined := s.examined + [Examined(p, s.core.active, Injecting(s.phase))])
  }

  /** One locked section of one thread; an action out of turn changes nothing. */
  function Step(s: State, act: Action): State {
    match act
    case StartAttack => s.(core := s.core.(active := true), phase := if s.phase == Gone then Asleep else s.phase)
    case StopAttack => s.(core := s.core.(active := false), phase := if s.phase == Asleep then Gone else s.phase)
    case Send(p) =>
      Examine(s, p).(sending := if Keeps(s.core, Frame(KIND_CHAT, p)) then s.sending + [p] else s.sending)
    case SendAppend(i) =>
      if i < |s.sending| then Keep(s, s.sending[i]).(sending := s.sending[..i] + s.sending[i + 1..]) else s
    case Pick(choice) =>
      if s.phase == Asleep && s.core.buffer != [] then
        var p := s.core.buffer[choice % |s.core.buffer|];
        s.(phase := Picked(p), injected := s.injected + [p])
      else s
    case MarkPick => if s.phase.Picked? then s.(core := Mark(s.core, s.phase.p), phase := Marked(s.phase.p)) else s
    case Inject(seen) =>
      if !s.phase.Marked? then s
      else if seen.None? then s.(phase := Passed(s.phase.p))
      else Examine(s, seen.value).(phase := if Keeps(s.core, Frame(KIND_CHAT, seen.value))
                                            then Keeping(s.phase.p, seen.value) else Passed(s.phase.p))
    case InjectAppend => if s.phase.Keeping? then Keep(s, s.phase.seen).(phase := Passed(s.phase.p)) else s
    case UnmarkPick =>
      if s.phase.Passed? then s.(core := Unmark(s.core, s.phase.p), phase := Unmarked(s.phase.p)) else s
    case Count(now) =>
      if s.phase.Unmarked? then s.(core := CountReplay(s.core, now), phase := if s.core.active then Asleep else Gone)
          else s
    case Fail => if s.phase.Passed? then s.(core := Unmark(s.core, s.phase.p), phase := Gone) else s
  }

  function Run(size: nat, acts: seq<Action>): State {
    if acts == [] then State(FreshCore(size), Gone, [], [], [], [])
    else Step(Run(size, acts[..|acts| - 1]), acts[|acts| - 1])
  }

  /** The examined payloads that were not the one being injected, while active. */
  function Foreign(xs: seq<Examined>): seq<bytes> {
    if xs == [] then []
    else
      var x := xs[|xs| - 1];
      Foreign(xs[..|xs| - 1]) + if x.active && Some(x.payload) != x.injecting then [x.payload] else []
  }

  /** True in every reachable state. */
  predicate Inv(s: State) {
    && s.core.size >= 1
    && s.core.buffer == LastOf(s.kept, s.core.size) && s.core.buffered == |s.kept|
    && s.core.recent == (if Injecting(s.phase).Some? then {Injecting(s.phase).value} else {})
    && (s.phase.Keeping? ==> s.phase.seen != s.phase.p)
    && (forall p :: p in s.injected ==> p in s.kept)
    && (s.core.lastReplay.None? <==> s.core.replayed == 0)
    && |s.core.intervals| == (if s.core.replayed == 0 then 0 else s.core.replayed - 1)
  }

  lemma PushKeepsLast(kept: seq<bytes>, p: bytes, size: nat)
    requires size >= 1
    ensures Push(LastOf(kept, size), p, size) == LastOf(kept + [p], size)
  {
  }

  lemma StepKeepsInv(s: State, act: Action)
    requires Inv(s)
    ensures Inv(Step(s, act))
  {
    hide LastOf, Push;
    if act.SendAppend? && act.which < |s.sending| {
      PushKeepsLast(s.kept, s.sending[act.which], s.core.size);
    } else if act.InjectAppend? && s.phase.Keeping? {
      PushKeepsLast(s.kept, s.phase.seen, s.core.size);
    } else if act.Pick? && s.phase == Asleep && s.core.buffer != [] {
      BufferIsKept(s.kept, s.core.size);
    }
  }

  lemma BufferIsKept(kept: seq<bytes>, size: nat)
    ensures forall p :: p in LastOf(kept, size) ==> p in kept
  {
  }

  /** Under every interleaving: the buffer is the last `size` payloads ever
      kept, at most one payload is marked, everything injected had been kept
      before, and the interval list is one shorter than the replay count. */
  lemma {:induction false} RunsKeepInv(size: nat, acts: seq<Action>)
    requires size >= 1
    ensures Inv(Run(size, acts)) && Run(size, acts).core.size == size
  {
    hide Inv;
    if acts == [] {
      FreshIsOk(size);
    } else {
      RunsKeepInv(size, acts[..|acts| - 1]);
      StepKeepsInv(Run(size, acts[..|acts| - 1]), acts[|acts| - 1]);
    }
  }

  lemma FreshIsOk(size: nat)
    requires size >= 1
    ensures Inv(State(FreshCore(size), Gone, [], [], [], []))
  {
  }

  /** The guard against re-buffering one's own output, exactly: an injection
      makes the buffer grow iff the attack is active and an earlier hook has
      rewritten the payload on its way. */
  lemma InjectionGrowsIffRewritten(size: nat, acts: seq<Action>, seen: Option<bytes>)
    requires size >= 1 && Run(size, acts).phase.Marked?
    ensures var s := Run(size, acts);
            Step(s, Inject(seen)).phase.Keeping? <==> s.core.active && seen.Some? && seen.value != s.phase.p
  {
    RunsKeepInv(size, acts);
  }

  /** When the injections of a run were counted, in order. */
  function ReplayTimes(size: nat, acts: seq<Action>): seq<real> {
    if acts == [] then []
    else
      var init, act := acts[..|acts| - 1], acts[|acts| - 1];
      ReplayTimes(size, init) + if act.Count? && Run(size, init).phase.Unmarked? then [act.now] else []
  }

  predicate AreIntervals(ms: seq<int>, ts: seq<real>) {
    && |ms| == (if ts == [] then 0 else |ts| - 1)
    && forall i :: 0 <= i < |ms| ==> IsWholePart(ms[i], (ts[i + 1] - ts[i]) * 1000.0)
  }

  predicate StatisticsOf(c: Core, ts: seq<real>) {
    && c.replayed == |ts|
    && c.lastReplay == (if ts == [] then None else Some(ts[|ts| - 1]))
    && AreIntervals(c.intervals, ts)
  }

  lemma StatisticsStep(s: State, ts: seq<real>, act: Action)
    requires StatisticsOf(s.core, ts)
    ensures StatisticsOf(Step(s, act).core, if act.Count? && s.phase.Unmarked? then ts + [act.now] else ts)
  {
    hide Push, Truncate, IsWholePart;
    if act.Count? && s.core.lastReplay.Some? { TruncateMeaning((act.now - s.core.lastReplay.value) * 1000.0); }
  }

  /** The statistics of a run: one count for each injection, the time of the
      last, and between each two the whole milliseconds. */
  lemma {:induction false} StatisticsAreOfTheRun(size: nat, acts: seq<Action>)
    ensures StatisticsOf(Run(size, acts).core, ReplayTimes(size, acts))
  {
    if acts != [] {
      hide Step, StatisticsOf;
      var init, act := acts[..|acts| - 1], acts[|acts| - 1];
      StatisticsAreOfTheRun(size, init);
      StatisticsStep(Run(size, init), ReplayTimes(size, init), act);
      assert ReplayTimes(size, init) + [] == ReplayTimes(size, init);
    }
  }

  /** No earlier hook rewrites an injected payload. */
  predicate NoRewrites(size: nat, acts: seq<Action>) {
    forall i :: 0 <= i < |acts| && acts[i].Inject? && acts[i].seen.Some? && Run(size, acts[..i]).phase.Marked? ==>
      acts[i].seen.value == Run(size, acts[..i]).phase.p
  }

  lemma PrefixHasNoRewrites(size: nat, acts: seq<Action>, n: nat)
    requires NoRewrites(size, acts) && n <= |acts|
    ensures NoRewrites(size, acts[..n])
  {
    forall i | 0 <= i < n
      ensures acts[..n][i] == acts[i] && acts[..n][..i] == acts[..i]
    {
    }
  }

  lemma ForeignSnoc(xs: seq<Examined>, x: Examined)
    ensures Foreign(xs + [x]) ==
            Foreign(xs) + if x.active && Some(x.payload) != x.injecting then [x.payload] else []
  {
    assert (xs + [x])[..|xs|] == xs;
  }

  /** What one step adds to the payloads owed to the buffer and examined. */
  lemma StepOwes(s: State, act: Action)
    requires Inv(s) && !s.phase.Keeping?
    requires act.Inject? && act.seen.Some? && s.phase.Marked? ==> act.seen.value == s.phase.p
    ensures var t := Step(s, act);
            && !t.phase.Keeping?
            && match act
               case Send(p) =>
                 && t.kept == s.kept
                 && t.sending == s.sending + (if Keeps(s.core, Frame(KIND_CHAT, p)) then [p] else [])
                 && Foreign(t.examined) == Foreign(s.examined) + if Keeps(s.core, Frame(KIND_CHAT, p)) then [p] else []
               case SendAppend(i) =>
                 && Foreign(t.examined) == Foreign(s.examined)
                 && if i < |s.sending| then
                      t.kept == s.kept + [s.sending[i]] && t.sending == s.sending[..i] + s.sending[i + 1..]
                    else t.kept == s.kept && t.sending == s.sending
               case _ => t.kept == s.kept && t.sending == s.sending && Foreign(t.examined) == Foreign(s.examined)
  {
    hide LastOf, Foreign, Push;
    match act
    case Send(p) => ForeignSnoc(s.examined, Examined(p, s.core.active, Injecting(s.phase)));
    case Inject(seen) =>
      if s.phase.Marked? && seen.Some? {
        ForeignSnoc(s.examined, Examined(seen.value, s.core.active, Injecting(s.phase)));
      }
    case _ =>
  }

  lemma TakeOne(s: seq<bytes>, i: nat)
    requires i < |s|
    ensures multiset([s[i]]) + multiset(s[..i] + s[i + 1..]) == multiset(s)
  {
    assert s == s[..i] + ([s[i]] + s[i + 1..]);
  }

  lemma BufferIsRecent(size: nat, acts: seq<Action>)
    requires size >= 1
    ensures Run(size, acts).core.buffer == LastOf(Run(size, acts).kept, size)
  {
    hide Run, LastOf;
    RunsKeepInv(size, acts);
  }

  /** Kept or about to be: exactly what was examined and foreign. */
  predicate Balanced(s: State) { multiset(s.kept) + multiset(s.sending) == multiset(Foreign(s.examined)) }

  lemma BalanceStep(s: State, act: Action)
    requires Inv(s) && !s.phase.Keeping? && Balanced(s)
    requires act.Inject? && act.seen.Some? && s.phase.Marked? ==> act.seen.value == s.phase.p
    ensures Balanced(Step(s, act)) && !Step(s, act).phase.Keeping?
  {
    hide Foreign, Step, Inv;
    StepOwes(s, act);
    if act.SendAppend? && act.which < |s.sending| { TakeOne(s.sending, act.which); }
  }

  /** Without rewriting, however many senders there are and however they and
      the injector interleave: the payloads kept or about to be are exactly,
      each as often, the chat payloads examined while active that were not the
      one being injected; the buffer is the last `size` of those kept; and no
      injection is ever about to be buffered. */
  lemma {:induction false} BufferHoldsForeignPayloads(size: nat, acts: seq<Action>)
    requires size >= 1 && NoRewrites(size, acts)
    ensures var s := Run(size, acts);
            && Balanced(s)
            && s.core.buffer == LastOf(s.kept, size)
            && !s.phase.Keeping?
  {
    BufferIsRecent(size, acts);
    if acts != [] {
      hide Balanced, Step, Inv;
      var init, act := acts[..|acts| - 1], acts[|acts| - 1];
      PrefixHasNoRewrites(size, acts, |init|);
      BufferHoldsForeignPayloads(size, init);
      RunsKeepInv(size, init);
      BalanceStep(Run(size, init), act);
    }
  }

  // ------------------------------------------------------ order in the buffer

  /** What is kept, and then what is about to be, follows the order in which
      the hook examined it. */
  predicate InOrder(s: State) { s.kept + s.sending == Foreign(s.examined) }

  /** The sender about to append overtakes one whose hook had decided earlier,
      on another payload. */
  predicate Overtakes(sending: seq<bytes>, i: nat) {
    i < |sending| && exists k :: 0 <= k < i && sending[k] != sending[i]
  }

  predicate NoOvertaking(size: nat, acts: seq<Action>) {
    forall n :: 0 <= n < |acts| && acts[n].SendAppend? ==> !Overtakes(Run(size, acts[..n]).sending, acts[n].which)
  }

  predicate AlwaysInOrder(size: nat, acts: seq<Action>) {
    forall n :: 0 <= n <= |acts| ==> InOrder(Run(size, acts[..n]))
  }

  /** Moving one element to the front changes nothing iff all before it equal it. */
  lemma ToFront(s: seq<bytes>, i: nat)
    requires i < |s|
    ensures [s[i]] + (s[..i] + s[i + 1..]) == s <==> !Overtakes(s, i)
  {
    var moved := [s[i]] + (s[..i] + s[i + 1..]);
    if moved == s {
      AllTheSame(s, i, i);
    } else if !Overtakes(s, i) {
      forall k | 0 <= k < |s|
        ensures moved[k] == s[k]
      {
      }
    }
  }

  lemma {:induction false} AllTheSame(s: seq<bytes>, i: nat, k: nat)
    requires k <= i < |s| && [s[i]] + (s[..i] + s[i + 1..]) == s
    ensures forall j :: 0 <= j <= k ==> s[j] == s[i]
  {
    var moved := [s[i]] + (s[..i] + s[i + 1..]);
    if k == 0 {
      assert moved[0] == s[i];
    } else {
      AllTheSame(s, i, k - 1);
      assert moved[k] == s[k - 1];
    }
  }

  lemma OrderStep(s: State, act: Action)
    requires Inv(s) && !s.phase.Keeping? && InOrder(s)
    requires act.Inject? && act.seen.Some? && s.phase.Marked? ==> act.seen.value == s.phase.p
    ensures InOrder(Step(s, act)) <==> !(act.SendAppend? && Overtakes(s.sending, act.which))
  {
    hide Foreign, Step, Inv, Overtakes;
    StepOwes(s, act);
    match act
    case Send(p) =>
      Associate(s.kept, s.sending, if Keeps(s.core, Frame(KIND_CHAT, p)) then [p] else []);
    case SendAppend(i) =>
      if i < |s.sending| {
        var rest := s.sending[..i] + s.sending[i + 1..];
        ToFront(s.sending, i);
        Associate(s.kept, [s.sending[i]], rest);
        SamePrefix(s.kept, [s.sending[i]] + rest, s.sending);
      } else {
        NothingToOvertake(s.sending, i);
      }
    case _ =>
  }

  lemma SamePrefix(x: seq<bytes>, y: seq<bytes>, z: seq<bytes>)
    ensures x + y == x + z <==> y == z
  {
    if x + y == x + z { assert y == (x + y)[|x|..] == (x + z)[|x|..] == z; }
  }

  lemma NothingToOvertake(sending: seq<bytes>, i: nat)
    requires i >= |sending|
    ensures !Overtakes(sending, i)
  {
  }

  /** Exactly when order is kept: at every moment of a run what is kept follows
      the order of examination iff no sender ever overtakes one with another
      payload between its hook's two locked sections. */
  lemma {:induction false} OrderIsKeptIff(size: nat, acts: seq<Action>)
    requires size >= 1 && NoRewrites(size, acts)
    ensures AlwaysInOrder(size, acts) <==> NoOvertaking(size, acts)
  {
    if acts == [] {
      assert acts[..0] == [] && InOrder(Run(size, []));
    } else {
      hide Run, Step, InOrder, Overtakes, NoRewrites;
      var init, act := acts[..|acts| - 1], acts[|acts| - 1];
      PrefixHasNoRewrites(size, acts, |init|);
      OrderIsKeptIff(size, init);
      OneMoreStep(size, acts);
    }
  }

  lemma OneMoreStep(size: nat, acts: seq<Action>)
    requires size >= 1 && acts != [] && NoRewrites(size, acts)
    ensures var init, act := acts[..|acts| - 1], acts[|acts| - 1];
            var overtakes := act.SendAppend? && Overtakes(Run(size, init).sending, act.which);
            && (AlwaysInOrder(size, acts) <==> AlwaysInOrder(size, init) && InOrder(Run(size, acts)))
            && (NoOvertaking(size, acts) <==> NoOvertaking(size, init) && !overtakes)
            && (AlwaysInOrder(size, init) ==> (InOrder(Run(size, acts)) <==> !overtakes))
  {
    hide Run, Step, InOrder, Overtakes, Inv, AlwaysInOrder, NoOvertaking, NoRewrites;
    var init, act := acts[..|acts| - 1], acts[|acts| - 1];
    LongerOrder(size, acts);
    LongerOvertaking(size, acts);
    PrefixHasNoRewrites(size, acts, |init|);
    if AlwaysInOrder(size, init) { LastInOrder(size, acts); }
  }

  lemma LongerOrder(size: nat, acts: seq<Action>)
    requires acts != []
    ensures AlwaysInOrder(size, acts) <==> AlwaysInOrder(size, acts[..|acts| - 1]) && InOrder(Run(size, acts))
  {
    hide Run, InOrder;
    var init := acts[..|acts| - 1];
    assert acts[..|acts|] == acts;
    if AlwaysInOrder(size, acts) {
      forall n | 0 <= n <= |init| ensures InOrder(Run(size, init[..n])) {
        SamePrefixOfInit(acts, n);
        assert InOrder(Run(size, acts[..n]));
      }
    }
    if AlwaysInOrder(size, init) && InOrder(Run(size, acts)) {
      forall n | 0 <= n <= |acts| ensures InOrder(Run(size, acts[..n])) {
        if n < |acts| {
          SamePrefixOfInit(acts, n);
          assert InOrder(Run(size, init[..n]));
        }
      }
    }
  }

  lemma SamePrefixOfInit(acts: seq<Action>, n: nat)
    requires n < |acts|
    ensures acts[..|acts| - 1][..n] == acts[..n]
  {
  }

  lemma LongerOvertaking(size: nat, acts: seq<Action>)
    requires acts != []
    ensures var init, act := acts[..|acts| - 1], acts[|acts| - 1];
            NoOvertaking(size, acts) <==>
            NoOvertaking(size, init) && !(act.SendAppend? && Overtakes(Run(size, init).sending, act.which))
  {
    hide Run, Overtakes;
    var init := acts[..|acts| - 1];
    forall n | 0 <= n < |acts| ensures acts[..n] == init[..n] {
      SamePrefixOfInit(acts, n);
    }
    assert forall n :: 0 <= n < |init| ==> acts[n] == init[n];
  }

  lemma LastInOrder(size: nat, acts: seq<Action>)
    requires size >= 1 && acts != [] && NoRewrites(size, acts)
    requires NoRewrites(size, acts[..|acts| - 1]) && AlwaysInOrder(size, acts[..|acts| - 1])
    ensures var init, act := acts[..|acts| - 1], acts[|acts| - 1];
            InOrder(Run(size, acts)) <==> !(act.SendAppend? && Overtakes(Run(size, init).sending, act.which))
  {
    hide Step, InOrder, Overtakes, Inv;
    var init, act := acts[..|acts| - 1], acts[|acts| - 1];
    assert init[..|init|] == init;
    RunsKeepInv(size, init);
    BufferHoldsForeignPayloads(size, init);
    OrderStep(Run(size, init), act);
  }

  /** Two senders, the second buffering first. */
  const OVERTAKING: seq<Action> := [StartAttack, Send([1]), Send([2]), SendAppend(1), SendAppend(0)]

  /** An active attack with a buffer of one. */
  function OneSlot(buffer: seq<bytes>, sending: seq<bytes>, kept: seq<bytes>, examined: seq<Examined>): State {
    State(Core(true, 1, buffer, {}, |kept|, 0, None, []), Asleep, sending, kept, examined, [])
  }

  lemma OneSlotSend(buffer: seq<bytes>, sending: seq<bytes>, kept: seq<bytes>, examined: seq<Examined>, p: bytes)
    ensures Step(OneSlot(buffer, sending, kept, examined), Send(p)) ==
            OneSlot(buffer, sending + [p], kept, examined + [Examined(p, true, None)])
  {
  }

  lemma OneSlotAppend(buffer: seq<bytes>, sending: seq<bytes>, kept: seq<bytes>, examined: seq<Examined>, i: nat)
    requires i < |sending| && |buffer| <= 1
    ensures Step(OneSlot(buffer, sending, kept, examined), SendAppend(i)) ==
            OneSlot([sending[i]], sending[..i] + sending[i + 1..], kept + [sending[i]], examined)
  {
  }

  /** With a buffer of one, the payload examined first is what stays. */
  lemma OvertakingLosesTheLatest()
    ensures Run(1, OVERTAKING).core.buffer == [[1]]
    ensures Foreign(Run(1, OVERTAKING).examined) == [[1], [2]]
  {
    hide Run, Foreign, Step;
    var first, second := Examined([1], true, None), Examined([2], true, None);
    RunFive(1, StartAttack, Send([1]), Send([2]), SendAppend(1), SendAppend(0));
    StartOneSlot();
    OneSlotSend([], [], [], [], [1]);
    assert [] + [first] == [first] && [] + [[1]] == [[1]];
    OneSlotSend([], [[1]], [], [first], [2]);
    var both, examined := [[1]] + [[2]], [first] + [second];
    OneSlotAppend([], both, [], examined, 1);
    assert both[1] == [2] && both[..1] + both[2..] == [[1]];
    OneSlotAppend([[2]], [[1]], [] + [[2]], examined, 0);
    NothingForeign();
    ForeignSnoc([], first);
    ForeignSnoc([first], second);
  }

  lemma StartOneSlot()
    ensures Step(State(FreshCore(1), Gone, [], [], [], []), StartAttack) == OneSlot([], [], [], [])
  {
  }

  lemma NothingForeign()
    ensures Foreign([]) == []
  {
  }

  lemma RunSnoc(size: nat, acts: seq<Action>, act: Action)
    ensures Run(size, acts + [act]) == Step(Run(size, acts), act)
  {
    assert (acts + [act])[..|acts|] == acts;
  }

  lemma RunFive(size: nat, v: Action, w: Action, x: Action, y: Action, z: Action)
    ensures Run(size, [v, w, x, y, z]) ==
            Step(Step(Step(Step(Step(State(FreshCore(size), Gone, [], [], [], []), v), w), x), y), z)
  {
    hide Step, Run;
    RunNothing(size);
    RunSnoc(size, [], v);
    RunSnoc(size, [v], w);
    RunSnoc(size, [v, w], x);
    RunSnoc(size, [v, w, x], y);
    RunSnoc(size, [v, w, x, y], z);
    assert [] + [v] == [v] && [v] + [w] == [v, w] && [v, w] + [x] == [v, w, x];
    assert [v, w, x] + [y] == [v, w, x, y] && [v, w, x, y] + [z] == [v, w, x, y, z];
  }

  lemma RunNothing(size: nat)
    ensures Run(size, []) == State(FreshCore(size), Gone, [], [], [], [])
  {
  }

  /** While the injector owns the step the buffer never changes. */
  lemma InjectorLeavesBuffer(size: nat, acts: seq<Action>, act: Action)
    requires size >= 1 && NoRewrites(size, acts)
    requires act.Pick? || act.MarkPick? || act.Inject? || act.InjectAppend? || act.UnmarkPick? || act.Count? ||
             act.Fail?
    ensures Step(Run(size, acts), act).core.buffer == Run(size, acts).core.buffer
  {
    hide Run, Foreign;
    BufferHoldsForeignPayloads(size, acts);
  }
}
