/** Sync over an attacked transport: the sync messages as TCP frames, the hook
    chain of MITM and replay attacks in front of every send, and the proof
    that the synchronisation is step for step the one without attacks. */
module NonInterference {
  import opened Basics
  import opened Encoding
  import opened Framing
  import opened FileTransfer
  import opened Tampering
  import Attacks
  import Replay
  import opened Tpm
  import opened TpmDynamics
  import opened SequentialSync
  import opened SyncSystem
  import opened SyncTheorems

  // ------------------------------------------------------- messages as frames

  /** `>Q`: eight bytes, big end first. */
  function BE64(n: nat): bytes
    requires n < 0x1_0000_0000_0000_0000
  {
    BE32(n / 0x1_0000_0000) + BE32(n % 0x1_0000_0000)
  }

  function FromBE64(b: bytes): nat
    requires |b| == 8
  {
    FromBE32(b[..4]) * 0x1_0000_0000 + FromBE32(b[4..])
  }

  function Text(b: bytes): string { seq(|b|, i requires 0 <= i < |b| => b[i] as char) }

  /** The frame a transport sends for a message. */
  function ToFrame(m: Msg): Frame {
    match m
    case SeedMsg(v) => Frame(KIND_SEED, BE64(v as nat))
    case TauMsg(tau) => Frame(KIND_TAU, [tau % 256])
    case FpMsg(fp) => Frame(KIND_FINGERPRINT, Ascii(fp))
    case AppMsg(payload) => Frame(KIND_CHAT, payload)
  }

  /** The typed receives, read backwards; a bad length is refused. */
  function FromFrame(f: Frame): Option<Msg> {
    if f.kind == KIND_SEED && |f.payload| == 8 then SeedFromBytes(f.payload)
    else if f.kind == KIND_TAU && |f.payload| == 1 then Some(TauMsg((f.payload[0] as int + 128) % 256 - 128))
    else if f.kind == KIND_FINGERPRINT then Some(FpMsg(Text(f.payload)))
    else if f.kind == KIND_CHAT then Some(AppMsg(f.payload))
    else None
  }

  function SeedFromBytes(b: bytes): Option<Msg>
    requires |b| == 8
  {
    var n := FromBE64(b);
    if n < 0x1_0000_0000_0000_0000 then Some(SeedMsg(n as bv64)) else None
  }

  /** What the one-byte tau and the ASCII fingerprint can carry. */
  predicate Wireable(m: Msg) {
    match m
    case TauMsg(tau) => -128 <= tau < 128
    case FpMsg(fp) => IsAscii(fp)
    case _ => true
  }

  lemma BE64RoundTrip(n: nat)
    requires n < 0x1_0000_0000_0000_0000
    ensures |BE64(n)| == 8 && FromBE64(BE64(n)) == n
  {
    BE32RoundTrip(n / 0x1_0000_0000);
    BE32RoundTrip(n % 0x1_0000_0000);
    assert BE64(n)[..4] == BE32(n / 0x1_0000_0000) && BE64(n)[4..] == BE32(n % 0x1_0000_0000);
  }

  lemma MessagesSurviveFraming(m: Msg)
    requires Wireable(m)
    ensures FromFrame(ToFrame(m)) == Some(m)
  {
    match m
    case SeedMsg(v) =>
      hide BE64, FromBE64;
      BE64RoundTrip(v as nat);
    case TauMsg(tau) =>
    case FpMsg(fp) => assert Text(Ascii(fp)) == fp;
    case AppMsg(_) =>
  }

  /** What stands on the wire: the seed's eight bytes with the first weighing
      most, one signed byte for tau, a character a byte for the fingerprint. */
  lemma MessageLayout(m: Msg)
    requires Wireable(m)
    ensures var f := ToFrame(m);
            match m
            case SeedMsg(v) =>
              && f.kind == KIND_SEED && |f.payload| == 8
              && IsBigEndian(f.payload[..4], v as nat / 0x1_0000_0000)
              && IsBigEndian(f.payload[4..], v as nat % 0x1_0000_0000)
            case TauMsg(tau) =>
              f.kind == KIND_TAU && |f.payload| == 1 && f.payload[0] == if tau < 0 then tau + 256 else tau
            case FpMsg(fp) =>
              && f.kind == KIND_FINGERPRINT && |f.payload| == |fp|
              && forall i :: 0 <= i < |fp| ==> f.payload[i] == fp[i] as int
            case AppMsg(payload) => f == Frame(KIND_CHAT, payload)
  {
    hide BE64, IsBigEndian;
    if m.SeedMsg? { BE64Layout(m.seed as nat); }
  }

  lemma BE64Layout(n: nat)
    requires n < 0x1_0000_0000_0000_0000
    ensures |BE64(n)| == 8
    ensures IsBigEndian(BE64(n)[..4], n / 0x1_0000_0000) && IsBigEndian(BE64(n)[4..], n % 0x1_0000_0000)
  {
    hide BE32, IsBigEndian;
    BE32RoundTrip(n / 0x1_0000_0000);
    BE32RoundTrip(n % 0x1_0000_0000);
    assert BE64(n)[..4] == BE32(n / 0x1_0000_0000) && BE64(n)[4..] == BE32(n % 0x1_0000_0000);
  }

  // ------------------------------------------------------------ attack chain

  datatype AttackState =
    | Mitm(active: bool, probability: real, flips: nat, seen: nat, tampered: nat)
    | Replayer(core: Replay.Core)

  /** The randomness a chain draws for one frame, by position in the chain. */
  datatype Dice = Dice(coin: nat -> real, draw: nat -> nat -> nat)

  function HookState(a: AttackState, f: Frame, coin: real): AttackState {
    match a
    case Mitm(active, probability, flips, seen, tampered) =>
      if active && f.kind == KIND_CHAT
      then Mitm(active, probability, flips, seen + 1, tampered + if coin < probability && f.payload != [] then 1 else 0)
      else a
    case Replayer(core) => if Replay.Keeps(core, f) then Replayer(Replay.Buffer(core, f.payload)) else a
  }

  function HookFrame(a: AttackState, f: Frame, coin: real, draw: nat -> nat): Frame {
    match a
    case Mitm(active, probability, flips, _, _) => Outbound(active, probability, flips, f, coin, draw)
    case Replayer(_) => f
  }

  function MitmState(a: MitmAttack): AttackState
    reads a
  {
    Mitm(a.active, a.tamperProbability, a.flipBitsPerFrame, a.framesSeen, a.framesTampered)
  }

  /** The hooks of the model are those of the attack classes: the same frame
      goes out and the attack is left in the same state. */
  method RunMitmHook(a: MitmAttack, f: Frame, coin: real, draw: nat -> nat) returns (g: Frame)
    modifies a
    ensures g == HookFrame(old(MitmState(a)), f, coin, draw)
    ensures MitmState(a) == HookState(old(MitmState(a)), f, coin)
  {
    hide Outbound, IsTampered;
    g := a.OnOutboundFrame(f, coin, draw);
  }

  method RunReplayHook(a: Replay.ReplayAttack, f: Frame, coin: real, draw: nat -> nat) returns (g: Frame)
    modifies a
    ensures g == HookFrame(old(Replayer(a.State())), f, coin, draw)
    ensures Replayer(a.State()) == HookState(old(Replayer(a.State())), f, coin)
  {
    g := a.OnOutboundFrame(f);
  }

  /** The frame behind the first n attacks of the chain. */
  function ChainFrame(attacks: seq<AttackState>, f: Frame, dice: Dice, n: nat): Frame
    requires n <= |attacks|
  {
    if n == 0 then f
    else HookFrame(attacks[n - 1], ChainFrame(attacks, f, dice, n - 1), dice.coin(n - 1), dice.draw(n - 1))
  }

  /** Every attack after the frame has passed the whole chain. */
  function ChainStates(attacks: seq<AttackState>, f: Frame, dice: Dice): (r: seq<AttackState>)
    ensures |r| == |attacks|
  {
    seq(|attacks|, i requires 0 <= i < |attacks| =>
      HookState(attacks[i], ChainFrame(attacks, f, dice, i), dice.coin(i)))
  }

  lemma {:induction false} LaterAttacksDoNotMatter(attacks: seq<AttackState>, more: seq<AttackState>, f: Frame,
        dice: Dice, n: nat)
    requires n <= |attacks|
    ensures ChainFrame(attacks + more, f, dice, n) == ChainFrame(attacks, f, dice, n)
  {
    hide HookFrame;
    if n > 0 { LaterAttacksDoNotMatter(attacks, more, f, dice, n - 1); }
  }

  /** In registration order: an attack that joins sees the frame last, as all
      the others leave it, and changes nothing for them. */
  lemma NewcomerIsLast(attacks: seq<AttackState>, a: AttackState, f: Frame, dice: Dice)
    ensures var n, seen := |attacks|, ChainFrame(attacks, f, dice, |attacks|);
            && ChainFrame(attacks + [a], f, dice, n + 1) == HookFrame(a, seen, dice.coin(n), dice.draw(n))
            && ChainStates(attacks + [a], f, dice)[n] == HookState(a, seen, dice.coin(n))
            && ChainStates(attacks + [a], f, dice)[..n] == ChainStates(attacks, f, dice)
  {
    hide HookFrame, HookState;
    LaterAttacksDoNotMatter(attacks, [a], f, dice, |attacks|);
    hide ChainFrame;
    forall i | 0 <= i < |attacks|
      ensures ChainStates(attacks + [a], f, dice)[i] == ChainStates(attacks, f, dice)[i]
    {
      LaterAttacksDoNotMatter(attacks, [a], f, dice, i);
    }
    LastInChain(attacks, a, f, dice);
  }

  lemma LastInChain(attacks: seq<AttackState>, a: AttackState, f: Frame, dice: Dice)
    ensures var n := |attacks|;
            ChainFrame(attacks + [a], f, dice, n + 1) ==
            HookFrame(a, ChainFrame(attacks + [a], f, dice, n), dice.coin(n), dice.draw(n))
  {
    hide HookFrame;
  }

  lemma HookOnFrame(a: AttackState, f: Frame, coin: real, draw: nat -> nat)
    ensures var g := HookFrame(a, f, coin, draw);
            && g.kind == f.kind && |g.payload| == |f.payload|
            && (f.kind != KIND_CHAT ==> g == f && HookState(a, f, coin) == a)
  {
    hide Flipped;
  }

  /** Every chain of these attacks, in any order and whoever is active, keeps
      kind and length of a frame, and is the identity unless it is chat. */
  lemma {:induction false} ChainOnFrames(attacks: seq<AttackState>, f: Frame, dice: Dice, n: nat)
    requires n <= |attacks|
    ensures var g := ChainFrame(attacks, f, dice, n);
            && g.kind == f.kind && |g.payload| == |f.payload|
            && (f.kind != KIND_CHAT ==> g == f)
  {
    hide HookFrame, HookState;
    if n > 0 {
      ChainOnFrames(attacks, f, dice, n - 1);
      HookOnFrame(attacks[n - 1], ChainFrame(attacks, f, dice, n - 1), dice.coin(n - 1), dice.draw(n - 1));
    }
  }

  /** A frame that is not chat leaves every attack as it was. */
  lemma OtherFramesLeaveAttacks(attacks: seq<AttackState>, f: Frame, dice: Dice)
    requires f.kind != KIND_CHAT
    ensures ChainStates(attacks, f, dice) == attacks
  {
    hide HookFrame, HookState, ChainFrame;
    forall i | 0 <= i < |attacks|
      ensures ChainStates(attacks, f, dice)[i] == attacks[i]
    {
      ChainOnFrames(attacks, f, dice, i);
      HookOnFrame(attacks[i], f, dice.coin(i), dice.draw(i));
    }
  }

  /** An attack's outbound hook for one frame, as the registry calls it. */
  function HookOf(a: AttackState, coin: real, draw: nat -> nat): Attacks.Hook {
    f => Attacks.Pass(HookFrame(a, f, coin, draw))
  }

  predicate IsActive(a: AttackState) { if a.Mitm? then a.active else a.core.active }

  /** The hooks of the active attacks, in order. */
  function Hooks(attacks: seq<AttackState>, dice: Dice, n: nat): seq<Attacks.Hook>
    requires n <= |attacks|
  {
    if n == 0 then []
    else
      Hooks(attacks, dice, n - 1) +
      if IsActive(attacks[n - 1]) then [HookOf(attacks[n - 1], dice.coin(n - 1), dice.draw(n - 1))] else []
  }

  /** The chain of all these attacks is the registry's chain of the active
      ones' hooks, which therefore never drops a frame. */
  lemma {:induction false} ChainIsTheRegistrys(attacks: seq<AttackState>, f: Frame, dice: Dice, n: nat)
    requires n <= |attacks|
    ensures Attacks.Chain(Hooks(attacks, dice, n), f) == Some(ChainFrame(attacks, f, dice, n))
  {
    hide HookFrame, IsActive;
    if n > 0 {
      var init, a := Hooks(attacks, dice, n - 1), attacks[n - 1];
      ChainIsTheRegistrys(attacks, f, dice, n - 1);
      if IsActive(a) {
        Attacks.ChainSplits(init, [HookOf(a, dice.coin(n - 1), dice.draw(n - 1))], f);
        OneHook(a, ChainFrame(attacks, f, dice, n - 1), dice.coin(n - 1), dice.draw(n - 1));
      } else {
        assert Hooks(attacks, dice, n) == init;
        InactiveHook(a, ChainFrame(attacks, f, dice, n - 1), dice.coin(n - 1), dice.draw(n - 1));
      }
    }
  }

  lemma InactiveHook(a: AttackState, f: Frame, coin: real, draw: nat -> nat)
    requires !IsActive(a)
    ensures HookFrame(a, f, coin, draw) == f && HookState(a, f, coin) == a
  {
  }

  lemma OneHook(a: AttackState, f: Frame, coin: real, draw: nat -> nat)
    ensures Attacks.Chain([HookOf(a, coin, draw)], f) == Some(HookFrame(a, f, coin, draw))
  {
    hide HookFrame;
    var h := HookOf(a, coin, draw);
    assert [h][0](f) == Attacks.Pass(HookFrame(a, f, coin, draw)) && [h][1..] == [];
  }

  // -------------------------------------------------------- attacked system

  datatype Net = Net(sys: Sys, onA: seq<AttackState>, onB: seq<AttackState>)

  datatype NetAction =
    | Go(who: Who, dice: Dice)                                  // the session's next send or receive
    | GiveUp(who: Who)                                          // a receive times out
    | Break(who: Who)                                           // or finds that the peer has closed
    | Chat(who: Who, payload: bytes, dice: Dice)                // the application sends a chat bundle
    | Inject(who: Who, attack: nat, choice: nat, now: real, dice: Dice)
    | Toggle(who: Who, attack: nat, active: bool)
    | Register(who: Who, newcomer: AttackState)                 // a fresh attack joins the chain's end
    | Unregister(who: Who, attack: nat)

  function Flip(n: Net): Net { Net(Swap(n.sys), n.onB, n.onA) }

  function SetActive(a: AttackState, active: bool): AttackState {
    match a
    case Mitm(_, p, f, s, t) => Mitm(active, p, f, s, t)
    case Replayer(core) => Replayer(core.(active := active))
  }

  /** A frame goes through the first side's chain onto its channel. */
  function SendThrough(n: Net, f: Frame, dice: Dice): Net {
    var g := ChainFrame(n.onA, f, dice, |n.onA|);
    var arriving := FromFrame(g);
    Net(n.sys.(ab := n.sys.ab + if arriving.Some? then [arriving.value] else []), ChainStates(n.onA, f, dice), n.onB)
  }

  /** An attack leaves the chain. */
  function Without(attacks: seq<AttackState>, attack: nat): seq<AttackState> {
    if attack < |attacks| then attacks[..attack] + attacks[attack + 1..] else attacks
  }

  /** Also while the attack is being stopped: its last send may be under way. */
  predicate CanInject(n: Net, attack: nat) {
    attack < |n.onA| && n.onA[attack].Replayer? && n.onA[attack].core.buffer != []
  }

  function WithCore(n: Net, attack: nat, core: Replay.Core): Net
    requires attack < |n.onA|
  {
    n.(onA := n.onA[attack := Replayer(core)])
  }

  function FirstActs(cfg: Config, n: Net, act: NetAction): (r: Net)
    requires ValidConfig(cfg) && SysFits(cfg, n.sys)
    ensures SysFits(cfg, r.sys)
  {
    match act
    case Go(_, dice) =>
      if n.sys.a.status.Sending? then
        var m := Outgoing(cfg, n.sys.a);
        SendThrough(n.(sys := n.sys.(a := n.sys.a.(status := Receiving(n.sys.a.status.kind)))), ToFrame(m), dice)
      else n.(sys := FirstSideActs(cfg, n.sys, Run(A)))
    case GiveUp(_) => n.(sys := FirstSideActs(cfg, n.sys, Timeout(A)))
    case Break(_) => n.(sys := FirstSideActs(cfg, n.sys, Sever(A)))
    case Chat(_, payload, dice) =>
      if n.sys.a.status == Finished(Success) then SendThrough(n, Frame(KIND_CHAT, payload), dice) else n
    case Inject(_, attack, choice, now, dice) =>
      if CanInject(n, attack) then
        var core := n.onA[attack].core;
        var p := core.buffer[choice % |core.buffer|];
        var sent := SendThrough(WithCore(n, attack, Replay.Mark(core, p)), Frame(KIND_CHAT, p), dice);
        if sent.onA[attack].Replayer?
        then WithCore(sent, attack, Replay.CountReplay(Replay.Unmark(sent.onA[attack].core, p), now)) else sent
      else n
    case Toggle(_, attack, active) =>
      if attack < |n.onA| then n.(onA := n.onA[attack := SetActive(n.onA[attack], active)]) else n
    case Register(_, newcomer) => if IsFresh(newcomer) then n.(onA := n.onA + [newcomer]) else n
    case Unregister(_, attack) => n.(onA := Without(n.onA, attack))
  }

  function NetStep(cfg: Config, n: Net, act: NetAction): (r: Net)
    requires ValidConfig(cfg) && SysFits(cfg, n.sys)
    ensures SysFits(cfg, r.sys)
  {
    if act.who == A then FirstActs(cfg, n, act) else Flip(FirstActs(cfg, Flip(n), act))
  }

  function NetRun(cfg: Config, n: Net, acts: seq<NetAction>): (r: Net)
    requires ValidConfig(cfg) && SysFits(cfg, n.sys)
    ensures SysFits(cfg, r.sys)
  {
    if acts == [] then n else NetStep(cfg, NetRun(cfg, n, acts[..|acts| - 1]), acts[|acts| - 1])
  }

  predicate IsFresh(a: AttackState) { a.Replayer? ==> a.core.buffer == [] }

  predicate AllFresh(attacks: seq<AttackState>) { forall i :: 0 <= i < |attacks| ==> IsFresh(attacks[i]) }

  /** Before a side's success its replay buffers are empty. */
  predicate Dormant(n: Net) {
    && (n.sys.a.status != Finished(Success) ==> AllFresh(n.onA))
    && (n.sys.b.status != Finished(Success) ==> AllFresh(n.onB))
  }

  lemma TauFitsOneByte(cfg: Config, w: Matrix, x: Matrix)
    requires Fits(cfg, w) && IsInput(x, cfg.K, cfg.N)
    ensures -128 <= Tau(w, x) < 128
  {
    ProductIsSign(Sigmas(w, x));
  }

  lemma OutgoingIsWireable(cfg: Config, s: Side)
    requires ValidConfig(cfg) && Fits(cfg, s.weights) && s.status.Sending?
    ensures Wireable(Outgoing(cfg, s)) && ToFrame(Outgoing(cfg, s)).kind != KIND_CHAT
  {
    hide IsWeights, ExportBytes, BE64, Tau;
    match s.status.kind
    case SeedKind =>
    case TauKind => TauFitsOneByte(cfg, s.weights, Input(cfg, s.seed, s.round));
    case FpKind => HexThenFromHex(cfg.digest(ExportBytes(s.weights)));
  }

  /** A sync message passes any chain as if there were none. */
  lemma SyncSendIsUntouched(cfg: Config, n: Net, dice: Dice)
    requires ValidConfig(cfg) && SysFits(cfg, n.sys) && n.sys.a.status.Sending?
    ensures FirstActs(cfg, n, Go(A, dice)).sys == FirstSideActs(cfg, n.sys, Run(A))
    ensures FirstActs(cfg, n, Go(A, dice)).onA == n.onA && FirstActs(cfg, n, Go(A, dice)).onB == n.onB
  {
    hide IsWeights, Outgoing, ToFrame, FromFrame, HookState, HookFrame;
    var m := Outgoing(cfg, n.sys.a);
    OutgoingIsWireable(cfg, n.sys.a);
    MessagesSurviveFraming(m);
    ChainOnFrames(n.onA, ToFrame(m), dice, |n.onA|);
    OtherFramesLeaveAttacks(n.onA, ToFrame(m), dice);
  }

  /** A chat frame, however flipped, arrives as one application message. */
  lemma ChatSendPosts(n: Net, payload: bytes, dice: Dice) returns (arriving: bytes)
    ensures |arriving| == |payload| && arriving == ChainFrame(n.onA, Frame(KIND_CHAT, payload), dice, |n.onA|).payload
    ensures SendThrough(n, Frame(KIND_CHAT, payload), dice).sys == n.sys.(ab := n.sys.ab + [AppMsg(arriving)])
  {
    hide HookState, HookFrame;
    ChainOnFrames(n.onA, Frame(KIND_CHAT, payload), dice, |n.onA|);
    arriving := ChainFrame(n.onA, Frame(KIND_CHAT, payload), dice, |n.onA|).payload;
  }

  /** What one attacked step of the first side is, without attacks: the same
      step, or the posting of an application message, or nothing. */
  lemma FirstActsIsPlain(cfg: Config, n: Net, act: NetAction) returns (plain: seq<Action>)
    requires ValidConfig(cfg) && SysFits(cfg, n.sys) && Dormant(n)
    ensures |plain| <= 1 && (|plain| == 1 ==> plain[0].who == A)
    ensures FirstActs(cfg, n, act).sys == if plain == [] then n.sys else FirstSideActs(cfg, n.sys, plain[0])
    ensures Dormant(FirstActs(cfg, n, act))
    ensures SyncPart(plain) ==
            match act
            case Go(_, _) => [Run(A)]
            case GiveUp(_) => [Timeout(A)]
            case Break(_) => [Sever(A)]
            case _ => []
  {
    hide IsWeights, Outgoing, Consume, SendThrough, HookState;
    match act
    case Go(_, dice) =>
      plain := [Run(A)];
      assert plain[..0] == [];
      if n.sys.a.status.Sending? { SyncSendIsUntouched(cfg, n, dice); GoIgnoresWho(cfg, n, act); }
    case GiveUp(_) =>
      plain := [Timeout(A)];
      assert plain[..0] == [];
    case Break(_) =>
      plain := [Sever(A)];
      assert plain[..0] == [];
    case Chat(_, payload, dice) =>
      plain := [];
      if n.sys.a.status == Finished(Success) {
        var arriving := ChatSendPosts(n, payload, dice);
        plain := [Post(A, arriving)];
        assert plain[..0] == [];
        SendKeepsOther(n, Frame(KIND_CHAT, payload), dice);
      }
    case Inject(_, attack, choice, now, dice) =>
      plain := [];
      if CanInject(n, attack) {
        assert !IsFresh(n.onA[attack]);
        var core := n.onA[attack].core;
        var p := core.buffer[choice % |core.buffer|];
        var marked := WithCore(n, attack, Replay.Mark(core, p));
        var arriving := ChatSendPosts(marked, p, dice);
        SendKeepsOther(marked, Frame(KIND_CHAT, p), dice);
        plain := [Post(A, arriving)];
        assert plain[..0] == [];
      }
    case Toggle(_, attack, active) =>
      plain := [];
    case Register(_, newcomer) =>
      plain := [];
    case Unregister(_, attack) =>
      plain := [];
  }

  lemma GoIgnoresWho(cfg: Config, n: Net, act: NetAction)
    requires ValidConfig(cfg) && SysFits(cfg, n.sys) && act.Go?
    ensures FirstActs(cfg, n, act) == FirstActs(cfg, n, Go(A, act.dice))
  {
    hide IsWeights, Outgoing, Consume, SendThrough;
  }

  lemma SendKeepsOther(n: Net, f: Frame, dice: Dice)
    ensures SendThrough(n, f, dice).onB == n.onB && |SendThrough(n, f, dice).onA| == |n.onA|
    ensures SendThrough(n, f, dice).sys.a == n.sys.a && SendThrough(n, f, dice).sys.b == n.sys.b
  {
    hide HookState, HookFrame, FromFrame;
  }

  /** The sends, receives and timeouts of a schedule, without its posts. */
  function SyncPart(acts: seq<Action>): seq<Action> {
    if acts == [] then []
    else SyncPart(acts[..|acts| - 1]) + if acts[|acts| - 1].Post? then [] else [acts[|acts| - 1]]
  }

  function Scheduled(acts: seq<NetAction>): seq<Action> {
    if acts == [] then []
    else
      var rest := Scheduled(acts[..|acts| - 1]);
      match acts[|acts| - 1]
      case Go(who, _) => rest + [Run(who)]
      case GiveUp(who) => rest + [Timeout(who)]
      case Break(who) => rest + [Sever(who)]
      case _ => rest
  }

  lemma NetStepIsPlain(cfg: Config, n: Net, act: NetAction) returns (plain: seq<Action>)
    requires ValidConfig(cfg) && SysFits(cfg, n.sys) && Dormant(n)
    ensures |plain| <= 1
    ensures NetStep(cfg, n, act).sys == if plain == [] then n.sys else Step(cfg, n.sys, plain[0])
    ensures Dormant(NetStep(cfg, n, act))
    ensures SyncPart(plain) ==
            match act
            case Go(who, _) => [Run(who)]
            case GiveUp(who) => [Timeout(who)]
            case Break(who) => [Sever(who)]
            case _ => []
  {
    hide IsWeights, FirstActs, FirstSideActs;
    if act.who == A {
      plain := FirstActsIsPlain(cfg, n, act);
    } else {
      var first := FirstActsIsPlain(cfg, Flip(n), act);
      if first == [] {
        plain := [];
      } else {
        plain := [ByB(first[0])];
        SyncPartOfOne(plain[0]);
        SyncPartOfOne(first[0]);
        assert first == [first[0]];
        ActsAlike(cfg, Swap(n.sys), first[0]);
      }
    }
  }

  lemma SyncPartOfOne(act: Action)
    ensures SyncPart([act]) == if act.Post? then [] else [act]
  {
    assert [act][..0] == [];
  }

  function ByB(act: Action): Action {
    match act
    case Run(_) => Run(B)
    case Timeout(_) => Timeout(B)
    case Sever(_) => Sever(B)
    case Post(_, payload) => Post(B, payload)
  }

  lemma ActsAlike(cfg: Config, s: Sys, act: Action)
    requires ValidConfig(cfg) && SysFits(cfg, s)
    ensures FirstSideActs(cfg, s, ByB(act)) == FirstSideActs(cfg, s, act)
  {
    hide IsWeights, Outgoing, Consume;
  }

  /** Non-interference: from fresh attacks on both sides, every run of the
      attacked system goes through exactly the session states of a run
      without attacks that has the same sends, receives and timeouts in the
      same order; only application messages posted after success differ. */
  lemma {:induction false} AttackedRunIsAPlainRun(cfg: Config, seedA: bv64, seedB: bv64, p: Pair,
        onA: seq<AttackState>, onB: seq<AttackState>, acts: seq<NetAction>) returns (plain: seq<Action>)
    requires ValidConfig(cfg) && PairFits(cfg, p) && AllFresh(onA) && AllFresh(onB)
    ensures Exec(cfg, Start(seedA, seedB, p), plain) == NetRun(cfg, Net(Start(seedA, seedB, p), onA, onB), acts).sys
    ensures SyncPart(plain) == Scheduled(acts)
    ensures Dormant(NetRun(cfg, Net(Start(seedA, seedB, p), onA, onB), acts))
  {
    hide IsWeights, HasShape, InRange, NetStep, Step, Dormant, AllFresh;
    var start := Net(Start(seedA, seedB, p), onA, onB);
    if acts == [] {
      plain := [];
      FreshIsDormant(cfg, seedA, seedB, p, onA, onB);
    } else {
      var init := AttackedRunIsAPlainRun(cfg, seedA, seedB, p, onA, onB, acts[..|acts| - 1]);
      var more := NetStepIsPlain(cfg, NetRun(cfg, start, acts[..|acts| - 1]), acts[|acts| - 1]);
      plain := init + more;
      hide Exec, SyncPart;
      OneMore(cfg, Start(seedA, seedB, p), init, more);
    }
  }

  /** So what holds of every run survives the attacks: the weights are those of
      the sequential loop, and two successes share the key. */
  lemma AttackedSyncIsSafe(cfg: Config, seedA: bv64, seedB: bv64, p: Pair,
        onA: seq<AttackState>, onB: seq<AttackState>, acts: seq<NetAction>, who: Who)
    requires ValidConfig(cfg) && PairFits(cfg, p) && AllFresh(onA) && AllFresh(onB)
    ensures var s := NetRun(cfg, Net(Start(seedA, seedB, p), onA, onB), acts).sys;
            && SideRefines(cfg, AgreedSeed(seedA, seedB), p, who, SideOf(s, who))
            && (s.a.status == Finished(Success) == s.b.status ==>
                  DeriveKey(cfg, s.a.weights) == DeriveKey(cfg, s.b.weights))
  {
    hide IsWeights, NetRun, Exec, SideRefines, DeriveKey;
    var plain := AttackedRunIsAPlainRun(cfg, seedA, seedB, p, onA, onB, acts);
    RunsRefineTheLoop(cfg, seedA, seedB, p, plain, who);
    var s := Exec(cfg, Start(seedA, seedB, p), plain);
    if s.a.status == Finished(Success) == s.b.status { SuccessesShareTheKey(cfg, seedA, seedB, p, plain); }
  }

  lemma OneMore(cfg: Config, s: Sys, init: seq<Action>, more: seq<Action>)
    requires ValidConfig(cfg) && SysFits(cfg, s) && |more| <= 1
    ensures Exec(cfg, s, init + more) == if more == [] then Exec(cfg, s, init)
            else Step(cfg, Exec(cfg, s, init), more[0])
    ensures SyncPart(init + more) == SyncPart(init) + SyncPart(more)
  {
    hide IsWeights, Step;
    if more == [] {
      assert init + more == init;
    } else {
      assert (init + more)[..|init|] == init && more[..0] == [];
    }
  }

  lemma FreshIsDormant(cfg: Config, seedA: bv64, seedB: bv64, p: Pair, onA: seq<AttackState>, onB: seq<AttackState>)
    requires AllFresh(onA) && AllFresh(onB)
    ensures Dormant(Net(Start(seedA, seedB, p), onA, onB))
  {
  }
}
