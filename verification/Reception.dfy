/** From an attacked sender to the peer's reader: what becomes of every chat
    bundle that reaches it. */
module Reception {
  import opened Basics
  import opened Framing
  import opened FileTransfer
  import opened PeerLinks
  import opened Bookkeeping
  import opened Tpm
  import opened SequentialSync
  import opened SyncSystem
  import SyncInvariant
  import SyncTheorems
  import Replay
  import opened NonInterference

  // ------------------------------------------------------- an attacked sender

  /** What is asked of every chat bundle under way: that it be long enough to
      decode, or that it also be one that was sealed as chat. */
  datatype Quality = LongEnough | Sealed(ledger: Ledger)

  predicate Good(q: Quality, bundle: bytes) {
    |bundle| >= BUNDLE_OVERHEAD && (q.Sealed? ==> IsSealedChat(q.ledger, bundle))
  }

  /** Tampering leaves nothing but the length. */
  predicate GoodAttack(q: Quality, a: AttackState) {
    && (a.Mitm? ==> q.LongEnough?)
    && (a.Replayer? ==> forall i :: 0 <= i < |a.core.buffer| ==> Good(q, a.core.buffer[i]))
  }

  predicate GoodAttacks(q: Quality, attacks: seq<AttackState>) {
    forall i :: 0 <= i < |attacks| ==> GoodAttack(q, attacks[i])
  }

  predicate GoodApp(q: Quality, m: Msg) { m.AppMsg? ==> Good(q, m.payload) }

  predicate GoodApps(q: Quality, msgs: seq<Msg>) { forall i :: 0 <= i < |msgs| ==> GoodApp(q, msgs[i]) }

  predicate AllGood(q: Quality, n: Net) {
    GoodAttacks(q, n.onA) && GoodAttacks(q, n.onB) && GoodApps(q, n.sys.ab) && GoodApps(q, n.sys.ba)
  }

  /** No tampering where the quality does not bear it. */
  predicate Bearable(q: Quality, attacks: seq<AttackState>) {
    forall i :: 0 <= i < |attacks| && attacks[i].Mitm? ==> q.LongEnough?
  }

  predicate GoodAct(q: Quality, act: NetAction) {
    (act.Chat? ==> Good(q, act.payload)) && (act.Register? && act.newcomer.Mitm? ==> q.LongEnough?)
  }

  predicate AllGoodActs(q: Quality, acts: seq<NetAction>) { forall i :: 0 <= i < |acts| ==> GoodAct(q, acts[i]) }

  lemma HookStaysGood(q: Quality, a: AttackState, f: Frame, coin: real)
    requires GoodAttack(q, a) && (f.kind == KIND_CHAT ==> Good(q, f.payload))
    ensures GoodAttack(q, HookState(a, f, coin))
  {
  }

  lemma {:induction false} ChainStaysGoodSoFar(q: Quality, attacks: seq<AttackState>, f: Frame, dice: Dice, n: nat)
    requires n <= |attacks| && GoodAttacks(q, attacks) && f.kind == KIND_CHAT && Good(q, f.payload)
    ensures Good(q, ChainFrame(attacks, f, dice, n).payload)
  {
    ChainOnFrames(attacks, f, dice, n);
    if q.Sealed? && n > 0 {
      ChainStaysGoodSoFar(q, attacks, f, dice, n - 1);
      assert GoodAttack(q, attacks[n - 1]);
    }
  }

  lemma ChainStaysGood(q: Quality, attacks: seq<AttackState>, f: Frame, dice: Dice)
    requires GoodAttacks(q, attacks) && (f.kind == KIND_CHAT ==> Good(q, f.payload))
    ensures GoodAttacks(q, ChainStates(attacks, f, dice))
  {
    hide ChainFrame, GoodAttack, HookState, Good;
    forall i | 0 <= i < |attacks|
      ensures GoodAttack(q, ChainStates(attacks, f, dice)[i])
    {
      ChainOnFrames(attacks, f, dice, i);
      if f.kind == KIND_CHAT { ChainStaysGoodSoFar(q, attacks, f, dice, i); }
      HookStaysGood(q, attacks[i], ChainFrame(attacks, f, dice, i), dice.coin(i));
    }
  }

  lemma ChatSendStaysGood(q: Quality, n: Net, payload: bytes, dice: Dice)
    requires AllGood(q, n) && Good(q, payload)
    ensures AllGood(q, SendThrough(n, Frame(KIND_CHAT, payload), dice))
  {
    hide SendThrough, GoodAttack, Good, ChainFrame, ChainStates;
    var arriving := ChatSendPosts(n, payload, dice);
    ChainStaysGoodSoFar(q, n.onA, Frame(KIND_CHAT, payload), dice, |n.onA|);
    ChainStaysGood(q, n.onA, Frame(KIND_CHAT, payload), dice);
    SendKeepsRest(n, Frame(KIND_CHAT, payload), dice);
    assert GoodApp(q, AppMsg(arriving));
  }

  lemma SendKeepsRest(n: Net, f: Frame, dice: Dice)
    ensures SendThrough(n, f, dice).onA == ChainStates(n.onA, f, dice)
    ensures SendThrough(n, f, dice).onB == n.onB
  {
  }

  lemma FirstActsStayGood(q: Quality, cfg: Config, n: Net, act: NetAction)
    requires ValidConfig(cfg) && SysFits(cfg, n.sys) && AllGood(q, n)
    requires GoodAct(q, act)
    ensures AllGood(q, FirstActs(cfg, n, act))
  {
    hide IsWeights, Outgoing, Consume, SendThrough, GoodAttack;
    match act
    case Go(_, dice) =>
      GoIgnoresWho(cfg, n, act);
      if n.sys.a.status.Sending? {
        SyncSendIsUntouched(cfg, n, dice);
        OutgoingIsSync(cfg, n.sys.a);
      }
    case GiveUp(_) =>
    case Break(_) =>
    case Chat(_, payload, dice) => ChatSendStaysGood(q, n, payload, dice);
    case Inject(_, attack, choice, now, dice) => InjectStaysGood(q, cfg, n, act);
    case Toggle(_, attack, active) => if attack < |n.onA| { ToggleStaysGood(q, n, attack, active); }
    case Register(_, newcomer) =>
      if IsFresh(newcomer) { FreshIsGood(q, newcomer); }
    case Unregister(_, attack) =>
  }

  lemma OutgoingIsSync(cfg: Config, s: Side)
    requires ValidConfig(cfg) && Fits(cfg, s.weights) && s.status.Sending?
    ensures !Outgoing(cfg, s).AppMsg?
  {
    hide IsWeights, Tau, Fingerprint;
  }

  lemma FreshIsGood(q: Quality, a: AttackState)
    requires IsFresh(a) && (a.Mitm? ==> q.LongEnough?)
    ensures GoodAttack(q, a)
  {
  }

  lemma ToggleStaysGood(q: Quality, n: Net, attack: nat, active: bool)
    requires AllGood(q, n) && attack < |n.onA|
    ensures AllGood(q, n.(onA := n.onA[attack := SetActive(n.onA[attack], active)]))
  {
    assert GoodAttack(q, n.onA[attack]);
  }

  lemma SwapCore(q: Quality, n: Net, attack: nat, core: Replay.Core)
    requires AllGood(q, n) && attack < |n.onA| && GoodAttack(q, Replayer(core))
    ensures AllGood(q, WithCore(n, attack, core)) && |WithCore(n, attack, core).onA| == |n.onA|
  {
    hide GoodAttack;
  }

  lemma InjectStaysGood(q: Quality, cfg: Config, n: Net, act: NetAction)
    requires ValidConfig(cfg) && SysFits(cfg, n.sys) && AllGood(q, n) && act.Inject?
    ensures AllGood(q, FirstActs(cfg, n, act))
  {
    hide IsWeights, SendThrough, AllGood, WithCore;
    if CanInject(n, act.attack) {
      var core := n.onA[act.attack].core;
      var p := InjectedIsGood(q, n, act.attack, act.choice);
      var marked := WithCore(n, act.attack, Replay.Mark(core, p));
      SwapCore(q, n, act.attack, Replay.Mark(core, p));
      ChatSendStaysGood(q, marked, p, act.dice);
      var sent := SendThrough(marked, Frame(KIND_CHAT, p), act.dice);
      SendKeepsSize(marked, p, act.dice);
      if sent.onA[act.attack].Replayer? {
        CoreIsGood(q, sent, act.attack);
        SwapCore(q, sent, act.attack, Replay.CountReplay(Replay.Unmark(sent.onA[act.attack].core, p), act.now));
      }
    }
  }

  lemma SendKeepsSize(n: Net, payload: bytes, dice: Dice)
    ensures |SendThrough(n, Frame(KIND_CHAT, payload), dice).onA| == |n.onA|
  {
  }

  lemma CoreIsGood(q: Quality, n: Net, attack: nat)
    requires AllGood(q, n) && attack < |n.onA|
    ensures GoodAttack(q, n.onA[attack])
  {
  }

  lemma InjectedIsGood(q: Quality, n: Net, attack: nat, choice: nat) returns (p: bytes)
    requires AllGood(q, n) && CanInject(n, attack)
    ensures var core := n.onA[attack].core;
            p == core.buffer[choice % |core.buffer|] && Good(q, p) && GoodAttack(q, Replayer(Replay.Mark(core, p)))
  {
    assert GoodAttack(q, n.onA[attack]);
    p := n.onA[attack].core.buffer[choice % |n.onA[attack].core.buffer|];
  }

  lemma NetStepStaysGood(q: Quality, cfg: Config, n: Net, act: NetAction)
    requires ValidConfig(cfg) && SysFits(cfg, n.sys) && AllGood(q, n)
    requires GoodAct(q, act)
    ensures AllGood(q, NetStep(cfg, n, act))
  {
    hide IsWeights, FirstActs, GoodAttack, GoodApp;
    if act.who == A {
      FirstActsStayGood(q, cfg, n, act);
    } else {
      FirstActsStayGood(q, cfg, Flip(n), act);
    }
  }

  lemma FreshAreGood(q: Quality, attacks: seq<AttackState>)
    requires AllFresh(attacks) && Bearable(q, attacks)
    ensures GoodAttacks(q, attacks)
  {
    forall i | 0 <= i < |attacks| { FreshIsGood(q, attacks[i]); }
  }

  lemma {:induction false} RunsStayGood(q: Quality, cfg: Config, seedA: bv64, seedB: bv64, p: Pair,
        onA: seq<AttackState>, onB: seq<AttackState>, acts: seq<NetAction>)
    requires ValidConfig(cfg) && PairFits(cfg, p) && AllFresh(onA) && AllFresh(onB)
    requires Bearable(q, onA) && Bearable(q, onB) && AllGoodActs(q, acts)
    ensures AllGood(q, NetRun(cfg, Net(Start(seedA, seedB, p), onA, onB), acts))
  {
    hide IsWeights, NetStep;
    if acts == [] {
      FreshAreGood(q, onA);
      FreshAreGood(q, onB);
    } else {
      hide AllGood;
      RunsStayGood(q, cfg, seedA, seedB, p, onA, onB, acts[..|acts| - 1]);
      NetStepStaysGood(q, cfg, NetRun(cfg, Net(Start(seedA, seedB, p), onA, onB), acts[..|acts| - 1]),
          acts[|acts| - 1]);
    }
  }

  function AsFrames(msgs: seq<Msg>): (fs: seq<Frame>)
    ensures |fs| == |msgs|
  {
    seq(|msgs|, i requires 0 <= i < |msgs| => ToFrame(msgs[i]))
  }

  /** End to end: whatever fresh tampering and replaying attacks sit at both
      ends, once a session has succeeded everything on its channel is a chat
      frame long enough to decode, so its reader outlives them all and
      answers each one with exactly one of received and decryption-failed,
      received exactly if those very bytes were sealed as chat. */
  lemma AttackedChatsAreAnswered(cfg: Config, seedA: bv64, seedB: bv64, p: Pair, onA: seq<AttackState>,
        onB: seq<AttackState>, acts: seq<NetAction>, who: Who, env: Env, sealed: Ledger, rx: Receiver)
    requires ValidConfig(cfg) && PairFits(cfg, p) && AllFresh(onA) && AllFresh(onB) && rx.alive
    requires AllGoodActs(LongEnough, acts)
    requires SideOf(NetRun(cfg, Net(Start(seedA, seedB, p), onA, onB), acts).sys, who).status == Finished(Success)
    ensures var inbound := Inbound(NetRun(cfg, Net(Start(seedA, seedB, p), onA, onB), acts).sys, who);
            var fs := AsFrames(inbound);
            var r := OnFrames(env, sealed, rx, fs);
            && r.alive
            && (forall i :: 0 <= i < |fs| ==> fs[i].kind == KIND_CHAT)
            && ChatAnswers(r.events) == ChatAnswers(rx.events) + Answers(sealed, fs)
            && ChatRecords(r.records) == ChatRecords(rx.records) + Observed(sealed, fs)
            && |Answers(sealed, fs)| == |Observed(sealed, fs)| == |inbound|
            && forall i :: 0 <= i < |inbound| ==>
                 inbound[i].AppMsg? && Answers(sealed, fs)[i] == Answer(sealed, inbound[i].payload)
  {
    hide IsWeights, NetRun, Exec, OnFrames, Answers, Observed, ChatAnswers, ChatRecords, Answer;
    var n := NetRun(cfg, Net(Start(seedA, seedB, p), onA, onB), acts);
    var plain := AttackedRunIsAPlainRun(cfg, seedA, seedB, p, onA, onB, acts);
    SyncTheorems.SuccessIsWitnessed(cfg, seedA, seedB, p, plain, who);
    RunsStayGood(LongEnough, cfg, seedA, seedB, p, onA, onB, acts);
    var inbound := Inbound(n.sys, who);
    var fs := AsFrames(inbound);
    AppFramesSurvive(inbound);
    EveryChatIsAnsweredOnce(env, sealed, rx, fs);
    OneAnswerEach(sealed, fs);
  }

  /** Without tampering every chat gets through: if the attacks at both ends
      only replay and every bundle handed to the transport was sealed as chat,
      every answer is a received chat, the injected ones included. */
  lemma ReplayedChatsAreReceived(cfg: Config, seedA: bv64, seedB: bv64, p: Pair, onA: seq<AttackState>,
        onB: seq<AttackState>, acts: seq<NetAction>, who: Who, sealed: Ledger)
    requires ValidConfig(cfg) && PairFits(cfg, p) && AllFresh(onA) && AllFresh(onB)
    requires Bearable(Sealed(sealed), onA) && Bearable(Sealed(sealed), onB) && AllGoodActs(Sealed(sealed), acts)
    requires SideOf(NetRun(cfg, Net(Start(seedA, seedB, p), onA, onB), acts).sys, who).status == Finished(Success)
    ensures var fs := AsFrames(Inbound(NetRun(cfg, Net(Start(seedA, seedB, p), onA, onB), acts).sys, who));
            && |Answers(sealed, fs)| == |fs|
            && forall i :: 0 <= i < |fs| ==>
                 && Answers(sealed, fs)[i].ChatReceived? && Answers(sealed, fs)[i].bundle == fs[i].payload
                 && (fs[i].payload, AadForKind(KIND_CHAT)) in sealed
                 && Answers(sealed, fs)[i].plaintext == sealed[(fs[i].payload, AadForKind(KIND_CHAT))]
  {
    hide IsWeights, NetRun, Exec, Answers;
    var n := NetRun(cfg, Net(Start(seedA, seedB, p), onA, onB), acts);
    var plain := AttackedRunIsAPlainRun(cfg, seedA, seedB, p, onA, onB, acts);
    SyncTheorems.SuccessIsWitnessed(cfg, seedA, seedB, p, plain, who);
    RunsStayGood(Sealed(sealed), cfg, seedA, seedB, p, onA, onB, acts);
    var inbound := Inbound(n.sys, who);
    var fs := AsFrames(inbound);
    forall i | 0 <= i < |fs|
      ensures fs[i].kind == KIND_CHAT && IsSealedChat(sealed, fs[i].payload)
    {
      assert inbound[i].AppMsg? && GoodApp(Sealed(sealed), inbound[i]);
    }
    OneAnswerEach(sealed, fs);
  }

  lemma AppFramesSurvive(msgs: seq<Msg>)
    requires SyncInvariant.AllApp(msgs) && GoodApps(LongEnough, msgs)
    ensures Survived(AsFrames(msgs)) == AsFrames(msgs)
    ensures forall i :: 0 <= i < |msgs| ==> msgs[i].AppMsg? && AsFrames(msgs)[i] == Frame(KIND_CHAT, msgs[i].payload)
  {
    forall i | 0 <= i < |msgs|
      ensures msgs[i].AppMsg? && !Fatal(AsFrames(msgs)[i])
    {
      assert GoodApp(LongEnough, msgs[i]);
    }
    AllSurvive(AsFrames(msgs));
  }
}
