/** Where each session stands relative to the lockstep schedule, and what the
    channels hold in between: the invariant of every run, timeouts included. */
module SyncInvariant {
  import opened Basics
  import opened Tpm
  import opened SequentialSync
  import opened SyncSystem

  /** s is at the exchange whose sender state is l: about to send, waiting for
      the answer, given up waiting, or cut off in either. */
  predicate SideAt(s: Side, l: Side) {
    s == l || (l.status.Sending? && (s == Disconnected(l) || HasSent(s, l)))
  }

  predicate HasSent(s: Side, l: Side)
    requires l.status.Sending?
  {
    s == Waiting(l) || s == GiveUp(Waiting(l)) || s == Disconnected(Waiting(l))
  }

  /** How many sync messages s has sent, when it is at exchange k. */
  function SentCount(s: Side, l: Side, k: nat): nat { if l.status.Sending? && HasSent(s, l) then k + 1 else k }

  predicate AllApp(msgs: seq<Msg>) { forall i :: 0 <= i < |msgs| ==> msgs[i].AppMsg? }

  /** The first side of d is still in the protocol at every exchange below k. */
  predicate ActiveBelow(cfg: Config, d: Duo, k: nat)
    requires ValidConfig(cfg) && DuoFits(cfg, d)
  {
    forall i: nat :: i < k ==> Lock(cfg, d, i).a.status.Sending?
  }

  /** The sync messages the first side of d sends at exchanges lo to hi - 1. */
  function Stream(cfg: Config, d: Duo, lo: nat, hi: nat): (msgs: seq<Msg>)
    requires ValidConfig(cfg) && DuoFits(cfg, d) && lo <= hi && ActiveBelow(cfg, d, hi)
    ensures |msgs| == hi - lo
  {
    seq(hi - lo, i requires 0 <= i < hi - lo => Outgoing(cfg, Lock(cfg, d, lo + i).a))
  }

  /** The channel holds the sync messages numbered lo to hi - 1 and after them
      only application frames, which only a successful sender has posted. */
  predicate ChannelAt(cfg: Config, d: Duo, sender: Side, channel: seq<Msg>, lo: nat, hi: nat)
    requires ValidConfig(cfg) && DuoFits(cfg, d)
  {
    && lo <= hi && ActiveBelow(cfg, d, hi)
    && |channel| >= hi - lo
    && channel[..hi - lo] == Stream(cfg, d, lo, hi)
    && AllApp(channel[hi - lo..])
    && (|channel| > hi - lo ==> sender.status == Finished(Success))
  }

  function Flip(d: Duo): Duo { Duo(d.b, d.a) }

  /** The first side of s is at exchange ka, the second at exchange kb. */
  predicate InvAt(cfg: Config, d: Duo, s: Sys, ka: nat, kb: nat)
    requires ValidConfig(cfg) && DuoFits(cfg, d)
  {
    var la, lb := Lock(cfg, d, ka).a, Lock(cfg, d, kb).b;
    var sentA, sentB := SentCount(s.a, la, ka), SentCount(s.b, lb, kb);
    && SideAt(s.a, la) && SideAt(s.b, lb)
    && kb <= sentA && ka <= sentB
    && ChannelAt(cfg, d, s.a, s.ab, kb, sentA)
    && ChannelAt(cfg, Flip(d), s.b, s.ba, ka, sentB)
  }

  lemma {:induction false} LockFlips(cfg: Config, d: Duo, k: nat)
    requires ValidConfig(cfg) && DuoFits(cfg, d)
    ensures Lock(cfg, Flip(d), k) == Flip(Lock(cfg, d, k))
  {
    hide Consume, Outgoing, IsWeights;
    if k > 0 { LockFlips(cfg, d, k - 1); }
  }

  /** The two sides of the lockstep schedule have the same program counter. */
  ghost predicate InStep(cfg: Config, d: Duo)
    requires ValidConfig(cfg) && DuoFits(cfg, d)
  {
    forall k: nat ::
      && Lock(cfg, d, k).a.status == Lock(cfg, d, k).b.status
      && Lock(cfg, d, k).a.round == Lock(cfg, d, k).b.round
      && !Lock(cfg, d, k).a.status.Receiving?
      && !HasGivenUp(Lock(cfg, d, k).a)
      && Lock(cfg, d, k).a.status != Finished(Crashed)
  }

  lemma InvIsSymmetric(cfg: Config, d: Duo, s: Sys, ka: nat, kb: nat)
    requires ValidConfig(cfg) && DuoFits(cfg, d)
    ensures InvAt(cfg, d, s, ka, kb) <==> InvAt(cfg, Flip(d), Swap(s), kb, ka)
    ensures InStep(cfg, d) <==> InStep(cfg, Flip(d))
  {
    hide Lock, IsWeights, ChannelAt;
    forall k: nat { LockFlips(cfg, d, k); }
    assert Flip(Flip(d)) == d;
  }

  lemma LockNext(cfg: Config, d: Duo, k: nat)
    requires ValidConfig(cfg) && DuoFits(cfg, d)
    ensures Lock(cfg, d, k + 1) == Exchange(cfg, Lock(cfg, d, k))
  {
    hide Exchange, IsWeights;
  }

  lemma StreamSnoc(cfg: Config, d: Duo, lo: nat, hi: nat)
    requires ValidConfig(cfg) && DuoFits(cfg, d) && lo <= hi && ActiveBelow(cfg, d, hi + 1)
    ensures Stream(cfg, d, lo, hi + 1) == Stream(cfg, d, lo, hi) + [Outgoing(cfg, Lock(cfg, d, hi).a)]
  {
    hide Outgoing, Lock, IsWeights;
  }

  lemma StreamTail(cfg: Config, d: Duo, lo: nat, hi: nat)
    requires ValidConfig(cfg) && DuoFits(cfg, d) && lo < hi && ActiveBelow(cfg, d, hi)
    ensures Stream(cfg, d, lo, hi)[0] == Outgoing(cfg, Lock(cfg, d, lo).a)
    ensures Stream(cfg, d, lo, hi)[1..] == Stream(cfg, d, lo + 1, hi)
  {
    hide Outgoing, Lock, IsWeights;
  }

  /** A channel whose sender has not succeeded holds sync messages only, and
      its next one may be appended. */
  lemma ChannelSend(cfg: Config, d: Duo, sender: Side, sender': Side, channel: seq<Msg>, lo: nat, hi: nat)
    requires ValidConfig(cfg) && DuoFits(cfg, d) && ChannelAt(cfg, d, sender, channel, lo, hi)
    requires sender.status != Finished(Success) && Lock(cfg, d, hi).a.status.Sending?
    ensures ChannelAt(cfg, d, sender', channel + [Outgoing(cfg, Lock(cfg, d, hi).a)], lo, hi + 1)
  {
    hide Outgoing, Lock, IsWeights, Stream;
    assert ActiveBelow(cfg, d, hi + 1);
    StreamSnoc(cfg, d, lo, hi);
    var next := channel + [Outgoing(cfg, Lock(cfg, d, hi).a)];
    assert channel == channel[..hi - lo];
    assert next[..hi + 1 - lo] == next;
  }

  /** Posting after success, or the sender giving up before it. */
  lemma ChannelPost(cfg: Config, d: Duo, sender: Side, sender': Side, channel: seq<Msg>, payload: bytes, lo: nat,
        hi: nat)
    requires ValidConfig(cfg) && DuoFits(cfg, d) && ChannelAt(cfg, d, sender, channel, lo, hi)
    ensures sender.status == Finished(Success) ==> ChannelAt(cfg, d, sender, channel + [AppMsg(payload)], lo, hi)
    ensures sender.status != Finished(Success) ==> ChannelAt(cfg, d, sender', channel, lo, hi)
  {
    hide Lock, IsWeights, Stream;
    var next := channel + [AppMsg(payload)];
    assert next[..hi - lo] == channel[..hi - lo];
    assert next[hi - lo..] == channel[hi - lo..] + [AppMsg(payload)];
  }

  /** Taking the first sync message. */
  lemma ChannelTake(cfg: Config, d: Duo, sender: Side, channel: seq<Msg>, lo: nat, hi: nat)
    requires ValidConfig(cfg) && DuoFits(cfg, d) && ChannelAt(cfg, d, sender, channel, lo, hi) && lo < hi
    ensures channel[0] == Outgoing(cfg, Lock(cfg, d, lo).a)
    ensures ChannelAt(cfg, d, sender, channel[1..], lo + 1, hi)
  {
    hide Outgoing, Lock, IsWeights, Stream;
    StreamTail(cfg, d, lo, hi);
    assert channel[0] == channel[..hi - lo][0];
    assert channel[1..][..hi - (lo + 1)] == channel[..hi - lo][1..];
    assert channel[1..][hi - (lo + 1)..] == channel[hi - lo..];
  }

  /** A send appends the next sync message. */
  lemma SendKeepsInv(cfg: Config, d: Duo, s: Sys, ka: nat, kb: nat, act: Action)
    requires ValidConfig(cfg) && DuoFits(cfg, d) && SysFits(cfg, s) && InStep(cfg, d) && InvAt(cfg, d, s, ka, kb)
    requires act.Run? && s.a.status.Sending?
    ensures InvAt(cfg, d, FirstSideActs(cfg, s, act), ka, kb)
  {
    hide Outgoing, Lock, IsWeights, ChannelAt;
    ChannelSend(cfg, d, s.a, Waiting(s.a), s.ab, kb, ka);
  }

  /** What a waiting side finds first in its channel is the message its peer
      sent at the same exchange. */
  lemma HeadIsPeersMessage(cfg: Config, d: Duo, s: Sys, ka: nat, kb: nat)
    requires ValidConfig(cfg) && DuoFits(cfg, d) && SysFits(cfg, s) && InStep(cfg, d) && InvAt(cfg, d, s, ka, kb)
    requires s.a.status.Receiving? && s.ba != []
    ensures Lock(cfg, d, ka).a.status.Sending? && Lock(cfg, d, ka).b.status.Sending?
    ensures s.a == Waiting(Lock(cfg, d, ka).a)
    ensures ka < SentCount(s.b, Lock(cfg, d, kb).b, kb)
    ensures s.ba[0] == Outgoing(cfg, Lock(cfg, d, ka).b)
    ensures Consume(cfg, s.a, s.ba[0]) == Lock(cfg, d, ka + 1).a
  {
    hide Outgoing, Lock, IsWeights, ChannelAt, InStep, Consume;
    PeerHasSent(cfg, d, s, ka, kb);
    LockFlips(cfg, d, ka);
    LockNext(cfg, d, ka);
    ChannelTake(cfg, Flip(d), s.b, s.ba, ka, SentCount(s.b, Lock(cfg, d, kb).b, kb));
  }

  lemma PeerHasSent(cfg: Config, d: Duo, s: Sys, ka: nat, kb: nat)
    requires ValidConfig(cfg) && DuoFits(cfg, d) && InStep(cfg, d) && InvAt(cfg, d, s, ka, kb)
    requires s.a.status.Receiving? && s.ba != []
    ensures Lock(cfg, d, ka).a.status.Sending? && Lock(cfg, d, ka).b.status.Sending?
    ensures s.a == Waiting(Lock(cfg, d, ka).a)
    ensures ka < SentCount(s.b, Lock(cfg, d, kb).b, kb)
  {
    hide Lock, IsWeights, ChannelAt;
    if ka == SentCount(s.b, Lock(cfg, d, kb).b, kb) { OnlyAppLeft(cfg, Flip(d), s.b, s.ba, ka); }
  }

  lemma OnlyAppLeft(cfg: Config, d: Duo, sender: Side, channel: seq<Msg>, k: nat)
    requires ValidConfig(cfg) && DuoFits(cfg, d) && ChannelAt(cfg, d, sender, channel, k, k) && channel != []
    ensures sender.status == Finished(Success)
  {
    hide Lock, IsWeights, Stream;
    assert channel[0..] == channel;
  }

  lemma ReceiveKeepsInv(cfg: Config, d: Duo, s: Sys, ka: nat, kb: nat, act: Action)
    requires ValidConfig(cfg) && DuoFits(cfg, d) && SysFits(cfg, s) && InStep(cfg, d) && InvAt(cfg, d, s, ka, kb)
    requires act.Run? && s.a.status.Receiving? && s.ba != []
    ensures InvAt(cfg, d, FirstSideActs(cfg, s, act), ka + 1, kb)
  {
    hide Outgoing, Lock, IsWeights, ChannelAt, Consume;
    HeadIsPeersMessage(cfg, d, s, ka, kb);
    ChannelTake(cfg, Flip(d), s.b, s.ba, ka, SentCount(s.b, Lock(cfg, d, kb).b, kb));
    ChannelPost(cfg, d, s.a, FirstSideActs(cfg, s, act).a, s.ab, [], kb, ka + 1);
  }

  /** Giving up, waiting on, and posting application frames after success. */
  lemma OtherActsKeepInv(cfg: Config, d: Duo, s: Sys, ka: nat, kb: nat, act: Action)
    requires ValidConfig(cfg) && DuoFits(cfg, d) && SysFits(cfg, s) && InStep(cfg, d) && InvAt(cfg, d, s, ka, kb)
    requires act.Run? ==> s.a.status.Finished? || (s.a.status.Receiving? && s.ba == [])
    ensures InvAt(cfg, d, FirstSideActs(cfg, s, act), ka, kb)
  {
    hide Outgoing, Lock, IsWeights, ChannelAt, Consume;
    var t := FirstSideActs(cfg, s, act);
    ChannelPost(cfg, d, s.a, t.a, s.ab, if act.Post? then act.payload else [], kb,
        SentCount(s.a, Lock(cfg, d, ka).a, ka));
  }

  /** Every step keeps the invariant; the acting side may move on by one. */
  lemma StepKeepsInv(cfg: Config, d: Duo, s: Sys, ka: nat, kb: nat, act: Action) returns (ka': nat, kb': nat)
    requires ValidConfig(cfg) && DuoFits(cfg, d) && SysFits(cfg, s) && InStep(cfg, d) && InvAt(cfg, d, s, ka, kb)
    ensures InvAt(cfg, d, Step(cfg, s, act), ka', kb')
  {
    hide InvAt, InStep, IsWeights, Consume, Outgoing;
    if act.who == A {
      ka' := FirstSideKeepsInv(cfg, d, s, ka, kb, act);
      kb' := kb;
    } else {
      InvIsSymmetric(cfg, d, s, ka, kb);
      kb' := FirstSideKeepsInv(cfg, Flip(d), Swap(s), kb, ka, act);
      ka' := ka;
      InvIsSymmetric(cfg, d, Step(cfg, s, act), ka', kb');
      assert Swap(Step(cfg, s, act)) == FirstSideActs(cfg, Swap(s), act);
    }
  }

  lemma FirstSideKeepsInv(cfg: Config, d: Duo, s: Sys, ka: nat, kb: nat, act: Action) returns (ka': nat)
    requires ValidConfig(cfg) && DuoFits(cfg, d) && SysFits(cfg, s) && InStep(cfg, d) && InvAt(cfg, d, s, ka, kb)
    ensures InvAt(cfg, d, FirstSideActs(cfg, s, act), ka', kb)
  {
    hide InvAt, InStep, IsWeights, FirstSideActs;
    ka' := ka;
    if act.Run? && s.a.status.Sending? {
      SendKeepsInv(cfg, d, s, ka, kb, act);
    } else if act.Run? && s.a.status.Receiving? && s.ba != [] {
      ReceiveKeepsInv(cfg, d, s, ka, kb, act);
      ka' := ka + 1;
    } else {
      OtherActsKeepInv(cfg, d, s, ka, kb, act);
    }
  }

  function StartDuo(seedA: bv64, seedB: bv64, p: Pair): Duo { Duo(StartSide(seedA, p.a), StartSide(seedB, p.b)) }

  lemma StartInStep(cfg: Config, seedA: bv64, seedB: bv64, p: Pair)
    requires ValidConfig(cfg) && PairFits(cfg, p)
    ensures InStep(cfg, StartDuo(seedA, seedB, p))
    ensures forall k: nat ::
              DuoRefines(cfg, AgreedSeed(seedA, seedB), p, Lock(cfg, StartDuo(seedA, seedB, p), k))
  {
    hide Lock, After, NoneBefore, AgreeAt, IsWeights, AgreedSeed;
    var d, seed := StartDuo(seedA, seedB, p), AgreedSeed(seedA, seedB);
    AgreedSeedIsSymmetric(seedA, seedB);
    forall k: nat
      ensures DuoRefines(cfg, seed, p, Lock(cfg, d, k))
    {
      LockRefines(cfg, seed, p, d, k);
    }
  }

  /** Every reachable state satisfies the invariant at some pair of exchanges. */
  lemma {:induction false} Reachable(cfg: Config, seedA: bv64, seedB: bv64, p: Pair, acts: seq<Action>)
    returns (ka: nat, kb: nat)
    requires ValidConfig(cfg) && PairFits(cfg, p)
    ensures InvAt(cfg, StartDuo(seedA, seedB, p), Exec(cfg, Start(seedA, seedB, p), acts), ka, kb)
  {
    hide Step, IsWeights, InStep;
    var d, s := StartDuo(seedA, seedB, p), Start(seedA, seedB, p);
    StartInStep(cfg, seedA, seedB, p);
    if acts == [] {
      ka, kb := 0, 0;
      assert Lock(cfg, d, 0) == d && Lock(cfg, Flip(d), 0) == Flip(d);
      assert Stream(cfg, d, 0, 0) == [] && Stream(cfg, Flip(d), 0, 0) == [];
    } else {
      hide InvAt;
      var init := acts[..|acts| - 1];
      ka, kb := Reachable(cfg, seedA, seedB, p, init);
      ka, kb := StepKeepsInv(cfg, d, Exec(cfg, s, init), ka, kb, acts[|acts| - 1]);
    }
  }
}
