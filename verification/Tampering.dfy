/** attacks/mitm.py: flipping random bits of chat payloads in place. */
module Tampering {
  import opened Basics
  import opened Framing

  // -------------------------------------------------------------------- bits

  /** Bit k of n, the lowest being bit 0. */
  predicate Bit(n: nat, k: nat) {
    if k == 0 then n % 2 == 1 else Bit(n / 2, k - 1)
  }

  /** `n ^ (1 << k)`. */
  function FlipBit(n: nat, k: nat): nat {
    if k == 0 then (if n % 2 == 1 then n - 1 else n + 1) else FlipBit(n / 2, k - 1) * 2 + n % 2
  }

  function Pow2(k: nat): nat { if k == 0 then 1 else 2 * Pow2(k - 1) }

  lemma {:induction false} FlipStaysInWidth(n: nat, k: nat, width: nat)
    requires k < width && n < Pow2(width)
    ensures FlipBit(n, k) < Pow2(width)
  {
    var half := Pow2(width - 1);
    assert Pow2(width) == 2 * half;
    hide Pow2;
    if k > 0 {
      FlipStaysInWidth(n / 2, k - 1, width - 1);
      assert FlipBit(n / 2, k - 1) <= half - 1;
    }
  }

  /** Flipping bit k changes bit k and no other. */
  lemma {:induction false} FlippedBits(n: nat, k: nat, j: nat)
    ensures Bit(FlipBit(n, k), j) == (Bit(n, j) != (j == k))
  {
    if k > 0 && j > 0 { FlippedBits(n / 2, k - 1, j - 1); }
  }

  /** In numbers: flipping bit k adds or takes away 2^k. */
  lemma {:induction false} FlipMovesByPower(n: nat, k: nat)
    ensures FlipBit(n, k) == if Bit(n, k) then n - Pow2(k) else n + Pow2(k)
  {
    if k > 0 { FlipMovesByPower(n / 2, k - 1); }
  }

  lemma {:induction false} BitsDetermine(m: nat, n: nat, width: nat)
    requires m < Pow2(width) && n < Pow2(width)
    requires forall k: nat :: k < width ==> Bit(m, k) == Bit(n, k)
    ensures m == n
  {
    if width > 0 {
      assert Bit(m, 0) == Bit(n, 0);
      forall k: nat | k < width - 1
        ensures Bit(m / 2, k) == Bit(n / 2, k)
      {
        assert Bit(m, k + 1) == Bit(n, k + 1);
      }
      BitsDetermine(m / 2, n / 2, width - 1);
    }
  }

  lemma ByteWidth()
    ensures Pow2(8) == 256
  {
    assert Pow2(4) == 16;
  }

  function FlipByte(b: byte, k: nat): byte
    requires k < 8
  {
    ByteWidth();
    FlipStaysInWidth(b, k, 8);
    FlipBit(b, k)
  }

  /** The payload as one row of bits, lowest bit of each byte first. */
  function Bits(p: bytes): (s: seq<bool>)
    ensures |s| == 8 * |p|
  {
    seq(8 * |p|, i requires 0 <= i < 8 * |p| => Bit(p[i / 8], i % 8))
  }

  lemma BitsAreInjective(p: bytes, q: bytes)
    ensures Bits(p) == Bits(q) <==> p == q
  {
    if Bits(p) == Bits(q) {
      assert |p| == |q|;
      forall i | 0 <= i < |p|
        ensures p[i] == q[i]
      {
        forall k: nat | k < 8
          ensures Bit(p[i], k) == Bit(q[i], k)
        {
          assert Bits(p)[8 * i + k] == Bits(q)[8 * i + k];
          assert (8 * i + k) / 8 == i && (8 * i + k) % 8 == k;
        }
        ByteWidth();
        BitsDetermine(p[i], q[i], 8);
      }
    }
  }

  /** `mutated[i // 8] ^= 1 << (i % 8)`. */
  function FlipAt(p: bytes, i: nat): (q: bytes)
    requires i < 8 * |p|
    ensures |q| == |p|
  {
    p[i / 8 := FlipByte(p[i / 8], i % 8)]
  }

  lemma FlipAtTogglesOneBit(p: bytes, i: nat)
    requires i < 8 * |p|
    ensures Bits(FlipAt(p, i)) == Bits(p)[i := !Bits(p)[i]]
  {
    hide FlipByte, Bit;
    forall j | 0 <= j < 8 * |p|
      ensures Bits(FlipAt(p, i))[j] == (Bits(p)[j] != (i == j))
    {
      if j / 8 == i / 8 { FlipByteMeaning(p[i / 8], i % 8, j % 8); }
    }
  }

  lemma FlipByteMeaning(b: byte, k: nat, j: nat)
    requires k < 8
    ensures Bit(FlipByte(b, k), j) == (Bit(b, j) != (j == k))
  {
    FlippedBits(b, k, j);
  }

  // --------------------------------------------------------------- flip loop

  /** The generator's number as a position below n. */
  function Position(d: nat, n: nat): (i: nat)
    requires n > 0
    ensures i < n
    ensures d == 0 ==> i == 0
  {
    d % n
  }

  /** The payload after the first k flips; draw(i) is the generator's i-th
      number, reduced to a bit position. */
  function Flipped(p: bytes, draw: nat -> nat, k: nat): (q: bytes)
    requires p != []
    ensures |q| == |p|
  {
    if k == 0 then p else FlipAt(Flipped(p, draw, k - 1), Position(draw(k - 1), 8 * |p|))
  }

  lemma {:induction false} ToggleCounts(s: seq<bool>, t: seq<bool>, i: nat, k: nat)
    requires k <= |s| == |t| && i < |t|
    ensures Differences(s, t[i := !t[i]], k) ==
            Differences(s, t, k) + if i >= k then 0 else if s[i] == t[i] then 1 else -1
  {
    if k > 0 { ToggleCounts(s, t, i, k - 1); }
  }

  lemma {:induction false} DifferencesZero(s: seq<bool>, t: seq<bool>, k: nat)
    requires k <= |s| == |t|
    ensures Differences(s, t, k) == 0 <==> forall i :: 0 <= i < k ==> s[i] == t[i]
  {
    if k > 0 { DifferencesZero(s, t, k - 1); }
  }

  /** After k flips at most k bits differ from the original, and the number of
      differing bits has the parity of k. */
  lemma {:induction false} FlipsHaveParity(p: bytes, draw: nat -> nat, k: nat)
    requires p != []
    ensures Differences(Bits(p), Bits(Flipped(p, draw, k)), 8 * |p|) <= k
    ensures Differences(Bits(p), Bits(Flipped(p, draw, k)), 8 * |p|) % 2 == k % 2
  {
    hide Bits, FlipAt, Differences, Flipped;
    if k == 0 {
      assert Flipped(p, draw, 0) == p by { NoFlips(p, draw); }
      DifferencesZero(Bits(p), Bits(p), 8 * |p|);
    } else {
      FlipsHaveParity(p, draw, k - 1);
      var q := Flipped(p, draw, k - 1);
      var i := NextFlip(p, draw, k);
      FlipAtTogglesOneBit(q, i);
      ToggleCounts(Bits(p), Bits(q), i, 8 * |p|);
    }
  }

  /** How many of the first k numbers drawn name position j of n. */
  function Hits(draw: nat -> nat, n: nat, j: nat, k: nat): nat
    requires n > 0
  {
    if k == 0 then 0 else Hits(draw, n, j, k - 1) + if draw(k - 1) % n == j then 1 else 0
  }

  /** Exactly the positions named an odd number of times differ. */
  lemma {:induction false} OddHitsDiffer(p: bytes, draw: nat -> nat, k: nat, j: nat)
    requires p != [] && j < 8 * |p|
    ensures Bits(Flipped(p, draw, k))[j] != Bits(p)[j] <==> Hits(draw, 8 * |p|, j, k) % 2 == 1
  {
    hide Bits, FlipAt, Flipped;
    if k == 0 {
      NoFlips(p, draw);
    } else {
      OddHitsDiffer(p, draw, k - 1, j);
      var i := NextFlip(p, draw, k);
      FlipAtTogglesOneBit(Flipped(p, draw, k - 1), i);
    }
  }

  /** What k flips make of a payload: as many bits of q as of p, those named an
      odd number of times differing, at most k, and k of them by parity. */
  predicate IsTampered(p: bytes, q: bytes, draw: nat -> nat, k: nat)
    requires p != []
  {
    && |q| == |p|
    && (forall j :: 0 <= j < 8 * |p| ==> (Bits(q)[j] != Bits(p)[j] <==> Hits(draw, 8 * |p|, j, k) % 2 == 1))
    && Differences(Bits(p), Bits(q), 8 * |p|) <= k
    && Differences(Bits(p), Bits(q), 8 * |p|) % 2 == k % 2
  }

  lemma FlippedIsTampered(p: bytes, draw: nat -> nat, k: nat)
    requires p != []
    ensures IsTampered(p, Flipped(p, draw, k), draw, k)
    ensures k % 2 == 1 ==> Flipped(p, draw, k) != p
    ensures k == 1 ==>
              forall j :: 0 <= j < 8 * |p| ==>
                (Bits(Flipped(p, draw, k))[j] != Bits(p)[j] <==> j == draw(0) % (8 * |p|))
  {
    hide Bits, Flipped, Differences;
    var q := Flipped(p, draw, k);
    FlipsHaveParity(p, draw, k);
    DifferencesZero(Bits(p), Bits(p), 8 * |p|);
    forall j: nat | j < 8 * |p|
      ensures Bits(q)[j] != Bits(p)[j] <==> Hits(draw, 8 * |p|, j, k) % 2 == 1
    {
      OddHitsDiffer(p, draw, k, j);
    }
    if k == 1 {
      assert forall j: nat :: Hits(draw, 8 * |p|, j, 1) == if draw(0) % (8 * |p|) == j then 1 else 0;
    }
  }

  lemma NoFlips(p: bytes, draw: nat -> nat)
    requires p != []
    ensures Flipped(p, draw, 0) == p
  {
  }

  lemma NextFlip(p: bytes, draw: nat -> nat, k: nat) returns (i: nat)
    requires p != [] && k > 0
    ensures i < 8 * |p| && Flipped(p, draw, k) == FlipAt(Flipped(p, draw, k - 1), i)
    ensures i == draw(k - 1) % (8 * |p|) && (draw(k - 1) == 0 ==> i == 0)
  {
    hide FlipAt;
    i := Position(draw(k - 1), 8 * |p|);
  }

  /** With the generator always naming bit 0, flips cancel in pairs. */
  lemma {:induction false} SameBitCancels(p: bytes, draw: nat -> nat, k: nat)
    requires p != [] && forall i: nat :: draw(i) == 0
    ensures Flipped(p, draw, 2 * k) == p
  {
    hide Bits, FlipAt, Flipped;
    if k == 0 {
      NoFlips(p, draw);
    } else {
      SameBitCancels(p, draw, k - 1);
      var i := NextFlip(p, draw, 2 * k - 1);
      var j := NextFlip(p, draw, 2 * k);
      FlipAtTogglesOneBit(p, 0);
      FlipAtTogglesOneBit(FlipAt(p, 0), 0);
      assert Bits(FlipAt(FlipAt(p, 0), 0)) == Bits(p);
      BitsAreInjective(FlipAt(FlipAt(p, 0), 0), p);
    }
  }

  /** A frame counted as tampered is certain to differ from the original
      exactly when the number of flips is odd. */
  lemma TamperedDiffersIffOdd(p: bytes, flips: nat)
    requires p != []
    ensures (forall draw: nat -> nat :: Flipped(p, draw, flips) != p) <==> flips % 2 == 1
  {
    if flips % 2 == 1 {
      forall draw: nat -> nat
        ensures Flipped(p, draw, flips) != p
      {
        FlipsHaveParity(p, draw, flips);
        DifferencesZero(Bits(p), Bits(p), 8 * |p|);
      }
    } else {
      var zero: nat -> nat := i => 0;
      SameBitCancels(p, zero, flips / 2);
    }
  }

  // ------------------------------------------------------------------- class

  /** What the attack does to one frame, given the coin and the generator. */
  function Outbound(active: bool, probability: real, flips: nat, f: Frame, coin: real, draw: nat -> nat): (g: Frame)
    ensures g.kind == f.kind && |g.payload| == |f.payload|
  {
    if active && f.kind == KIND_CHAT && coin < probability && f.payload != []
    then f.(payload := Flipped(f.payload, draw, flips)) else f
  }

  class MitmAttack {
    const tamperProbability: real
    const flipBitsPerFrame: nat
    var active: bool
    var framesSeen: nat
    var framesTampered: nat

    constructor (tamperProbability: real, flipBitsPerFrame: nat)
      requires 0.0 <= tamperProbability <= 1.0 && flipBitsPerFrame >= 1
      ensures this.tamperProbability == tamperProbability && this.flipBitsPerFrame == flipBitsPerFrame
      ensures !active && framesSeen == 0 && framesTampered == 0
    {
      this.tamperProbability, this.flipBitsPerFrame := tamperProbability, flipBitsPerFrame;
      active, framesSeen, framesTampered := false, 0, 0;
    }

    /** Refused unless the probability is one and at least one bit is flipped. */
    static method Create(tamperProbability: real, flipBitsPerFrame: int) returns (r: Result<MitmAttack, string>)
      ensures r.Err? <==> tamperProbability < 0.0 || tamperProbability > 1.0 || flipBitsPerFrame < 1
      ensures r.Ok? ==>
                && fresh(r.value) && !r.value.active && r.value.framesSeen == 0 && r.value.framesTampered == 0
                && r.value.tamperProbability == tamperProbability && r.value.flipBitsPerFrame == flipBitsPerFrame
    {
      if tamperProbability < 0.0 || tamperProbability > 1.0 {
        return Err("tamper_probability must be in [0, 1]");
      }
      if flipBitsPerFrame < 1 {
        return Err("flip_bits_per_frame must be >= 1");
      }
      var attack := new MitmAttack(tamperProbability, flipBitsPerFrame);
      return Ok(attack);
    }

    /** Chat frames are counted while active; those the coin selects, unless
        empty, are flipped bit by bit in a copy and counted as tampered. */
    method OnOutboundFrame(f: Frame, coin: real, draw: nat -> nat) returns (g: Frame)
      modifies this`framesSeen, this`framesTampered
      ensures g == Outbound(active, tamperProbability, flipBitsPerFrame, f, coin, draw)
      ensures framesSeen == old(framesSeen) + if active && f.kind == KIND_CHAT then 1 else 0
      ensures framesTampered == old(framesTampered) +
              if active && f.kind == KIND_CHAT && coin < tamperProbability && f.payload != [] then 1 else 0
      ensures g.kind == f.kind && (framesTampered == old(framesTampered) ==> g == f)
      ensures framesTampered > old(framesTampered) ==>
                && f.payload != [] && IsTampered(f.payload, g.payload, draw, flipBitsPerFrame)
                && (flipBitsPerFrame % 2 == 1 ==> g != f)
                && (flipBitsPerFrame == 1 ==>
                      forall j :: 0 <= j < 8 * |f.payload| ==>
                        (Bits(g.payload)[j] != Bits(f.payload)[j] <==> j == draw(0) % (8 * |f.payload|)))
    {
      hide Flipped, FlipAt, FlipByte, Bits, IsTampered;
      if !active || f.kind != KIND_CHAT {
        return f;
      }
      framesSeen := framesSeen + 1;
      if coin >= tamperProbability || f.payload == [] {
        return f;
      }
      var mutated := new byte[|f.payload|](i requires 0 <= i < |f.payload| => f.payload[i]);
      assert mutated[..] == f.payload;
      FlipAll(mutated, draw);
      FlippedIsTampered(f.payload, draw, flipBitsPerFrame);
      framesTampered := framesTampered + 1;
      return Frame(f.kind, mutated[..]);
    }

    method FlipAll(mutated: array<byte>, draw: nat -> nat)
      requires mutated.Length > 0
      modifies mutated
      ensures mutated[..] == Flipped(old(mutated[..]), draw, flipBitsPerFrame)
    {
      hide FlipByte, Position;
      var n := mutated.Length * 8;
      for k := 0 to flipBitsPerFrame
        invariant mutated[..] == Flipped(old(mutated[..]), draw, k)
      {
        var i := Position(draw(k), n);
        ghost var before := mutated[..];
        mutated[i / 8] := FlipByte(mutated[i / 8], i % 8);
        assert mutated[..] == FlipAt(before, i);
      }
    }
  }
}
