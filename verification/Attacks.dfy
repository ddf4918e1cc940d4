/** attacks/base.py: the registry of attacks on one transport and the ordered
    chain of their hooks. */
module Attacks {
  import opened Basics
  import opened Framing

  /** What one hook makes of a frame: pass it on, changed or not; drop it; or
      raise, which the registry treats as no hook at all. */
  datatype HookResult = Pass(frame: Frame) | Drop | Raise

  type Hook = Frame -> HookResult

  /** The hooks in order, each seeing what the one before passed on. */
  function Chain(hooks: seq<Hook>, f: Frame): Option<Frame> {
    if hooks == [] then Some(f)
    else
      match hooks[0](f)
      case Pass(g) => Chain(hooks[1..], g)
      case Drop => None
      case Raise => Chain(hooks[1..], f)
  }

  function Then(r: Option<Frame>, hooks: seq<Hook>): Option<Frame> {
    if r.None? then None else Chain(hooks, r.value)
  }

  /** A chain may be cut anywhere: the second part sees what the first let
      through, and nothing if the first dropped the frame. */
  lemma {:induction false} ChainSplits(first: seq<Hook>, second: seq<Hook>, f: Frame)
    ensures Chain(first + second, f) == Then(Chain(first, f), second)
  {
    if first == [] {
      assert first + second == second;
    } else {
      assert (first + second)[1..] == first[1..] + second;
      match first[0](f)
      case Pass(g) => ChainSplits(first[1..], second, g);
      case Drop =>
      case Raise => ChainSplits(first[1..], second, f);
    }
  }

  /** Hooks that leave a frame alone or raise on it. */
  predicate Harmless(h: Hook, f: Frame) { h(f) == Pass(f) || h(f) == Raise }

  /** A hook that is harmless on the frame reaching it may be removed. */
  lemma HarmlessHookCanGo(first: seq<Hook>, h: Hook, second: seq<Hook>, f: Frame)
    requires Chain(first, f).Some? ==> Harmless(h, Chain(first, f).value)
    ensures Chain(first + [h] + second, f) == Chain(first + second, f)
  {
    ChainSplits(first, second, f);
    ChainSplits(first, [h] + second, f);
    assert first + [h] + second == first + ([h] + second);
    assert ([h] + second)[1..] == second;
  }

  lemma {:induction false} HarmlessChain(hooks: seq<Hook>, f: Frame)
    requires forall i :: 0 <= i < |hooks| ==> Harmless(hooks[i], f)
    ensures Chain(hooks, f) == Some(f)
  {
    if hooks != [] {
      assert Harmless(hooks[0], f);
      HarmlessChain(hooks[1..], f);
    }
  }

  lemma OneHook(h: Hook, f: Frame)
    ensures match h(f)
            case Pass(g) => Chain([h], f) == Some(g)
            case Drop => Chain([h], f) == None
            case Raise => Chain([h], f) == Some(f)
  {
    assert [h][0] == h && [h][1..] == [];
    assert forall g :: Chain([], g) == Some(g);
  }

  /** One more hook at the end: what reaches it is passed on as it says, gone
      if it drops it, and left alone if it raises; what was dropped before stays
      dropped. */
  lemma LastHook(hooks: seq<Hook>, h: Hook, f: Frame)
    ensures Chain(hooks, f).None? ==> Chain(hooks + [h], f) == None
    ensures Chain(hooks, f).Some? ==>
              match h(Chain(hooks, f).value)
              case Pass(g) => Chain(hooks + [h], f) == Some(g)
              case Drop => Chain(hooks + [h], f) == None
              case Raise => Chain(hooks + [h], f) == Chain(hooks, f)
  {
    ChainSplits(hooks, [h], f);
    if Chain(hooks, f).Some? { OneHook(h, Chain(hooks, f).value); }
  }

  /** A drop anywhere ends the chain, whatever hooks follow. */
  lemma DropIsFinal(first: seq<Hook>, h: Hook, second: seq<Hook>, f: Frame)
    requires Chain(first, f).Some? ==> h(Chain(first, f).value) == Drop
    ensures Chain(first + [h] + second, f) == None
  {
    ChainSplits(first + [h], second, f);
    LastHook(first, h, f);
  }

  // ------------------------------------------------------------------- class

  class Attack {
    const hook: Hook
    var active: bool
    var attached: bool

    constructor (hook: Hook)
      ensures this.hook == hook && !active && !attached
    {
      this.hook, active, attached := hook, false, false;
    }
  }

  class AttackRegistry {
    var attacks: seq<Attack>

    constructor ()
      ensures attacks == []
    {
      attacks := [];
    }

    /** No attack is registered twice. */
    predicate Valid()
      reads this
    {
      forall i, j :: 0 <= i < j < |attacks| ==> attacks[i] != attacks[j]
    }

    /** The attack joins at the end, unless it is registered already. */
    method Register(attack: Attack)
      requires Valid()
      modifies this, attack`attached
      ensures Valid()
      ensures attacks == if attack in old(attacks) then old(attacks) else old(attacks) + [attack]
      ensures attack.attached == (old(attack.attached) || attack !in old(attacks))
    {
      if attack in attacks {
        return;
      }
      attacks := attacks + [attack];
      attack.attached := true;
    }

    /** The attack leaves, the others keep their order; it is stopped and detached. */
    method Unregister(attack: Attack)
      requires Valid()
      modifies this, attack`active, attack`attached
      ensures Valid()
      ensures attack !in old(attacks) ==>
                && attacks == old(attacks)
                && attack.active == old(attack.active) && attack.attached == old(attack.attached)
      ensures attack in old(attacks) ==> !attack.active && !attack.attached
      ensures attack !in attacks && attacks == Without(old(attacks), attack)
      ensures attack in old(attacks) ==>
                exists i :: 0 <= i < |old(attacks)| && old(attacks)[i] == attack &&
                            attacks == old(attacks)[..i] + old(attacks)[i + 1..]
    {
      if attack !in attacks {
        NothingToRemove(attacks, attack);
        return;
      }
      var i := 0;
      while attacks[i] != attack
        invariant 0 <= i < |attacks| && attack !in attacks[..i]
        decreases |attacks| - i
      {
        i := i + 1;
      }
      RemoveAt(attacks, attack, i);
      attacks := attacks[..i] + attacks[i + 1..];
      attack.active := false;
      attack.attached := false;
    }

    /** The active attacks and no others, in the order of registration. */
    method ActiveAttacks() returns (r: seq<Attack>)
      ensures r == Active(attacks)
      ensures forall a :: a in r <==> a in attacks && a.active
      ensures forall i, j :: 0 <= i < j < |r| ==> Before(attacks, r[i], r[j])
    {
      ActiveMembers(attacks);
      forall i: nat, j: nat | i < j < |Active(attacks)| { ActiveKeepsOrder(attacks, i, j); }
      r := [];
      for i := 0 to |attacks|
        invariant r == Active(attacks[..i])
      {
        assert attacks[..i + 1][..i] == attacks[..i];
        if attacks[i].active {
          r := r + [attacks[i]];
        }
      }
      assert attacks[..|attacks|] == attacks;
    }

    /** Every active attack's hook in registration order; the first drop ends
        the chain; with no active attack the frame is untouched. */
    method ApplyOutbound(f: Frame) returns (r: Option<Frame>)
      ensures r == Chain(HooksOf(Active(attacks)), f)
    {
      var active := ActiveAttacks();
      if active == [] {
        return Some(f);
      }
      var hooks := HooksOf(active);
      var g := f;
      for i := 0 to |active|
        invariant Chain(hooks, f) == Chain(hooks[i..], g)
      {
        assert hooks[i..][0] == active[i].hook && hooks[i..][1..] == hooks[i + 1..];
        match active[i].hook(g) {
          case Raise =>
          case Drop => return None;
          case Pass(next) => g := next;
        }
      }
      return Some(g);
    }
  }

  function Active(attacks: seq<Attack>): seq<Attack>
    reads attacks
  {
    if attacks == [] then []
    else
      var last := attacks[|attacks| - 1];
      Active(attacks[..|attacks| - 1]) + if last.active then [last] else []
  }

  lemma {:induction false} ActiveMembers(attacks: seq<Attack>)
    ensures forall a :: a in Active(attacks) <==> a in attacks && a.active
  {
    if attacks != [] {
      ActiveMembers(attacks[..|attacks| - 1]);
      assert attacks == attacks[..|attacks| - 1] + [attacks[|attacks| - 1]];
    }
  }

  /** a stands somewhere before b. */
  predicate Before(s: seq<Attack>, a: Attack, b: Attack) {
    exists k, l :: 0 <= k < l < |s| && s[k] == a && s[l] == b
  }

  lemma {:induction false} ActivePlace(attacks: seq<Attack>, i: nat) returns (k: nat)
    requires i < |Active(attacks)|
    ensures k < |attacks| && attacks[k] == Active(attacks)[i]
  {
    var init := attacks[..|attacks| - 1];
    k := |init|;
    if i < |Active(init)| { k := ActivePlace(init, i); }
  }

  lemma {:induction false} ActiveKeepsOrder(attacks: seq<Attack>, i: nat, j: nat)
    requires i < j < |Active(attacks)|
    ensures Before(attacks, Active(attacks)[i], Active(attacks)[j])
  {
    var init, r := attacks[..|attacks| - 1], Active(attacks);
    assert r[i] == Active(init)[i];
    if j < |Active(init)| {
      ActiveKeepsOrder(init, i, j);
      var k, l :| 0 <= k < l < |init| && init[k] == r[i] && init[l] == r[j];
      assert attacks[k] == r[i] && attacks[l] == r[j];
    } else {
      var k := ActivePlace(init, i);
      assert attacks[k] == r[i] && attacks[|init|] == r[j];
    }
  }

  function HooksOf(attacks: seq<Attack>): (hs: seq<Hook>)
    ensures |hs| == |attacks| && forall i :: 0 <= i < |hs| ==> hs[i] == attacks[i].hook
  {
    seq(|attacks|, i requires 0 <= i < |attacks| => attacks[i].hook)
  }

  function Without(attacks: seq<Attack>, attack: Attack): seq<Attack> {
    if attacks == [] then []
    else if attacks[0] == attack then Without(attacks[1..], attack)
    else [attacks[0]] + Without(attacks[1..], attack)
  }

  lemma {:induction false} NothingToRemove(attacks: seq<Attack>, attack: Attack)
    requires attack !in attacks
    ensures Without(attacks, attack) == attacks
  {
    if attacks != [] { NothingToRemove(attacks[1..], attack); }
  }

  lemma {:induction false} RemoveAt(attacks: seq<Attack>, attack: Attack, i: nat)
    requires i < |attacks| && attacks[i] == attack
    requires forall j, k :: 0 <= j < k < |attacks| ==> attacks[j] != attacks[k]
    ensures Without(attacks, attack) == attacks[..i] + attacks[i + 1..]
    ensures attack !in attacks[..i] + attacks[i + 1..]
  {
    if i == 0 {
      assert attack !in attacks[1..];
      NothingToRemove(attacks[1..], attack);
    } else {
      RemoveAt(attacks[1..], attack, i - 1);
      assert attacks[..i] == [attacks[0]] + attacks[1..][..i - 1];
      assert attacks[i + 1..] == attacks[1..][i..];
    }
  }
}
