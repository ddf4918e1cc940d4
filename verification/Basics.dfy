/** Value types shared by every module: bytes, optional results and errors. */
module Basics {

  datatype Option<+T> = None | Some(value: T)

  datatype Result<+T, +E> = Ok(value: T) | Err(error: E)

  /** One octet on the wire or in a hash input. */
  type byte = b: int | 0 <= b < 256

  type bytes = seq<byte>

  function Max(a: int, b: int): int { if a < b then b else a }

  function Min(a: int, b: int): int { if a < b then a else b }

  function Abs(a: int): nat { if a < 0 then -a else a }

  /** The end of s, n elements of it if there are as many. */
  function LastOf<T>(s: seq<T>, n: nat): seq<T> { if |s| <= n then s else s[|s| - n..] }

  lemma LastOfMeaning<T>(s: seq<T>, n: nat)
    ensures |LastOf(s, n)| == Min(|s|, n)
    ensures forall i :: 0 <= i < |LastOf(s, n)| ==> LastOf(s, n)[i] == s[|s| - |LastOf(s, n)| + i]
  {
  }

  /** At how many of the first k places two sequences differ. */
  function Differences<T(==)>(s: seq<T>, t: seq<T>, k: nat): nat
    requires k <= |s| && k <= |t|
  {
    if k == 0 then 0 else Differences(s, t, k - 1) + if s[k - 1] == t[k - 1] then 0 else 1
  }

  function DifferentPlaces<T(==)>(s: seq<T>, t: seq<T>, k: nat): set<nat>
    requires k <= |s| && k <= |t|
  {
    set i: nat | i < k && s[i] != t[i]
  }

  lemma {:induction false} DifferencesAreCounted<T>(s: seq<T>, t: seq<T>, k: nat)
    requires k <= |s| && k <= |t|
    ensures Differences(s, t, k) == |DifferentPlaces(s, t, k)|
  {
    if k > 0 {
      DifferencesAreCounted(s, t, k - 1);
      assert DifferentPlaces(s, t, k) == DifferentPlaces(s, t, k - 1) + if s[k - 1] != t[k - 1] then {k - 1} else {};
    }
  }

  lemma {:induction false} DifferencesOfPrefix<T>(s: seq<T>, t: seq<T>, n: nat, k: nat)
    requires k <= n <= |s| && n <= |t|
    ensures Differences(s[..n], t[..n], k) == Differences(s, t, k)
  {
    if k > 0 { DifferencesOfPrefix(s, t, n, k - 1); }
  }

  lemma Associate<T>(x: seq<T>, y: seq<T>, z: seq<T>)
    ensures (x + y) + z == x + (y + z)
  {
  }

  lemma LeMul(a: nat, b: nat, c: nat)
    requires a <= b
    ensures a * c <= b * c
  {
  }

  /** Quotient and remainder are unique. */
  lemma Divides(q: nat, r: nat, d: nat, n: nat)
    requires d > 0 && r < d && n == q * d + r
    ensures n / d == q && n % d == r
  {
    var q', r' := n / d, n % d;
    assert n == q' * d + r' && r' < d;
    if q' < q {
      LeMul(q' + 1, q, d);
    } else if q' > q {
      LeMul(q + 1, q', d);
    }
  }
}
