/**
 * IPv4 addresses, masks and prefixes as bit strings, most significant bit first.
 *
 * A prefix is the string of its own bits, so that "p covers q" is "q extends p".
 */
module Addr {

  type IpAddr = a: seq<bool> | |a| == 32 witness seq(32, _ => false)

  type Prefix = p: seq<bool> | |p| <= 32

  function And(a: IpAddr, b: IpAddr): IpAddr {
    seq(32, i requires 0 <= i < 32 => a[i] && b[i])
  }

  function Or(a: IpAddr, b: IpAddr): IpAddr {
    seq(32, i requires 0 <= i < 32 => a[i] || b[i])
  }

  function Xor(a: IpAddr, b: IpAddr): IpAddr {
    seq(32, i requires 0 <= i < 32 => a[i] != b[i])
  }

  // ipa_mkmask: n ones followed by zeros
  function MkMask(n: nat): IpAddr
    requires n <= 32
  {
    seq(32, i => i < n)
  }

  // The address of a prefix: its bits padded with zeros.
  function Pad(p: Prefix): IpAddr {
    p + seq(32 - |p|, _ => false)
  }

  // q is p itself or more specific
  predicate Extends(p: seq<bool>, q: seq<bool>) {
    |p| <= |q| && q[..|p|] == p
  }

  // ipa_pxlen: how many leading bits two addresses share
  function PxLenFrom(a: IpAddr, b: IpAddr, n: nat): (r: nat)
    requires n <= 32 && a[..n] == b[..n]
    ensures n <= r <= 32 && a[..r] == b[..r]
    ensures r < 32 ==> a[r] != b[r]
    decreases 32 - n
  {
    if n < 32 && a[n] == b[n] then
      assert a[..n + 1] == a[..n] + [a[n]] && b[..n + 1] == b[..n] + [b[n]];
      PxLenFrom(a, b, n + 1)
    else n
  }

  function PxLen(a: IpAddr, b: IpAddr): (r: nat)
    ensures r <= 32 && a[..r] == b[..r]
    ensures r < 32 ==> a[r] != b[r]
  {
    PxLenFrom(a, b, 0)
  }

  // Masked addresses are equal exactly when the leading bits are.
  lemma MaskedEqual(a: IpAddr, b: IpAddr, n: nat)
    requires n <= 32
    ensures And(a, MkMask(n)) == And(b, MkMask(n)) <==> a[..n] == b[..n]
  {
    if And(a, MkMask(n)) == And(b, MkMask(n)) {
      forall i | 0 <= i < n ensures a[..n][i] == b[..n][i] {
        assert And(a, MkMask(n))[i] == And(b, MkMask(n))[i];
      }
    }
    if a[..n] == b[..n] {
      forall i | 0 <= i < 32 ensures And(a, MkMask(n))[i] == And(b, MkMask(n))[i] {
        assert i < n ==> a[..n][i] == b[..n][i];
      }
    }
  }

  lemma MaskedIsPad(a: IpAddr, n: nat)
    requires n <= 32
    ensures And(a, MkMask(n)) == Pad(a[..n])
  {
  }

  lemma MasksMeet(m: nat, n: nat)
    requires m <= 32 && n <= 32
    ensures And(MkMask(m), MkMask(n)) == MkMask(if m < n then m else n)
  {
  }

  lemma ExtendsTrans(p: seq<bool>, q: seq<bool>, r: seq<bool>)
    requires Extends(p, q) && Extends(q, r)
    ensures Extends(p, r)
  {
    assert r[..|p|] == r[..|q|][..|p|];
  }

  // Two prefixes of the same address are comparable.
  lemma ExtendsLinear(p: seq<bool>, q: seq<bool>, r: seq<bool>)
    requires Extends(p, r) && Extends(q, r) && |p| <= |q|
    ensures Extends(p, q)
  {
    assert q[..|p|] == r[..|q|][..|p|] == r[..|p|];
  }

  lemma ExtendsSame(p: seq<bool>, q: seq<bool>)
    requires Extends(p, q) && |p| == |q|
    ensures p == q
  {
    assert q[..|p|] == q;
  }

  // q extends p and goes on with bit b
  predicate Turns(p: seq<bool>, b: bool, q: seq<bool>) {
    Extends(p, q) && |p| < |q| && q[|p|] == b
  }

  lemma TurnsExtend(p: seq<bool>, b: bool, q: seq<bool>, r: seq<bool>)
    requires Turns(p, b, q) && Extends(q, r)
    ensures Turns(p, b, r)
  {
    ExtendsTrans(p, q, r);
    assert r[|p|] == r[..|q|][|p|];
  }

  // Of two prefixes of r, the longer turns from the shorter towards r.
  lemma TurnsTowards(p: seq<bool>, q: seq<bool>, r: seq<bool>)
    ensures Extends(p, r) && Extends(q, r) && |p| < |q| ==> Turns(p, r[|p|], q)
  {
    if Extends(p, r) && Extends(q, r) && |p| < |q| {
      ExtendsLinear(p, q, r);
      assert r[..|q|][|p|] == r[|p|];
    }
  }

  lemma ExtendsBit(p: seq<bool>, q: seq<bool>, i: nat)
    ensures Extends(p, q) && i < |p| ==> q[i] == p[i]
  {
    assert Extends(p, q) && i < |p| ==> q[..|p|][i] == q[i];
  }
}
