/** Big-endian byte strings of non-negative integers. */
module Bytes {

  type Byte = b: int | 0 <= b < 256

  /** The number a big-endian byte string denotes. */
  function Nat(b: seq<Byte>): nat {
    if b == [] then 0 else 256 * Nat(b[..|b| - 1]) + b[|b| - 1]
  }

  /** The shortest big-endian form; zero is the empty string. */
  function Big(n: nat): (b: seq<Byte>)
    ensures n == 0 <==> b == []
    ensures b != [] ==> b[0] != 0
  {
    if n == 0 then [] else Big(n / 256) + [n % 256]
  }

  /** A string in three pieces. */
  lemma CutsInThree(s: seq<Byte>, h: nat, n: nat)
    requires h + n <= |s|
    ensures s == s[..h] + s[h..h + n] + s[h + n..]
  {
  }

  /** The pieces come back off their concatenation. */
  lemma PiecesComeBack(p: seq<Byte>, b: seq<Byte>, rest: seq<Byte>)
    ensures var s := p + b + rest;
      s[..|p|] == p && s[|p|..|p| + |b|] == b && s[|p| + |b|..] == rest && s == p + (b + rest)
  {
  }

  /** `math/big` renders the magnitude and drops the sign. */
  function Abs(n: int): nat { if n < 0 then -n else n }

  function Pow256(k: nat): (p: nat)
    ensures p > 0
  {
    if k == 0 then 1 else 256 * Pow256(k - 1)
  }

  /** The first byte weighs most. */
  lemma {:induction false} FirstByteWeighsMost(x: Byte, rest: seq<Byte>)
    ensures Nat([x] + rest) == x * Pow256(|rest|) + Nat(rest)
  {
    var b := [x] + rest;
    if rest == [] {
      assert b[..0] == [];
    } else {
      var init := rest[..|rest| - 1];
      assert b[..|b| - 1] == [x] + init;
      FirstByteWeighsMost(x, init);
    }
  }

  lemma {:induction false} NatOfBig(n: nat)
    ensures Nat(Big(n)) == n
  {
    if n > 0 {
      NatOfBig(n / 256);
      assert Big(n)[..|Big(n)| - 1] == Big(n / 256);
    }
  }

  lemma BigInjective(m: nat, n: nat)
    requires Big(m) == Big(n)
    ensures m == n
  {
    NatOfBig(m);
    NatOfBig(n);
  }

  lemma {:induction false} BigOfNat(b: seq<Byte>)
    requires b == [] || b[0] != 0
    ensures Big(Nat(b)) == b
    ensures b != [] ==> Nat(b) > 0
  {
    if b != [] {
      var init := b[..|b| - 1];
      BigOfNat(init);
      assert b == init + [b[|b| - 1]];
      assert Nat(b) / 256 == Nat(init) && Nat(b) % 256 == b[|b| - 1];
    }
  }

  lemma {:induction false} BigLength(n: nat, k: nat)
    ensures |Big(n)| <= k <==> n < Pow256(k)
  {
    if n > 0 && k > 0 {
      BigLength(n / 256, k - 1);
    }
  }

  lemma Pow256Of8()
    ensures Pow256(8) == 0x1_0000_0000_0000_0000
  {
    assert Pow256(4) == 0x1_0000_0000;
    assert Pow256(6) == 0x1_0000_0000_0000;
  }

  /** The k-byte big-endian form, high bytes lost when n does not fit. */
  function Fixed(n: nat, k: nat): (b: seq<Byte>)
    ensures |b| == k
  {
    if k == 0 then [] else Fixed(n / 256, k - 1) + [n % 256]
  }

  /** The bytes of a number of known width come back. */
  lemma {:induction false} FixedOfNat(b: seq<Byte>)
    ensures Fixed(Nat(b), |b|) == b
  {
    if b != [] {
      var init := b[..|b| - 1];
      FixedOfNat(init);
      assert Nat(b) / 256 == Nat(init) && Nat(b) % 256 == b[|b| - 1];
      assert b == init + [b[|b| - 1]];
    }
  }

  lemma {:induction false} FixedIsPadded(n: nat, k: nat)
    requires n < Pow256(k)
    ensures |Big(n)| <= k
    ensures forall i :: 0 <= i < k - |Big(n)| ==> Fixed(n, k)[i] == 0
    ensures Fixed(n, k)[k - |Big(n)|..] == Big(n)
  {
    BigLength(n, k);
    if k > 0 {
      FixedIsPadded(n / 256, k - 1);
    }
  }

  /** Stores the eight low bytes of n, the lowest last. */
  method PutUint64(b: array<Byte>, n: nat)
    requires b.Length == 8
    modifies b
    ensures b[..] == Fixed(n, 8)
  {
    var i, m: nat := 8, n;
    while i > 0
      invariant 0 <= i <= 8
      invariant Fixed(n, 8) == Fixed(m, i) + b[i..]
    {
      i := i - 1;
      b[i] := m % 256;
      assert b[i..] == [m % 256] + b[i + 1..];
      m := m / 256;
    }
  }

  /** A 64-bit number in eight bytes with the leading zero bytes dropped. */
  method BigUint(n: nat) returns (out: seq<Byte>)
    requires n < 0x1_0000_0000_0000_0000
    ensures out == Big(n)
  {
    if n == 0 {
      return [];
    }
    var b := new Byte[8];
    PutUint64(b, n);
    Pow256Of8();
    FixedIsPadded(n, 8);
    ghost var top := 8 - |Big(n)|;
    assert b[top] == b[..][top..][0];
    var j := 0;
    while j < 7 && b[j] == 0
      invariant 0 <= j <= top
    {
      j := j + 1;
    }
    assert j == top;
    return b[j..];
  }
}
