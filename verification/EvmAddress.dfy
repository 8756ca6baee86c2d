/** EVM address text: the EIP-55 mixed-case printer and the parser that reads
    recipient addresses back. */
module EvmAddress {
  import opened Bytes
  import opened Text

  /** A 32-byte digest; the hash itself is a parameter everywhere. */
  type Digest = d: seq<Byte> | |d| == 32 witness seq(32, _ => 0)

  // ----- hexadecimal characters -----

  predicate IsLowerHex(c: char) { IsDigit(c) || 'a' <= c <= 'f' }

  function HexChar(n: nat): (c: char)
    requires n < 16
    ensures IsLowerHex(c) && Nibble(c) == Some(n)
  {
    if n < 10 then DigitChar(n) else (('a' as int) + n - 10) as char
  }

  function Nibble(c: char): (r: Option<nat>)
    ensures r.Some? ==> r.value < 16
  {
    if '0' <= c <= '9' then Some(c as int - '0' as int)
    else if 'a' <= c <= 'f' then Some(c as int - 'a' as int + 10)
    else if 'A' <= c <= 'F' then Some(c as int - 'A' as int + 10)
    else None
  }

  function HexAt(b: seq<Byte>, i: nat): char
    requires i < 2 * |b|
  {
    HexChar(if i % 2 == 0 then b[i / 2] / 16 else b[i / 2] % 16)
  }

  /** Lowercase hex, two characters a byte. */
  function Hex(b: seq<Byte>): (s: string)
    ensures |s| == 2 * |b|
    ensures forall i :: 0 <= i < |s| ==> s[i] == HexAt(b, i)
  {
    seq(2 * |b|, i requires 0 <= i < 2 * |b| => HexAt(b, i))
  }

  function LowerChar(c: char): char {
    if 'A' <= c <= 'Z' then (c as int + 32) as char else c
  }

  function Lower(s: string): (r: string)
    ensures |r| == |s| && forall i :: 0 <= i < |s| ==> r[i] == LowerChar(s[i])
  {
    seq(|s|, i requires 0 <= i < |s| => LowerChar(s[i]))
  }

  // ----- EIP-55 printer -----

  function TrimPrefix(s: string): string {
    if |s| >= 2 && s[0] == '0' && s[1] == 'x' then s[2..] else s
  }

  /** The bare lowercase digits the checksum is computed over. */
  function Bare(s: string): string { Lower(TrimPrefix(s)) }

  predicate IsHexText(s: string) { forall i :: 0 <= i < |s| ==> IsLowerHex(s[i]) }

  /** What the printer accepts: hex digits, no more of them than the digest has. */
  predicate Printable(addr: string) { IsHexText(Bare(addr)) && |Bare(addr)| <= 64 }

  function CaseChar(c: char, h: char): char
    requires IsLowerHex(c)
  {
    if !IsDigit(c) && h >= '8' then (c as int - 32) as char else c
  }

  /** Letter i upper-cased when nibble i is at least 8. */
  function Cased(a: string, hh: string): (r: string)
    requires IsHexText(a) && |a| <= |hh|
    ensures |r| == |a| && forall i :: 0 <= i < |a| ==> r[i] == CaseChar(a[i], hh[i])
  {
    seq(|a|, i requires 0 <= i < |a| => CaseChar(a[i], hh[i]))
  }

  /** "0x" followed by the bare digits, letter i upper-cased when nibble i of
      the digest of the bare digits is at least 8. */
  function Checksum(addr: string, keccak: string -> Digest): (r: string)
    requires Printable(addr)
  {
    "0x" + Cased(Bare(addr), Hex(keccak(Bare(addr))))
  }

  method CaseDigits(a: string, hh: string) returns (out: string)
    requires IsHexText(a) && |a| <= |hh|
    ensures out == "0x" + Cased(a, hh)
  {
    out := "0x";
    for i := 0 to |a|
      invariant out == "0x" + Cased(a, hh)[..i]
    {
      var c := a[i];
      if IsDigit(c) {
        out := out + [c];
      } else if hh[i] >= '8' {
        out := out + [(c as int - 32) as char];
      } else {
        out := out + [c];
      }
    }
  }

  /** Half-byte i of a digest. */
  function HalfByte(d: Digest, i: nat): nat
    requires i < 64
  {
    if i % 2 == 0 then d[i / 2] / 16 else d[i / 2] % 16
  }

  /** Every digit stands where it stood, and a letter is a capital exactly when its
      half-byte of the digest is 8 or more. */
  lemma CapitalIffHigh(addr: string, keccak: string -> Digest)
    requires Printable(addr)
    ensures var a, out := Bare(addr), Checksum(addr, keccak);
      && |out| == |a| + 2 && out[..2] == "0x"
      && forall i :: 0 <= i < |a| ==>
           && ('A' <= out[2 + i] <= 'F' <==> 'a' <= a[i] <= 'f' && HalfByte(keccak(a), i) >= 8)
           && LowerChar(out[2 + i]) == a[i]
  {
    var a, d := Bare(addr), keccak(Bare(addr));
    forall i | 0 <= i < |a|
      ensures 'A' <= Cased(a, Hex(d))[i] <= 'F' <==> 'a' <= a[i] <= 'f' && HalfByte(d, i) >= 8
      ensures LowerChar(Cased(a, Hex(d))[i]) == a[i]
    {
      CasedAt(a, d, i);
    }
    assert Checksum(addr, keccak)[..2] == "0x";
  }

  lemma CasedAt(a: string, d: Digest, i: nat)
    requires IsHexText(a) && |a| <= 64 && i < |a|
    ensures 'A' <= Cased(a, Hex(d))[i] <= 'F' <==> 'a' <= a[i] <= 'f' && HalfByte(d, i) >= 8
    ensures LowerChar(Cased(a, Hex(d))[i]) == a[i]
  {
    assert IsLowerHex(a[i]);
    assert Hex(d)[i] == HexChar(HalfByte(d, i));
  }

  method Eip55Checksum(addr: string, keccak: string -> Digest) returns (out: string)
    requires Printable(addr)
    ensures out == Checksum(addr, keccak)
  {
    var a := Bare(addr);
    out := CaseDigits(a, Hex(keccak(a)));
  }

  // ----- parser -----

  /** Unicode white space, as trimmed from both ends of the text. */
  predicate IsSpace(c: char) {
    || '\t' <= c <= '\r' || c == ' '
    || c as int == 0x85 || c as int == 0xA0 || c as int == 0x1680
    || 0x2000 <= c as int <= 0x200a || c as int == 0x2028 || c as int == 0x2029
    || c as int == 0x202f || c as int == 0x205f || c as int == 0x3000
  }

  function TrimSpace(s: string): (r: string)
    ensures r == "" || (!IsSpace(r[0]) && !IsSpace(r[|r| - 1]))
    ensures s == "" || (!IsSpace(s[0]) && !IsSpace(s[|s| - 1])) ==> r == s
  {
    if s == "" then ""
    else if IsSpace(s[0]) then TrimSpace(s[1..])
    else if IsSpace(s[|s| - 1]) then TrimSpace(s[..|s| - 1])
    else s
  }

  predicate HasPrefix0x(s: string) { |s| >= 2 && s[0] == '0' && s[1] == 'x' }

  predicate AllNibbles(t: string) {
    forall i :: 0 <= i < |t| ==> Nibble(t[i]).Some?
  }

  function ByteAt(digits: string, i: nat): Byte
    requires AllNibbles(digits) && 2 * i + 1 < |digits|
  {
    16 * Nibble(digits[2 * i]).value + Nibble(digits[2 * i + 1]).value
  }

  function Unhex(digits: string): (b: seq<Byte>)
    requires AllNibbles(digits)
    ensures |b| == |digits| / 2
    ensures forall i :: 0 <= i < |b| ==> b[i] == ByteAt(digits, i)
  {
    seq(|digits| / 2, i requires 0 <= i < |digits| / 2 => ByteAt(digits, i))
  }

  function ParseAddress(s: string): (r: Option<seq<Byte>>) {
    var t := TrimSpace(s);
    if !HasPrefix0x(t) || |t| != 42 || !AllNibbles(t[2..]) then None
    else Some(Unhex(t[2..]))
  }

  method ParseEvmAddress(s: string) returns (r: Option<seq<Byte>>)
    ensures r == ParseAddress(s)
  {
    var t := TrimSpace(s);
    if !HasPrefix0x(t) || |t| != 42 {
      return None;
    }
    var out := new Byte[20];
    ghost var digits := t[2..];
    for i := 0 to 20
      invariant forall j :: 0 <= j < 2 * i ==> Nibble(digits[j]).Some?
      invariant forall j :: 0 <= j < i ==>
        out[j] == 16 * Nibble(digits[2 * j]).value + Nibble(digits[2 * j + 1]).value
    {
      var hi, lo := Nibble(t[2 + i * 2]), Nibble(t[3 + i * 2]);
      assert t[2 + i * 2] == digits[2 * i] && t[3 + i * 2] == digits[2 * i + 1];
      if hi.None? || lo.None? {
        return None;
      }
      out[i] := 16 * hi.value + lo.value;
    }
    assert out[..] == Unhex(digits);
    return Some(out[..]);
  }

  // ----- the two agree -----

  lemma LowerKeepsNibble(c: char)
    ensures Nibble(LowerChar(c)) == Nibble(c)
    ensures Nibble(c).Some? ==> IsLowerHex(LowerChar(c)) && HexChar(Nibble(c).value) == LowerChar(c)
  {
  }

  lemma HexOfUnhexAt(digits: string, i: nat)
    requires AllNibbles(digits) && 2 * i + 1 < |digits|
    ensures HexAt(Unhex(digits), 2 * i) == LowerChar(digits[2 * i])
    ensures HexAt(Unhex(digits), 2 * i + 1) == LowerChar(digits[2 * i + 1])
  {
    LowerKeepsNibble(digits[2 * i]);
    LowerKeepsNibble(digits[2 * i + 1]);
    var (b, k) := (Unhex(digits)[i], 2 * i);
    assert b == ByteAt(digits, i);
    assert b / 16 == Nibble(digits[k]).value && b % 16 == Nibble(digits[k + 1]).value;
    assert k / 2 == i && k % 2 == 0 && (k + 1) / 2 == i && (k + 1) % 2 == 1;
  }

  lemma HexOfUnhexEach(digits: string, j: nat)
    requires AllNibbles(digits) && |digits| % 2 == 0 && j < |digits|
    ensures HexAt(Unhex(digits), j) == LowerChar(digits[j])
  {
    HexOfUnhexAt(digits, j / 2);
    assert j == 2 * (j / 2) || j == 2 * (j / 2) + 1;
  }

  lemma HexOfUnhex(digits: string)
    requires AllNibbles(digits) && |digits| % 2 == 0
    ensures Hex(Unhex(digits)) == Lower(digits)
  {
    forall j | 0 <= j < |digits| ensures HexAt(Unhex(digits), j) == LowerChar(digits[j]) {
      HexOfUnhexEach(digits, j);
    }
  }

  lemma UnhexOfHex(b: seq<Byte>)
    ensures AllNibbles(Hex(b)) && Unhex(Hex(b)) == b
  {
    forall i | 0 <= i < |b| ensures ByteAt(Hex(b), i) == b[i] {
      assert HexAt(b, 2 * i) == HexChar(b[i] / 16);
      assert HexAt(b, 2 * i + 1) == HexChar(b[i] % 16);
    }
  }

  lemma LowerKeepsUnhex(digits: string)
    ensures AllNibbles(Lower(digits)) <==> AllNibbles(digits)
    ensures AllNibbles(digits) ==> Unhex(Lower(digits)) == Unhex(digits)
  {
    forall i | 0 <= i < |digits| ensures Nibble(Lower(digits)[i]) == Nibble(digits[i]) {
      LowerKeepsNibble(digits[i]);
    }
  }

  /** The parser accepts exactly "0x" and forty hex digits in any mixture of
      cases, inside optional white space, and returns the bytes they spell. */
  lemma ParseIff(s: string, b: seq<Byte>)
    ensures ParseAddress(s) == Some(b) <==>
            |b| == 20 && HasPrefix0x(TrimSpace(s)) && Lower(TrimSpace(s)[2..]) == Hex(b)
  {
    var t := TrimSpace(s);
    if HasPrefix0x(t) && |t| == 42 {
      var digits := t[2..];
      LowerKeepsUnhex(digits);
      if AllNibbles(digits) {
        HexOfUnhex(digits);
      }
      UnhexOfHex(b);
    }
  }

  lemma CasedFolds(a: string, hh: string)
    requires IsHexText(a) && |a| <= |hh|
    ensures Lower(Cased(a, hh)) == a
  {
    forall i | 0 <= i < |a| ensures LowerChar(Cased(a, hh)[i]) == a[i] {
      assert IsLowerHex(a[i]);
    }
  }

  lemma ChecksumFolds(addr: string, keccak: string -> Digest)
    requires Printable(addr)
    ensures HasPrefix0x(Checksum(addr, keccak))
    ensures Lower(Checksum(addr, keccak)[2..]) == Bare(addr)
  {
    var a, hh := Bare(addr), Hex(keccak(Bare(addr)));
    assert Checksum(addr, keccak)[2..] == Cased(a, hh);
    CasedFolds(a, hh);
  }

  /** Printing an address that is already printed changes nothing. */
  lemma ChecksumIdempotent(addr: string, keccak: string -> Digest)
    requires Printable(addr)
    ensures Printable(Checksum(addr, keccak))
    ensures Checksum(Checksum(addr, keccak), keccak) == Checksum(addr, keccak)
  {
    ChecksumFolds(addr, keccak);
    assert Bare(Checksum(addr, keccak)) == Bare(addr);
  }

  lemma CasedHasNoSpace(a: string, hh: string, i: nat)
    requires IsHexText(a) && |a| <= |hh| && i < |a|
    ensures !IsSpace(Cased(a, hh)[i])
  {
    assert IsLowerHex(a[i]);
  }

  lemma PrintedIsTrimmed(addr: string, keccak: string -> Digest)
    requires Printable(addr) && Bare(addr) != ""
    ensures TrimSpace(Checksum(addr, keccak)) == Checksum(addr, keccak)
  {
    var a, hh := Bare(addr), Hex(keccak(Bare(addr)));
    CasedHasNoSpace(a, hh, |a| - 1);
    PrefixedIsTrimmed(Cased(a, hh));
  }

  lemma PrefixedIsTrimmed(d: string)
    requires d != "" && !IsSpace(d[|d| - 1])
    ensures TrimSpace("0x" + d) == "0x" + d
  {
    var s := "0x" + d;
    assert s[0] == '0' && s[|s| - 1] == d[|d| - 1];
  }

  /** Parsing a printed address gives back its twenty bytes, whatever the hash. */
  lemma ParseOfChecksum(b: seq<Byte>, keccak: string -> Digest)
    requires |b| == 20
    ensures Printable(Hex(b))
    ensures ParseAddress(Checksum(Hex(b), keccak)) == Some(b)
  {
    HexIsBare(b);
    ChecksumFolds(Hex(b), keccak);
    PrintedIsTrimmed(Hex(b), keccak);
    ParseIff(Checksum(Hex(b), keccak), b);
  }

  lemma HexIsBare(b: seq<Byte>)
    ensures Bare(Hex(b)) == Hex(b) && IsHexText(Hex(b))
  {
    if |b| > 0 {
      assert IsLowerHex(Hex(b)[1]);
    }
    assert TrimPrefix(Hex(b)) == Hex(b);
  }
}
