/** Recursive-length-prefix encoding of a list of byte strings, and a strict
    decoder for it (Ethereum Yellow Paper, Appendix B). */
module Rlp {
  import opened Bytes
  import opened Text

  const LIMIT: nat := 0x1_0000_0000_0000_0000
  const STR: Byte := 0x80
  const STR_LONG: Byte := 0xb7
  const LIST: Byte := 0xc0
  const LIST_LONG: Byte := 0xf7

  // ----- encoder -----

  predicate IsBase(offset: Byte, longOffset: Byte) {
    longOffset == offset + 55 && longOffset <= 0xf7
  }

  /** The length bytes of a long form fit in eight. */
  lemma LengthBytes(n: nat)
    requires n < LIMIT
    ensures |Big(n)| <= 8
  {
    Pow256Of8();
    BigLength(n, 8);
  }

  function LenPrefix(n: nat, offset: Byte, longOffset: Byte): (p: seq<Byte>)
    requires n < LIMIT && IsBase(offset, longOffset)
    ensures 1 <= |p| <= 9
  {
    LengthBytes(n);
    if n <= 55 then [n + offset] else [longOffset + |Big(n)|] + Big(n)
  }

  function EncodeItem(b: seq<Byte>): (e: seq<Byte>)
    requires |b| < LIMIT
    ensures e != []
  {
    if |b| == 1 && b[0] < 0x80 then b else LenPrefix(|b|, STR, STR_LONG) + b
  }

  predicate Items(elems: seq<seq<Byte>>) { forall i :: 0 <= i < |elems| ==> |elems[i]| < LIMIT }

  function Payload(elems: seq<seq<Byte>>): seq<Byte>
    requires Items(elems)
  {
    if elems == [] then [] else EncodeItem(elems[0]) + Payload(elems[1..])
  }

  /** Lists whose payload length fits the machine's length type. */
  predicate Fits(elems: seq<seq<Byte>>) { Items(elems) && |Payload(elems)| < LIMIT }

  function EncodeList(elems: seq<seq<Byte>>): seq<Byte>
    requires Fits(elems)
  {
    LenPrefix(|Payload(elems)|, LIST, LIST_LONG) + Payload(elems)
  }

  /** The forms of an item and of a list, byte by byte. */
  lemma Forms(b: seq<Byte>, elems: seq<seq<Byte>>)
    requires |b| < LIMIT && Fits(elems)
    ensures |b| == 1 && b[0] <= 127 ==> EncodeItem(b) == b
    ensures |b| <= 55 && !(|b| == 1 && b[0] <= 127) ==> EncodeItem(b) == [128 + |b|] + b
    ensures |b| > 55 ==> 1 <= |Big(|b|)| <= 8 && EncodeItem(b) == [183 + |Big(|b|)|] + Big(|b|) + b
    ensures var n := |Payload(elems)|;
      && (n <= 55 ==> EncodeList(elems) == [192 + n] + Payload(elems))
      && (n > 55 ==> 1 <= |Big(n)| <= 8 && EncodeList(elems) == [247 + |Big(n)|] + Big(n) + Payload(elems))
  {
    LengthBytes(|b|);
    LengthBytes(|Payload(elems)|);
  }

  // ----- the encoder as it runs -----

  /** Byte addition wraps at 256. */
  function AddByte(a: Byte, b: Byte): Byte { (a + b) % 256 }

  method RlpEncodeLenPrefix(n: nat, offset: Byte, longOffset: Byte) returns (out: seq<Byte>)
    requires n < LIMIT && IsBase(offset, longOffset)
    ensures out == LenPrefix(n, offset, longOffset)
  {
    if n <= 55 {
      return [AddByte(n, offset)];
    }
    LengthBytes(n);
    var lenBytes := BigUint(n);
    return [AddByte(longOffset, |lenBytes|)] + lenBytes;
  }

  method RlpEncodeItem(b: seq<Byte>) returns (out: seq<Byte>)
    requires |b| < LIMIT
    ensures out == EncodeItem(b)
  {
    if |b| == 1 && b[0] < 0x80 {
      return b;
    }
    var prefix := RlpEncodeLenPrefix(|b|, STR, STR_LONG);
    return prefix + b;
  }

  lemma {:induction false} PayloadAppend(elems: seq<seq<Byte>>, more: seq<seq<Byte>>)
    requires Items(elems) && Items(more)
    ensures Items(elems + more) && Payload(elems + more) == Payload(elems) + Payload(more)
  {
    if elems == [] {
      assert elems + more == more;
    } else {
      PayloadAppend(elems[1..], more);
      assert (elems + more)[0] == elems[0] && (elems + more)[1..] == elems[1..] + more;
      PiecesComeBack(EncodeItem(elems[0]), Payload(elems[1..]), Payload(more));
    }
  }

  lemma PayloadGrows(elems: seq<seq<Byte>>, i: nat)
    requires Items(elems) && i < |elems|
    ensures Payload(elems[..i + 1]) == Payload(elems[..i]) + EncodeItem(elems[i])
  {
    PayloadAppend(elems[..i], [elems[i]]);
    assert elems[..i + 1] == elems[..i] + [elems[i]];
    assert Payload([elems[i]]) == EncodeItem(elems[i]) + Payload([]);
  }

  method EvmEncodeList(elems: seq<seq<Byte>>) returns (out: seq<Byte>)
    requires Fits(elems)
    ensures out == EncodeList(elems)
  {
    var inner: seq<Byte> := [];
    for i := 0 to |elems|
      invariant inner == Payload(elems[..i])
    {
      var e := RlpEncodeItem(elems[i]);
      PayloadGrows(elems, i);
      inner := inner + e;
    }
    assert elems[..|elems|] == elems;
    var prefix := RlpEncodeLenPrefix(|inner|, LIST, LIST_LONG);
    return prefix + inner;
  }

  // ----- strict decoder -----

  /** Header size and payload length, refusing every non-minimal length. */
  function DecodeLength(s: seq<Byte>, offset: Byte, longOffset: Byte): (r: Option<(nat, nat)>)
    requires IsBase(offset, longOffset)
  {
    if s == [] || s[0] < offset || s[0] > longOffset + 8 then None
    else if s[0] <= longOffset then Some((1, s[0] - offset))
    else
      var k := s[0] - longOffset;
      if |s| < 1 + k || s[1] == 0 || Nat(s[1..1 + k]) <= 55 then None
      else Some((1 + k, Nat(s[1..1 + k])))
  }

  /** One string off the front, with what follows it. */
  function DecodeItem(s: seq<Byte>): (r: Option<(seq<Byte>, seq<Byte>)>)
    ensures r.Some? ==> |r.value.1| < |s|
  {
    if s != [] && s[0] < 0x80 then Some((s[..1], s[1..]))
    else match DecodeLength(s, STR, STR_LONG)
      case None => None
      case Some((h, n)) =>
        if |s| < h + n || (n == 1 && s[h] < 0x80) then None
        else Some((s[h..h + n], s[h + n..]))
  }

  function DecodeItems(s: seq<Byte>): Option<seq<seq<Byte>>>
    decreases |s|
  {
    if s == [] then Some([])
    else match DecodeItem(s)
      case None => None
      case Some((b, rest)) =>
        match DecodeItems(rest)
        case None => None
        case Some(bs) => Some([b] + bs)
  }

  /** One list of strings off the front, with what follows it. */
  function DecodeList(s: seq<Byte>): Option<(seq<seq<Byte>>, seq<Byte>)> {
    match DecodeLength(s, LIST, LIST_LONG)
    case None => None
    case Some((h, n)) =>
      if |s| < h + n then None
      else match DecodeItems(s[h..h + n])
        case None => None
        case Some(bs) => Some((bs, s[h + n..]))
  }

  // ----- decoding inverts encoding, and only encodings decode -----

  lemma LengthRoundTrip(n: nat, offset: Byte, longOffset: Byte, rest: seq<Byte>)
    requires n < LIMIT && IsBase(offset, longOffset)
    ensures var p := LenPrefix(n, offset, longOffset);
            DecodeLength(p + rest, offset, longOffset) == Some((|p|, n))
  {
    if n > 55 {
      LengthBytes(n);
      var s := LenPrefix(n, offset, longOffset) + rest;
      assert s[1..1 + |Big(n)|] == Big(n);
      NatOfBig(n);
    }
  }

  lemma LongLength(b: seq<Byte>)
    requires b != [] && b[0] != 0 && |b| <= 8
    ensures Nat(b) < LIMIT && Big(Nat(b)) == b
  {
    BigOfNat(b);
    BigLength(Nat(b), 8);
    Pow256Of8();
  }

  lemma LengthCanonical(s: seq<Byte>, offset: Byte, longOffset: Byte)
    requires IsBase(offset, longOffset)
    requires DecodeLength(s, offset, longOffset).Some?
    ensures var (h, n) := DecodeLength(s, offset, longOffset).value;
            n < LIMIT && h <= |s| && s[..h] == LenPrefix(n, offset, longOffset)
  {
    if s[0] > longOffset {
      var k := s[0] - longOffset;
      LongLength(s[1..1 + k]);
      assert s[..1 + k] == [s[0]] + s[1..1 + k];
    }
  }

  lemma ItemRoundTrip(b: seq<Byte>, rest: seq<Byte>)
    requires |b| < LIMIT
    ensures DecodeItem(EncodeItem(b) + rest) == Some((b, rest))
  {
    if |b| == 1 && b[0] < 0x80 {
      PiecesComeBack([], b, rest);
      assert [] + b + rest == b + rest;
    } else {
      LengthRoundTrip(|b|, STR, STR_LONG, b + rest);
      PiecesComeBack(LenPrefix(|b|, STR, STR_LONG), b, rest);
    }
  }

  lemma ItemCanonical(s: seq<Byte>)
    requires DecodeItem(s).Some?
    ensures var (b, rest) := DecodeItem(s).value;
            |b| < LIMIT && s == EncodeItem(b) + rest
  {
    if s[0] < 0x80 {
      CutsInThree(s, 0, 1);
    } else {
      LengthCanonical(s, STR, STR_LONG);
      var (h, n) := DecodeLength(s, STR, STR_LONG).value;
      CutsInThree(s, h, n);
      assert |s[h..h + n]| == n;
    }
  }

  lemma OneMoreItem(s: seq<Byte>, b: seq<Byte>, rest: seq<Byte>, bs: seq<seq<Byte>>)
    requires DecodeItem(s) == Some((b, rest)) && DecodeItems(rest) == Some(bs)
    ensures DecodeItems(s) == Some([b] + bs)
  {
  }

  lemma {:induction false} ItemsRoundTrip(elems: seq<seq<Byte>>)
    requires Items(elems)
    ensures DecodeItems(Payload(elems)) == Some(elems)
    decreases |elems|
  {
    if elems != [] {
      ItemRoundTrip(elems[0], Payload(elems[1..]));
      ItemsRoundTrip(elems[1..]);
      OneMoreItem(Payload(elems), elems[0], Payload(elems[1..]), elems[1..]);
      assert elems == [elems[0]] + elems[1..];
    }
  }

  lemma {:induction false} ItemsCanonical(s: seq<Byte>)
    requires DecodeItems(s).Some?
    ensures Items(DecodeItems(s).value) && Payload(DecodeItems(s).value) == s
    decreases |s|
  {
    if s != [] {
      ItemCanonical(s);
      var (b, rest) := DecodeItem(s).value;
      ItemsCanonical(rest);
      var bs := DecodeItems(s).value;
      assert bs[1..] == DecodeItems(rest).value;
    }
  }

  /** Every encoded list decodes to itself, whatever follows it. */
  lemma ListRoundTrip(elems: seq<seq<Byte>>, rest: seq<Byte>)
    requires Fits(elems)
    ensures DecodeList(EncodeList(elems) + rest) == Some((elems, rest))
  {
    var body := Payload(elems);
    LengthRoundTrip(|body|, LIST, LIST_LONG, body + rest);
    PiecesComeBack(LenPrefix(|body|, LIST, LIST_LONG), body, rest);
    ItemsRoundTrip(elems);
  }

  /** What decoding a list took apart. */
  lemma ListParts(s: seq<Byte>, elems: seq<seq<Byte>>, rest: seq<Byte>) returns (h: nat, n: nat)
    requires DecodeList(s) == Some((elems, rest))
    ensures DecodeLength(s, LIST, LIST_LONG) == Some((h, n)) && h + n <= |s| && n < LIMIT
    ensures DecodeItems(s[h..h + n]) == Some(elems) && rest == s[h + n..]
  {
    LengthCanonical(s, LIST, LIST_LONG);
    h, n := DecodeLength(s, LIST, LIST_LONG).value.0, DecodeLength(s, LIST, LIST_LONG).value.1;
  }

  lemma BodyCanonical(body: seq<Byte>, elems: seq<seq<Byte>>)
    requires DecodeItems(body) == Some(elems) && |body| < LIMIT
    ensures Fits(elems) && Payload(elems) == body
  {
    ItemsCanonical(body);
  }

  /** Nothing but an encoded list decodes: the encoding is canonical. */
  lemma ListCanonical(s: seq<Byte>, elems: seq<seq<Byte>>, rest: seq<Byte>)
    requires DecodeList(s) == Some((elems, rest))
    ensures Fits(elems) && s == EncodeList(elems) + rest
  {
    var h, n := ListParts(s, elems, rest);
    LengthCanonical(s, LIST, LIST_LONG);
    BodyCanonical(s[h..h + n], elems);
    CutsInThree(s, h, n);
  }

  /** No encoding is a proper prefix of another, so encodings are also injective. */
  lemma ListPrefixFree(xs: seq<seq<Byte>>, ys: seq<seq<Byte>>)
    requires Fits(xs) && Fits(ys)
    requires EncodeList(xs) <= EncodeList(ys)
    ensures xs == ys
  {
    var ex, ey := EncodeList(xs), EncodeList(ys);
    ListRoundTrip(xs, ey[|ex|..]);
    ListRoundTrip(ys, []);
    assert ey == ex + ey[|ex|..] == ey + [];
  }

  lemma EncodeInjective(xs: seq<seq<Byte>>, ys: seq<seq<Byte>>)
    requires Fits(xs) && Fits(ys)
    requires EncodeList(xs) == EncodeList(ys)
    ensures xs == ys
  {
    ListPrefixFree(xs, ys);
  }
}
